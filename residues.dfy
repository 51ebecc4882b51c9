/** The renumbering counter of the rebuilder, on the sequence of original
    residue ids read from the atom lines in file order.  The loop keeps
    `old_res_num` (initially 0) and `n` (initially 0); on every atom whose id
    differs from `old_res_num` it increments `n` and remembers the id, and the
    atom gets `n` as its new id. */
module Residues {

  /** Initial value of `old_res_num`. */
  const NO_RESIDUE := 0

  /** `old_res_num` after the loop has seen `ids`, starting from `prev`. */
  function LastId(prev: int, ids: seq<int>): int
  {
    if ids == [] then prev else ids[|ids| - 1]
  }

  /** The counter `n` after the loop has seen `ids`, starting from
      `old_res_num == prev` and `n == 0`. */
  function Counter(prev: int, ids: seq<int>): nat
    decreases |ids|
  {
    if ids == [] then 0
    else
      var init := ids[..|ids| - 1];
      Counter(prev, init) + (if ids[|ids| - 1] != LastId(prev, init) then 1 else 0)
  }

  /** Final value of `n`: the new residue count written into the counts line. */
  function RunCount(ids: seq<int>): nat
  {
    Counter(NO_RESIDUE, ids)
  }

  /** New residue id of atom `k`: the counter once atom `k` has been seen. */
  function NewId(ids: seq<int>, k: nat): nat
    requires k < |ids|
  {
    RunCount(ids[..k + 1])
  }

  function NewIds(ids: seq<int>): seq<nat>
  {
    seq(|ids|, k requires 0 <= k < |ids| => NewId(ids, k))
  }

  /** The ids are already the runs 1, 2, ... in order (or start at the
      sentinel 0, which the loop also keeps). */
  predicate Sequential(ids: seq<int>)
  {
    && (ids != [] ==> ids[0] == 0 || ids[0] == 1)
    && forall k | 0 < k < |ids| :: ids[k] == ids[k - 1] || ids[k] == ids[k - 1] + 1
  }

  // ------------------------------------------------------- maximal runs

  /** Length of the maximal leading block of equal ids. */
  function LeadRun(ids: seq<int>): (r: nat)
    requires ids != []
    ensures 1 <= r <= |ids|
    ensures forall i | 0 <= i < r :: ids[i] == ids[0]
    ensures r < |ids| ==> ids[r] != ids[0]
  {
    if |ids| == 1 || ids[1] != ids[0] then 1 else 1 + LeadRun(ids[1..])
  }

  /** Number of maximal runs of equal ids, by peeling off leading blocks. */
  function Runs(ids: seq<int>): nat
    decreases |ids|
  {
    if ids == [] then 0 else 1 + Runs(ids[LeadRun(ids)..])
  }

  // ------------------------------------------------------- lemmas

  lemma {:induction false} CounterAppend(prev: int, a: seq<int>, b: seq<int>)
    ensures Counter(prev, a + b) == Counter(prev, a) + Counter(LastId(prev, a), b)
    ensures LastId(prev, a + b) == LastId(LastId(prev, a), b)
    decreases |b|
  {
    if b == [] {
      assert a + b == a;
    } else {
      var b' := b[..|b| - 1];
      assert (a + b)[..|a + b| - 1] == a + b';
      CounterAppend(prev, a, b');
    }
  }

  /** A block of one repeated id counts once, unless it repeats `prev`. */
  lemma {:induction false} CounterBlock(prev: int, block: seq<int>, v: int)
    requires block != []
    requires forall i | 0 <= i < |block| :: block[i] == v
    ensures Counter(prev, block) == if v != prev then 1 else 0
    ensures LastId(prev, block) == v
    decreases |block|
  {
    var init := block[..|block| - 1];
    if init != [] {
      CounterBlock(prev, init, v);
    }
  }

  lemma {:induction false} CounterIsRuns(prev: int, ids: seq<int>)
    ensures Counter(prev, ids) == Runs(ids) - (if ids != [] && ids[0] == prev then 1 else 0)
    decreases |ids|
  {
    if ids != [] {
      var l := LeadRun(ids);
      var block, rest := ids[..l], ids[l..];
      assert ids == block + rest;
      CounterAppend(prev, block, rest);
      CounterBlock(prev, block, ids[0]);
      CounterIsRuns(ids[0], rest);
    }
  }

  /** The final counter is the number of maximal runs of equal original ids,
      less one when the first id equals the sentinel 0. */
  lemma RunCountIsRuns(ids: seq<int>)
    ensures RunCount(ids) == Runs(ids) - (if ids != [] && ids[0] == NO_RESIDUE then 1 else 0)
  {
    CounterIsRuns(NO_RESIDUE, ids);
  }

  lemma NewIdFirst(ids: seq<int>)
    requires ids != []
    ensures NewId(ids, 0) == if ids[0] != NO_RESIDUE then 1 else 0
  {
    var s := ids[..1];
    assert s[..|s| - 1] == [];
    assert Counter(NO_RESIDUE, s) == Counter(NO_RESIDUE, []) + (if s[0] != LastId(NO_RESIDUE, []) then 1 else 0);
  }

  lemma NewIdStep(ids: seq<int>, k: nat)
    requires 0 < k < |ids|
    ensures NewId(ids, k) == NewId(ids, k - 1) + (if ids[k] != ids[k - 1] then 1 else 0)
  {
    assert ids[..k + 1][..k] == ids[..k];
  }

  lemma NewIdLast(ids: seq<int>)
    requires ids != []
    ensures NewId(ids, |ids| - 1) == RunCount(ids)
  {
    assert ids[..|ids|] == ids;
  }

  /** The first atom gets 1, or 0 when its id is the sentinel 0; each next
      atom keeps the id exactly when its original id repeats the previous
      one, and otherwise gets the next id; the last atom carries the count. */
  lemma NewIdSteps(ids: seq<int>)
    ensures ids != [] ==> NewId(ids, 0) == if ids[0] != NO_RESIDUE then 1 else 0
    ensures forall k | 0 < k < |ids| ::
      NewId(ids, k) == NewId(ids, k - 1) + (if ids[k] != ids[k - 1] then 1 else 0)
    ensures ids != [] ==> NewId(ids, |ids| - 1) == RunCount(ids)
  {
    if ids != [] {
      NewIdFirst(ids);
      NewIdLast(ids);
    }
    forall k | 0 < k < |ids|
      ensures NewId(ids, k) == NewId(ids, k - 1) + (if ids[k] != ids[k - 1] then 1 else 0)
    {
      NewIdStep(ids, k);
    }
  }

  /** One more atom: the counter steps exactly when its id differs from `old_res_num`. */
  lemma RunCountSnoc(ids: seq<int>, x: int)
    ensures RunCount(ids + [x]) == RunCount(ids) + (if x != LastId(NO_RESIDUE, ids) then 1 else 0)
    ensures LastId(NO_RESIDUE, ids + [x]) == x
  {
    assert (ids + [x])[..|ids|] == ids;
  }

  /** One more atom keeps the earlier new ids and adds the updated counter. */
  lemma NewIdsSnoc(ids: seq<int>, x: int)
    ensures NewIds(ids + [x]) == NewIds(ids) + [RunCount(ids + [x])]
  {
    var s := ids + [x];
    forall k | 0 <= k < |ids| ensures NewId(s, k) == NewId(ids, k) {
      assert s[..k + 1] == ids[..k + 1];
    }
    assert s[..|s|] == s;
  }

  /** New ids never decrease and grow by at most one per atom. */
  lemma {:induction false} NewIdsMonotone(ids: seq<int>, i: nat, j: nat)
    requires i <= j < |ids|
    ensures NewId(ids, i) <= NewId(ids, j) <= NewId(ids, i) + (j - i)
    decreases j - i
  {
    if i < j {
      NewIdsMonotone(ids, i, j - 1);
      NewIdStep(ids, j);
    }
  }

  /** Every new id lies between the first one and the final count. */
  lemma NewIdBounds(ids: seq<int>, k: nat)
    requires k < |ids|
    ensures NewId(ids, 0) <= NewId(ids, k) <= RunCount(ids)
  {
    NewIdsMonotone(ids, 0, k);
    NewIdsMonotone(ids, k, |ids| - 1);
    NewIdLast(ids);
  }

  /** Two atoms share a new id exactly when no residue boundary lies between them. */
  lemma {:induction false} SameNewIdIff(ids: seq<int>, i: nat, j: nat)
    requires i <= j < |ids|
    ensures NewId(ids, i) == NewId(ids, j) <==> forall m | i < m <= j :: ids[m] == ids[m - 1]
    decreases j - i
  {
    if i < j {
      SameNewIdIff(ids, i, j - 1);
      NewIdsMonotone(ids, i, j - 1);
      NewIdStep(ids, j);
    }
  }

  /** Every value between the first new id and the final count is taken by some atom. */
  lemma {:induction false} NewIdsCover(ids: seq<int>, v: nat)
    requires ids != []
    requires NewId(ids, 0) <= v <= RunCount(ids)
    ensures exists k | 0 <= k < |ids| :: NewId(ids, k) == v
    decreases |ids|
  {
    NewIdLast(ids);
    if v != RunCount(ids) {
      var init := ids[..|ids| - 1];
      assert |ids| > 1;
      forall k | 0 <= k < |init| ensures NewId(init, k) == NewId(ids, k) {
        assert init[..k + 1] == ids[..k + 1];
      }
      NewIdLast(init);
      NewIdsCover(init, v);
      var k :| 0 <= k < |init| && NewId(init, k) == v;
      assert NewId(ids, k) == v;
    }
  }

  function NewIdSet(ids: seq<int>): set<nat>
  {
    set k | 0 <= k < |ids| :: NewId(ids, k)
  }

  /** The new ids are exactly the interval from the first new id to the count. */
  lemma NewIdRange(ids: seq<int>)
    requires ids != []
    ensures forall v: nat :: v in NewIdSet(ids) <==> NewId(ids, 0) <= v <= RunCount(ids)
  {
    forall k | 0 <= k < |ids| ensures NewId(ids, 0) <= NewId(ids, k) <= RunCount(ids) {
      NewIdBounds(ids, k);
    }
    forall v: nat | NewId(ids, 0) <= v <= RunCount(ids) ensures v in NewIdSet(ids) {
      NewIdsCover(ids, v);
    }
  }

  /** The first atom that carries new id `v` starts a run: either it is the
      first atom, or its original id differs from the previous atom's, which
      carries `v - 1`. */
  lemma FirstOfIdStartsRun(ids: seq<int>, k: nat)
    requires k < |ids|
    requires forall j | 0 <= j < k :: NewId(ids, j) != NewId(ids, k)
    ensures k == 0 || (ids[k] != ids[k - 1] && NewId(ids, k - 1) == NewId(ids, k) - 1)
  {
    if k > 0 {
      NewIdStep(ids, k);
    }
  }

  /** Renumbering ids that are already sequential changes none of them. */
  lemma {:induction false} SequentialFixed(ids: seq<int>)
    requires Sequential(ids)
    ensures NewIds(ids) == ids
  {
    forall k | 0 <= k < |ids| ensures NewId(ids, k) == ids[k] {
      SequentialAt(ids, k);
    }
  }

  lemma {:induction false} SequentialAt(ids: seq<int>, k: nat)
    requires Sequential(ids) && k < |ids|
    ensures NewId(ids, k) == ids[k]
    decreases k
  {
    if k == 0 {
      NewIdFirst(ids);
    } else {
      NewIdStep(ids, k);
      SequentialAt(ids, k - 1);
    }
  }

  /** The new ids are themselves sequential. */
  lemma NewIdsSequential(ids: seq<int>)
    ensures Sequential(NewIds(ids))
  {
    NewIdSteps(ids);
  }

  /** A second renumbering pass leaves the new ids unchanged. */
  lemma RenumberIdempotent(ids: seq<int>)
    ensures NewIds(NewIds(ids)) == NewIds(ids)
  {
    NewIdsSequential(ids);
    SequentialFixed(NewIds(ids));
  }
}
