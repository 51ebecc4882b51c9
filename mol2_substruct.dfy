/** The Mol2 substructure rebuilder.  The file is held as its list of lines
    (each keeping its own line terminator).  Four stages run in order on that
    list: the header locator, the residue renumberer (after the last line is
    dropped), the counts-line rewrite, and the substructure synthesizer that
    appends one `@<TRIPOS>SUBSTRUCTURE` record per renumbered residue.  Where
    the script would stop with a Python exception, the model returns `Err`. */
module Mol2Substruct {
  import opened Text
  import opened Residues

  const MOLECULE_MARKER := "@<TRIPOS>MOLECULE"
  const ATOM_MARKER := "@<TRIPOS>ATOM"
  /** Initial value of `mol_hln` before any molecule marker is seen. */
  const UNSET_MOL_LINE := -9999

  /** Token positions in a whitespace-split atom line. */
  const ATOM_ID_FIELD := 0
  const RES_ID_FIELD := 6
  const RES_NAME_FIELD := 7

  /** A renumbered atom line is `'  '.join(tokens + ['\n'])`. */
  const ATOM_SEP := "  "
  const LINE_END := "\n"

  /** What follows the residue count on the rewritten counts line. */
  const COUNTS_TAIL := "     0     0 \n"

  /** Substructure record layout: widths of the right-justified fields and the fixed trailer. */
  const RES_ID_WIDTH := 7
  const ATOM_ID_WIDTH := 13
  const TRAILER := "****               0 ****  ****"
  const TRAILER_FIELDS := ["****", "0", "****", "****"]

  datatype Error =
    | MissingAtomMarker        // no line holds the atom marker (`atm_hln` undefined)
    | MissingCountLine         // the atom count was never read (`num_atms` undefined)
    | BadCountLine(line: nat)  // the count line is blank or its first token is not an integer
    | BadAtomLine(line: nat)   // an atom line is past the end, has fewer than 7 tokens, or a non-integer residue id
    | BadInfoLine              // the counts line is past the end or has fewer than 2 tokens
    | NoAtoms                  // the declared atom count is not positive: the atom array is empty
    | RaggedAtomRows           // atom lines with different token counts do not form an array
    | ResidueNotFound(id: nat) // no atom carries residue id `id` in 1..nres

  datatype Result<T> = Ok(value: T) | Err(error: Error)

  /** `mol_hln`, `num_atms` and `atm_hln`. */
  datatype Header = Header(molHln: nat, numAtms: int, atmHln: nat)

  // ================================================================ header locator

  /** Python's `lines.index(line)`: the first position holding an equal line. */
  function FirstIndexOf(lines: seq<string>, line: string): (r: nat)
    requires line in lines
    ensures r < |lines| && lines[r] == line
  {
    if lines[0] == line then 0 else 1 + FirstIndexOf(lines[1..], line)
  }

  /** No earlier line is equal to the one `lines.index` finds. */
  lemma {:induction false} FirstIndexOfIsFirst(lines: seq<string>, line: string)
    requires line in lines
    ensures forall j | 0 <= j < FirstIndexOf(lines, line) :: lines[j] != line
  {
    if lines[0] != line {
      FirstIndexOfIsFirst(lines[1..], line);
      forall j | 0 < j < FirstIndexOf(lines, line) ensures lines[j] != line {
        assert lines[j] == lines[1..][j - 1];
      }
    }
  }

  /** Line `i` is found no later than `i`, and exactly at `i` when no earlier
      line is equal to it. */
  lemma FirstIndexOfAt(lines: seq<string>, i: nat)
    requires i < |lines|
    ensures FirstIndexOf(lines, lines[i]) <= i
    ensures (forall j | 0 <= j < i :: lines[j] != lines[i]) ==> FirstIndexOf(lines, lines[i]) == i
  {
    FirstIndexOfIsFirst(lines, lines[i]);
  }

  /** `int(line.split()[0])`, or `None` where that raises. */
  function CountField(line: string): Option<int>
  {
    var toks := Split(line);
    if toks == [] then None else ParseInt(toks[0])
  }

  predicate MolState(molHln: int, numAtms: Option<int>)
  {
    && (molHln == UNSET_MOL_LINE || molHln >= 0)
    && (numAtms.Some? ==> molHln >= 0)
  }

  /** What one pass of the header loop decides: stop with a result, or go on
      with the new `mol_hln` and `num_atms`. */
  datatype ScanStep = Stop(result: Result<Header>) | Next(molHln: int, numAtms: Option<int>)

  /** One pass of the header loop on line `i`, whose `lines.index` is `at`. */
  function ScanLine(line: string, at: nat, i: nat, molHln: int, numAtms: Option<int>): (r: ScanStep)
    requires MolState(molHln, numAtms)
    ensures r.Next? ==> MolState(r.molHln, r.numAtms)
  {
    var mol := if Contains(line, MOLECULE_MARKER) then at else molHln;
    var isCount := at == mol + 2;
    if isCount && CountField(line).None? then Stop(Err(BadCountLine(i)))
    else
      var num := if isCount then CountField(line) else numAtms;
      if Contains(line, ATOM_MARKER) then
        Stop(if num.None? then Err(MissingCountLine) else Ok(Header(mol, num.value, at)))
      else
        Next(mol, num)
  }

  /** The header scan from line `i` on, with `mol_hln` and `num_atms` as the
      earlier iterations left them. */
  function ScanFrom(lines: seq<string>, i: nat, molHln: int, numAtms: Option<int>): Result<Header>
    requires i <= |lines|
    requires MolState(molHln, numAtms)
    decreases |lines| - i
  {
    if i == |lines| then Err(MissingAtomMarker)
    else
      match ScanLine(lines[i], FirstIndexOf(lines, lines[i]), i, molHln, numAtms)
      case Stop(r) => r
      case Next(mol, num) => ScanFrom(lines, i + 1, mol, num)
  }

  function ScanHeader(lines: seq<string>): Result<Header>
  {
    ScanFrom(lines, 0, UNSET_MOL_LINE, None)
  }

  /** The header scan loop, stopping at the first atom marker. */
  method LocateHeader(lines: seq<string>) returns (r: Result<Header>)
    ensures r == ScanHeader(lines)
    ensures r.Ok? ==>
      && r.value.atmHln < |lines| && Contains(lines[r.value.atmHln], ATOM_MARKER)
      && (forall j | 0 <= j < r.value.atmHln :: !Contains(lines[j], ATOM_MARKER))
      && r.value.molHln <= r.value.atmHln && Contains(lines[r.value.molHln], MOLECULE_MARKER)
  {
    var molHln := UNSET_MOL_LINE;
    var numAtms: Option<int> := None;
    var atmHln: Option<nat> := None;
    var i := 0;
    while i < |lines|
      invariant i <= |lines|
      invariant MolState(molHln, numAtms)
      invariant atmHln.None?
      invariant ScanFrom(lines, i, molHln, numAtms) == ScanHeader(lines)
    {
      var line := lines[i];
      if Contains(line, MOLECULE_MARKER) {
        molHln := FirstIndexOf(lines, line);
      }
      if FirstIndexOf(lines, line) == molHln + 2 {
        var count := CountField(line);
        if count.None? {
          return Err(BadCountLine(i));
        }
        numAtms := count;
      }
      if Contains(line, ATOM_MARKER) {
        atmHln := Some(FirstIndexOf(lines, line));
        break;
      }
      i := i + 1;
    }
    if atmHln.None? {
      r := Err(MissingAtomMarker);
    } else if numAtms.None? {
      r := Err(MissingCountLine);
    } else {
      r := Ok(Header(molHln, numAtms.value, atmHln.value));
    }
    ScanHeaderFindsMarkers(lines);
  }

  lemma {:induction false} ScanFromFacts(lines: seq<string>, i: nat, molHln: int, numAtms: Option<int>)
    requires i <= |lines| && MolState(molHln, numAtms)
    requires molHln >= 0 ==> molHln < i && Contains(lines[molHln], MOLECULE_MARKER)
    requires forall j | 0 <= j < i :: !Contains(lines[j], ATOM_MARKER)
    ensures var r := ScanFrom(lines, i, molHln, numAtms);
      && (r.Ok? ==>
            && i <= r.value.atmHln < |lines| && Contains(lines[r.value.atmHln], ATOM_MARKER)
            && (forall j | 0 <= j < r.value.atmHln :: !Contains(lines[j], ATOM_MARKER))
            && r.value.molHln <= r.value.atmHln && Contains(lines[r.value.molHln], MOLECULE_MARKER))
      && (r == Err(MissingAtomMarker) ==> forall j | 0 <= j < |lines| :: !Contains(lines[j], ATOM_MARKER))
    decreases |lines| - i
  {
    if i < |lines| {
      FirstIndexOfAt(lines, i);
      var step := ScanLine(lines[i], FirstIndexOf(lines, lines[i]), i, molHln, numAtms);
      if step.Next? {
        ScanFromFacts(lines, i + 1, step.molHln, step.numAtms);
      }
    }
  }

  /** The scan stops at the first line containing the atom marker, which
      becomes `atm_hln`; `mol_hln` is a molecule-marker line no later than it;
      without any atom marker the scan fails. */
  lemma ScanHeaderFindsMarkers(lines: seq<string>)
    ensures var r := ScanHeader(lines);
      && (r.Ok? ==>
            && r.value.atmHln < |lines| && Contains(lines[r.value.atmHln], ATOM_MARKER)
            && (forall j | 0 <= j < r.value.atmHln :: !Contains(lines[j], ATOM_MARKER))
            && r.value.molHln <= r.value.atmHln && Contains(lines[r.value.molHln], MOLECULE_MARKER))
      && ((forall j | 0 <= j < |lines| :: !Contains(lines[j], ATOM_MARKER)) ==> r.Err?)
  {
    ScanFromFacts(lines, 0, UNSET_MOL_LINE, None);
  }

  /** `lines.index` only looks at the lines up to the one it is asked about. */
  lemma FirstIndexOfPrefix(lines: seq<string>, other: seq<string>, i: nat)
    requires i < |lines| && i < |other| && lines[..i + 1] == other[..i + 1]
    ensures FirstIndexOf(lines, lines[i]) == FirstIndexOf(other, other[i])
  {
    var x := lines[i];
    assert other[i] == lines[..i + 1][i] == x;
    FirstIndexOfIsFirst(lines, x);
    FirstIndexOfIsFirst(other, x);
    var r, r' := FirstIndexOf(lines, x), FirstIndexOf(other, x);
    assert r <= i && r' <= i;
    assert lines[r] == lines[..i + 1][r] == other[r];
    assert other[r'] == other[..i + 1][r'] == lines[r'];
  }

  lemma {:induction false} ScanFromPrefix(lines: seq<string>, other: seq<string>, k: nat,
                                          i: nat, molHln: int, numAtms: Option<int>)
    requires k < |lines| && k < |other| && lines[..k + 1] == other[..k + 1]
    requires Contains(lines[k], ATOM_MARKER)
    requires i <= k && MolState(molHln, numAtms)
    ensures ScanFrom(lines, i, molHln, numAtms) == ScanFrom(other, i, molHln, numAtms)
    decreases k - i
  {
    assert lines[..i + 1] == lines[..k + 1][..i + 1] == other[..i + 1];
    assert lines[i] == lines[..k + 1][i] == other[i];
    FirstIndexOfPrefix(lines, other, i);
    var step := ScanLine(lines[i], FirstIndexOf(lines, lines[i]), i, molHln, numAtms);
    if i < k && step.Next? {
      ScanFromPrefix(lines, other, k, i + 1, step.molHln, step.numAtms);
    }
  }

  /** No line after an atom-marker line is ever examined: two files that agree
      up to and including such a line give the same header (or the same error). */
  lemma ScanHeaderIgnoresLaterLines(lines: seq<string>, other: seq<string>, k: nat)
    requires k < |lines| && k < |other| && lines[..k + 1] == other[..k + 1]
    requires Contains(lines[k], ATOM_MARKER)
    ensures ScanHeader(lines) == ScanHeader(other)
  {
    ScanFromPrefix(lines, other, k, 0, UNSET_MOL_LINE, None);
  }

  lemma {:induction false} ScanFromSkips(lines: seq<string>, i: nat, j: nat, molHln: int, numAtms: Option<int>)
    requires i <= j <= |lines| && MolState(molHln, numAtms)
    requires forall t | i <= t < j ::
      && !Contains(lines[t], MOLECULE_MARKER) && !Contains(lines[t], ATOM_MARKER)
      && (FirstIndexOf(lines, lines[t]) == molHln + 2 ==> numAtms.Some? && CountField(lines[t]) == numAtms)
    ensures ScanFrom(lines, i, molHln, numAtms) == ScanFrom(lines, j, molHln, numAtms)
    decreases j - i
  {
    if i < j {
      ScanFromPlainLine(lines, i, molHln, numAtms);
      ScanFromSkips(lines, i + 1, j, molHln, numAtms);
    }
  }

  /** A line without either marker that is not the count line (or repeats the
      count already read) leaves the scan state as it was. */
  lemma ScanFromPlainLine(lines: seq<string>, i: nat, molHln: int, numAtms: Option<int>)
    requires i < |lines| && MolState(molHln, numAtms)
    requires !Contains(lines[i], MOLECULE_MARKER) && !Contains(lines[i], ATOM_MARKER)
    requires FirstIndexOf(lines, lines[i]) == molHln + 2 ==> numAtms.Some? && CountField(lines[i]) == numAtms
    ensures ScanFrom(lines, i, molHln, numAtms) == ScanFrom(lines, i + 1, molHln, numAtms)
  {
  }

  /** With a single molecule marker at line `m` before the first atom marker
      at `a`, and a count line at `m + 2` whose text does not occur earlier,
      the header is `(m, int(first token of line m + 2), a)`. */
  lemma ScanHeaderSingleMolecule(lines: seq<string>, m: nat, a: nat, count: int)
    requires a < |lines| && Contains(lines[a], ATOM_MARKER)
    requires forall j | 0 <= j < a :: !Contains(lines[j], ATOM_MARKER)
    requires m + 2 <= a && Contains(lines[m], MOLECULE_MARKER)
    requires forall j | 0 <= j <= a && j != m :: !Contains(lines[j], MOLECULE_MARKER)
    requires forall j | 0 <= j < m + 2 :: lines[j] != lines[m + 2]
    requires CountField(lines[m + 2]) == Some(count)
    ensures ScanHeader(lines) == Ok(Header(m, count, a))
  {
    // Before the molecule marker no line can be the count line.
    ScanFromSkips(lines, 0, m, UNSET_MOL_LINE, None);
    ScanMoleculeLine(lines, m);
    // The line right after the marker cannot be the count line either.
    ScanFromSkips(lines, m + 1, m + 2, m, None);
    if m + 2 < a {
      ScanCountLine(lines, m, count);
      // Later copies of the count line re-read the same count.
      forall t | m + 3 <= t < a
        ensures FirstIndexOf(lines, lines[t]) == m + 2 ==> CountField(lines[t]) == Some(count)
      {
        if FirstIndexOf(lines, lines[t]) == m + 2 {
          assert lines[t] == lines[m + 2];
        }
      }
      ScanFromSkips(lines, m + 3, a, m, Some(count));
      ScanAtomLine(lines, m, Some(count), a);
    } else {
      ScanAtomLine(lines, m, None, a);
    }
  }

  lemma ScanMoleculeLine(lines: seq<string>, m: nat)
    requires m < |lines| && Contains(lines[m], MOLECULE_MARKER) && !Contains(lines[m], ATOM_MARKER)
    requires forall j | 0 <= j < m :: !Contains(lines[j], MOLECULE_MARKER)
    ensures ScanFrom(lines, m, UNSET_MOL_LINE, None) == ScanFrom(lines, m + 1, m, None)
  {
    FirstIndexOfAt(lines, m);
  }

  lemma ScanCountLine(lines: seq<string>, m: nat, count: int)
    requires m + 2 < |lines| && !Contains(lines[m + 2], MOLECULE_MARKER) && !Contains(lines[m + 2], ATOM_MARKER)
    requires forall j | 0 <= j < m + 2 :: lines[j] != lines[m + 2]
    requires CountField(lines[m + 2]) == Some(count)
    ensures ScanFrom(lines, m + 2, m, None) == ScanFrom(lines, m + 3, m, Some(count))
  {
    FirstIndexOfAt(lines, m + 2);
  }

  lemma ScanAtomLine(lines: seq<string>, m: nat, numAtms: Option<int>, a: nat)
    requires m + 2 <= a < |lines| && Contains(lines[a], ATOM_MARKER) && !Contains(lines[a], MOLECULE_MARKER)
    requires forall j | 0 <= j < a :: !Contains(lines[j], ATOM_MARKER)
    requires forall j | 0 <= j < m + 2 :: lines[j] != lines[m + 2]
    requires numAtms.Some? ==> CountField(lines[m + 2]) == numAtms
    requires numAtms.None? ==> a == m + 2
    requires CountField(lines[m + 2]).Some?
    ensures ScanFrom(lines, a, m, numAtms) == Ok(Header(m, CountField(lines[m + 2]).value, a))
  {
    FirstIndexOfAt(lines, a);
    if a != m + 2 {
      assert lines[a] != lines[m + 2];
    }
  }

  // ================================================================ residue renumberer

  /** Python's `lines[:-1]`. */
  function DropLast(lines: seq<string>): (r: seq<string>)
    ensures |r| == if lines == [] then 0 else |lines| - 1
    ensures forall j | 0 <= j < |r| :: r[j] == lines[j]
  {
    if lines == [] then [] else lines[..|lines| - 1]
  }

  /** An atom line has a residue-id token and it is an integer. */
  predicate AtomLineOk(line: string)
  {
    var toks := Split(line);
    |toks| > RES_ID_FIELD && ParseInt(toks[RES_ID_FIELD]).Some?
  }

  /** `int(line.split()[6])`. */
  function ResId(line: string): int
    requires AtomLineOk(line)
  {
    ParseInt(Split(line)[RES_ID_FIELD]).value
  }

  /** The first `count` atom lines after the atom marker exist and are well formed. */
  predicate AtomRangeOk(lines: seq<string>, atmHln: nat, count: int)
  {
    && (count <= 0 || atmHln + count < |lines|)
    && forall j {:trigger AtomLineOk(lines[j])} | atmHln < j <= atmHln + count :: AtomLineOk(lines[j])
  }

  /** The original residue ids of the first `count` atom lines, in order. */
  function OrigIds(lines: seq<string>, atmHln: nat, count: nat): (ids: seq<int>)
    requires AtomRangeOk(lines, atmHln, count)
    ensures |ids| == count
  {
    if count == 0 then []
    else
      OrigIds(lines, atmHln, count - 1) + [ResId(lines[atmHln + count])]
  }

  /** Entry `k` of the ids is the residue id read from atom line `k`. */
  lemma {:induction false} OrigIdsAt(lines: seq<string>, atmHln: nat, count: nat, k: nat)
    requires AtomRangeOk(lines, atmHln, count) && k < count
    ensures AtomLineOk(lines[atmHln + 1 + k]) && OrigIds(lines, atmHln, count)[k] == ResId(lines[atmHln + 1 + k])
  {
    if k < count - 1 {
      OrigIdsAt(lines, atmHln, count - 1, k);
    }
  }

  /** Reading fewer atom lines gives a prefix of the ids. */
  lemma {:induction false} OrigIdsPrefix(lines: seq<string>, atmHln: nat, count: nat, m: nat)
    requires AtomRangeOk(lines, atmHln, count) && m <= count
    ensures AtomRangeOk(lines, atmHln, m) && OrigIds(lines, atmHln, count)[..m] == OrigIds(lines, atmHln, m)
    decreases count
  {
    if m < count {
      OrigIdsPrefix(lines, atmHln, count - 1, m);
      assert OrigIds(lines, atmHln, count)[..m] == OrigIds(lines, atmHln, count - 1)[..m];
    }
  }

  function AtomCount(numAtms: int): nat
  {
    if numAtms < 0 then 0 else numAtms
  }

  /** A row of `split_atm_lines`: the tokens with the residue id replaced,
      then the `'\n'` that :103 appends to the same list. */
  function AtomRow(line: string, newId: nat): seq<string>
    requires |Split(line)| > RES_ID_FIELD
  {
    Split(line)[RES_ID_FIELD := NatToString(newId)] + [LINE_END]
  }

  /** A rewritten atom line gives back the original tokens with only the
      residue id replaced, and reads back as the new id. */
  lemma RenumberedLine(line: string, newId: nat)
    requires |Split(line)| > RES_ID_FIELD
    ensures Split(Join(ATOM_SEP, AtomRow(line, newId))) == Split(line)[RES_ID_FIELD := NatToString(newId)]
    ensures AtomLineOk(Join(ATOM_SEP, AtomRow(line, newId)))
    ensures ResId(Join(ATOM_SEP, AtomRow(line, newId))) == newId
  {
    var toks := Split(line)[RES_ID_FIELD := NatToString(newId)];
    SplitWords(line);
    NatToStringDigits(newId);
    assert forall i | 0 <= i < |toks| :: IsWord(toks[i]) by {
      forall i | 0 <= i < |toks| ensures IsWord(toks[i]) {
        if i != RES_ID_FIELD { assert toks[i] in Split(line); }
      }
    }
    SplitJoin(ATOM_SEP, toks, LINE_END);
    ParseNatToString(newId);
  }

  /** Row of atom `k` (counting from 0) once renumbered: its new id is the
      counter after the first `k + 1` atoms. */
  function NewRow(lines: seq<string>, atmHln: nat, k: nat): seq<string>
    requires AtomRangeOk(lines, atmHln, k + 1)
  {
    assert AtomLineOk(lines[atmHln + 1 + k]);
    AtomRow(lines[atmHln + 1 + k], RunCount(OrigIds(lines, atmHln, k + 1)))
  }

  /** `split_atm_lines` after the first `count` iterations. */
  function NewRows(lines: seq<string>, atmHln: nat, count: nat): (rows: seq<seq<string>>)
    requires AtomRangeOk(lines, atmHln, count)
    ensures |rows| == count
  {
    if count == 0 then [] else NewRows(lines, atmHln, count - 1) + [NewRow(lines, atmHln, count - 1)]
  }

  /** `lines` after the first `count` iterations. */
  function RenumberedLines(lines: seq<string>, atmHln: nat, count: nat): (out: seq<string>)
    requires AtomRangeOk(lines, atmHln, count)
    ensures |out| == |lines|
  {
    if count == 0 then lines
    else RenumberedLines(lines, atmHln, count - 1)[atmHln + count := Join(ATOM_SEP, NewRow(lines, atmHln, count - 1))]
  }

  datatype Renumbered = Renumbered(lines: seq<string>, n: nat, rows: seq<seq<string>>)

  /** The renumbering loop over lines `atm_hln + 1 .. atm_hln + num_atms`. */
  method RenumberResidues(lines: seq<string>, atmHln: nat, numAtms: int) returns (r: Result<Renumbered>)
    ensures r.Ok? ==> AtomRangeOk(lines, atmHln, numAtms)
    ensures r.Err? ==>
      && !AtomRangeOk(lines, atmHln, numAtms)
      && r.error.BadAtomLine?
      && atmHln < r.error.line <= atmHln + numAtms
      && AtomRangeOk(lines, atmHln, r.error.line - atmHln - 1)
      && !(r.error.line < |lines| && AtomLineOk(lines[r.error.line]))
    ensures r.Ok? ==>
      var count := AtomCount(numAtms);
      && r.value.n == RunCount(OrigIds(lines, atmHln, count))
      && r.value.rows == NewRows(lines, atmHln, count)
      && r.value.lines == RenumberedLines(lines, atmHln, count)
  {
    var count := AtomCount(numAtms);
    var oldResNum := NO_RESIDUE;
    var n := 0;
    var out := lines;
    var rows: seq<seq<string>> := [];
    ghost var seen: seq<int> := [];
    var k := 0;
    while k < count
      invariant 0 <= k <= count
      invariant RenumberState(lines, atmHln, k, seen, n, oldResNum, rows, out)
    {
      var lineN := atmHln + 1 + k;
      if lineN >= |out| {
        BadAtomLineStops(lines, atmHln, numAtms, k);
        return Err(BadAtomLine(lineN));
      }
      RenumberedLinesAhead(lines, atmHln, k, lineN);
      var step := ReadAtomLine(out[lineN], n, oldResNum);
      if step.None? {
        BadAtomLineStops(lines, atmHln, numAtms, k);
        return Err(BadAtomLine(lineN));
      }
      RenumberStep(lines, atmHln, k, seen, n, oldResNum, rows, out, step.value);
      n, oldResNum := step.value.n, step.value.oldResNum;
      rows := rows + [step.value.row];
      out := out[lineN := Join(ATOM_SEP, step.value.row)];
      seen := seen + [step.value.oldResNum];
      k := k + 1;
    }
    r := Ok(Renumbered(out, n, rows));
  }

  /** The loop's variables after its first `k` iterations. */
  predicate RenumberState(lines: seq<string>, atmHln: nat, k: nat, seen: seq<int>, n: nat, oldResNum: int,
                          rows: seq<seq<string>>, out: seq<string>)
  {
    && AtomRangeOk(lines, atmHln, k) && seen == OrigIds(lines, atmHln, k)
    && n == RunCount(seen) && oldResNum == LastId(NO_RESIDUE, seen)
    && rows == NewRows(lines, atmHln, k) && out == RenumberedLines(lines, atmHln, k)
  }

  /** A missing or malformed atom line after `k` good ones is the line the loop stops at. */
  lemma BadAtomLineStops(lines: seq<string>, atmHln: nat, numAtms: int, k: nat)
    requires k < AtomCount(numAtms) && AtomRangeOk(lines, atmHln, k)
    requires !(atmHln + 1 + k < |lines| && AtomLineOk(lines[atmHln + 1 + k]))
    ensures !AtomRangeOk(lines, atmHln, numAtms)
    ensures atmHln < atmHln + 1 + k <= atmHln + numAtms
  {
  }

  /** The loop reads each atom line before rewriting it. */
  lemma {:induction false} RenumberedLinesAhead(lines: seq<string>, atmHln: nat, k: nat, j: nat)
    requires AtomRangeOk(lines, atmHln, k) && atmHln + k < j < |lines|
    ensures RenumberedLines(lines, atmHln, k)[j] == lines[j]
  {
    if k > 0 {
      RenumberedLinesAhead(lines, atmHln, k - 1, j);
    }
  }

  /** The new `n` and `old_res_num`, and the row, after the loop body reads one atom line. */
  datatype AtomStep = AtomStep(row: seq<string>, n: nat, oldResNum: int)

  /** One pass of the loop body at :94-104 on an atom line, or `None` where
      the line has no residue-id token or it is not an integer. */
  method ReadAtomLine(line: string, n: nat, oldResNum: int) returns (r: Option<AtomStep>)
    ensures r.Some? <==> AtomLineOk(line)
    ensures r.Some? ==> StepOf(line, n, oldResNum, r.value)
  {
    var toks := Split(line);
    if |toks| <= RES_ID_FIELD {
      return None;
    }
    var resNum := ParseInt(toks[RES_ID_FIELD]);
    if resNum.None? {
      return None;
    }
    var newN := n;
    if resNum.value != oldResNum {
      newN := n + 1;
    }
    toks := toks[RES_ID_FIELD := NatToString(newN)];
    r := Some(AtomStep(toks + [LINE_END], newN, resNum.value));
  }

  /** What one pass of the loop body computes from a well-formed atom line:
      the id it read, the counter stepped when that id differs from
      `old_res_num`, and the row carrying the new counter. */
  predicate StepOf(line: string, n: nat, oldResNum: int, step: AtomStep)
  {
    && AtomLineOk(line)
    && step.oldResNum == ResId(line)
    && step.n == n + (if ResId(line) != oldResNum then 1 else 0)
    && step.row == AtomRow(line, step.n)
  }

  /** One more well-formed atom line extends the ids read so far, steps the
      counter as the loop does, and extends the rows and lines by its row:
      the loop's state after `k + 1` iterations. */
  lemma RenumberStep(lines: seq<string>, atmHln: nat, k: nat, seen: seq<int>, n: nat, oldResNum: int,
                     rows: seq<seq<string>>, out: seq<string>, step: AtomStep)
    requires RenumberState(lines, atmHln, k, seen, n, oldResNum, rows, out)
    requires atmHln + 1 + k < |lines| && StepOf(lines[atmHln + 1 + k], n, oldResNum, step)
    ensures RenumberState(lines, atmHln, k + 1, seen + [step.oldResNum], step.n, step.oldResNum,
                          rows + [step.row], out[atmHln + 1 + k := Join(ATOM_SEP, step.row)])
  {
    RunCountSnoc(seen, step.oldResNum);
  }

  /** Row `k` of the rows after `count` iterations is the row the `k`-th iteration built. */
  lemma {:induction false} NewRowsIndex(lines: seq<string>, atmHln: nat, count: nat, k: nat)
    requires AtomRangeOk(lines, atmHln, count) && k < count
    ensures AtomRangeOk(lines, atmHln, k + 1)
    ensures NewRows(lines, atmHln, count)[k] == NewRow(lines, atmHln, k)
  {
    if k < count - 1 {
      NewRowsIndex(lines, atmHln, count - 1, k);
    }
  }

  /** The row built for atom `k` carries the `k`-th renumbered id of the whole run. */
  lemma NewRowId(lines: seq<string>, atmHln: nat, count: nat, k: nat)
    requires AtomRangeOk(lines, atmHln, count) && k < count
    ensures AtomRangeOk(lines, atmHln, k + 1) && AtomLineOk(lines[atmHln + 1 + k])
    ensures NewRow(lines, atmHln, k) == AtomRow(lines[atmHln + 1 + k], NewId(OrigIds(lines, atmHln, count), k))
  {
    OrigIdsPrefix(lines, atmHln, count, k + 1);
    assert NewId(OrigIds(lines, atmHln, count), k) == RunCount(OrigIds(lines, atmHln, k + 1));
  }

  /** Row `k` of the finished rows is atom line `k` with its new id. */
  lemma NewRowsAt(lines: seq<string>, atmHln: nat, count: nat, k: nat)
    requires AtomRangeOk(lines, atmHln, count) && k < count
    ensures AtomLineOk(lines[atmHln + 1 + k])
    ensures NewRows(lines, atmHln, count)[k] == AtomRow(lines[atmHln + 1 + k], NewId(OrigIds(lines, atmHln, count), k))
  {
    NewRowsIndex(lines, atmHln, count, k);
    NewRowId(lines, atmHln, count, k);
  }

  /** Line `j` of the renumbered lines: the joined row where `j` is one of the
      first `count` atom lines, the original line everywhere else. */
  lemma {:induction false} RenumberedLinesAt(lines: seq<string>, atmHln: nat, count: nat, j: nat)
    requires AtomRangeOk(lines, atmHln, count) && j < |lines|
    ensures atmHln < j <= atmHln + count ==>
      && AtomRangeOk(lines, atmHln, j - atmHln)
      && RenumberedLines(lines, atmHln, count)[j] == Join(ATOM_SEP, NewRow(lines, atmHln, j - atmHln - 1))
    ensures !(atmHln < j <= atmHln + count) ==> RenumberedLines(lines, atmHln, count)[j] == lines[j]
  {
    if count > 0 {
      RenumberedLinesAt(lines, atmHln, count - 1, j);
    }
  }

  /** A renumbered atom line is the join of the original line's row under
      its new id. */
  lemma RenumberedAtomLine(lines: seq<string>, atmHln: nat, count: nat, j: nat)
    requires AtomRangeOk(lines, atmHln, count) && atmHln < j <= atmHln + count
    ensures AtomLineOk(lines[j])
    ensures RenumberedLines(lines, atmHln, count)[j]
      == Join(ATOM_SEP, AtomRow(lines[j], NewId(OrigIds(lines, atmHln, count), j - atmHln - 1)))
  {
    var k := j - atmHln - 1;
    assert atmHln + 1 + k == j;
    NewRowId(lines, atmHln, count, k);
    RenumberedLinesAt(lines, atmHln, count, j);
  }

  /** Renumbering leaves every line outside the atom lines as it was. */
  lemma RenumberedOutside(lines: seq<string>, atmHln: nat, count: nat)
    requires AtomRangeOk(lines, atmHln, count)
    ensures var out := RenumberedLines(lines, atmHln, count);
      forall j | 0 <= j < |lines| && !(atmHln < j <= atmHln + count) :: out[j] == lines[j]
  {
    forall j | 0 <= j < |lines| && !(atmHln < j <= atmHln + count)
      ensures RenumberedLines(lines, atmHln, count)[j] == lines[j]
    {
      RenumberedLinesAt(lines, atmHln, count, j);
    }
  }

  /** Every renumbered atom line splits into its original tokens with only
      the residue id replaced by its new id, and reads back as that id. */
  lemma RenumberedTokens(lines: seq<string>, atmHln: nat, count: nat)
    requires AtomRangeOk(lines, atmHln, count)
    ensures var out := RenumberedLines(lines, atmHln, count);
      var newIds := NewIds(OrigIds(lines, atmHln, count));
      forall j | atmHln < j <= atmHln + count ::
        && AtomLineOk(lines[j]) && AtomLineOk(out[j]) && ResId(out[j]) == newIds[j - atmHln - 1]
        && Split(out[j]) == Split(lines[j])[RES_ID_FIELD := NatToString(newIds[j - atmHln - 1])]
  {
    var newIds := NewIds(OrigIds(lines, atmHln, count));
    forall j | atmHln < j <= atmHln + count
      ensures AtomLineOk(lines[j])
      ensures Join(ATOM_SEP, AtomRow(lines[j], newIds[j - atmHln - 1])) == RenumberedLines(lines, atmHln, count)[j]
    {
      RenumberedAtomLine(lines, atmHln, count, j);
    }
    forall j | atmHln < j <= atmHln + count
      ensures |Split(lines[j])| > RES_ID_FIELD
    {
    }
    forall j | atmHln < j <= atmHln + count
      ensures var line := Join(ATOM_SEP, AtomRow(lines[j], newIds[j - atmHln - 1]));
        && AtomLineOk(line) && ResId(line) == newIds[j - atmHln - 1]
        && Split(line) == Split(lines[j])[RES_ID_FIELD := NatToString(newIds[j - atmHln - 1])]
    {
      RenumberedLine(lines[j], newIds[j - atmHln - 1]);
    }
  }

  /** Reading the residue ids back from the renumbered lines gives exactly
      the renumbered sequence. */
  lemma RenumberedReadBack(lines: seq<string>, atmHln: nat, count: nat)
    requires AtomRangeOk(lines, atmHln, count)
    ensures var out := RenumberedLines(lines, atmHln, count);
      && AtomRangeOk(out, atmHln, count)
      && OrigIds(out, atmHln, count) == NewIds(OrigIds(lines, atmHln, count))
  {
    var newIds := NewIds(OrigIds(lines, atmHln, count));
    var out := RenumberedLines(lines, atmHln, count);
    RenumberedTokens(lines, atmHln, count);
    assert AtomRangeOk(out, atmHln, count);
    var outIds := OrigIds(out, atmHln, count);
    forall k | 0 <= k < count ensures outIds[k] == newIds[k] {
      OrigIdsAt(out, atmHln, count, k);
      assert out[atmHln + 1 + k] == out[atmHln + (k + 1)];
    }
  }

  /** After renumbering, every atom line splits into its original tokens with
      only the residue id replaced, reading the ids back gives exactly the
      renumbered sequence, and no other line changes. */
  lemma RenumberedIds(lines: seq<string>, atmHln: nat, count: nat)
    requires AtomRangeOk(lines, atmHln, count)
    ensures var out := RenumberedLines(lines, atmHln, count);
      && (forall j | 0 <= j < |lines| && !(atmHln < j <= atmHln + count) :: out[j] == lines[j])
      && (forall j | atmHln < j <= atmHln + count ::
            AtomLineOk(lines[j]) &&
            Split(out[j]) == Split(lines[j])[RES_ID_FIELD := NatToString(NewIds(OrigIds(lines, atmHln, count))[j - atmHln - 1])])
      && AtomRangeOk(out, atmHln, count)
      && OrigIds(out, atmHln, count) == NewIds(OrigIds(lines, atmHln, count))
  {
    RenumberedOutside(lines, atmHln, count);
    RenumberedTokens(lines, atmHln, count);
    RenumberedReadBack(lines, atmHln, count);
  }

  /** A second renumbering pass over the output reads back the same residue
      ids as the first pass wrote. */
  lemma RenumberTwice(lines: seq<string>, atmHln: nat, count: nat)
    requires AtomRangeOk(lines, atmHln, count)
    ensures var out := RenumberedLines(lines, atmHln, count);
      && AtomRangeOk(out, atmHln, count)
      && var again := RenumberedLines(out, atmHln, count);
         && AtomRangeOk(again, atmHln, count)
         && OrigIds(again, atmHln, count) == OrigIds(out, atmHln, count)
  {
    RenumberedReadBack(lines, atmHln, count);
    RenumberedReadBack(RenumberedLines(lines, atmHln, count), atmHln, count);
    RenumberIdempotent(OrigIds(lines, atmHln, count));
  }

  // ================================================================ counts-line rewrite

  /** The rewritten counts line: its first two tokens, the new residue count,
      then `'     0     0 \n'`. */
  function CountsLine(info: string, n: nat): string
    requires |Split(info)| >= 2
  {
    var toks := Split(info);
    toks[0] + (" " + (toks[1] + (" " + (NatToString(n) + COUNTS_TAIL))))
  }

  /** The rewritten counts line keeps the first two tokens of the old one,
      carries the residue count as its third token and two zero counts after
      it, and ends with the fixed tail. */
  lemma CountsLineTokens(info: string, n: nat)
    requires |Split(info)| >= 2
    ensures Split(CountsLine(info, n)) == Split(info)[..2] + [NatToString(n), "0", "0"]
    ensures ParseInt(Split(CountsLine(info, n))[2]) == Some(n)
    ensures var r := CountsLine(info, n); |r| >= |COUNTS_TAIL| && r[|r| - |COUNTS_TAIL|..] == COUNTS_TAIL
  {
    var toks := Split(info);
    SplitWords(info);
    assert toks[0] in toks && toks[1] in toks;
    NatToStringDigits(n);
    SplitCountsLine(toks[0], toks[1], NatToString(n));
    ParseNatToString(n);
  }

  lemma SplitCountsLine(a: string, b: string, c: string)
    requires IsWord(a) && IsWord(b) && IsWord(c)
    ensures Split(a + (" " + (b + (" " + (c + COUNTS_TAIL))))) == [a, b, c, "0", "0"]
  {
    assert AllSpaces(" ") && IsSpace(COUNTS_TAIL[0]);
    SplitThreeWords(a, b, c, " ", COUNTS_TAIL);
    SplitCountsTail();
    ThreeThenTwo(a, b, c, "0", "0");
  }

  /** The fixed tail of the counts line holds two zero counts. */
  lemma SplitCountsTail()
    ensures Split(COUNTS_TAIL) == ["0", "0"]
  {
    var five := "     ";
    assert COUNTS_TAIL == five + ("0" + (five + ("0" + " \n")));
    assert AllSpaces(five) && AllSpaces(" \n") && IsWord("0");
    SplitLastWords("0", five, "0", " \n");
    SplitSkipsSpaces(five, "0" + (five + ("0" + " \n")));
  }

  lemma SplitThreeWords(a: string, b: string, c: string, sp: string, tail: string)
    requires IsWord(a) && IsWord(b) && IsWord(c) && |sp| > 0 && AllSpaces(sp)
    requires tail != [] && IsSpace(tail[0])
    ensures Split(a + (sp + (b + (sp + (c + tail))))) == [a, b, c] + Split(tail)
  {
    SplitTakesWord(c, tail);
    SplitWordSpaces(b, sp, c + tail);
    SplitWordSpaces(a, sp, b + (sp + (c + tail)));
    ConsThree(a, b, c, Split(tail));
  }

  // ================================================================ substructure synthesizer

  /** Python's `np.where(col6 == s)[0][0]`: the first row whose residue id is `s`. */
  function FirstWithResId(rows: seq<seq<string>>, s: string): (r: Option<nat>)
    requires forall k | 0 <= k < |rows| :: |rows[k]| > RES_ID_FIELD
    ensures r.Some? ==> r.value < |rows| && rows[r.value][RES_ID_FIELD] == s
  {
    if rows == [] then None
    else if rows[0][RES_ID_FIELD] == s then Some(0)
    else match FirstWithResId(rows[1..], s)
      case None => None
      case Some(k) => Some(k + 1)
  }

  /** No row before the one found carries `s`, and none at all when nothing is found. */
  lemma {:induction false} FirstWithResIdIsFirst(rows: seq<seq<string>>, s: string)
    requires forall k | 0 <= k < |rows| :: |rows[k]| > RES_ID_FIELD
    ensures var r := FirstWithResId(rows, s);
      && (r.Some? ==> forall k | 0 <= k < r.value :: rows[k][RES_ID_FIELD] != s)
      && (r.None? ==> forall k | 0 <= k < |rows| :: rows[k][RES_ID_FIELD] != s)
  {
    if rows != [] && rows[0][RES_ID_FIELD] != s {
      FirstWithResIdIsFirst(rows[1..], s);
      forall k | 1 <= k < |rows| ensures rows[k] == rows[1..][k - 1] {
      }
    }
  }

  /** `np.unique(col6).shape[0]`: how many distinct residue-id strings the rows carry. */
  function DistinctResIds(rows: seq<seq<string>>): nat
    requires forall k | 0 <= k < |rows| :: |rows[k]| > RES_ID_FIELD
  {
    |set k | 0 <= k < |rows| :: rows[k][RES_ID_FIELD]|
  }

  /** The loop at :120-121: for `i` in `1..nres`, the first row carrying `str(i)`. */
  method SelectRecordAtoms(rows: seq<seq<string>>) returns (r: Result<seq<nat>>)
    requires forall k | 0 <= k < |rows| :: |rows[k]| > RES_ID_FIELD
    ensures r.Ok? ==> forall v | 1 <= v <= DistinctResIds(rows) :: FirstWithResId(rows, NatToString(v)).Some?
    ensures r.Err? ==> !forall v | 1 <= v <= DistinctResIds(rows) :: FirstWithResId(rows, NatToString(v)).Some?
    ensures r.Ok? ==>
      && |r.value| == DistinctResIds(rows)
      && forall i | 0 <= i < |r.value| :: FirstWithResId(rows, NatToString(i + 1)) == Some(r.value[i])
    ensures r.Err? ==>
      && r.error.ResidueNotFound?
      && 1 <= r.error.id <= DistinctResIds(rows)
      && FirstWithResId(rows, NatToString(r.error.id)).None?
      && forall v | 1 <= v < r.error.id :: FirstWithResId(rows, NatToString(v)).Some?
  {
    var nres := DistinctResIds(rows);
    var picked: seq<nat> := [];
    var i := 1;
    while i <= nres
      invariant 1 <= i <= nres + 1
      invariant |picked| == i - 1
      invariant forall t | 0 <= t < i - 1 :: FirstWithResId(rows, NatToString(t + 1)) == Some(picked[t])
      invariant forall v | 1 <= v < i :: FirstWithResId(rows, NatToString(v)).Some?
    {
      var at := FirstWithResId(rows, NatToString(i));
      if at.None? {
        assert !(forall v | 1 <= v <= DistinctResIds(rows) :: FirstWithResId(rows, NatToString(v)).Some?);
        return Err(ResidueNotFound(i));
      }
      picked := picked + [at.value];
      i := i + 1;
    }
    r := Ok(picked);
  }

  /** One substructure line: `' '.join([id >7, name, atom id >13, trailer]) + '\n'`. */
  function FormatRecord(resId: string, resName: string, atomId: string): string
  {
    PadLeft(resId, RES_ID_WIDTH) + (" " + (resName + (" " + (PadLeft(atomId, ATOM_ID_WIDTH) + (" " + (TRAILER + LINE_END))))))
  }

  /** A record of word fields splits back into the residue id, the residue
      name, the atom id and the four trailer fields. */
  lemma RecordTokens(resId: string, resName: string, atomId: string)
    requires IsWord(resId) && IsWord(resName) && IsWord(atomId)
    ensures Split(FormatRecord(resId, resName, atomId)) == [resId, resName, atomId] + TRAILER_FIELDS
  {
    assert AllSpaces(" ");
    SplitTrailer();
    SplitPaddedFields(resId, resName, atomId, RES_ID_WIDTH, ATOM_ID_WIDTH, " ", TRAILER + LINE_END);
  }

  /** The residue id is right-justified in the first seven columns, followed
      by a blank, and the record ends with the trailer and the newline. */
  lemma RecordColumns(resId: string, resName: string, atomId: string)
    ensures var r := FormatRecord(resId, resName, atomId);
      && |r| > RES_ID_WIDTH
      && (|resId| <= RES_ID_WIDTH ==>
            && r[RES_ID_WIDTH - |resId|..RES_ID_WIDTH] == resId
            && AllSpaces(r[..RES_ID_WIDTH - |resId|])
            && r[RES_ID_WIDTH] == ' ')
      && |r| > |TRAILER + LINE_END| && r[|r| - |TRAILER + LINE_END|..] == TRAILER + LINE_END
  {
    var idField := PadLeft(resId, RES_ID_WIDTH);
    var r := FormatRecord(resId, resName, atomId);
    RecordShape(idField, resName, PadLeft(atomId, ATOM_ID_WIDTH), TRAILER + LINE_END);
    if |resId| <= RES_ID_WIDTH {
      assert r[RES_ID_WIDTH - |resId|..RES_ID_WIDTH] == idField[RES_ID_WIDTH - |resId|..];
      assert r[..RES_ID_WIDTH - |resId|] == idField[..RES_ID_WIDTH - |resId|];
    }
  }

  lemma RecordShape(idField: string, name: string, atomField: string, tail: string)
    ensures var r := idField + (" " + (name + (" " + (atomField + (" " + tail)))));
      && r[..|idField|] == idField && r[|idField|] == ' '
      && |r| > |tail| && r[|r| - |tail|..] == tail
  {
  }

  lemma SplitTrailer()
    ensures Split(TRAILER + LINE_END) == TRAILER_FIELDS
  {
    TrailerPieces();
    SplitTrailerShape("****", "               ", "0", " ", "  ", LINE_END);
  }

  /** The trailer's shape: a word, a gap, a word, a gap, a word, a gap, the
      first word again, then whitespace. */
  lemma SplitTrailerShape(stars: string, gap1: string, zero: string, gap2: string, gap3: string, last: string)
    requires IsWord(stars) && IsWord(zero) && AllSpaces(last)
    requires |gap1| > 0 && AllSpaces(gap1) && |gap2| > 0 && AllSpaces(gap2) && |gap3| > 0 && AllSpaces(gap3)
    ensures Split(stars + (gap1 + (zero + (gap2 + (stars + (gap3 + (stars + last))))))) == [stars, zero, stars, stars]
  {
    var rest := stars + (gap3 + (stars + last));
    SplitLastWords(stars, gap3, stars, last);
    SplitWordSpaces(zero, gap2, rest);
    SplitWordSpaces(stars, gap1, zero + (gap2 + rest));
    ConsTwoOntoPair(stars, zero, stars, stars);
  }

  /** Two words separated by whitespace, then whitespace only. */
  lemma SplitLastWords(w1: string, sp: string, w2: string, last: string)
    requires IsWord(w1) && IsWord(w2) && |sp| > 0 && AllSpaces(sp) && AllSpaces(last)
    ensures Split(w1 + (sp + (w2 + last))) == [w1, w2]
  {
    SplitAllSpaces(last);
    SplitTakesWord(w2, last);
    SplitWordSpaces(w1, sp, w2 + last);
    ConsPair(w1, w2, Split(last));
  }

  /** The trailer and newline as the words and gaps they are made of. */
  lemma TrailerPieces()
    ensures TRAILER + LINE_END == "****" + ("               " + ("0" + (" " + ("****" + ("  " + ("****" + LINE_END))))))
  {
  }

  lemma SplitPadded(s: string, width: nat, rest: string)
    requires IsWord(s) && (rest == [] || IsSpace(rest[0]))
    ensures Split(PadLeft(s, width) + rest) == [s] + Split(rest)
  {
    SplitTakesWord(s, rest);
    if |s| < width {
      var pad := Spaces(width - |s|);
      assert PadLeft(s, width) + rest == pad + (s + rest);
      SplitSkipsSpaces(pad, s + rest);
    }
  }

  lemma SplitPaddedFields(x: string, y: string, z: string, wx: nat, wz: nat, sp: string, tail: string)
    requires IsWord(x) && IsWord(y) && IsWord(z) && |sp| > 0 && AllSpaces(sp)
    ensures Split(PadLeft(x, wx) + (sp + (y + (sp + (PadLeft(z, wz) + (sp + tail))))))
            == [x, y, z] + Split(tail)
  {
    var rest := PadLeft(z, wz) + (sp + tail);
    var toks := Split(tail);
    SplitPaddedWord(z, wz, sp, tail);
    SplitWordSpaces(y, sp, rest);
    SplitPaddedWord(x, wx, sp, y + (sp + rest));
    ConsThree(x, y, z, toks);
  }

  // Shapes of token lists, stated for any element type so that the
  // solver never compares the strings inside them.

  lemma ConsThree<T>(x: T, y: T, z: T, t: seq<T>)
    ensures [x] + ([y] + ([z] + t)) == [x, y, z] + t
  {
  }

  lemma ConsPair<T>(x: T, y: T, t: seq<T>)
    requires t == []
    ensures [x] + ([y] + t) == [x, y]
  {
  }

  lemma ConsTwoOntoPair<T>(x: T, y: T, z: T, w: T)
    ensures [x] + ([y] + [z, w]) == [x, y, z, w]
  {
  }

  lemma ThreeThenTwo<T>(a: T, b: T, c: T, d: T, e: T)
    ensures [a, b, c] + [d, e] == [a, b, c, d, e]
  {
  }

  /** A padded word followed by whitespace is the first token. */
  lemma SplitPaddedWord(s: string, width: nat, sp: string, rest: string)
    requires IsWord(s) && |sp| > 0 && AllSpaces(sp)
    ensures Split(PadLeft(s, width) + (sp + rest)) == [s] + Split(rest)
  {
    SplitPadded(s, width, sp + rest);
    SplitSkipsSpaces(sp, rest);
  }

  /** The record of one picked row, from its columns 6, 7 and 0. */
  function RowRecord(row: seq<string>): string
    requires |row| > RES_NAME_FIELD
  {
    FormatRecord(row[RES_ID_FIELD], row[RES_NAME_FIELD], row[ATOM_ID_FIELD])
  }

  /** The loop at :129-131 applied to the rows picked at :123-124. */
  function FormatRecords(rows: seq<seq<string>>, picked: seq<nat>): (recs: seq<string>)
    requires forall i | 0 <= i < |picked| :: picked[i] < |rows| && |rows[picked[i]]| > RES_NAME_FIELD
    ensures |recs| == |picked|
  {
    seq(|picked|, i requires 0 <= i < |picked| => RowRecord(rows[picked[i]]))
  }

  /** The loop at :134-135. */
  method AppendRecords(lines: seq<string>, recs: seq<string>) returns (out: seq<string>)
    ensures out == lines + recs
  {
    out := lines;
    var i := 0;
    while i < |recs|
      invariant 0 <= i <= |recs|
      invariant out == lines + recs[..i]
    {
      out := out + [recs[i]];
      i := i + 1;
    }
    assert recs[..|recs|] == recs;
  }

  // ================================================================ whole script

  /** Row `k` of the renumbered rows: the atom line's tokens with the new id
      at position 6, then the newline, so its name (position 7) is the atom
      line's token 7, or the newline itself when the line has only 7 tokens. */
  lemma RowFacts(lines: seq<string>, atmHln: nat, count: nat, k: nat)
    requires AtomRangeOk(lines, atmHln, count) && k < count
    ensures AtomLineOk(lines[atmHln + 1 + k])
    ensures var row := NewRows(lines, atmHln, count)[k];
      var toks := Split(lines[atmHln + 1 + k]);
      && |toks| > RES_ID_FIELD && |row| == |toks| + 1
      && row[RES_ID_FIELD] == NatToString(NewId(OrigIds(lines, atmHln, count), k))
      && row[RES_NAME_FIELD] == (toks + [LINE_END])[RES_NAME_FIELD]
      && row[ATOM_ID_FIELD] == toks[ATOM_ID_FIELD]
  {
    NewRowsAt(lines, atmHln, count, k);
  }

  /** Every row has the three columns read at :113. */
  predicate Wide(rows: seq<seq<string>>)
  {
    forall k | 0 <= k < |rows| :: |rows[k]| > RES_NAME_FIELD
  }

  lemma NewRowsWide(lines: seq<string>, atmHln: nat, count: nat)
    requires AtomRangeOk(lines, atmHln, count)
    ensures Wide(NewRows(lines, atmHln, count))
  {
    forall k | 0 <= k < count ensures |NewRows(lines, atmHln, count)[k]| > RES_NAME_FIELD {
      RowFacts(lines, atmHln, count, k);
    }
  }

  /** The atom lines all have as many tokens as the first one. */
  predicate SameTokenCount(lines: seq<string>, atmHln: nat, count: nat)
    requires atmHln + count < |lines|
  {
    forall j | atmHln < j <= atmHln + count :: |Split(lines[j])| == |Split(lines[atmHln + 1])|
  }

  /** The rows form a rectangular array. */
  predicate Rectangular(rows: seq<seq<string>>)
  {
    forall k | 0 <= k < |rows| :: |rows[k]| == |rows[0]|
  }

  /** The rows are rectangular exactly when the atom lines have equal token counts. */
  lemma RectangularRows(lines: seq<string>, atmHln: nat, count: nat)
    requires AtomRangeOk(lines, atmHln, count) && count > 0
    ensures Rectangular(NewRows(lines, atmHln, count)) <==> SameTokenCount(lines, atmHln, count)
  {
    var rows := NewRows(lines, atmHln, count);
    RowFacts(lines, atmHln, count, 0);
    forall k | 0 <= k < count ensures |rows[k]| == |Split(lines[atmHln + 1 + k])| + 1 {
      RowFacts(lines, atmHln, count, k);
    }
    if !SameTokenCount(lines, atmHln, count) {
      var j :| atmHln < j <= atmHln + count && |Split(lines[j])| != |Split(lines[atmHln + 1])|;
      assert |rows[j - atmHln - 1]| != |rows[0]|;
    }
  }

  /** The residue-id column holds exactly the printed new ids, so
      `np.unique` finds `RunCount(ids) - first + 1` of them. */
  lemma DistinctRenumberedIds(lines: seq<string>, atmHln: nat, count: nat)
    requires AtomRangeOk(lines, atmHln, count) && count > 0
    ensures Wide(NewRows(lines, atmHln, count))
    ensures var ids := OrigIds(lines, atmHln, count);
      DistinctResIds(NewRows(lines, atmHln, count)) == RunCount(ids) - NewId(ids, 0) + 1
  {
    NewRowsWide(lines, atmHln, count);
    var rows := NewRows(lines, atmHln, count);
    var ids := OrigIds(lines, atmHln, count);
    var lo, hi := NewId(ids, 0), RunCount(ids);
    forall k | 0 <= k < count ensures rows[k][RES_ID_FIELD] == NatToString(NewId(ids, k)) {
      RowFacts(lines, atmHln, count, k);
    }
    NewIdRange(ids);
    var column := set k | 0 <= k < |rows| :: rows[k][RES_ID_FIELD];
    forall x | x in column ensures x in Numerals(lo, hi) {
      var k :| 0 <= k < |rows| && rows[k][RES_ID_FIELD] == x;
      assert NewId(ids, k) in NewIdSet(ids);
    }
    forall x | x in Numerals(lo, hi) ensures x in column {
      var v: nat :| lo <= v <= hi && x == NatToString(v);
      assert v in NewIdSet(ids);
      var k :| 0 <= k < |ids| && NewId(ids, k) == v;
      assert rows[k][RES_ID_FIELD] == x;
    }
    assert column == Numerals(lo, hi);
    NewIdBounds(ids, 0);
    NumeralsSize(lo, hi);
  }

  /** `np.where(col6 == str(v))[0][0]` on the renumbered rows finds an atom
      exactly when `v` is one of the new ids, and then it is the first atom of
      residue `v`: no earlier atom has that id and it starts a run of equal
      original ids. */
  lemma FirstRowOfResidue(lines: seq<string>, atmHln: nat, count: nat, v: nat)
    requires AtomRangeOk(lines, atmHln, count) && count > 0
    ensures Wide(NewRows(lines, atmHln, count))
    ensures var ids := OrigIds(lines, atmHln, count);
      var at := FirstWithResId(NewRows(lines, atmHln, count), NatToString(v));
      && (at.Some? <==> NewId(ids, 0) <= v <= RunCount(ids))
      && (at.Some? ==>
            && NewId(ids, at.value) == v
            && (forall j | 0 <= j < at.value :: NewId(ids, j) != v)
            && (at.value == 0 || ids[at.value] != ids[at.value - 1]))
  {
    NewRowsWide(lines, atmHln, count);
    var rows := NewRows(lines, atmHln, count);
    var ids := OrigIds(lines, atmHln, count);
    var at := FirstWithResId(rows, NatToString(v));
    FirstWithResIdIsFirst(rows, NatToString(v));
    forall k | 0 <= k < count ensures rows[k][RES_ID_FIELD] == NatToString(v) <==> NewId(ids, k) == v {
      RowFacts(lines, atmHln, count, k);
      NatToStringInjective(NewId(ids, k), v);
    }
    NewIdRange(ids);
    if at.Some? {
      assert NewId(ids, at.value) in NewIdSet(ids);
      FirstOfIdStartsRun(ids, at.value);
    } else {
      assert v !in NewIdSet(ids);
    }
  }

  /** Record for residue `v`: the first row carrying id `str(v)`, with
      columns 6, 7 and 0 formatted as at :124-135. */
  function SubstructureRecord(rows: seq<seq<string>>, v: nat): string
    requires Wide(rows)
    requires FirstWithResId(rows, NatToString(v)).Some?
  {
    RowRecord(rows[FirstWithResId(rows, NatToString(v)).value])
  }

  /** After the header `h` is found and the last line dropped, the script
      gets as far as the record loop at :120: the atom lines exist and have
      an integer residue id, the counts line has two tokens, there is at
      least one atom, and all atom lines have the same number of tokens. */
  predicate LoadableFrom(lines: seq<string>, h: Header)
  {
    && AtomRangeOk(lines, h.atmHln, h.numAtms)
    && h.molHln + 2 < |lines| && |Split(lines[h.molHln + 2])| >= 2
    && h.numAtms > 0
    && SameTokenCount(lines, h.atmHln, h.numAtms)
  }

  /** The script runs to the end without an exception: it gets as far as
      the record loop and the first residue id is not 0. */
  predicate AcceptedFrom(lines: seq<string>, h: Header)
  {
    LoadableFrom(lines, h) && ResId(lines[h.atmHln + 1]) != NO_RESIDUE
  }

  lemma AcceptedFirstId(lines: seq<string>, h: Header)
    requires LoadableFrom(lines, h)
    ensures AcceptedFrom(lines, h) <==> ResId(lines[h.atmHln + 1]) != NO_RESIDUE
  {
  }

  predicate Accepted(input: seq<string>)
  {
    ScanHeader(input).Ok? && AcceptedFrom(DropLast(input), ScanHeader(input).value)
  }

  /** The counts line has as many tokens after renumbering as before. */
  lemma InfoLineKept(lines: seq<string>, atmHln: nat, count: nat, j: nat)
    requires AtomRangeOk(lines, atmHln, count) && j < |lines|
    ensures |Split(RenumberedLines(lines, atmHln, count)[j])| == |Split(lines[j])|
  {
    if atmHln < j <= atmHln + count {
      RenumberedTokens(lines, atmHln, count);
    } else {
      RenumberedOutside(lines, atmHln, count);
    }
  }

  /** `out` is `base` followed by one record per residue `1..n`, in order. */
  predicate RecordsAppended(rows: seq<seq<string>>, n: nat, base: seq<string>, out: seq<string>)
    requires Wide(rows)
  {
    && |out| == |base| + n
    && out[..|base|] == base
    && forall v | 1 <= v <= n ::
         FirstWithResId(rows, NatToString(v)).Some? && out[|base| + v - 1] == SubstructureRecord(rows, v)
  }

  /** The lines without the last one, renumbered, with the counts line rewritten. */
  function RewrittenLines(lines: seq<string>, h: Header): (r: seq<string>)
    requires LoadableFrom(lines, h)
    ensures |r| == |lines|
  {
    var renumbered := RenumberedLines(lines, h.atmHln, h.numAtms);
    InfoLineKept(lines, h.atmHln, h.numAtms, h.molHln + 2);
    renumbered[h.molHln + 2 := CountsLine(renumbered[h.molHln + 2], RunCount(OrigIds(lines, h.atmHln, h.numAtms)))]
  }

  /** `out` is what the script writes from the lines without the last one
      and the header `h`: the rewritten lines, then one record per residue
      `1..n` in order. */
  predicate RebuiltFrom(lines: seq<string>, h: Header, out: seq<string>)
    requires LoadableFrom(lines, h)
  {
    NewRowsWide(lines, h.atmHln, h.numAtms);
    RecordsAppended(NewRows(lines, h.atmHln, h.numAtms), RunCount(OrigIds(lines, h.atmHln, h.numAtms)),
                    RewrittenLines(lines, h), out)
  }

  predicate Rebuilt(input: seq<string>, out: seq<string>)
    requires Accepted(input)
  {
    RebuiltFrom(DropLast(input), ScanHeader(input).value, out)
  }

  /** How the record loop at :120-121 ends on the renumbered rows: with a
      first residue id other than 0 the new ids are `1..n`, `np.unique` finds
      `n` of them and every one is found; with a first id of 0 they are
      `0..n`, `np.unique` finds `n + 1` and `str(n + 1)` is missing. */
  lemma SelectOutcome(lines: seq<string>, atmHln: nat, count: nat)
    requires AtomRangeOk(lines, atmHln, count) && count > 0
    ensures Wide(NewRows(lines, atmHln, count))
    ensures var ids := OrigIds(lines, atmHln, count); var rows := NewRows(lines, atmHln, count);
      var n := RunCount(ids);
      && AtomLineOk(lines[atmHln + 1]) && ids[0] == ResId(lines[atmHln + 1])
      && (forall v | 1 <= v <= n :: FirstWithResId(rows, NatToString(v)).Some?)
      && (ids[0] != NO_RESIDUE ==> DistinctResIds(rows) == n)
      && (ids[0] == NO_RESIDUE ==> DistinctResIds(rows) == n + 1 && FirstWithResId(rows, NatToString(n + 1)).None?)
  {
    NewRowsWide(lines, atmHln, count);
    var ids := OrigIds(lines, atmHln, count);
    OrigIdsAt(lines, atmHln, count, 0);
    NewIdFirst(ids);
    DistinctRenumberedIds(lines, atmHln, count);
    forall v | 1 <= v <= RunCount(ids) + 1
      ensures FirstWithResId(NewRows(lines, atmHln, count), NatToString(v)).Some? <==> NewId(ids, 0) <= v <= RunCount(ids)
    {
      FirstRowOfResidue(lines, atmHln, count, v);
    }
  }

  /** What the script checks after renumbering decides whether the file is
      loadable: the counts line exists and has two tokens, there is at least
      one row, and the rows are rectangular. */
  lemma LoadableAfterRenumbering(lines: seq<string>, h: Header)
    requires AtomRangeOk(lines, h.atmHln, h.numAtms)
    ensures var count := AtomCount(h.numAtms);
      var out := RenumberedLines(lines, h.atmHln, count);
      var rows := NewRows(lines, h.atmHln, count);
      LoadableFrom(lines, h) <==>
        && h.molHln + 2 < |out| && |Split(out[h.molHln + 2])| >= 2
        && |rows| > 0
        && Rectangular(rows)
  {
    var count := AtomCount(h.numAtms);
    InfoAfterRenumbering(lines, h.atmHln, count, h.molHln + 2);
    if count > 0 {
      RectangularRows(lines, h.atmHln, count);
    }
  }

  /** Renumbering keeps every line, and the counts line's token count. */
  lemma InfoAfterRenumbering(lines: seq<string>, atmHln: nat, count: nat, j: int)
    requires AtomRangeOk(lines, atmHln, count)
    ensures var out := RenumberedLines(lines, atmHln, count);
      (0 <= j < |lines| && |Split(lines[j])| >= 2) <==> (0 <= j < |out| && |Split(out[j])| >= 2)
  {
    if 0 <= j < |lines| {
      InfoLineKept(lines, atmHln, count, j);
    }
  }

  /** The script from :106 to :135, once the atom lines are renumbered:
      the counts-line rewrite, then the substructure records. */
  method WriteSubstructure(lines: seq<string>, h: Header, ren: Renumbered) returns (r: Result<seq<string>>)
    requires AtomRangeOk(lines, h.atmHln, h.numAtms)
    requires var count := AtomCount(h.numAtms);
      && ren.n == RunCount(OrigIds(lines, h.atmHln, count))
      && ren.rows == NewRows(lines, h.atmHln, count)
      && ren.lines == RenumberedLines(lines, h.atmHln, count)
    ensures r.Ok? <==> AcceptedFrom(lines, h)
    ensures r.Ok? ==> RebuiltFrom(lines, h, r.value)
    ensures LoadableFrom(lines, h) && ResId(lines[h.atmHln + 1]) == NO_RESIDUE ==>
      r == Err(ResidueNotFound(ren.n + 1))
  {
    var out, n, rows := ren.lines, ren.n, ren.rows;
    LoadableAfterRenumbering(lines, h);
    var infoAt := h.molHln + 2;
    if infoAt >= |out| || |Split(out[infoAt])| < 2 {
      return Err(BadInfoLine);
    }
    out := out[infoAt := CountsLine(out[infoAt], n)];
    if |rows| == 0 {
      return Err(NoAtoms);
    }
    if !Rectangular(rows) {
      return Err(RaggedAtomRows);
    }
    assert LoadableFrom(lines, h);
    r := AppendSubstructure(lines, h, out, n, rows);
  }

  /** The script from :112 to :135 on a loadable file: pick the first atom of
      each residue, format its record and append it. */
  method AppendSubstructure(lines: seq<string>, h: Header, out: seq<string>, n: nat, rows: seq<seq<string>>)
    returns (r: Result<seq<string>>)
    requires LoadableFrom(lines, h)
    requires n == RunCount(OrigIds(lines, h.atmHln, h.numAtms))
    requires rows == NewRows(lines, h.atmHln, h.numAtms)
    requires out == RewrittenLines(lines, h)
    ensures r.Ok? <==> AcceptedFrom(lines, h)
    ensures r.Ok? ==> RebuiltFrom(lines, h, r.value)
    ensures ResId(lines[h.atmHln + 1]) == NO_RESIDUE ==> r == Err(ResidueNotFound(n + 1))
  {
    AcceptedFirstId(lines, h);
    SelectOutcome(lines, h.atmHln, h.numAtms);
    var picked := SelectRecordAtoms(rows);
    if picked.Err? {
      assert ResId(lines[h.atmHln + 1]) == NO_RESIDUE;
      return Err(picked.error);
    }
    assert ResId(lines[h.atmHln + 1]) != NO_RESIDUE && |picked.value| == n;
    var recs := FormatRecords(rows, picked.value);
    var written := AppendRecords(out, recs);
    PickedRecords(rows, picked.value, out);
    assert RecordsAppended(rows, n, out, written);
    r := Ok(written);
  }

  /** Formatting the rows picked for residues `1..n` and appending them to
      `base` gives the records of those residues in order. */
  lemma PickedRecords(rows: seq<seq<string>>, picked: seq<nat>, base: seq<string>)
    requires Wide(rows)
    requires forall i | 0 <= i < |picked| :: FirstWithResId(rows, NatToString(i + 1)) == Some(picked[i])
    ensures forall i | 0 <= i < |picked| :: picked[i] < |rows| && |rows[picked[i]]| > RES_NAME_FIELD
    ensures RecordsAppended(rows, |picked|, base, base + FormatRecords(rows, picked))
  {
    var recs := FormatRecords(rows, picked);
    AppendParts(base, recs);
    forall v | 1 <= v <= |picked|
      ensures FirstWithResId(rows, NatToString(v)).Some? && recs[v - 1] == SubstructureRecord(rows, v)
    {
      var i := v - 1;
      assert FirstWithResId(rows, NatToString(i + 1)) == Some(picked[i]);
    }
  }

  lemma AppendParts<T>(a: seq<T>, b: seq<T>)
    ensures |a + b| == |a| + |b| && (a + b)[..|a|] == a
    ensures forall i | 0 <= i < |b| :: (a + b)[|a| + i] == b[i]
  {
  }

  /** The script from :89 to :135 once the header `h` is found. */
  method RebuildFrom(lines: seq<string>, h: Header) returns (r: Result<seq<string>>)
    ensures r.Ok? <==> AcceptedFrom(lines, h)
    ensures r.Ok? ==> RebuiltFrom(lines, h, r.value)
    ensures LoadableFrom(lines, h) && ResId(lines[h.atmHln + 1]) == NO_RESIDUE ==>
      r == Err(ResidueNotFound(RunCount(OrigIds(lines, h.atmHln, h.numAtms)) + 1))
  {
    var ren := RenumberResidues(lines, h.atmHln, h.numAtms);
    if ren.Err? {
      return Err(ren.error);
    }
    r := WriteSubstructure(lines, h, ren.value);
  }

  /** The script from :76 to :135 on the lines of the input file: it fails
      exactly where the script raises, and otherwise writes the rebuilt
      lines. */
  method RebuildSubstructure(input: seq<string>) returns (r: Result<seq<string>>)
    ensures ScanHeader(input).Err? ==> r == Err(ScanHeader(input).error)
    ensures r.Ok? <==> Accepted(input)
    ensures r.Ok? ==> Rebuilt(input, r.value)
    ensures ScanHeader(input).Ok? ==>
      var h := ScanHeader(input).value;
      var lines := DropLast(input);
      LoadableFrom(lines, h) && ResId(lines[h.atmHln + 1]) == NO_RESIDUE ==>
        r == Err(ResidueNotFound(RunCount(OrigIds(lines, h.atmHln, h.numAtms)) + 1))
  {
    var header := LocateHeader(input);
    if header.Err? {
      return Err(header.error);
    }
    r := RebuildFrom(DropLast(input), header.value);
  }
}
