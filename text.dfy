/** String helpers the rebuilder relies on: Python's whitespace `str.split()`,
    `str.join`, `int()` on a token, `str()` of a counter, the substring test
    `marker in line` and right-justified `'{0:>w}'.format`. */
module Text {

  datatype Option<T> = None | Some(value: T)

  /** Python's `str.isspace()`: the characters `str.split()` splits on. */
  predicate IsSpace(c: char) {
    || c == ' '
    || ('\t' <= c <= '\r')
    || ('\U{1C}' <= c <= '\U{1F}')
    || c == '\U{85}' || c == '\U{A0}' || c == '\U{1680}'
    || ('\U{2000}' <= c <= '\U{200A}')
    || c == '\U{2028}' || c == '\U{2029}' || c == '\U{202F}'
    || c == '\U{205F}' || c == '\U{3000}'
  }

  /** A token `str.split()` can produce: non-empty, no whitespace. */
  predicate IsWord(t: string) {
    |t| > 0 && forall i | 0 <= i < |t| :: !IsSpace(t[i])
  }

  predicate AllSpaces(s: string) {
    forall i | 0 <= i < |s| :: IsSpace(s[i])
  }

  /** Length of the leading run of non-whitespace characters. */
  function WordLength(s: string): (k: nat)
    ensures k <= |s|
    ensures k < |s| ==> IsSpace(s[k])
  {
    if s == [] || IsSpace(s[0]) then 0 else 1 + WordLength(s[1..])
  }

  /** The leading run holds no whitespace. */
  lemma {:induction false} WordLengthNoSpace(s: string)
    ensures forall i | 0 <= i < WordLength(s) :: !IsSpace(s[i])
  {
    if s != [] && !IsSpace(s[0]) {
      WordLengthNoSpace(s[1..]);
      forall i | 0 < i < WordLength(s) ensures !IsSpace(s[i]) {
        assert s[i] == s[1..][i - 1];
      }
    }
  }

  /** Python's `s.split()`: the maximal runs of non-whitespace characters, in order. */
  function Split(s: string): (r: seq<string>)
    decreases |s|
  {
    if s == [] then []
    else if IsSpace(s[0]) then Split(s[1..])
    else
      var k := WordLength(s);
      [s[..k]] + Split(s[k..])
  }

  /** Every token of a split is a word. */
  lemma {:induction false} SplitWords(s: string)
    ensures forall t | t in Split(s) :: IsWord(t)
    decreases |s|
  {
    if s != [] {
      if IsSpace(s[0]) {
        SplitWords(s[1..]);
      } else {
        var k := WordLength(s);
        WordLengthNoSpace(s);
        SplitWords(s[k..]);
        assert IsWord(s[..k]);
      }
    }
  }

  /** Python's `sep.join(parts)`. */
  function Join(sep: string, parts: seq<string>): string
  {
    if parts == [] then ""
    else if |parts| == 1 then parts[0]
    else parts[0] + sep + Join(sep, parts[1..])
  }

  /** Python's `pat in s` on strings. */
  predicate Contains(s: string, pat: string)
    decreases |s|
  {
    pat <= s || (s != [] && Contains(s[1..], pat))
  }

  lemma {:induction false} SplitAllSpaces(s: string)
    ensures Split(s) == [] <==> AllSpaces(s)
    decreases |s|
  {
    if s != [] {
      if IsSpace(s[0]) {
        SplitAllSpaces(s[1..]);
        if AllSpaces(s[1..]) {
          forall i | 0 <= i < |s| ensures IsSpace(s[i]) {
            if i > 0 { assert s[i] == s[1..][i - 1]; }
          }
        } else {
          var i :| 0 <= i < |s[1..]| && !IsSpace(s[1..][i]);
          assert !IsSpace(s[i + 1]);
        }
      }
    }
  }

  /** Leading whitespace does not change the split. */
  lemma {:induction false} SplitSkipsSpaces(sp: string, rest: string)
    requires AllSpaces(sp)
    ensures Split(sp + rest) == Split(rest)
    decreases |sp|
  {
    if sp != [] {
      assert (sp + rest)[0] == sp[0] && IsSpace(sp[0]);
      assert (sp + rest)[1..] == sp[1..] + rest;
      assert AllSpaces(sp[1..]) by {
        forall i | 0 <= i < |sp| - 1 ensures IsSpace(sp[1..][i]) { assert sp[1..][i] == sp[i + 1]; }
      }
      SplitSkipsSpaces(sp[1..], rest);
      assert Split(sp + rest) == Split((sp + rest)[1..]);
    } else {
      assert sp + rest == rest;
    }
  }

  /** A word followed by whitespace (or nothing) is the first token. */
  lemma SplitTakesWord(w: string, rest: string)
    requires IsWord(w)
    requires rest == [] || IsSpace(rest[0])
    ensures Split(w + rest) == [w] + Split(rest)
  {
    var s := w + rest;
    var k := WordLength(s);
    WordLengthNoSpace(s);
    assert forall i | 0 <= i < |w| :: s[i] == w[i];
    assert |w| < |s| ==> s[|w|] == rest[0];
    assert s[..k] == w;
    assert s[k..] == rest;
  }

  /** A word followed by a non-empty run of whitespace is the first token. */
  lemma SplitWordSpaces(w: string, sp: string, rest: string)
    requires IsWord(w) && |sp| > 0 && AllSpaces(sp)
    ensures Split(w + (sp + rest)) == [w] + Split(rest)
  {
    SplitTakesWord(w, sp + rest);
    SplitSkipsSpaces(sp, rest);
  }

  /** Splitting a line written as `sep.join(tokens + [tail])`, with a whitespace
      separator and a whitespace tail, gives back the tokens. */
  lemma {:induction false} SplitJoin(sep: string, toks: seq<string>, tail: string)
    requires |sep| > 0 && AllSpaces(sep) && AllSpaces(tail)
    requires forall i | 0 <= i < |toks| :: IsWord(toks[i])
    ensures Split(Join(sep, toks + [tail])) == toks
    decreases |toks|
  {
    if toks == [] {
      assert toks + [tail] == [tail];
      SplitAllSpaces(tail);
    } else {
      var parts := toks + [tail];
      assert parts[1..] == toks[1..] + [tail];
      var j := Join(sep, parts[1..]);
      assert Join(sep, parts) == toks[0] + (sep + j);
      SplitTakesWord(toks[0], sep + j);
      SplitSkipsSpaces(sep, j);
      SplitJoin(sep, toks[1..], tail);
      assert [toks[0]] + toks[1..] == toks;
    }
  }

  // ---------------------------------------------------------------- integers

  predicate IsDigit(c: char) { '0' <= c <= '9' }

  predicate AllDigits(s: string) { forall i | 0 <= i < |s| :: IsDigit(s[i]) }

  function DigitValue(c: char): nat
    requires IsDigit(c)
  {
    c as int - '0' as int
  }

  function DigitChar(d: nat): (c: char)
    requires d < 10
    ensures IsDigit(c) && DigitValue(c) == d
  {
    ('0' as int + d) as char
  }

  /** Decimal value of a string of digits. */
  function DigitsValue(s: string): nat
    requires AllDigits(s)
    decreases |s|
  {
    if s == [] then 0 else DigitsValue(s[..|s| - 1]) * 10 + DigitValue(s[|s| - 1])
  }

  /** Python's `int(token)` on a whitespace-free token: an optional sign and
      ASCII decimal digits; `None` where Python raises `ValueError`. */
  function ParseInt(t: string): Option<int>
  {
    if |t| >= 2 && (t[0] == '-' || t[0] == '+') && AllDigits(t[1..]) then
      Some(if t[0] == '-' then -(DigitsValue(t[1..]) as int) else DigitsValue(t[1..]))
    else if |t| >= 1 && AllDigits(t) then
      Some(DigitsValue(t))
    else
      None
  }

  /** Python's `str(n)` for a non-negative integer. */
  function NatToString(n: nat): (s: string)
    ensures |s| > 0
  {
    if n < 10 then [DigitChar(n)] else NatToString(n / 10) + [DigitChar(n % 10)]
  }

  /** `str(n)` is a non-empty run of digits, hence a word. */
  lemma {:induction false} NatToStringDigits(n: nat)
    ensures AllDigits(NatToString(n)) && IsWord(NatToString(n))
  {
    if n >= 10 {
      NatToStringDigits(n / 10);
    }
  }

  lemma {:induction false} DigitsOfNatToString(n: nat)
    ensures AllDigits(NatToString(n)) && DigitsValue(NatToString(n)) == n
  {
    NatToStringDigits(n);
    if n >= 10 {
      var s := NatToString(n / 10);
      var t := s + [DigitChar(n % 10)];
      assert t[..|t| - 1] == s;
      DigitsOfNatToString(n / 10);
    }
  }

  /** `int(str(n)) == n`. */
  lemma ParseNatToString(n: nat)
    ensures ParseInt(NatToString(n)) == Some(n)
  {
    DigitsOfNatToString(n);
  }

  /** Distinct counters print as distinct strings. */
  lemma NatToStringInjective(a: nat, b: nat)
    ensures NatToString(a) == NatToString(b) <==> a == b
  {
    ParseNatToString(a);
    ParseNatToString(b);
  }

  /** The printed forms of the integers `a..b`. */
  function Numerals(a: nat, b: int): set<string>
  {
    set v: nat | a <= v <= b :: NatToString(v)
  }

  /** Printing is injective, so `a..b` prints as `b - a + 1` distinct strings. */
  lemma {:induction false} NumeralsSize(a: nat, b: int)
    requires a <= b + 1
    ensures |Numerals(a, b)| == b - a + 1
    decreases b - a + 1
  {
    if a <= b {
      var last := NatToString(b);
      assert Numerals(a, b) == Numerals(a, b - 1) + {last};
      forall v: nat | a <= v <= b - 1 ensures NatToString(v) != last {
        NatToStringInjective(v, b);
      }
      NumeralsSize(a, b - 1);
    } else {
      assert Numerals(a, b) == {};
    }
  }

  // ---------------------------------------------------------------- padding

  function Spaces(k: nat): (s: string)
    ensures |s| == k && AllSpaces(s)
  {
    seq(k, _ => ' ')
  }

  /** Python's `'{0:>w}'.format(s)`: right-justified in a field of `width`
      spaces; a longer string is kept whole. */
  function PadLeft(s: string, width: nat): (r: string)
    ensures |r| == if |s| >= width then |s| else width
    ensures r[|r| - |s|..] == s
    ensures AllSpaces(r[..|r| - |s|])
  {
    if |s| >= width then s else Spaces(width - |s|) + s
  }
}
