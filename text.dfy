/**
 * The string primitives the bot's Python code relies on: `str.strip`,
 * `str.startswith`, `str.join`, `str.splitlines`, `str.split()`, decimal
 * numerals (`str(int)` and `int(str)`), and `sorted` over a set of strings.
 * Strings are sequences of Unicode scalar values, as Python's `str` is a
 * sequence of code points.
 */
module Text {

  // ---------------------------------------------------------------------
  // Character classes

  /** An ASCII decimal digit (what the model takes `\d` to match). */
  predicate IsDigit(c: char) { '0' <= c <= '9' }

  /** CPython's `str.isspace`, which is also what `\s` matches in a `str` pattern. */
  predicate IsSpace(c: char)
  {
    || ('\t' <= c <= '\r') || ('\U{1c}' <= c <= '\U{1f}') || c == ' '
    || c == '\U{85}' || c == '\U{a0}' || c == '\U{1680}'
    || ('\U{2000}' <= c <= '\U{200a}') || c == '\U{2028}' || c == '\U{2029}'
    || c == '\U{202f}' || c == '\U{205f}' || c == '\U{3000}'
  }

  /** The characters at which `str.splitlines` ends a line. */
  predicate IsLineBreak(c: char)
  {
    || c == '\n' || c == '\r' || c == '\U{0b}' || c == '\U{0c}'
    || ('\U{1c}' <= c <= '\U{1e}') || c == '\U{85}' || c == '\U{2028}' || c == '\U{2029}'
  }

  predicate AllDigits(s: string) { forall i :: 0 <= i < |s| ==> IsDigit(s[i]) }

  predicate HasLineBreak(s: string) { exists i :: 0 <= i < |s| && IsLineBreak(s[i]) }

  // ---------------------------------------------------------------------
  // Prefixes, suffixes, stripping

  predicate StartsWith(s: string, p: string) { |p| <= |s| && s[..|p|] == p }

  predicate EndsWith(s: string, p: string) { |p| <= |s| && s[|s| - |p|..] == p }

  /** `s.lstrip()`: drops the leading whitespace, and only that. */
  function LStrip(s: string): (r: string)
    ensures |r| <= |s| && r == s[|s| - |r|..]
    ensures r == [] || !IsSpace(r[0])
  {
    if s != [] && IsSpace(s[0]) then LStrip(s[1..]) else s
  }

  /** What `lstrip` drops is whitespace. */
  lemma {:induction false} LStripDrops(s: string)
    ensures forall i :: 0 <= i < |s| - |LStrip(s)| ==> IsSpace(s[i])
  {
    if s != [] && IsSpace(s[0]) {
      LStripDrops(s[1..]);
      assert forall i :: 1 <= i < |s| ==> s[i] == s[1..][i - 1];
    }
  }

  /** `s.rstrip()`: drops the trailing whitespace, and only that. */
  function RStrip(s: string): (r: string)
    ensures |r| <= |s| && r == s[..|r|]
    ensures r == [] || !IsSpace(r[|r| - 1])
  {
    if s != [] && IsSpace(s[|s| - 1]) then RStrip(s[..|s| - 1]) else s
  }

  /** What `rstrip` drops is whitespace. */
  lemma {:induction false} RStripDrops(s: string)
    ensures forall i :: |RStrip(s)| <= i < |s| ==> IsSpace(s[i])
  {
    if s != [] && IsSpace(s[|s| - 1]) {
      RStripDrops(s[..|s| - 1]);
    }
  }

  /** `s.strip()`. */
  function Strip(s: string): (r: string)
  {
    RStrip(LStrip(s))
  }

  /** What `strip` keeps is a slice of its input with no whitespace at either end. */
  lemma StripSlice(s: string)
    ensures Strip(s) == [] || (!IsSpace(Strip(s)[0]) && !IsSpace(Strip(s)[|Strip(s)| - 1]))
    ensures |s| - |LStrip(s)| + |Strip(s)| <= |s|
    ensures Strip(s) == s[|s| - |LStrip(s)|..|s| - |LStrip(s)| + |Strip(s)|]
  {
    StripEnds(s);
    StripIsSlice(s);
  }

  lemma StripEnds(s: string)
    ensures Strip(s) == [] || (!IsSpace(Strip(s)[0]) && !IsSpace(Strip(s)[|Strip(s)| - 1]))
  {
    var l := LStrip(s);
    var r := RStrip(l);
    if r != [] {
      assert r[0] == l[0];
    }
  }

  lemma StripIsSlice(s: string)
    ensures |s| - |LStrip(s)| + |Strip(s)| <= |s|
    ensures Strip(s) == s[|s| - |LStrip(s)|..|s| - |LStrip(s)| + |Strip(s)|]
  {
    var l := LStrip(s);
    var r := RStrip(l);
    assert s[|s| - |l|..][..|r|] == s[|s| - |l|..|s| - |l| + |r|];
  }

  /** A string that starts and ends with a non-space character is its own strip. */
  lemma StripNoOp(s: string)
    requires s == [] || (!IsSpace(s[0]) && !IsSpace(s[|s| - 1]))
    ensures Strip(s) == s
  {
  }

  /** Stripping twice strips nothing more. */
  lemma StripIdempotent(s: string)
    ensures Strip(Strip(s)) == Strip(s)
  {
    StripSlice(s);
    StripNoOp(Strip(s));
  }

  /** `Strip(s)` is empty exactly when `s` is all whitespace. */
  lemma StripEmpty(s: string)
    ensures Strip(s) == [] <==> forall i :: 0 <= i < |s| ==> IsSpace(s[i])
  {
    var l := LStrip(s);
    LStripDrops(s);
    RStripDrops(l);
    if Strip(s) == [] {
      assert l == [];
    }
    if forall i :: 0 <= i < |s| ==> IsSpace(s[i]) {
      LStripAllSpace(s);
    }
  }

  lemma {:induction false} LStripAllSpace(s: string)
    requires forall i :: 0 <= i < |s| ==> IsSpace(s[i])
    ensures LStrip(s) == []
  {
    if s != [] {
      assert forall i :: 0 <= i < |s| - 1 ==> s[1..][i] == s[i + 1];
      LStripAllSpace(s[1..]);
    }
  }

  // ---------------------------------------------------------------------
  // Joining and splitting

  /** `sep.join(xs)`. */
  function Join(sep: string, xs: seq<string>): string
  {
    if |xs| == 0 then ""
    else if |xs| == 1 then xs[0]
    else xs[0] + sep + Join(sep, xs[1..])
  }

  /** Index of the first line break of `s` at or after `from`, or `|s|` if there is none. */
  function FirstBreak(s: string, from: nat): (i: nat)
    requires from <= |s|
    ensures from <= i <= |s|
    ensures i < |s| ==> IsLineBreak(s[i])
    ensures forall j :: from <= j < i ==> !IsLineBreak(s[j])
    decreases |s| - from
  {
    if from == |s| || IsLineBreak(s[from]) then from else FirstBreak(s, from + 1)
  }

  /**
   * `s.splitlines()`: every line break ends a line, `"\r\n"` counts as one
   * break, and a final segment is kept only when it is not empty.
   */
  function SplitLines(s: string): seq<string>
    decreases |s|
  {
    if s == [] then []
    else
      var i := FirstBreak(s, 0);
      if i == |s| then [s]
      else
        var w := if s[i] == '\r' && i + 1 < |s| && s[i + 1] == '\n' then 2 else 1;
        [s[..i]] + SplitLines(s[i + w..])
  }

  /** No line of `splitlines` contains a line break. */
  lemma {:induction false} SplitLinesHaveNoBreaks(s: string)
    ensures forall k :: 0 <= k < |SplitLines(s)| ==> !HasLineBreak(SplitLines(s)[k])
    decreases |s|
  {
    if s != [] {
      var i := FirstBreak(s, 0);
      if i < |s| {
        var w := if s[i] == '\r' && i + 1 < |s| && s[i + 1] == '\n' then 2 else 1;
        SplitLinesHaveNoBreaks(s[i + w..]);
        assert !HasLineBreak(s[..i]);
      }
    }
  }

  /** A line: non-empty and free of line breaks, as a numeral always is. */
  predicate IsLine(x: string) { x != [] && !HasLineBreak(x) }

  /** `"\n".join(xs).splitlines() == xs` for lines that are non-empty and break-free. */
  lemma {:induction false} SplitLinesOfJoin(xs: seq<string>)
    requires forall k :: 0 <= k < |xs| ==> IsLine(xs[k])
    ensures SplitLines(Join("\n", xs)) == xs
  {
    if |xs| == 1 {
      assert FirstBreak(xs[0], 0) == |xs[0]|;
    } else if |xs| > 1 {
      var a := xs[0];
      var rest := Join("\n", xs[1..]);
      var s := a + "\n" + rest;
      assert FirstBreak(s, |a|) == |a|;
      FirstBreakPrefix(s, a);
      assert s[..|a|] == a;
      assert s[|a| + 1..] == rest;
      SplitLinesOfJoin(xs[1..]);
    }
  }

  lemma FirstBreakPrefix(s: string, a: string)
    requires |a| < |s| && s[..|a|] == a && !HasLineBreak(a) && IsLineBreak(s[|a|])
    ensures FirstBreak(s, 0) == |a|
  {
  }

  /** Index of the first whitespace character of `s` at or after `from`, or `|s|`. */
  function FirstSpace(s: string, from: nat): (i: nat)
    requires from <= |s|
    ensures from <= i <= |s|
    ensures i < |s| ==> IsSpace(s[i])
    ensures forall j :: from <= j < i ==> !IsSpace(s[j])
    decreases |s| - from
  {
    if from == |s| || IsSpace(s[from]) then from else FirstSpace(s, from + 1)
  }

  /** A token of `str.split()`: non-empty and without whitespace. */
  predicate IsWord(w: string) { w != [] && forall i :: 0 <= i < |w| ==> !IsSpace(w[i]) }

  /** `s.split()` with no separator: the maximal runs of non-whitespace. */
  function Words(s: string): seq<string>
    decreases |s|
  {
    var t := LStrip(s);
    if t == [] then []
    else
      var i := FirstSpace(t, 1);
      [t[..i]] + Words(t[i..])
  }

  /** Every token of `split()` is non-empty and free of whitespace. */
  lemma {:induction false} WordsAreWords(s: string)
    ensures forall k :: 0 <= k < |Words(s)| ==> IsWord(Words(s)[k])
    decreases |s|
  {
    var t := LStrip(s);
    if t != [] {
      var i := FirstSpace(t, 1);
      RunIsWord(t, i);
      WordsAreWords(t[i..]);
      var ws := Words(s);
      assert ws == [t[..i]] + Words(t[i..]);
      forall k | 0 <= k < |ws|
        ensures IsWord(ws[k])
      {
        if k > 0 {
          assert ws[k] == Words(t[i..])[k - 1];
        }
      }
    }
  }

  /** The run of non-whitespace that starts a left-stripped text is a word. */
  lemma RunIsWord(t: string, i: nat)
    requires 1 <= i <= |t| && !IsSpace(t[0])
    requires forall j :: 1 <= j < i ==> !IsSpace(t[j])
    ensures IsWord(t[..i])
  {
    forall j | 0 <= j < i
      ensures !IsSpace(t[..i][j])
    {
      assert t[..i][j] == t[j];
    }
  }

  // ---------------------------------------------------------------------
  // Decimal numerals

  function DigitChar(d: nat): (c: char)
    requires d < 10
    ensures IsDigit(c)
  {
    "0123456789"[d]
  }

  /** `str(n)` for a non-negative integer. */
  function NatToString(n: nat): (s: string)
    ensures s != [] && AllDigits(s)
    ensures s[0] == '0' ==> s == "0"
  {
    if n < 10 then [DigitChar(n)] else NatToString(n / 10) + [DigitChar(n % 10)]
  }

  /** `int(s)` for a string of ASCII digits. */
  function DigitsValue(s: string): nat
    requires AllDigits(s)
  {
    if s == [] then 0 else DigitsValue(s[..|s| - 1]) * 10 + (s[|s| - 1] as int - '0' as int)
  }

  /** A numeral as `str(int)` writes it: digits, no leading zero unless it is "0". */
  predicate Canonical(s: string) { s != [] && AllDigits(s) && (s[0] == '0' ==> s == "0") }

  /** `int(str(n)) == n`. */
  lemma {:induction false} ValueOfNatToString(n: nat)
    ensures DigitsValue(NatToString(n)) == n
  {
    if n >= 10 {
      ValueOfNatToString(n / 10);
      var s := NatToString(n);
      assert s[..|s| - 1] == NatToString(n / 10);
    }
  }

  /** `str(int(s)) == s` for canonical numerals. */
  lemma {:induction false} NatToStringOfValue(s: string)
    requires Canonical(s)
    ensures NatToString(DigitsValue(s)) == s
    decreases |s|
  {
    if |s| > 1 {
      var p := s[..|s| - 1];
      assert Canonical(p) by { assert p[0] == s[0]; }
      NatToStringOfValue(p);
      PositiveValue(p);
      var v, d := DigitsValue(p), s[|s| - 1] as int - '0' as int;
      assert DigitsValue(s) == v * 10 + d;
      assert (v * 10 + d) / 10 == v && (v * 10 + d) % 10 == d;
      assert DigitChar(d) == s[|s| - 1];
      assert s == p + [s[|s| - 1]];
    }
  }

  lemma {:induction false} PositiveValue(s: string)
    requires Canonical(s) && s != "0"
    ensures DigitsValue(s) > 0
    decreases |s|
  {
    if |s| > 1 {
      var p := s[..|s| - 1];
      assert p[0] == s[0];
      if p != "0" { PositiveValue(p); }
    }
  }

  /** Distinct canonical numerals denote distinct numbers. */
  lemma CanonicalInjective(a: string, b: string)
    requires Canonical(a) && Canonical(b) && DigitsValue(a) == DigitsValue(b)
    ensures a == b
  {
    NatToStringOfValue(a);
    NatToStringOfValue(b);
  }

  // ---------------------------------------------------------------------
  // Orders on strings and sorting a set

  /** Python's `<` on `str`: lexicographic by code point. */
  predicate LexLess(a: string, b: string)
  {
    if a == [] then b != []
    else if b == [] then false
    else if a[0] != b[0] then a[0] < b[0]
    else LexLess(a[1..], b[1..])
  }

  /**
   * The two orders the code sorts ids by: `sorted(...)` on strings and
   * `sorted(..., key=int)`. Python leaves the order of ids with equal `int`
   * to the set's iteration order; the model breaks those ties lexicographically.
   */
  datatype Order = Lexicographic | Numeric

  function Key(s: string): nat { if AllDigits(s) then DigitsValue(s) else 0 }

  predicate Precedes(o: Order, a: string, b: string)
  {
    match o
    case Lexicographic => LexLess(a, b)
    case Numeric => Key(a) < Key(b) || (Key(a) == Key(b) && LexLess(a, b))
  }

  lemma {:induction false} LexTotal(a: string, b: string)
    ensures a == b || LexLess(a, b) || LexLess(b, a)
  {
    if a != [] && b != [] && a[0] == b[0] {
      LexTotal(a[1..], b[1..]);
      assert a == [a[0]] + a[1..];
      assert b == [b[0]] + b[1..];
    }
  }

  lemma {:induction false} LexAsymmetric(a: string, b: string)
    ensures !(LexLess(a, b) && LexLess(b, a))
  {
    if a != [] && b != [] && a[0] == b[0] { LexAsymmetric(a[1..], b[1..]); }
  }

  lemma {:induction false} LexTransitive(a: string, b: string, c: string)
    requires LexLess(a, b) && LexLess(b, c)
    ensures LexLess(a, c)
  {
    if a != [] && b != [] && c != [] && a[0] == b[0] && b[0] == c[0] {
      LexTransitive(a[1..], b[1..], c[1..]);
    }
  }

  lemma PrecedesTotal(o: Order, a: string, b: string)
    ensures a == b || Precedes(o, a, b) || Precedes(o, b, a)
  {
    LexTotal(a, b);
  }

  lemma PrecedesAsymmetric(o: Order, a: string, b: string)
    ensures !(Precedes(o, a, b) && Precedes(o, b, a))
  {
    LexAsymmetric(a, b);
  }

  lemma PrecedesTransitive(o: Order, a: string, b: string, c: string)
    requires Precedes(o, a, b) && Precedes(o, b, c)
    ensures Precedes(o, a, c)
  {
    if o.Lexicographic? || (Key(a) == Key(b) && Key(b) == Key(c)) {
      LexTransitive(a, b, c);
    }
  }

  lemma AllAsymmetric(o: Order)
    ensures forall a, b :: !(Precedes(o, a, b) && Precedes(o, b, a))
  {
    forall a, b { PrecedesAsymmetric(o, a, b); }
  }

  predicate IsLeast(o: Order, m: string, s: set<string>)
  {
    m in s && forall x :: x in s && x != m ==> Precedes(o, m, x)
  }

  lemma {:induction false} HasLeast(o: Order, s: set<string>)
    requires s != {}
    ensures exists m :: IsLeast(o, m, s)
    decreases |s|
  {
    var m :| m in s;
    if s == {m} {
      assert IsLeast(o, m, s);
    } else {
      var r := s - {m};
      HasLeast(o, r);
      var m' :| IsLeast(o, m', r);
      assert m' in s && m' != m;
      PrecedesTotal(o, m, m');
      if Precedes(o, m, m') {
        forall x | x in s && x != m ensures Precedes(o, m, x) {
          if x != m' { assert x in r; PrecedesTransitive(o, m, m', x); }
        }
        assert IsLeast(o, m, s);
      } else {
        assert Precedes(o, m', m);
        forall x | x in s && x != m' ensures Precedes(o, m', x) {
          if x != m { assert x in r; }
        }
        assert IsLeast(o, m', s);
      }
    }
  }

  predicate StrictlyAscending(o: Order, xs: seq<string>)
  {
    forall i, j :: 0 <= i < j < |xs| ==> Precedes(o, xs[i], xs[j])
  }

  /** `sorted(s)` (or `sorted(s, key=int)`): the elements of `s` in ascending order. */
  function SortedSet(o: Order, s: set<string>): (r: seq<string>)
    ensures |r| == |s|
    ensures forall x :: x in s <==> x in r
    ensures StrictlyAscending(o, r)
    decreases s
  {
    if s == {} then []
    else
      HasLeast(o, s);
      AllAsymmetric(o);
      var m :| IsLeast(o, m, s);
      var rest := SortedSet(o, s - {m});
      ConsAscending(o, m, rest, s);
      [m] + rest
  }

  /** The least element of a set, put before the ascending listing of the others, keeps it ascending. */
  lemma ConsAscending(o: Order, m: string, rest: seq<string>, s: set<string>)
    requires IsLeast(o, m, s) && StrictlyAscending(o, rest)
    requires forall x :: x in s - {m} <==> x in rest
    ensures StrictlyAscending(o, [m] + rest)
  {
    var xs := [m] + rest;
    forall i, j | 0 <= i < j < |xs|
      ensures Precedes(o, xs[i], xs[j])
    {
      assert xs[j] == rest[j - 1];
      if i > 0 {
        assert xs[i] == rest[i - 1];
      } else {
        assert xs[j] in s - {m};
      }
    }
  }

  /** A strictly ascending sequence has no repeated element. */
  lemma AscendingDistinct(o: Order, xs: seq<string>)
    requires StrictlyAscending(o, xs)
    ensures forall i, j :: 0 <= i < j < |xs| ==> xs[i] != xs[j]
  {
    forall i, j | 0 <= i < j < |xs| ensures xs[i] != xs[j] {
      PrecedesAsymmetric(o, xs[i], xs[j]);
    }
  }

  /** `sorted` of a set depends on the set only: equal sets give equal listings. */
  lemma {:induction false} AscendingUnique(o: Order, xs: seq<string>, ys: seq<string>)
    requires StrictlyAscending(o, xs) && StrictlyAscending(o, ys)
    requires |xs| == |ys| && forall x :: x in xs <==> x in ys
    ensures xs == ys
  {
    if xs != [] && ys != [] {
      assert xs[0] in ys && ys[0] in xs;
      if xs[0] != ys[0] {
        var i :| 0 <= i < |ys| && ys[i] == xs[0];
        var j :| 0 <= j < |xs| && xs[j] == ys[0];
        PrecedesAsymmetric(o, xs[0], ys[0]);
        assert false;
      }
      AscendingDistinct(o, xs);
      AscendingDistinct(o, ys);
      forall x ensures x in xs[1..] <==> x in ys[1..] {
        if x in xs[1..] {
          var k :| 1 <= k < |xs| && xs[k] == x;
          assert x in ys;
          var l :| 0 <= l < |ys| && ys[l] == x;
        }
        if x in ys[1..] {
          var k :| 1 <= k < |ys| && ys[k] == x;
          assert x in xs;
          var l :| 0 <= l < |xs| && xs[l] == x;
        }
      }
      AscendingUnique(o, xs[1..], ys[1..]);
    }
  }
}
