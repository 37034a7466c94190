/**
 * The pure part of `get_data` in `mal_notify_bot/utils/embeds.py`: turning
 * the MyAnimeList API's JSON answer for one anime into the values an embed
 * shows (title, image, synopsis, sfw flag, air date, status). The request
 * itself is not modelled; its answer is the `AnimeResponse` parameter.
 * The older `utils/embeds.py` shares the synopsis rule and decides sfw by
 * genre id; both are here.
 */
module AnimeData {
  import opened Wrappers
  import opened Text

  /** A JSON object member: absent, `null`, or present with a value. */
  datatype JsonField<T> = Missing | Null | Present(v: T)

  /**
   * `main_picture`; `None` stands for a key that is absent, `null` or an
   * empty string, all of which are falsy to the walrus tests.
   */
  datatype Pictures = Pictures(medium: Option<string>, large: Option<string>)

  /** One entry of `genres`: its `name` (v2 API) and its `mal_id` (Jikan). */
  datatype Genre = Genre(name: Option<string>, malId: int)

  datatype AnimeResponse = AnimeResponse(
    title: string,
    mainPicture: Option<Pictures>,
    synopsis: JsonField<string>,
    status: Option<string>,
    startDate: JsonField<string>,
    genres: seq<Genre>)

  /** The tuple `get_data` returns. */
  datatype AnimeDetails = AnimeDetails(
    name: string,
    image: Option<string>,
    synopsis: Option<string>,
    sfw: bool,
    airdate: Option<string>,
    status: Option<string>)

  /** MyAnimeList's default icon, which `get_data` treats as "no image". */
  const PlaceholderIcon: string := "https://myanimelist.cdn-dena.com/img/sp/icon/"

  /** The longest synopsis kept before it is cut, and what marks the cut. */
  const SynopsisLimit: nat := 400
  const Ellipsis: string := "..."
  const NoSynopsis: string := "No Synopsis"

  // ---------------------------------------------------------------------
  // _get_mal_image

  /** `_get_mal_image`: the medium picture, else the large one, else none. */
  function MalImage(pics: Option<Pictures>): (r: Option<string>)
    ensures r.Some? ==> r.value != []
    ensures r.Some? ==> pics.Some? && (r == pics.value.medium || r == pics.value.large)
    ensures pics.Some? && pics.value.medium.Some? && pics.value.medium.value != [] ==> r == pics.value.medium
  {
    match pics
    case None => None
    case Some(p) =>
      if p.medium.Some? && p.medium.value != [] then p.medium
      else if p.large.Some? && p.large.value != [] then p.large
      else None
  }

  // ---------------------------------------------------------------------
  // unslugify

  function Upper(c: char): char { if 'a' <= c <= 'z' then (c as int - 32) as char else c }
  function Lower(c: char): char { if 'A' <= c <= 'Z' then (c as int + 32) as char else c }

  function LowerAll(s: string): (r: string)
    ensures |r| == |s|
  {
    if s == [] then [] else [Lower(s[0])] + LowerAll(s[1..])
  }

  /** `str.capitalize` on ASCII: first character upper case, the rest lower case. */
  function Capitalize(w: string): (r: string)
    ensures |r| == |w|
  {
    if w == [] then [] else [Upper(w[0])] + LowerAll(w[1..])
  }

  /** Index of the first `c` in `s` at or after `from`, or `|s|`. */
  function IndexOf(s: string, c: char, from: nat): (i: nat)
    requires from <= |s|
    ensures from <= i <= |s| && (i < |s| ==> s[i] == c)
    ensures forall j :: from <= j < i ==> s[j] != c
    decreases |s| - from
  {
    if from == |s| || s[from] == c then from else IndexOf(s, c, from + 1)
  }

  /** `s.split(c)`: the pieces between occurrences of `c`, empty pieces included. */
  function SplitOn(s: string, c: char): (ps: seq<string>)
    ensures |ps| >= 1
    decreases |s|
  {
    var i := IndexOf(s, c, 0);
    if i == |s| then [s] else [s[..i]] + SplitOn(s[i + 1..], c)
  }

  function CapitalizeAll(ws: seq<string>): (r: seq<string>)
    ensures |r| == |ws|
  {
    if ws == [] then [] else [Capitalize(ws[0])] + CapitalizeAll(ws[1..])
  }

  /** `unslugify`: `" ".join(w.capitalize() for w in slug.split("_"))`. */
  function Unslugify(slug: string): string
  {
    Join(" ", CapitalizeAll(SplitOn(slug, '_')))
  }

  /**
   * The same text described character by character: `_` becomes a space,
   * a character that opens a word is upper-cased, any other is lower-cased.
   */
  function SlugChars(s: string, atStart: bool): (r: string)
    ensures |r| == |s|
  {
    if s == [] then []
    else
      var c := if s[0] == '_' then ' ' else if atStart then Upper(s[0]) else Lower(s[0]);
      [c] + SlugChars(s[1..], s[0] == '_')
  }

  lemma {:induction false} SlugCharsOfWord(w: string, atStart: bool)
    requires forall j :: 0 <= j < |w| ==> w[j] != '_'
    ensures SlugChars(w, atStart) == if atStart then Capitalize(w) else LowerAll(w)
  {
    if w != [] {
      SlugCharsOfWord(w[1..], false);
    }
  }

  lemma {:induction false} SlugCharsSplit(w: string, rest: string, atStart: bool)
    requires forall j :: 0 <= j < |w| ==> w[j] != '_'
    ensures SlugChars(w + "_" + rest, atStart) == SlugChars(w, atStart) + " " + SlugChars(rest, true)
  {
    if w == [] {
      assert w + "_" + rest == "_" + rest;
    } else {
      assert (w + "_" + rest)[1..] == w[1..] + "_" + rest;
      SlugCharsSplit(w[1..], rest, false);
    }
  }

  /** `unslugify` keeps the length, turns exactly the underscores into spaces and fixes the case of each word. */
  lemma {:induction false} UnslugifyPointwise(slug: string)
    ensures Unslugify(slug) == SlugChars(slug, true)
    decreases |slug|
  {
    var i := IndexOf(slug, '_', 0);
    if i == |slug| {
      SlugCharsOfWord(slug, true);
    } else {
      var w, rest := slug[..i], slug[i + 1..];
      assert slug == w + "_" + rest;
      SlugCharsSplit(w, rest, true);
      SlugCharsOfWord(w, true);
      UnslugifyPointwise(rest);
      var ws := SplitOn(rest, '_');
      assert SplitOn(slug, '_') == [w] + ws;
      assert CapitalizeAll([w] + ws) == [Capitalize(w)] + CapitalizeAll(ws);
    }
  }

  // ---------------------------------------------------------------------
  // Synopsis normalisation

  /** Index of the first non-whitespace character of `s` at or after `from`, or `|s|`. */
  function SpaceRunEnd(s: string, from: nat): (e: nat)
    requires from <= |s|
    ensures from <= e <= |s| && (e < |s| ==> !IsSpace(s[e]))
    ensures forall j :: from <= j < e ==> IsSpace(s[j])
    decreases |s| - from
  {
    if from == |s| || !IsSpace(s[from]) then from else SpaceRunEnd(s, from + 1)
  }

  /** The last newline in `s[lo..hi]`. */
  function LastNewline(s: string, lo: nat, hi: nat): (r: Option<nat>)
    requires lo <= hi <= |s|
    ensures r.Some? ==> lo <= r.value < hi && s[r.value] == '\n'
    ensures r.Some? ==> forall j :: r.value < j < hi ==> s[j] != '\n'
    ensures r.None? ==> forall j :: lo <= j < hi ==> s[j] != '\n'
    decreases hi - lo
  {
    if hi == lo then None else if s[hi - 1] == '\n' then Some(hi - 1) else LastNewline(s, lo, hi - 1)
  }

  /**
   * `re.sub(r"\n\s*\n", "\n", s)`: scanning left to right, a newline and the
   * whitespace after it up to the last newline of that run become one newline.
   */
  function CollapseBlankLines(s: string): string
    decreases |s|
  {
    if s == [] then []
    else if s[0] != '\n' then [s[0]] + CollapseBlankLines(s[1..])
    else
      var e := SpaceRunEnd(s, 1);
      match LastNewline(s, 1, e)
      case Some(k) => "\n" + CollapseBlankLines(s[k + 1..])
      case None => "\n" + CollapseBlankLines(s[1..])
  }

  /** Some character of `s[lo..hi]` is not whitespace. */
  predicate VisibleIn(s: string, lo: int, hi: int)
  {
    exists k :: lo <= k < hi && 0 <= k < |s| && !IsSpace(s[k])
  }

  /** `s` has no blank line: two newlines always have a visible character between them. */
  predicate NoBlankLine(s: string)
  {
    forall i, j :: 0 <= i < j < |s| && s[i] == '\n' && s[j] == '\n' ==> VisibleIn(s, i + 1, j)
  }

  /** `s` does not open with whitespace that contains a newline. */
  predicate CalmStart(s: string)
  {
    forall j :: 0 <= j < |s| && s[j] == '\n' ==> VisibleIn(s, 0, j)
  }

  lemma NoBlankCons(c: char, x: string)
    requires c != '\n' && NoBlankLine(x)
    ensures NoBlankLine([c] + x)
  {
    var s := [c] + x;
    forall i, j | 0 <= i < j < |s| && s[i] == '\n' && s[j] == '\n' ensures VisibleIn(s, i + 1, j) {
      assert s[0] == c && i >= 1;
      assert x[i - 1] == '\n' && x[j - 1] == '\n';
      assert VisibleIn(x, i, j - 1);
      var k :| i <= k < j - 1 && 0 <= k < |x| && !IsSpace(x[k]);
      assert s[k + 1] == x[k];
    }
  }

  lemma CalmCons(c: char, x: string)
    requires c != '\n' && (CalmStart(x) || !IsSpace(c))
    ensures CalmStart([c] + x)
  {
    var s := [c] + x;
    forall j | 0 <= j < |s| && s[j] == '\n' ensures VisibleIn(s, 0, j) {
      assert s[0] == c && j >= 1;
      if !IsSpace(c) {
        assert !IsSpace(s[0]);
      } else {
        assert x[j - 1] == '\n';
        assert VisibleIn(x, 0, j - 1);
        var k :| 0 <= k < j - 1 && k < |x| && !IsSpace(x[k]);
        assert s[k + 1] == x[k];
      }
    }
  }

  lemma CalmTail(t: string)
    requires t != [] && IsSpace(t[0]) && CalmStart(t)
    ensures CalmStart(t[1..])
  {
    var u := t[1..];
    forall j | 0 <= j < |u| && u[j] == '\n' ensures VisibleIn(u, 0, j) {
      assert t[j + 1] == '\n';
      assert VisibleIn(t, 0, j + 1);
      var k :| 0 <= k < j + 1 && k < |t| && !IsSpace(t[k]);
      assert k >= 1;
      assert u[k - 1] == t[k];
    }
  }

  lemma NoBlankNewline(x: string)
    requires NoBlankLine(x) && CalmStart(x)
    ensures NoBlankLine("\n" + x)
  {
    var s := "\n" + x;
    forall i, j | 0 <= i < j < |s| && s[i] == '\n' && s[j] == '\n' ensures VisibleIn(s, i + 1, j) {
      assert x[j - 1] == s[j];
      if i == 0 {
        assert VisibleIn(x, 0, j - 1);
        var k :| 0 <= k < j - 1 && k < |x| && !IsSpace(x[k]);
        assert s[k + 1] == x[k];
      } else {
        assert x[i - 1] == s[i];
        assert VisibleIn(x, i, j - 1);
        var k :| i <= k < j - 1 && k < |x| && !IsSpace(x[k]);
        assert s[k + 1] == x[k];
      }
    }
  }

  /** A text that does not open with a blank run still does not after collapsing. */
  lemma {:induction false} CollapseKeepsCalmStart(t: string)
    requires CalmStart(t)
    ensures CalmStart(CollapseBlankLines(t))
    decreases |t|
  {
    if t != [] {
      assert t[0] != '\n' by {
        assert !VisibleIn(t, 0, 0);
      }
      if IsSpace(t[0]) {
        CalmTail(t);
        CollapseKeepsCalmStart(t[1..]);
      }
      CalmCons(t[0], CollapseBlankLines(t[1..]));
    }
  }

  /** What follows a collapsed run is newline-free whitespace and then a visible character. */
  lemma CalmAfterRun(s: string, m: nat, e: nat)
    requires 1 <= m <= e <= |s|
    requires forall j :: m <= j < e ==> s[j] != '\n'
    requires e < |s| ==> !IsSpace(s[e])
    ensures CalmStart(s[m..])
  {
    var u := s[m..];
    forall j | 0 <= j < |u| && u[j] == '\n' ensures VisibleIn(u, 0, j) {
      assert s[m + j] == '\n';
      assert m + j > e;
      assert u[e - m] == s[e];
    }
  }

  /** After `re.sub(r"\n\s*\n", "\n", ...)` no blank line is left. */
  lemma {:induction false} CollapseNoBlankLine(s: string)
    ensures NoBlankLine(CollapseBlankLines(s))
    decreases |s|
  {
    if s == [] {
    } else if s[0] != '\n' {
      CollapseNoBlankLine(s[1..]);
      NoBlankCons(s[0], CollapseBlankLines(s[1..]));
    } else {
      var e := SpaceRunEnd(s, 1);
      var m := match LastNewline(s, 1, e) case Some(k) => k + 1 case None => 1;
      assert CollapseBlankLines(s) == "\n" + CollapseBlankLines(s[m..]);
      CalmAfterRun(s, m, e);
      CollapseNoBlankLine(s[m..]);
      CollapseKeepsCalmStart(s[m..]);
      NoBlankNewline(CollapseBlankLines(s[m..]));
    }
  }

  /** Collapsing only ever writes characters of its input or newlines. */
  lemma {:induction false} CollapseChars(s: string, c: char)
    requires c != '\n' && c !in s
    ensures c !in CollapseBlankLines(s)
    decreases |s|
  {
    if s != [] {
      if s[0] != '\n' {
        CollapseChars(s[1..], c);
      } else {
        var e := SpaceRunEnd(s, 1);
        var m := match LastNewline(s, 1, e) case Some(k) => k + 1 case None => 1;
        assert CollapseBlankLines(s) == "\n" + CollapseBlankLines(s[m..]);
        assert forall x :: x in s[m..] ==> x in s;
        CollapseChars(s[m..], c);
      }
    }
  }

  /** `s.replace("\r", "")`. */
  function RemoveCarriageReturns(s: string): (r: string)
    ensures '\r' !in r
    ensures forall c :: c != '\r' ==> (c in r <==> c in s)
  {
    if s == [] then [] else (if s[0] == '\r' then [] else [s[0]]) + RemoveCarriageReturns(s[1..])
  }

  /** The cut applied to a synopsis over 400 characters. */
  function CutSynopsis(t: string): string
  {
    if |t| > SynopsisLimit then Strip(t[..SynopsisLimit]) + Ellipsis else t
  }

  function FinishSynopsis(t: string): string
  {
    var u := CutSynopsis(t);
    if Strip(u) == "" then NoSynopsis else u
  }

  /**
   * The synopsis rule as written: collapse blank lines in the stripped text,
   * strip again, cut to 400 characters plus `...`, and replace a blank result
   * by `No Synopsis`. The call `synopsis.replace("\r", "")` that precedes it
   * throws its result away, so carriage returns are not removed.
   */
  function NormaliseSynopsisAsWritten(raw: Option<string>): Option<string>
  {
    match raw
    case None => None
    case Some(s) => Some(FinishSynopsis(Strip(CollapseBlankLines(Strip(s)))))
  }

  /** The evidently intended rule: carriage returns are removed first. */
  function NormaliseSynopsis(raw: Option<string>): Option<string>
  {
    match raw
    case None => None
    case Some(s) => Some(FinishSynopsis(Prepared(s)))
  }

  /** A carriage return survives the rule as written: `"a\r\nb"` keeps its `\r`. */
  lemma CarriageReturnSurvives()
    ensures NormaliseSynopsisAsWritten(Some("a\r\nb")) == Some("a\r\nb")
  {
    var s := "a\r\nb";
    StripNoOp(s);
    assert CollapseBlankLines("\nb") == "\nb" by {
      var t := "\nb";
      assert SpaceRunEnd(t, 1) == 1;
      assert CollapseBlankLines("b") == "b";
    }
    assert CollapseBlankLines(s) == s by {
      assert CollapseBlankLines("\r\nb") == "\r" + CollapseBlankLines("\nb");
    }
    StripNoOp(s);
  }

  lemma StripKeepsNoBlank(t: string)
    requires NoBlankLine(t)
    ensures NoBlankLine(Strip(t))
  {
    var k := StripWithin(t);
    SliceKeepsNoBlank(t, k, k + |Strip(t)|, Strip(t));
  }

  lemma StripWithin(t: string) returns (k: nat)
    ensures k + |Strip(t)| <= |t| && Strip(t) == t[k..k + |Strip(t)|]
  {
    StripSlice(t);
    k := |t| - |LStrip(t)|;
  }

  lemma SliceKeepsNoBlank(t: string, a: nat, b: nat, s: string)
    requires a <= b <= |t| && s == t[a..b] && NoBlankLine(t)
    ensures NoBlankLine(s)
  {
    forall i, j | 0 <= i < j < |s| && s[i] == '\n' && s[j] == '\n' ensures VisibleIn(s, i + 1, j) {
      assert t[a + i] == s[i] && t[a + j] == s[j];
      assert VisibleIn(t, a + i + 1, a + j);
      var k :| a + i + 1 <= k < a + j && 0 <= k < |t| && !IsSpace(t[k]);
      assert s[k - a] == t[k];
    }
  }

  lemma AppendKeepsNoBlank(t: string, x: string)
    requires NoBlankLine(t) && forall k :: 0 <= k < |x| ==> x[k] != '\n'
    ensures NoBlankLine(t + x)
  {
    var s := t + x;
    forall i, j | 0 <= i < j < |s| && s[i] == '\n' && s[j] == '\n' ensures VisibleIn(s, i + 1, j) {
      assert j < |t|;
      assert t[i] == s[i] && t[j] == s[j];
      assert VisibleIn(t, i + 1, j);
      var k :| i + 1 <= k < j && 0 <= k < |t| && !IsSpace(t[k]);
      assert s[k] == t[k];
    }
  }

  lemma StripEllipsisNotBlank(x: string)
    ensures Strip(x + Ellipsis) != ""
  {
    var s := x + Ellipsis;
    StripEmpty(s);
    assert !IsSpace(s[|s| - 1]);
  }

  /** `No Synopsis` is its own strip and has no blank line. */
  lemma NoSynopsisFacts()
    ensures Strip(NoSynopsis) == NoSynopsis
    ensures NoBlankLine(NoSynopsis)
  {
    NoSynopsisStrip();
    NoSynopsisNoBlank();
  }

  lemma NoSynopsisNoBlank()
    ensures NoBlankLine(NoSynopsis)
  {
    NoSynopsisChars();
    NoNewlineNoBlank(NoSynopsis);
  }

  lemma NoSynopsisStrip()
    ensures Strip(NoSynopsis) == NoSynopsis
  {
    var s := NoSynopsis;
    assert s[0] == 'N' && s[|s| - 1] == 's';
    StripNoOp(s);
  }

  /** `No Synopsis` has no newline and no carriage return. */
  lemma NoSynopsisChars()
    ensures forall i :: 0 <= i < |NoSynopsis| ==> NoSynopsis[i] != '\n' && NoSynopsis[i] != '\r'
  {
  }

  /** A text without a newline has no blank line. */
  lemma NoNewlineNoBlank(s: string)
    requires forall i :: 0 <= i < |s| ==> s[i] != '\n'
    ensures NoBlankLine(s)
  {
  }

  lemma StripKeepsChar(t: string, c: char)
    requires c !in t
    ensures c !in Strip(t)
  {
    var k := StripWithin(t);
    assert forall x :: x in t[k..k + |Strip(t)|] ==> x in t;
  }

  /** The cut of a long text: at most 403 characters, ending in `...`, still without blank lines. */
  lemma LongCutFacts(t: string)
    requires |t| > SynopsisLimit && NoBlankLine(t)
    ensures |CutSynopsis(t)| <= SynopsisLimit + |Ellipsis|
    ensures Strip(CutSynopsis(t)) != ""
    ensures NoBlankLine(CutSynopsis(t))
  {
    LongCutNoBlank(t);
    StripEllipsisNotBlank(Strip(t[..SynopsisLimit]));
  }

  lemma LongCutNoBlank(t: string)
    requires |t| > SynopsisLimit && NoBlankLine(t)
    ensures NoBlankLine(Strip(t[..SynopsisLimit]) + Ellipsis)
  {
    var p := t[..SynopsisLimit];
    SliceKeepsNoBlank(t, 0, SynopsisLimit, p);
    StripKeepsNoBlank(p);
    AppendKeepsNoBlank(Strip(p), Ellipsis);
  }

  lemma CutKeepsChar(t: string, c: char)
    requires c !in t && c != '.'
    ensures c !in CutSynopsis(t)
  {
    if |t| > SynopsisLimit {
      var p := t[..SynopsisLimit];
      assert forall x :: x in p ==> x in t;
      StripKeepsChar(p, c);
    }
  }

  /** What the final step promises of any text without a blank line. */
  lemma FinishSynopsisFacts(t: string)
    requires NoBlankLine(t)
    ensures |FinishSynopsis(t)| <= SynopsisLimit + |Ellipsis|
    ensures Strip(FinishSynopsis(t)) != ""
    ensures NoBlankLine(FinishSynopsis(t))
  {
    var u := CutSynopsis(t);
    if |t| > SynopsisLimit {
      LongCutFacts(t);
    }
    if Strip(u) == "" {
      NoSynopsisFacts();
    }
  }

  lemma FinishKeepsCarriageReturnOut(t: string)
    requires '\r' !in t
    ensures '\r' !in FinishSynopsis(t)
  {
    CutKeepsChar(t, '\r');
    NoSynopsisChars();
  }

  /** What enters the last step of the corrected rule. */
  function Prepared(s: string): string
  {
    Strip(CollapseBlankLines(Strip(RemoveCarriageReturns(s))))
  }

  lemma PreparedFacts(s: string)
    ensures NoBlankLine(Prepared(s)) && '\r' !in Prepared(s)
  {
    var s0 := RemoveCarriageReturns(s);
    var c := CollapseBlankLines(Strip(s0));
    CollapseNoBlankLine(Strip(s0));
    StripKeepsNoBlank(c);
    StripKeepsChar(s0, '\r');
    CollapseChars(Strip(s0), '\r');
    StripKeepsChar(c, '\r');
  }

  /**
   * The synopsis an embed receives: `null` stays `None`; any text comes out
   * at most 403 characters long, never blank, without a blank line and
   * without a carriage return; a blank text becomes `No Synopsis`.
   */
  lemma NormaliseSynopsisFacts(raw: Option<string>)
    ensures NormaliseSynopsis(raw).None? <==> raw.None?
    ensures raw.Some? ==> var r := NormaliseSynopsis(raw).value;
      && |r| <= SynopsisLimit + |Ellipsis|
      && Strip(r) != ""
      && NoBlankLine(r)
      && '\r' !in r
    ensures raw.Some? && Strip(raw.value) == "" ==> NormaliseSynopsis(raw) == Some(NoSynopsis)
  {
    if raw.Some? {
      var t := Prepared(raw.value);
      assert NormaliseSynopsis(raw) == Some(FinishSynopsis(t));
      PreparedFacts(raw.value);
      FinishSynopsisFacts(t);
      FinishKeepsCarriageReturnOut(t);
      if Strip(raw.value) == "" {
        BlankStaysBlank(raw.value);
      }
    }
  }

  /**
   * What the rule as written still promises: the same as the corrected
   * rule, except that a carriage return may remain.
   */
  lemma NormaliseAsWrittenFacts(raw: Option<string>)
    ensures NormaliseSynopsisAsWritten(raw).None? <==> raw.None?
    ensures raw.Some? ==> var r := NormaliseSynopsisAsWritten(raw).value;
      && |r| <= SynopsisLimit + |Ellipsis|
      && Strip(r) != ""
      && NoBlankLine(r)
    ensures raw.Some? && Strip(raw.value) == "" ==> NormaliseSynopsisAsWritten(raw) == Some(NoSynopsis)
  {
    if raw.Some? {
      var c := CollapseBlankLines(Strip(raw.value));
      CollapseNoBlankLine(Strip(raw.value));
      StripKeepsNoBlank(c);
      FinishSynopsisFacts(Strip(c));
      if Strip(raw.value) == "" {
        assert c == "";
        assert Strip(c) == "";
      }
    }
  }

  /** The two rules agree on every synopsis without a carriage return. */
  lemma NormaliseAgrees(raw: Option<string>)
    ensures raw.None? || '\r' !in raw.value ==> NormaliseSynopsisAsWritten(raw) == NormaliseSynopsis(raw)
  {
    if raw.Some? && '\r' !in raw.value {
      var s := raw.value;
      forall i | 0 <= i < |s| ensures s[i] != '\r' { assert s[i] in s; }
      NoCarriageReturnKept(s);
    }
  }

  lemma BlankStaysBlank(s: string)
    requires Strip(s) == ""
    ensures FinishSynopsis(Prepared(s)) == NoSynopsis
  {
    StripEmpty(s);
    var s0 := RemoveCarriageReturns(s);
    NoSpaceWitness(s0);
    StripEmpty(s0);
    assert CollapseBlankLines(Strip(s0)) == "";
    assert Prepared(s) == "";
  }

  lemma NoSpaceWitness(s0: string)
    requires forall c :: c in s0 ==> IsSpace(c)
    ensures forall i :: 0 <= i < |s0| ==> IsSpace(s0[i])
  {
    forall i | 0 <= i < |s0| ensures IsSpace(s0[i]) { assert s0[i] in s0; }
  }

  // ---------------------------------------------------------------------
  // sfw

  /** `"Hentai" not in [g.get("name") for g in genres]`. */
  predicate IsSfw(genres: seq<Genre>)
  {
    forall k :: 0 <= k < |genres| ==> genres[k].name != Some("Hentai")
  }

  /** The genre id the Jikan variant tests for, and its rule `12 not in [g['mal_id'] ...]`. */
  const HentaiGenreId: int := 12

  predicate IsSfwByGenreId(genres: seq<Genre>)
  {
    forall k :: 0 <= k < |genres| ==> genres[k].malId != HentaiGenreId
  }

  // ---------------------------------------------------------------------
  // get_data

  /** `resp.get(key, default)` for a string member. */
  function GetOr(f: JsonField<string>, default: string): Option<string>
  {
    match f
    case Missing => Some(default)
    case Null => None
    case Present(v) => Some(v)
  }

  /**
   * The synopsis `get_data` returns, by the rule as written:
   * `resp.get("synopsis", "No Synopsis")`, then normalised.
   */
  function SynopsisOf(f: JsonField<string>): (r: Option<string>)
    ensures f.Missing? ==> r == Some(NoSynopsis)
    ensures f.Null? <==> r.None?
    ensures r.Some? ==> |r.value| <= SynopsisLimit + |Ellipsis| && Strip(r.value) != "" && NoBlankLine(r.value)
  {
    NormaliseNoSynopsis();
    NormaliseAsWrittenFacts(GetOr(f, NoSynopsis));
    NormaliseSynopsisAsWritten(GetOr(f, NoSynopsis))
  }

  /** The same with the evidently intended rule: no carriage return remains. */
  function SynopsisOfCorrected(f: JsonField<string>): (r: Option<string>)
    ensures f.Missing? ==> r == Some(NoSynopsis)
    ensures f.Null? <==> r.None?
    ensures r.Some? ==> |r.value| <= SynopsisLimit + |Ellipsis| && Strip(r.value) != "" && NoBlankLine(r.value)
    ensures r.Some? ==> '\r' !in r.value
    ensures !(f.Present? && '\r' in f.v) ==> r == SynopsisOf(f)
  {
    NormaliseNoSynopsis();
    NormaliseSynopsisFacts(GetOr(f, NoSynopsis));
    NormaliseAgrees(GetOr(f, NoSynopsis));
    NormaliseSynopsis(GetOr(f, NoSynopsis))
  }

  /**
   * `get_data` after the request, as written: the image unless asked to
   * ignore it or it is the placeholder icon, the synopsis by the rule as
   * written (carriage returns kept), the unslugified status (`Unknown` when
   * absent), the start date (`No Air Date` when absent) and whether no
   * genre is named `Hentai`.
   */
  function GetData(resp: AnimeResponse, ignoreImage: bool): (d: AnimeDetails)
    ensures d.name == resp.title
    ensures ignoreImage ==> d.image.None?
    ensures d.image.Some? ==> !StartsWith(d.image.value, PlaceholderIcon) && d.image == MalImage(resp.mainPicture)
    ensures d.sfw <==> forall k :: 0 <= k < |resp.genres| ==> resp.genres[k].name != Some("Hentai")
    ensures d.status.Some?
    ensures resp.synopsis.Missing? ==> d.synopsis == Some(NoSynopsis)
    ensures resp.synopsis.Null? <==> d.synopsis.None?
    ensures d.synopsis.Some? ==>
      |d.synopsis.value| <= SynopsisLimit + |Ellipsis| && Strip(d.synopsis.value) != "" && NoBlankLine(d.synopsis.value)
  {
    var image := if ignoreImage then None else MalImage(resp.mainPicture);
    var image := if image.Some? && StartsWith(image.value, PlaceholderIcon) then None else image;
    AnimeDetails(
      resp.title,
      image,
      SynopsisOf(resp.synopsis),
      IsSfw(resp.genres),
      GetOr(resp.startDate, "No Air Date"),
      Some(Unslugify(if resp.status.Some? then resp.status.value else "Unknown")))
  }

  /**
   * `get_data` with the evidently intended synopsis rule: every other part
   * of the answer is as before; the two agree unless the synopsis holds a
   * carriage return.
   */
  function GetDataCorrected(resp: AnimeResponse, ignoreImage: bool): (d: AnimeDetails)
    ensures d == GetData(resp, ignoreImage).(synopsis := d.synopsis)
    ensures d.synopsis.Some? ==> '\r' !in d.synopsis.value
    ensures !(resp.synopsis.Present? && '\r' in resp.synopsis.v) ==> d == GetData(resp, ignoreImage)
  {
    GetData(resp, ignoreImage).(synopsis := SynopsisOfCorrected(resp.synopsis))
  }

  lemma NormaliseNoSynopsis()
    ensures NormaliseSynopsis(Some(NoSynopsis)) == Some(NoSynopsis)
    ensures NormaliseSynopsisAsWritten(Some(NoSynopsis)) == Some(NoSynopsis)
  {
    NormaliseAsWrittenNoSynopsis();
    NoSynopsisChars();
    NoCarriageReturnKept(NoSynopsis);
  }

  lemma NormaliseAsWrittenNoSynopsis()
    ensures NormaliseSynopsisAsWritten(Some(NoSynopsis)) == Some(NoSynopsis)
  {
    var s := NoSynopsis;
    NoSynopsisFacts();
    NoSynopsisChars();
    NoNewlineCollapse(s);
    assert Strip(CollapseBlankLines(Strip(s))) == s;
  }

  lemma {:induction false} NoCarriageReturnKept(s: string)
    requires forall i :: 0 <= i < |s| ==> s[i] != '\r'
    ensures RemoveCarriageReturns(s) == s
  {
    if s != [] {
      NoCarriageReturnKept(s[1..]);
    }
  }

  lemma {:induction false} NoNewlineCollapse(s: string)
    requires forall i :: 0 <= i < |s| ==> s[i] != '\n'
    ensures CollapseBlankLines(s) == s
  {
    if s != [] {
      NoNewlineCollapse(s[1..]);
    }
  }
}
