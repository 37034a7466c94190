/**
 * The string helpers of the bot's `utils` package: pulling a MyAnimeList id
 * out of an anime URL, undoing Discord's `<link>` embed suppression,
 * shortening log text, and the call counter that numbers logged calls.
 * The older `utils/__init__.py` has the same `extract_mal_id_from_url`,
 * `remove_discord_link_supression` and `uuid`; these members model both.
 */
module MalUtils {
  import opened Wrappers
  import opened Text

  /** The literal part of the pattern `https:\/\/myanimelist\.net\/anime\/(\d+)`. */
  const AnimePrefix: string := "https://myanimelist.net/anime/"

  /** `"https://myanimelist.net/anime/{}".format(id)`. */
  function AnimeUrl(id: nat): string
  {
    AnimePrefix + NatToString(id)
  }

  /** The pattern matches at `i`: the prefix, then at least one digit. */
  predicate MatchesAt(url: string, i: nat)
  {
    i + |AnimePrefix| < |url| && url[i..i + |AnimePrefix|] == AnimePrefix && IsDigit(url[i + |AnimePrefix|])
  }

  /** `\d+` taken greedily: the longest run of digits at the start of `s`. */
  function DigitRun(s: string): (r: string)
    ensures |r| <= |s| && r == s[..|r|] && AllDigits(r)
    ensures |r| == |s| || !IsDigit(s[|r|])
  {
    if s != [] && IsDigit(s[0]) then [s[0]] + DigitRun(s[1..]) else []
  }

  predicate IsFirstMatch(url: string, i: nat)
  {
    MatchesAt(url, i) && forall j: nat :: j < i ==> !MatchesAt(url, j)
  }

  /** The leftmost position at or after `from` where the pattern matches. */
  function FirstMatchFrom(url: string, from: nat): (r: Option<nat>)
    ensures r.Some? ==> from <= r.value && MatchesAt(url, r.value)
    ensures r.Some? ==> forall j: nat :: from <= j < r.value ==> !MatchesAt(url, j)
    ensures r.None? ==> forall j: nat :: from <= j ==> !MatchesAt(url, j)
    decreases |url| - from
  {
    if from + |AnimePrefix| >= |url| then None
    else if MatchesAt(url, from) then Some(from)
    else FirstMatchFrom(url, from + 1)
  }

  /**
   * `extract_mal_id_from_url`: `re.findall(...)[0]`, the digits of the
   * leftmost match, or `None` when the pattern does not occur.
   */
  function ExtractMalId(url: string): (r: Option<string>)
    ensures r.Some? ==> r.value != [] && AllDigits(r.value)
  {
    match FirstMatchFrom(url, 0)
    case None => None
    case Some(i) =>
      var run := DigitRun(url[i + |AnimePrefix|..]);
      assert run[0] == url[i + |AnimePrefix|];
      Some(run)
  }

  /** An id is found exactly when the pattern occurs, and it is the digit run of the leftmost match. */
  lemma ExtractMalIdFacts(url: string)
    ensures ExtractMalId(url).None? <==> forall j: nat :: !MatchesAt(url, j)
    ensures ExtractMalId(url).Some? ==>
      exists i: nat :: IsFirstMatch(url, i) && ExtractMalId(url).value == DigitRun(url[i + |AnimePrefix|..])
  {
    var m := FirstMatchFrom(url, 0);
    if m.Some? {
      assert IsFirstMatch(url, m.value);
    }
  }

  /** The doctest: `extract_mal_id_from_url("https://myanimelist.net/anime/5") == '5'`. */
  lemma ExtractDoctest()
    ensures ExtractMalId("https://myanimelist.net/anime/5") == Some("5")
  {
    var url := "https://myanimelist.net/anime/5";
    assert url == AnimePrefix + "5";
    assert MatchesAt(url, 0);
    assert DigitRun(url[|AnimePrefix|..]) == "5";
  }

  /** The id written into an anime URL is the id read back out of it. */
  lemma ExtractAnimeUrl(id: nat)
    ensures ExtractMalId(AnimeUrl(id)) == Some(NatToString(id))
  {
    var url := AnimeUrl(id);
    var digits := NatToString(id);
    assert url[..|AnimePrefix|] == AnimePrefix;
    assert url[|AnimePrefix|..] == digits;
    assert MatchesAt(url, 0);
    AllDigitsRun(digits);
  }

  lemma {:induction false} AllDigitsRun(s: string)
    requires AllDigits(s)
    ensures DigitRun(s) == s
  {
    if s != [] {
      AllDigitsRun(s[1..]);
    }
  }

  /**
   * `remove_discord_link_supression`: strip whitespace, then drop one
   * leading `<` and one trailing `>`, but only when both are there.
   */
  function RemoveLinkSuppression(link: string): (r: string)
    ensures |r| <= |link|
    ensures StartsWith(Strip(link), "<") && EndsWith(Strip(link), ">") ==> Strip(link) == "<" + r + ">"
    ensures !(StartsWith(Strip(link), "<") && EndsWith(Strip(link), ">")) ==> r == Strip(link)
  {
    var t := Strip(link);
    if StartsWith(t, "<") && EndsWith(t, ">") then t[1..|t| - 1] else t
  }

  /** One layer of `<...>` comes off, whatever is inside and whatever whitespace is around it. */
  lemma UnwrapSuppressed(before: string, x: string, after: string)
    requires forall i :: 0 <= i < |before| ==> IsSpace(before[i])
    requires forall i :: 0 <= i < |after| ==> IsSpace(after[i])
    ensures RemoveLinkSuppression(before + "<" + x + ">" + after) == x
  {
    var t := "<" + x + ">";
    assert before + "<" + x + ">" + after == before + t + after;
    StripAround(before, t, after);
    assert StartsWith(t, "<") && EndsWith(t, ">");
    assert t[1..|t| - 1] == x;
  }

  lemma StripAround(before: string, t: string, after: string)
    requires t != [] && !IsSpace(t[0]) && !IsSpace(t[|t| - 1])
    requires forall i :: 0 <= i < |before| ==> IsSpace(before[i])
    requires forall i :: 0 <= i < |after| ==> IsSpace(after[i])
    ensures Strip(before + t + after) == t
  {
    var s := before + t + after;
    LStripSkips(before, t + after);
    assert s == before + (t + after);
    RStripSkips(t, after);
  }

  lemma {:induction false} LStripSkips(ws: string, rest: string)
    requires forall i :: 0 <= i < |ws| ==> IsSpace(ws[i])
    requires rest != [] && !IsSpace(rest[0])
    ensures LStrip(ws + rest) == rest
  {
    if ws != [] {
      assert (ws + rest)[1..] == ws[1..] + rest;
      LStripSkips(ws[1..], rest);
    }
  }

  lemma {:induction false} RStripSkips(body: string, ws: string)
    requires forall i :: 0 <= i < |ws| ==> IsSpace(ws[i])
    requires body != [] && !IsSpace(body[|body| - 1])
    ensures RStrip(body + ws) == body
  {
    if ws != [] {
      assert (body + ws)[..|body + ws| - 1] == body + ws[..|ws| - 1];
      RStripSkips(body, ws[..|ws| - 1]);
    } else {
      assert body + ws == body;
    }
  }

  /** Only one layer comes off: `<<a>>` becomes `<a>`. */
  lemma OnlyOneLayer()
    ensures RemoveLinkSuppression("<<a>>") == "<a>"
  {
    var s := "<<a>>";
    assert s == "" + "<" + "<a>" + ">" + "";
    UnwrapSuppressed("", "<a>", "");
  }

  /** A half-wrapped link is only stripped: `<a` stays `<a`. */
  lemma HalfWrappedKept(x: string)
    requires x != [] && !IsSpace(x[|x| - 1]) && x[|x| - 1] != '>'
    ensures RemoveLinkSuppression("<" + x) == "<" + x
  {
    var t := "<" + x;
    assert t[0] == '<' && t[|t| - 1] == x[|x| - 1];
    assert !IsSpace(t[0]);
    StripNoOp(t);
    assert Strip(t) == t;
    assert t[|t| - 1..] == [x[|x| - 1]];
    assert !EndsWith(t, ">");
  }

  /**
   * `truncate(obj, limit)` on the text `repr(obj)`: unchanged when shorter
   * than `limit`, otherwise `repr(obj)[:limit] + "... (truncated)"`, with
   * Python's slice rule for a negative `limit`.
   */
  function Truncate(repr: string, limit: int): (r: string)
    ensures |repr| < limit ==> r == repr
    ensures 0 <= limit <= |repr| ==> r == repr[..limit] + "... (truncated)" && |r| == limit + 15
    ensures limit < 0 ==> r == repr[..if |repr| + limit < 0 then 0 else |repr| + limit] + "... (truncated)"
  {
    if |repr| < limit then repr
    else
      var cut := if limit >= 0 then limit else if |repr| + limit < 0 then 0 else |repr| + limit;
      repr[..cut] + "... (truncated)"
  }

  /**
   * For a non-negative limit the output is the input, shorter than the
   * limit, or exactly `limit + 15` long: the first `limit` characters and
   * then the `... (truncated)` marker.
   */
  lemma TruncateLength(repr: string, limit: nat)
    ensures var r := Truncate(repr, limit);
      (r == repr && |r| < limit)
      || (|r| == limit + 15 && StartsWith(r, repr[..limit]) && EndsWith(r, "... (truncated)"))
  {
  }

  /**
   * `uuid`: the class-level counter `_id` that the `log` decorator uses to
   * number calls. One instance of this class stands for the class itself.
   */
  class CallCounter {
    var id: int

    /** The counter starts at 0. */
    constructor ()
      ensures id == 0
    {
      id := 0;
    }

    /** `uuid.get()`. */
    method Get() returns (r: int)
      ensures r == id
    {
      r := id;
    }

    /** `uuid.get_and_increment()`: adds one, then returns the new value. */
    method GetAndIncrement() returns (r: int)
      modifies this
      ensures id == old(id) + 1 && r == id
    {
      id := id + 1;
      r := id;
    }
  }

  /**
   * The ids that `n` successive `@log`-wrapped calls receive: consecutive
   * numbers after the counter's value, so each is larger than the one before.
   */
  method LogCallIds(counter: CallCounter, n: nat) returns (ids: seq<int>)
    modifies counter
    ensures |ids| == n && counter.id == old(counter.id) + n
    ensures forall k :: 0 <= k < n ==> ids[k] == old(counter.id) + k + 1
    ensures forall j, k :: 0 <= j < k < n ==> ids[j] < ids[k]
  {
    ids := [];
    while |ids| < n
      invariant |ids| <= n && counter.id == old(counter.id) + |ids|
      invariant forall k :: 0 <= k < |ids| ==> ids[k] == old(counter.id) + k + 1
    {
      var next := counter.GetAndIncrement();
      ids := ids + [next];
    }
  }
}
