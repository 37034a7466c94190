/**
 * The scraper cycle of mal.py (`loop`): it compares the cached catalog
 * ids with the "old" file and leaves the announcements for the bot of
 * bot.py in the "new" file. The two files are the state the scraper and
 * the bot share; the catalog and what `create_embed` scrapes are inputs.
 *
 * As written, mal.py calls `create_embed(int(new_id), logger)`, but the
 * `create_embed` it imports from embeds.py takes `(mal_id, crawler,
 * logger)`, so the call raises `TypeError` at the first new id.
 * `CycleAsWritten` models that; `CycleSpec`, `Pickles`, `MakePickles` and
 * `Loop` model the cycle with the call given its crawler.
 */
module LegacyCycle {
  import opened Wrappers
  import opened Text
  import opened AnimeData
  import opened EmbedModel
  import opened SeenSet
  import LegacyEmbeds

  /**
   * The two files: "old" holds the catalog ids of the previous cycle, one
   * per line; "new" holds the pickled batch of `(embed, sfw)` pairs that
   * the bot has not posted yet. `None` is a file that does not exist.
   */
  class Files {
    var oldFile: Option<string>
    var newFile: Option<seq<(Embed, bool)>>

    constructor (oldFile: Option<string>, newFile: Option<seq<(Embed, bool)>>)
      ensures this.oldFile == oldFile && this.newFile == newFile
    {
      this.oldFile := oldFile;
      this.newFile := newFile;
    }
  }

  /** `set(ids)`. */
  function SetOf(ids: seq<nat>): (r: set<nat>)
    ensures forall x :: x in r <==> x in ids
  {
    if ids == [] then {} else {ids[0]} + SetOf(ids[1..])
  }

  /** `map(str, ids)`. */
  function IdStrings(ids: seq<nat>): (r: seq<string>)
    ensures |r| == |ids|
    ensures forall k :: 0 <= k < |ids| ==> r[k] == NatToString(ids[k])
  {
    if ids == [] then [] else [NatToString(ids[0])] + IdStrings(ids[1..])
  }

  /** What the cycle writes to "old": `"\n".join(map(str, ids))`. */
  function IdsText(ids: seq<nat>): string
  {
    Join("\n", IdStrings(ids))
  }

  /** A line `int` accepts: a numeral, possibly with whitespace around it. */
  predicate IsIntLine(l: string)
  {
    IsNumeral(Strip(l))
  }

  /** The values of the lines `int` accepts. */
  function ValuesOf(lines: seq<string>): set<nat>
  {
    if lines == [] then {}
    else (if IsIntLine(lines[0]) then {DigitsValue(Strip(lines[0]))} else {}) + ValuesOf(lines[1..])
  }

  /**
   * Reading "old": `list(map(int, text.strip().splitlines()))`, kept as a
   * set since the cycle only takes `set(old_ids)`. `int` raises
   * `ValueError` on a line that is not a numeral.
   */
  function ParseOld(text: string): Result<set<nat>, string>
  {
    var lines := SplitLines(Strip(text));
    if forall k :: 0 <= k < |lines| ==> IsIntLine(lines[k]) then Ok(ValuesOf(lines))
    else Err("ValueError")
  }

  /** A read fails exactly when some line is not a numeral; otherwise it holds the lines' values. */
  lemma {:induction false} ParseOldFacts(text: string)
    ensures ParseOld(text).Err? <==> exists l :: l in SplitLines(Strip(text)) && !IsIntLine(l)
    ensures ParseOld(text).Ok? ==> forall x :: x in ParseOld(text).value <==>
      exists l :: l in SplitLines(Strip(text)) && IsIntLine(l) && DigitsValue(Strip(l)) == x
  {
    var lines := SplitLines(Strip(text));
    if ParseOld(text).Err? {
      var k :| 0 <= k < |lines| && !IsIntLine(lines[k]);
      assert lines[k] in lines;
    }
    ValuesOfFacts(lines);
  }

  lemma {:induction false} ValuesOfFacts(lines: seq<string>)
    ensures forall x :: x in ValuesOf(lines) <==>
      exists l :: l in lines && IsIntLine(l) && DigitsValue(Strip(l)) == x
  {
    if lines != [] {
      ValuesOfFacts(lines[1..]);
      assert forall l :: l in lines <==> l == lines[0] || l in lines[1..];
    }
  }

  /** The text of the ids, one numeral per line. */
  lemma {:induction false} IdStringsAreNumerals(ids: seq<nat>)
    ensures forall k :: 0 <= k < |ids| ==> IsNumeral(IdStrings(ids)[k]) && IsLine(IdStrings(ids)[k])
  {
    forall k | 0 <= k < |ids|
      ensures IsNumeral(IdStrings(ids)[k]) && IsLine(IdStrings(ids)[k])
    {
      NumeralIsLine(IdStrings(ids)[k]);
    }
  }

  /** The values of the written numerals are the ids themselves. */
  lemma {:induction false} ValuesOfIdStrings(ids: seq<nat>)
    ensures ValuesOf(IdStrings(ids)) == SetOf(ids)
  {
    if ids != [] {
      var xs := IdStrings(ids);
      assert xs[1..] == IdStrings(ids[1..]);
      ValuesOfIdStrings(ids[1..]);
      StripNoOp(xs[0]);
      ValueOfNatToString(ids[0]);
    }
  }

  /** A newline-joined list of numerals starts and ends with a digit, so `strip` keeps it. */
  lemma {:induction false} JoinEnds(xs: seq<string>)
    requires forall k :: 0 <= k < |xs| ==> IsNumeral(xs[k])
    ensures var t := Join("\n", xs); t == [] || (IsDigit(t[0]) && IsDigit(t[|t| - 1]))
  {
    if |xs| > 1 {
      JoinEnds(xs[1..]);
      var t := Join("\n", xs);
      var u := Join("\n", xs[1..]);
      assert t == xs[0] + "\n" + u;
      assert t[0] == xs[0][0];
      assert t[|t| - 1] == u[|u| - 1];
    }
  }

  /** Reading back what the cycle wrote to "old" gives the set of the ids written. */
  lemma IdsTextRoundTrip(ids: seq<nat>)
    ensures ParseOld(IdsText(ids)) == Ok(SetOf(ids))
  {
    var xs := IdStrings(ids);
    IdStringsAreNumerals(ids);
    JoinEnds(xs);
    StripNoOp(IdsText(ids));
    SplitLinesOfJoin(xs);
    forall k | 0 <= k < |xs|
      ensures IsIntLine(xs[k])
    {
      StripNoOp(xs[k]);
    }
    ValuesOfIdStrings(ids);
  }

  /**
   * `list(set(ids) - set(old_ids))`: the catalog ids missing from `seen`,
   * each once, in the catalog's order (the order of a Python set's
   * iteration is not modelled).
   */
  function NewIds(ids: seq<nat>, seen: set<nat>): seq<nat>
  {
    if ids == [] then []
    else if ids[0] in seen then NewIds(ids[1..], seen)
    else [ids[0]] + NewIds(ids[1..], seen + {ids[0]})
  }

  /** The new ids are exactly the catalog ids not seen before, without repeats. */
  lemma {:induction false} NewIdsFacts(ids: seq<nat>, seen: set<nat>)
    ensures forall x :: x in NewIds(ids, seen) <==> x in ids && x !in seen
    ensures forall i, j :: 0 <= i < j < |NewIds(ids, seen)| ==> NewIds(ids, seen)[i] != NewIds(ids, seen)[j]
  {
    if ids != [] {
      if ids[0] in seen {
        NewIdsFacts(ids[1..], seen);
      } else {
        NewIdsFacts(ids[1..], seen + {ids[0]});
        var r := NewIds(ids, seen);
        assert r[1..] == NewIds(ids[1..], seen + {ids[0]});
      }
    }
  }

  /** A catalog whose every id was seen has no new id. */
  lemma {:induction false} NoNewIds(ids: seq<nat>, seen: set<nat>)
    requires forall k :: 0 <= k < |ids| ==> ids[k] in seen
    ensures NewIds(ids, seen) == []
  {
    if ids != [] {
      NoNewIds(ids[1..], seen);
    }
  }

  /**
   * The list the corrected `create_embed` loop builds: the embed for each
   * new id in turn, with `fetch` standing for what the crawler scrapes.
   */
  function Pickles(newIds: seq<nat>, fetch: nat -> AnimeDetails): (r: seq<(Embed, bool)>)
    ensures |r| == |newIds|
  {
    if newIds == [] then []
    else
      var n := newIds[|newIds| - 1];
      Pickles(newIds[..|newIds| - 1], fetch) + [(LegacyEmbeds.CreatedEmbed(n, fetch(n)), fetch(n).sfw)]
  }

  /** Pickle `k` is the embed and the sfw flag of new id `k`. */
  lemma {:induction false} PicklesAt(newIds: seq<nat>, fetch: nat -> AnimeDetails, k: nat)
    requires k < |newIds|
    ensures Pickles(newIds, fetch)[k] == (LegacyEmbeds.CreatedEmbed(newIds[k], fetch(newIds[k])), fetch(newIds[k]).sfw)
  {
    if k < |newIds| - 1 {
      PicklesAt(newIds[..|newIds| - 1], fetch, k);
    }
  }

  /** What one cycle returns and both files afterwards. */
  datatype Cycle = Cycle(result: Result<seq<nat>, string>, oldFile: Option<string>, newFile: Option<seq<(Embed, bool)>>)

  /**
   * One run of `loop` as written: the missing `logger` argument makes the
   * first `create_embed` call raise `TypeError`, which `main` logs, so a
   * cycle with a new id writes neither file.
   */
  function CycleAsWritten(oldFile: Option<string>, newFile: Option<seq<(Embed, bool)>>, ids: seq<nat>): Cycle
  {
    if oldFile.None? then Cycle(Ok([]), Some(IdsText(ids)), newFile)
    else
      match ParseOld(oldFile.value)
      case Err(e) => Cycle(Err(e), oldFile, newFile)
      case Ok(oldIds) =>
        if NewIds(ids, oldIds) == [] then Cycle(Ok([]), oldFile, newFile)
        else Cycle(Err("TypeError"), oldFile, newFile)
  }

  /**
   * As written, a catalog id missing from "old" ends the cycle in
   * `TypeError` with both files as they were, so the next cycle meets the
   * same new id and fails again: nothing is ever announced.
   */
  lemma {:induction false} CycleTypeError(text: string, newFile: Option<seq<(Embed, bool)>>, ids: seq<nat>, k: nat)
    requires ParseOld(text).Ok? && k < |ids| && ids[k] !in ParseOld(text).value
    ensures CycleAsWritten(Some(text), newFile, ids) == Cycle(Err("TypeError"), Some(text), newFile)
  {
    NewIdsFacts(ids, ParseOld(text).value);
    assert ids[k] in NewIds(ids, ParseOld(text).value);
  }

  /** The cycle as written never writes "new", and writes "old" only when there was none. */
  lemma CycleNeverAnnounces(oldFile: Option<string>, newFile: Option<seq<(Embed, bool)>>, ids: seq<nat>)
    ensures CycleAsWritten(oldFile, newFile, ids).newFile == newFile
    ensures oldFile.Some? ==> CycleAsWritten(oldFile, newFile, ids).oldFile == oldFile
  {
  }

  /** The two cycles agree exactly when no id is new (or there is no readable "old" file). */
  lemma CycleAgrees(oldFile: Option<string>, newFile: Option<seq<(Embed, bool)>>, ids: seq<nat>, fetch: nat -> AnimeDetails)
    ensures CycleAsWritten(oldFile, newFile, ids) == CycleSpec(oldFile, newFile, ids, fetch) <==>
      CycleSpec(oldFile, newFile, ids, fetch).result.Err? || CycleSpec(oldFile, newFile, ids, fetch).result == Ok([])
  {
  }

  /** One run of `loop` with the call corrected, over the state it starts from; `ids` is the cached catalog. */
  function CycleSpec(oldFile: Option<string>, newFile: Option<seq<(Embed, bool)>>,
                     ids: seq<nat>, fetch: nat -> AnimeDetails): Cycle
  {
    if oldFile.None? then Cycle(Ok([]), Some(IdsText(ids)), newFile)
    else
      match ParseOld(oldFile.value)
      case Err(e) => Cycle(Err(e), oldFile, newFile)
      case Ok(oldIds) =>
        var newIds := NewIds(ids, oldIds);
        if newIds == [] then Cycle(Ok([]), oldFile, newFile)
        else
          var pickles := Pickles(newIds, fetch);
          Cycle(Ok(newIds), Some(IdsText(ids)), if pickles != [] then Some(pickles) else newFile)
  }

  /** Without an "old" file, the cycle records the whole catalog and announces nothing. */
  lemma CycleInit(newFile: Option<seq<(Embed, bool)>>, ids: seq<nat>, fetch: nat -> AnimeDetails)
    ensures var c := CycleSpec(None, newFile, ids, fetch);
      && c.result == Ok([]) && c.newFile == newFile
      && c.oldFile.Some? && ParseOld(c.oldFile.value) == Ok(SetOf(ids))
  {
    IdsTextRoundTrip(ids);
  }

  /** A bad "old" file stops the cycle before anything is written. */
  lemma CycleBadOld(text: string, newFile: Option<seq<(Embed, bool)>>, ids: seq<nat>, fetch: nat -> AnimeDetails)
    requires ParseOld(text).Err?
    ensures CycleSpec(Some(text), newFile, ids, fetch) == Cycle(Err("ValueError"), Some(text), newFile)
  {
  }

  /** The announced ids are the catalog ids missing from "old", each once. */
  lemma CycleNewIds(text: string, newFile: Option<seq<(Embed, bool)>>, ids: seq<nat>, fetch: nat -> AnimeDetails)
    requires ParseOld(text).Ok?
    ensures var c := CycleSpec(Some(text), newFile, ids, fetch);
      && c.result.Ok?
      && (forall x :: x in c.result.value <==> x in ids && x !in ParseOld(text).value)
      && (forall i, j :: 0 <= i < j < |c.result.value| ==> c.result.value[i] != c.result.value[j])
  {
    var n := NewIds(ids, ParseOld(text).value);
    NewIdsFacts(ids, ParseOld(text).value);
    assert CycleSpec(Some(text), newFile, ids, fetch).result == Ok(n);
  }

  /** When nothing is new, neither file is written. */
  lemma CycleQuiet(text: string, newFile: Option<seq<(Embed, bool)>>, ids: seq<nat>, fetch: nat -> AnimeDetails)
    requires ParseOld(text).Ok? && forall k :: 0 <= k < |ids| ==> ids[k] in ParseOld(text).value
    ensures CycleSpec(Some(text), newFile, ids, fetch) == Cycle(Ok([]), Some(text), newFile)
  {
    NoNewIds(ids, ParseOld(text).value);
  }

  /**
   * When an id is new, "new" is replaced by one pickle per new id, made
   * for that id, and "old" reads back as exactly the current catalog: an
   * id of the old file that has left the catalog is forgotten.
   */
  lemma CycleAnnounces(text: string, newFile: Option<seq<(Embed, bool)>>, ids: seq<nat>, fetch: nat -> AnimeDetails)
    requires ParseOld(text).Ok? && CycleSpec(Some(text), newFile, ids, fetch).result != Ok([])
    ensures var c := CycleSpec(Some(text), newFile, ids, fetch);
      && c.result.Ok?
      && c.newFile == Some(Pickles(c.result.value, fetch))
      && (forall k :: 0 <= k < |c.result.value| ==>
            c.newFile.value[k] == (LegacyEmbeds.CreatedEmbed(c.result.value[k], fetch(c.result.value[k])), fetch(c.result.value[k]).sfw))
      && c.oldFile.Some? && ParseOld(c.oldFile.value) == Ok(SetOf(ids))
  {
    IdsTextRoundTrip(ids);
    var n := NewIds(ids, ParseOld(text).value);
    forall k | 0 <= k < |n|
      ensures Pickles(n, fetch)[k] == (LegacyEmbeds.CreatedEmbed(n[k], fetch(n[k])), fetch(n[k]).sfw)
    {
      PicklesAt(n, fetch, k);
    }
  }

  /** The `create_embed` loop, with the call corrected. */
  method MakePickles(newIds: seq<nat>, fetch: nat -> AnimeDetails) returns (pickles: seq<(Embed, bool)>)
    ensures pickles == Pickles(newIds, fetch)
  {
    pickles := [];
    for i := 0 to |newIds|
      invariant pickles == Pickles(newIds[..i], fetch)
    {
      assert newIds[..i + 1][..i] == newIds[..i];
      var e, sfw := LegacyEmbeds.CreateEmbed(newIds[i], fetch(newIds[i]));
      pickles := pickles + [(e, sfw)];
    }
    assert newIds[..|newIds|] == newIds;
  }

  /** `loop` of mal.py with the call corrected, after the git pull and the cache read. */
  method Loop(files: Files, ids: seq<nat>, fetch: nat -> AnimeDetails) returns (r: Result<seq<nat>, string>)
    modifies files
    ensures Cycle(r, files.oldFile, files.newFile) == CycleSpec(old(files.oldFile), old(files.newFile), ids, fetch)
  {
    var newIds: seq<nat> := [];
    if files.oldFile.None? {
      files.oldFile := Some(IdsText(ids));
    } else {
      var oldIds := ParseOld(files.oldFile.value);
      if oldIds.Err? {
        return Err(oldIds.error);
      }
      newIds := NewIds(ids, oldIds.value);
    }
    if newIds != [] {
      var pickles := MakePickles(newIds, fetch);
      if pickles != [] {
        files.newFile := Some(pickles);
      }
      files.oldFile := Some(IdsText(ids));
    }
    return Ok(newIds);
  }
}
