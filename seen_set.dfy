/**
 * The "old" database of mal_notify_bot/main.py: the set of MyAnimeList ids
 * already announced, kept in a text file one id per line.
 */
module SeenSet {
  import opened Wrappers
  import opened Text

  /** Text `int()` accepts, in the form ids take here: one or more ASCII digits. */
  predicate IsNumeral(s: string)
  {
    s != [] && AllDigits(s)
  }

  predicate AllNumerals(ids: set<string>)
  {
    forall x :: x in ids ==> IsNumeral(x)
  }

  /** `set(contents.splitlines())`. */
  function LinesOf(text: string): set<string>
  {
    set x | x in SplitLines(text)
  }

  /** What `dump` writes: the ids sorted by their integer value, joined by newlines. */
  function DumpText(ids: set<string>): string
  {
    Join("\n", SortedSet(Numeric, ids))
  }

  /**
   * The file text after `dump(ids)`: `sorted(..., key=int)` raises
   * `ValueError` before the file is opened when an id is not a numeral, so
   * then nothing is written.
   */
  function Dumped(ids: set<string>): Option<string>
  {
    if AllNumerals(ids) then Some(DumpText(ids)) else None
  }

  /** A dumped file reads back as the lines of the ids in ascending integer order. */
  lemma DumpLines(ids: set<string>)
    requires AllNumerals(ids)
    ensures SplitLines(DumpText(ids)) == SortedSet(Numeric, ids)
    ensures StrictlyAscending(Numeric, SplitLines(DumpText(ids)))
  {
    var xs := SortedSet(Numeric, ids);
    forall k | 0 <= k < |xs|
      ensures IsLine(xs[k])
    {
      assert xs[k] in ids;
      NumeralIsLine(xs[k]);
    }
    SplitLinesOfJoin(xs);
  }

  lemma NumeralIsLine(s: string)
    requires IsNumeral(s)
    ensures IsLine(s)
  {
    forall i | 0 <= i < |s|
      ensures !IsLineBreak(s[i])
    {
      assert IsDigit(s[i]);
    }
  }

  /** Reading back what `dump` wrote gives the same set. */
  lemma DumpReadRoundTrip(ids: set<string>)
    requires AllNumerals(ids)
    ensures LinesOf(DumpText(ids)) == ids
  {
    DumpLines(ids);
  }

  /** The "old" file: its text, or `None` while it does not exist. */
  class OldDatabase {
    var file: Option<string>

    constructor (file: Option<string>)
      ensures this.file == file
    {
      this.file := file;
    }

    /** `file_exists`. */
    predicate FileExists()
      reads this
    {
      file.Some?
    }

    /** `read`: the set of the file's lines; opening a missing file raises. */
    method Read() returns (r: Result<set<string>, string>)
      ensures r.Err? <==> file.None?
      ensures r.Ok? ==> r.value == LinesOf(file.value)
    {
      if file.None? {
        return Err("FileNotFoundError");
      }
      var lines := SplitLines(file.value);
      return Ok(set x | x in lines);
    }

    /** `dump`: overwrite the file with the ids in ascending integer order. */
    method Dump(ids: set<string>) returns (ok: bool)
      modifies this
      ensures ok <==> AllNumerals(ids)
      ensures file == if ok then Dumped(ids) else old(file)
    {
      if !AllNumerals(ids) {
        return false;
      }
      var sorted := SortedSet(Numeric, ids);
      file := Some(Join("\n", sorted));
      return true;
    }
  }
}
