/**
 * `add_new_entries` of bot.py: the bot half of the older scraper/bot pair.
 * It posts the pending batch the scraper left in "new", adds the id of
 * every posted embed to the set read from "old", rewrites "old" and
 * removes "new".
 */
module BotEntries {
  import opened Wrappers
  import opened Text
  import opened MalUtils
  import opened EmbedModel
  import opened SeenSet
  import opened Feed
  import opened LegacyCycle

  /** The two feeds and the entry set while the batch is being posted; `error` is the exception that stopped it. */
  datatype Posting = Posting(sfwFeed: seq<Message>, nsfwFeed: seq<Message>, entries: set<string>, error: Option<string>)

  /**
   * The id `re.search(pattern, new.url).group(1)` reads: a missing URL makes
   * `re.search` raise `TypeError`, a URL without a match makes `.group`
   * raise `AttributeError`.
   */
  function UrlId(e: Embed): (r: Result<string, string>)
    ensures r.Ok? <==> EmbedId(e).Some?
    ensures r.Ok? ==> r.value == EmbedId(e).value
  {
    if e.url.None? then Err("TypeError")
    else match ExtractMalId(e.url.value)
      case None => Err("AttributeError")
      case Some(id) => Ok(id)
  }

  /** `client.send_message(feed_channel if sfw else nsfw_feed_channel, embed=new)`. */
  function Post(p: Posting, e: Embed, sfw: bool): Posting
  {
    if sfw then p.(sfwFeed := [Message([e])] + p.sfwFeed)
    else p.(nsfwFeed := [Message([e])] + p.nsfwFeed)
  }

  /**
   * One iteration as written: `new not in old_entries` compares an embed
   * with id strings and always holds, so the embed is posted before its id
   * is even read.
   */
  function PostAsWritten(p: Posting, e: Embed, sfw: bool): Posting
  {
    var q := Post(p, e, sfw);
    match UrlId(e)
    case Err(x) => q.(error := Some(x))
    case Ok(id) => q.(entries := q.entries + {id})
  }

  /** One iteration as intended: the embed's id is read first and an id already in the set is not posted again. */
  function PostChecked(p: Posting, e: Embed, sfw: bool): Posting
  {
    match UrlId(e)
    case Err(x) => p.(error := Some(x))
    case Ok(id) => if id in p.entries then p else Post(p, e, sfw).(entries := p.entries + {id})
  }

  /** The loop over the batch as written; it stops at the first exception. */
  function RunAsWritten(p: Posting, batch: seq<(Embed, bool)>): Posting
  {
    if batch == [] then p
    else
      var q := RunAsWritten(p, batch[..|batch| - 1]);
      if q.error.Some? then q else PostAsWritten(q, batch[|batch| - 1].0, batch[|batch| - 1].1)
  }

  /** The loop over the batch as intended. */
  function RunChecked(p: Posting, batch: seq<(Embed, bool)>): Posting
  {
    if batch == [] then p
    else
      var q := RunChecked(p, batch[..|batch| - 1]);
      if q.error.Some? then q else PostChecked(q, batch[|batch| - 1].0, batch[|batch| - 1].1)
  }

  /** The ids of a batch whose every embed has one. */
  function BatchIds(batch: seq<(Embed, bool)>): set<string>
  {
    set k | 0 <= k < |batch| && EmbedId(batch[k].0).Some? :: EmbedId(batch[k].0).value
  }

  predicate AllHaveIds(batch: seq<(Embed, bool)>)
  {
    forall k :: 0 <= k < |batch| ==> EmbedId(batch[k].0).Some?
  }

  /** Messages on both feeds together. */
  function PostCount(p: Posting): nat
  {
    |p.sfwFeed| + |p.nsfwFeed|
  }

  lemma BatchIdsSnoc(batch: seq<(Embed, bool)>)
    requires batch != []
    ensures var n := |batch| - 1;
      BatchIds(batch) == BatchIds(batch[..n]) + (if EmbedId(batch[n].0).Some? then {EmbedId(batch[n].0).value} else {})
  {
    var n := |batch| - 1;
    var init := batch[..n];
    assert forall k :: 0 <= k < n ==> init[k] == batch[k];
  }

  /**
   * As written, a batch whose embeds all carry an id is posted whole: every
   * embed becomes a message, and the set gains exactly the batch's ids.
   */
  lemma {:induction false} RunAsWrittenFacts(p: Posting, batch: seq<(Embed, bool)>)
    requires p.error.None? && AllHaveIds(batch)
    ensures var q := RunAsWritten(p, batch);
      && q.error.None?
      && q.entries == p.entries + BatchIds(batch)
      && PostCount(q) == PostCount(p) + |batch|
  {
    if batch != [] {
      var n := |batch| - 1;
      assert AllHaveIds(batch[..n]) by {
        assert forall k :: 0 <= k < n ==> batch[..n][k] == batch[k];
      }
      RunAsWrittenFacts(p, batch[..n]);
      BatchIdsSnoc(batch);
    }
  }

  /**
   * As intended, the set gains the same ids, but one message is posted per
   * id that was new to the set: an id already seen, or met twice in the
   * batch, is posted once at most.
   */
  lemma {:induction false} RunCheckedFacts(p: Posting, batch: seq<(Embed, bool)>)
    requires p.error.None? && AllHaveIds(batch)
    ensures var q := RunChecked(p, batch);
      && q.error.None?
      && q.entries == p.entries + BatchIds(batch)
      && PostCount(q) + |p.entries| == PostCount(p) + |q.entries|
  {
    if batch != [] {
      var n := |batch| - 1;
      assert AllHaveIds(batch[..n]) by {
        assert forall k :: 0 <= k < n ==> batch[..n][k] == batch[k];
      }
      RunCheckedFacts(p, batch[..n]);
      var q := RunChecked(p, batch[..n]);
      assert RunChecked(p, batch) == PostChecked(q, batch[n].0, batch[n].1);
      PostCheckedStep(q, batch[n].0, batch[n].1);
      BatchIdsSnoc(batch);
    }
  }

  /** One intended iteration posts exactly when it grows the set, by one id. */
  lemma PostCheckedStep(q: Posting, e: Embed, sfw: bool)
    requires q.error.None? && EmbedId(e).Some?
    ensures var r := PostChecked(q, e, sfw);
      && r.error.None? && r.entries == q.entries + {EmbedId(e).value}
      && PostCount(r) + |q.entries| == PostCount(q) + |r.entries|
  {
  }

  /** As written, an embed whose id is already in the set is posted again; the intended check skips it. */
  lemma RepostAsWritten(p: Posting, e: Embed, sfw: bool)
    requires p.error.None? && EmbedId(e).Some? && EmbedId(e).value in p.entries
    ensures PostCount(PostAsWritten(p, e, sfw)) == PostCount(p) + 1
    ensures PostChecked(p, e, sfw) == p
  {
  }

  /** The batch in "new", the text of "old" and both feeds, after one call. */
  datatype Delivery = Delivery(error: Option<string>, oldFile: Option<string>, newFile: Option<seq<(Embed, bool)>>,
                               sfwFeed: seq<Message>, nsfwFeed: seq<Message>)

  /** What `"\n".join(old_entries)` writes; the set's iteration order is taken to be lexicographic. */
  function EntriesText(entries: set<string>): string
  {
    Join("\n", SortedSet(Lexicographic, entries))
  }

  /**
   * `add_new_entries` as written: opening a missing file raises
   * `FileNotFoundError`; an exception in the loop leaves the posts made so
   * far but writes neither file; otherwise "old" is rewritten and "new" removed.
   */
  function AddNewEntriesSpec(oldFile: Option<string>, newFile: Option<seq<(Embed, bool)>>,
                             sfwFeed: seq<Message>, nsfwFeed: seq<Message>): Delivery
  {
    if newFile.None? || oldFile.None? then Delivery(Some("FileNotFoundError"), oldFile, newFile, sfwFeed, nsfwFeed)
    else
      var p := RunAsWritten(Posting(sfwFeed, nsfwFeed, LinesOf(oldFile.value), None), newFile.value);
      if p.error.Some? then Delivery(p.error, oldFile, newFile, p.sfwFeed, p.nsfwFeed)
      else Delivery(None, Some(EntriesText(p.entries)), None, p.sfwFeed, p.nsfwFeed)
  }

  /** Reading back the rewritten "old" gives the entry set, when no entry is empty or holds a line break. */
  lemma EntriesTextRoundTrip(entries: set<string>)
    requires forall x :: x in entries ==> IsLine(x)
    ensures LinesOf(EntriesText(entries)) == entries
  {
    var xs := SortedSet(Lexicographic, entries);
    forall k | 0 <= k < |xs|
      ensures IsLine(xs[k])
    {
      assert xs[k] in entries;
    }
    SplitLinesOfJoin(xs);
  }

  /**
   * A successful call drains "new" and leaves in "old" the lines it read
   * plus the ids of the batch; every embed of the batch was posted.
   */
  lemma AddNewEntriesDrains(text: string, batch: seq<(Embed, bool)>, sfwFeed: seq<Message>, nsfwFeed: seq<Message>)
    requires AllHaveIds(batch) && "" !in SplitLines(text)
    ensures var d := AddNewEntriesSpec(Some(text), Some(batch), sfwFeed, nsfwFeed);
      && d.error.None? && d.newFile.None? && d.oldFile.Some?
      && LinesOf(d.oldFile.value) == LinesOf(text) + BatchIds(batch)
      && |d.sfwFeed| + |d.nsfwFeed| == |sfwFeed| + |nsfwFeed| + |batch|
  {
    var p := Posting(sfwFeed, nsfwFeed, LinesOf(text), None);
    RunAsWrittenFacts(p, batch);
    var entries := LinesOf(text) + BatchIds(batch);
    forall x | x in entries
      ensures IsLine(x)
    {
      if x in LinesOf(text) {
        SplitLinesHaveNoBreaks(text);
      } else {
        var k :| 0 <= k < |batch| && EmbedId(batch[k].0).Some? && EmbedId(batch[k].0).value == x;
        NumeralIsLine(x);
      }
    }
    EntriesTextRoundTrip(entries);
  }

  /** An embed without an id stops the call: nothing is written, so the whole batch is posted again next time. */
  lemma AddNewEntriesCrash(text: string, batch: seq<(Embed, bool)>, sfwFeed: seq<Message>, nsfwFeed: seq<Message>)
    requires RunAsWritten(Posting(sfwFeed, nsfwFeed, LinesOf(text), None), batch).error.Some?
    ensures var d := AddNewEntriesSpec(Some(text), Some(batch), sfwFeed, nsfwFeed);
      d.error.Some? && d.oldFile == Some(text) && d.newFile == Some(batch)
  {
  }

  /** `client.send_message` to the channel the sfw flag picks. */
  method Announce(feed: Channel, nsfwFeed: Channel, e: Embed, sfw: bool)
    requires feed != nsfwFeed
    modifies feed, nsfwFeed
    ensures var p := Post(Posting(old(feed.history), old(nsfwFeed.history), {}, None), e, sfw);
      feed.history == p.sfwFeed && nsfwFeed.history == p.nsfwFeed
  {
    if sfw {
      feed.Send(e);
    } else {
      nsfwFeed.Send(e);
    }
  }

  /** `add_new_entries`, as written. */
  method AddNewEntries(files: Files, feed: Channel, nsfwFeed: Channel) returns (error: Option<string>)
    requires feed != nsfwFeed
    modifies files, feed, nsfwFeed
    ensures Delivery(error, files.oldFile, files.newFile, feed.history, nsfwFeed.history)
      == AddNewEntriesSpec(old(files.oldFile), old(files.newFile), old(feed.history), old(nsfwFeed.history))
  {
    if files.newFile.None? || files.oldFile.None? {
      return Some("FileNotFoundError");
    }
    var pickles := files.newFile.value;
    var oldEntries := LinesOf(files.oldFile.value);
    ghost var start := Posting(feed.history, nsfwFeed.history, oldEntries, None);
    for i := 0 to |pickles|
      invariant Posting(feed.history, nsfwFeed.history, oldEntries, None) == RunAsWritten(start, pickles[..i])
      invariant files.oldFile == old(files.oldFile) && files.newFile == old(files.newFile)
    {
      assert pickles[..i + 1][..i] == pickles[..i];
      var e := pickles[i].0;
      Announce(feed, nsfwFeed, e, pickles[i].1);
      var id := UrlId(e);
      if id.Err? {
        assert RunAsWritten(start, pickles[..i + 1]).error == Some(id.error);
        RunStopsAsWritten(start, pickles, i + 1);
        assert pickles[..|pickles|] == pickles;
        return Some(id.error);
      }
      oldEntries := oldEntries + {id.value};
    }
    assert pickles[..|pickles|] == pickles;
    files.oldFile := Some(EntriesText(oldEntries));
    files.newFile := None;
    return None;
  }

  /** Once the loop has stopped, the rest of the batch changes nothing. */
  lemma {:induction false} RunStopsAsWritten(p: Posting, batch: seq<(Embed, bool)>, n: nat)
    requires n <= |batch| && RunAsWritten(p, batch[..n]).error.Some?
    ensures RunAsWritten(p, batch) == RunAsWritten(p, batch[..n])
  {
    if n < |batch| {
      assert batch[..|batch| - 1][..n] == batch[..n];
      RunStopsAsWritten(p, batch[..|batch| - 1], n);
    } else {
      assert batch[..n] == batch;
    }
  }
}
