/**
 * The announcement cycle of mal_notify_bot/main.py: `create_new_embeds`
 * finds the catalog ids not yet in the "old" database and builds their
 * embeds; `print_new_embeds` posts each one unless it was seen or is
 * already in its channel, adds an id to the seen set only once a second
 * search finds its message, and saves the set once at the end.
 *
 * The id catalog (`read_json_cache`, fed by a git pull) and `get_data`
 * (a network call) are parameters: `cache` and `fetch`. Whether a sent
 * message is visible to the search that follows it is the oracle `lands`.
 */
module Delivery {
  import opened Wrappers
  import opened Text
  import opened MalUtils
  import opened AnimeData
  import opened EmbedModel
  import NotifyEmbeds
  import opened Feed
  import opened SeenSet

  /** More new ids than this means the "old" file was not written: nothing is announced. */
  const NewIdLimit: nat := 10000
  /** `print_new_embeds` refuses to run on an "old" file with this many ids or fewer. */
  const SeenMinimum: nat := 10000
  /** How far back `print_new_embeds` searches a channel. */
  const SearchLimit: nat := 1000

  /** `list(map(str, contents["sfw"] + contents["nsfw"]))`. */
  function CatalogIds(cache: seq<nat>): (ids: seq<string>)
    ensures |ids| == |cache|
    ensures forall k :: 0 <= k < |cache| ==> ids[k] == NatToString(cache[k]) && Canonical(ids[k])
  {
    if cache == [] then [] else [NatToString(cache[0])] + CatalogIds(cache[1..])
  }

  function CatalogSet(cache: seq<nat>): set<string>
  {
    set x | x in CatalogIds(cache)
  }

  lemma CatalogCanonical(cache: seq<nat>)
    ensures forall x :: x in CatalogSet(cache) ==> Canonical(x)
  {
  }

  /** `sorted(list(set(ids) - set(old_ids)))`. */
  function NewIds(ids: seq<string>, seen: set<string>): (r: seq<string>)
    ensures forall x :: x in r <==> x in ids && x !in seen
    ensures StrictlyAscending(Lexicographic, r)
  {
    SortedSet(Lexicographic, (set x | x in ids) - seen)
  }

  /** New ids are never repeated, and none of them is already seen. */
  lemma NewIdsDistinct(ids: seq<string>, seen: set<string>)
    ensures var r := NewIds(ids, seen);
      && (forall i, j :: 0 <= i < j < |r| ==> r[i] != r[j])
      && (forall k :: 0 <= k < |r| ==> r[k] !in seen && r[k] in ids)
  {
    AscendingDistinct(Lexicographic, NewIds(ids, seen));
  }

  /** `create_embed(int(new_id))` with the details `get_data` returns for it. */
  function Announcement(id: string, fetch: nat -> AnimeDetails): (Embed, bool)
    requires AllDigits(id)
  {
    var n := DigitsValue(id);
    (NotifyEmbeds.CreatedEmbed(n, fetch(n)), fetch(n).sfw)
  }

  /** The embeds of `new_ids`, one per id, in order. */
  function Announcements(newIds: seq<string>, fetch: nat -> AnimeDetails): (r: seq<(Embed, bool)>)
    requires forall k :: 0 <= k < |newIds| ==> AllDigits(newIds[k])
    ensures |r| == |newIds|
    ensures forall k :: 0 <= k < |newIds| ==> r[k] == Announcement(newIds[k], fetch)
  {
    if newIds == [] then [] else [Announcement(newIds[0], fetch)] + Announcements(newIds[1..], fetch)
  }

  /** The "old" file and the embeds after `create_new_embeds`. */
  datatype Creation = Creation(file: Option<string>, embeds: seq<(Embed, bool)>)

  /**
   * `create_new_embeds` as evidently intended: a missing "old" file is
   * created holding every catalog id, so nothing is new; otherwise the new
   * ids are announced, unless there are more than 10000 of them.
   */
  function CreateNewEmbedsSpec(file: Option<string>, cache: seq<nat>, fetch: nat -> AnimeDetails): Creation
  {
    var ids := CatalogIds(cache);
    if file.None? then Creation(Some(DumpText(CatalogSet(cache))), [])
    else
      var newIds := NewIds(ids, LinesOf(file.value));
      if |newIds| > NewIdLimit then Creation(file, [])
      else
        NewCatalogIds(cache, LinesOf(file.value));
        Creation(file, Announcements(newIds, fetch))
  }

  /** Every new id is the decimal text of a catalog id. */
  lemma NewCatalogIds(cache: seq<nat>, seen: set<string>)
    ensures forall k :: 0 <= k < |NewIds(CatalogIds(cache), seen)| ==> Canonical(NewIds(CatalogIds(cache), seen)[k])
  {
    var ids := CatalogIds(cache);
    var r := NewIds(ids, seen);
    forall k | 0 <= k < |r|
      ensures Canonical(r[k])
    {
      assert r[k] in ids;
      var j :| 0 <= j < |ids| && ids[j] == r[k];
    }
  }

  /**
   * `create_new_embeds` as written: `open(filepath)` opens the missing file
   * for reading, which raises `FileNotFoundError` before `dump` runs.
   */
  function CreateNewEmbedsAsWritten(file: Option<string>, cache: seq<nat>, fetch: nat -> AnimeDetails): Result<Creation, string>
  {
    if file.None? then Err("FileNotFoundError") else Ok(CreateNewEmbedsSpec(file, cache, fetch))
  }

  /** Without an "old" file the code as written fails, where the intended one records the whole catalog. */
  lemma MissingOldFile(cache: seq<nat>, fetch: nat -> AnimeDetails)
    ensures CreateNewEmbedsAsWritten(None, cache, fetch) == Err("FileNotFoundError")
    ensures var c := CreateNewEmbedsSpec(None, cache, fetch);
      c.embeds == [] && c.file.Some? && LinesOf(c.file.value) == CatalogSet(cache)
  {
    CatalogCanonical(cache);
    DumpReadRoundTrip(CatalogSet(cache));
  }

  /** An announced embed carries its own id. */
  lemma AnnouncementId(id: string, fetch: nat -> AnimeDetails)
    requires Canonical(id)
    ensures EmbedId(Announcement(id, fetch).0) == Some(id)
  {
    var n := DigitsValue(id);
    assert Announcement(id, fetch).0.url == Some(AnimeUrl(n));
    ExtractAnimeUrl(n);
    NatToStringOfValue(id);
  }

  /**
   * What `create_new_embeds` gives when the file exists: the file is kept;
   * with at most 10000 new ids there is one embed per new id, each for a
   * catalog id not yet in the file; with more, none.
   */
  lemma CreationFacts(file: string, cache: seq<nat>, fetch: nat -> AnimeDetails)
    ensures var c := CreateNewEmbedsSpec(Some(file), cache, fetch);
      && c.file == Some(file)
      && |c.embeds| <= NewIdLimit
      && (forall k :: 0 <= k < |c.embeds| ==>
            EmbedId(c.embeds[k].0).Some? && EmbedId(c.embeds[k].0).value in CatalogSet(cache) &&
            EmbedId(c.embeds[k].0).value !in LinesOf(file))
    ensures var n := NewIds(CatalogIds(cache), LinesOf(file));
      |CreateNewEmbedsSpec(Some(file), cache, fetch).embeds| == if |n| <= NewIdLimit then |n| else 0
  {
    var newIds := NewIds(CatalogIds(cache), LinesOf(file));
    if |newIds| <= NewIdLimit {
      NewCatalogIds(cache, LinesOf(file));
      AnnouncementsIds(newIds, fetch);
      forall k | 0 <= k < |newIds|
        ensures newIds[k] in CatalogSet(cache)
      {
        assert newIds[k] in CatalogIds(cache);
      }
    }
  }

  /** Every embed carries an id, and the ids are in strictly ascending string order. */
  predicate IdsAscending(embeds: seq<(Embed, bool)>)
  {
    forall i, j :: 0 <= i < j < |embeds| ==>
      EmbedId(embeds[i].0).Some? && EmbedId(embeds[j].0).Some? &&
      LexLess(EmbedId(embeds[i].0).value, EmbedId(embeds[j].0).value)
  }

  /** The embeds come out in ascending string order of their ids, as `sorted` leaves them. */
  lemma CreationOrdered(file: string, cache: seq<nat>, fetch: nat -> AnimeDetails)
    ensures IdsAscending(CreateNewEmbedsSpec(Some(file), cache, fetch).embeds)
  {
    var newIds := NewIds(CatalogIds(cache), LinesOf(file));
    if |newIds| <= NewIdLimit {
      NewCatalogIds(cache, LinesOf(file));
      assert CreateNewEmbedsSpec(Some(file), cache, fetch).embeds == Announcements(newIds, fetch);
      AnnouncementsOrdered(newIds, fetch);
    }
  }

  lemma AnnouncementsOrdered(newIds: seq<string>, fetch: nat -> AnimeDetails)
    requires forall k :: 0 <= k < |newIds| ==> AllDigits(newIds[k]) && Canonical(newIds[k])
    requires StrictlyAscending(Lexicographic, newIds)
    ensures IdsAscending(Announcements(newIds, fetch))
  {
    AnnouncementsCarryIds(newIds, fetch);
    AscendingIds(Announcements(newIds, fetch), newIds);
  }

  /** Embed `k` carries id `k`, for every `k`. */
  predicate CarriesIds(embeds: seq<(Embed, bool)>, ids: seq<string>)
  {
    |embeds| == |ids| && forall k :: 0 <= k < |ids| ==> EmbedId(embeds[k].0) == Some(ids[k])
  }

  lemma AnnouncementsCarryIds(newIds: seq<string>, fetch: nat -> AnimeDetails)
    requires forall k :: 0 <= k < |newIds| ==> AllDigits(newIds[k]) && Canonical(newIds[k])
    ensures CarriesIds(Announcements(newIds, fetch), newIds)
  {
    AnnouncementsIds(newIds, fetch);
  }

  lemma AscendingIds(embeds: seq<(Embed, bool)>, ids: seq<string>)
    requires CarriesIds(embeds, ids) && StrictlyAscending(Lexicographic, ids)
    ensures IdsAscending(embeds)
  {
    forall i, j | 0 <= i < j < |embeds|
      ensures EmbedId(embeds[i].0).Some? && EmbedId(embeds[j].0).Some?
      ensures LexLess(EmbedId(embeds[i].0).value, EmbedId(embeds[j].0).value)
    {
      assert Precedes(Lexicographic, ids[i], ids[j]);
    }
  }

  /** Each announcement carries the id it was made for. */
  lemma AnnouncementsIds(newIds: seq<string>, fetch: nat -> AnimeDetails)
    requires forall k :: 0 <= k < |newIds| ==> AllDigits(newIds[k]) && Canonical(newIds[k])
    ensures forall k :: 0 <= k < |newIds| ==> EmbedId(Announcements(newIds, fetch)[k].0) == Some(newIds[k])
  {
    forall k | 0 <= k < |newIds|
      ensures EmbedId(Announcements(newIds, fetch)[k].0) == Some(newIds[k])
    {
      AnnouncementId(newIds[k], fetch);
    }
  }

  /** `create_new_embeds`, with the missing "old" file created. */
  method CreateNewEmbeds(db: OldDatabase, cache: seq<nat>, fetch: nat -> AnimeDetails) returns (embeds: seq<(Embed, bool)>)
    modifies db
    ensures Creation(db.file, embeds) == CreateNewEmbedsSpec(old(db.file), cache, fetch)
  {
    var ids := CatalogIds(cache);
    var newIds: seq<string> := [];
    if !db.FileExists() {
      CatalogCanonical(cache);
      var _ := db.Dump(set x | x in ids);
    } else {
      var oldIds := db.Read();
      newIds := NewIds(ids, oldIds.value);
      NewCatalogIds(cache, oldIds.value);
    }
    if |newIds| > NewIdLimit {
      return [];
    }
    embeds := AnnounceAll(newIds, fetch);
  }

  /** The loop of `create_new_embeds`: `create_embed(int(new_id))` for each new id. */
  method AnnounceAll(newIds: seq<string>, fetch: nat -> AnimeDetails) returns (embeds: seq<(Embed, bool)>)
    requires forall k :: 0 <= k < |newIds| ==> AllDigits(newIds[k])
    ensures embeds == Announcements(newIds, fetch)
  {
    embeds := [];
    for i := 0 to |newIds|
      invariant |embeds| == i
      invariant forall k :: 0 <= k < i ==> embeds[k] == Announcement(newIds[k], fetch)
    {
      var n := DigitsValue(newIds[i]);
      var e, sfw := NotifyEmbeds.CreateEmbed(n, fetch(n));
      embeds := embeds + [(e, sfw)];
    }
    assert |embeds| == |Announcements(newIds, fetch)|;
  }

  // ---------------------------------------------------------------------
  // print_new_embeds

  /** The two feed channels and the ids seen so far (`old_ids` in memory). */
  datatype Feeds = Feeds(sfwFeed: seq<Message>, nsfwFeed: seq<Message>, seen: set<string>)

  /** The channel an embed goes to: `#feed` when safe for work, else `#nsfw-feed`. */
  function ChannelOf(f: Feeds, sfw: bool): seq<Message>
  {
    if sfw then f.sfwFeed else f.nsfwFeed
  }

  /** Some message of `msgs` is the one for `malId`. */
  predicate Visible(msgs: seq<Message>, malId: nat)
  {
    msgs != [] && (IsFor(msgs[0], malId) || Visible(msgs[1..], malId))
  }

  /** Visible exactly when `search_feed_for_mal_id` finds a message. */
  lemma {:induction false} VisibleFound(msgs: seq<Message>, malId: nat)
    ensures Visible(msgs, malId) <==> Found(msgs, malId).Some?
  {
    if msgs != [] {
      VisibleFound(msgs[1..], malId);
      if !IsFor(msgs[0], malId) && Found(msgs, malId).Some? {
        var j := FirstFor(msgs, malId);
        assert msgs[1..][j - 1] == msgs[j];
      }
      if Found(msgs[1..], malId).Some? {
        var j := FirstFor(msgs[1..], malId);
        assert msgs[1..][j] == msgs[j + 1];
      }
    }
  }

  /**
   * One iteration of the loop of `print_new_embeds`, or `None` when the
   * process stops: an embed without a URL or id fails the `assert`s, and a
   * message the second search cannot find ends in `sys.exit(1)`.
   */
  function Deliver(f: Feeds, e: Embed, sfw: bool, lands: bool): Option<Feeds>
  {
    match EmbedId(e)
    case None => None
    case Some(id) =>
      var mid := DigitsValue(id);
      var ch := ChannelOf(f, sfw);
      var post := id !in f.seen && !Visible(Window(ch, SearchLimit), mid);
      var after := if post && lands then [Message([e])] + ch else ch;
      if !Visible(Window(after, SearchLimit), mid) then None
      else Some(Feeds(if sfw then after else f.sfwFeed, if sfw then f.nsfwFeed else after, f.seen + {id}))
  }

  /**
   * An id joins the seen set only when its message is then in the channel;
   * a message is posted only for an id that is neither seen nor among the
   * last 1000 messages; the other channel is never touched.
   */
  lemma DeliverFacts(f: Feeds, e: Embed, sfw: bool, lands: bool)
    ensures var d := Deliver(f, e, sfw, lands);
      d.Some? ==>
        && EmbedId(e).Some?
        && d.value.seen == f.seen + {EmbedId(e).value}
        && Found(Window(ChannelOf(d.value, sfw), SearchLimit), DigitsValue(EmbedId(e).value)).Some?
        && ChannelOf(d.value, !sfw) == ChannelOf(f, !sfw)
        && (ChannelOf(d.value, sfw) == ChannelOf(f, sfw) ||
            (ChannelOf(d.value, sfw) == [Message([e])] + ChannelOf(f, sfw) &&
             EmbedId(e).value !in f.seen &&
             Found(Window(ChannelOf(f, sfw), SearchLimit), DigitsValue(EmbedId(e).value)).None?))
  {
    var d := Deliver(f, e, sfw, lands);
    if d.Some? {
      var mid := DigitsValue(EmbedId(e).value);
      VisibleFound(Window(ChannelOf(f, sfw), SearchLimit), mid);
      VisibleFound(Window(ChannelOf(d.value, sfw), SearchLimit), mid);
    }
  }

  /** A new id whose sent message shows up is delivered; one whose message does not ends the process. */
  lemma DeliverNew(f: Feeds, e: Embed, sfw: bool, lands: bool)
    requires EmbedId(e).Some? && EmbedId(e).value !in f.seen
    requires Found(Window(ChannelOf(f, sfw), SearchLimit), DigitsValue(EmbedId(e).value)).None?
    ensures lands ==> Deliver(f, e, sfw, lands).Some?
    ensures !lands ==> Deliver(f, e, sfw, lands).None?
  {
    var mid := DigitsValue(EmbedId(e).value);
    VisibleFound(Window(ChannelOf(f, sfw), SearchLimit), mid);
    var m := Message([e]);
    assert IsFor(m, mid);
    var after := [m] + ChannelOf(f, sfw);
    assert Window(after, SearchLimit)[0] == m;
  }

  /** A seen id whose message is not among the last 1000 is not posted again, and the process exits. */
  lemma SeenButScrolledAway(f: Feeds, e: Embed, sfw: bool, lands: bool)
    requires EmbedId(e).Some? && EmbedId(e).value in f.seen
    requires Found(Window(ChannelOf(f, sfw), SearchLimit), DigitsValue(EmbedId(e).value)).None?
    ensures Deliver(f, e, sfw, lands).None?
  {
    VisibleFound(Window(ChannelOf(f, sfw), SearchLimit), DigitsValue(EmbedId(e).value));
  }

  /** Where the loop stands: the state, and whether the process has stopped. */
  datatype Progress = Progress(feeds: Feeds, exited: bool)

  /** The loop over `batch`; `lands(k)` says whether the `k`-th sent message shows up. */
  function Run(f: Feeds, batch: seq<(Embed, bool)>, lands: nat -> bool): Progress
    decreases |batch|
  {
    if batch == [] then Progress(f, false)
    else
      var p := Run(f, batch[..|batch| - 1], lands);
      if p.exited then p
      else
        var last := batch[|batch| - 1];
        match Deliver(p.feeds, last.0, last.1, lands(|batch| - 1))
        case None => Progress(p.feeds, true)
        case Some(g) => Progress(g, false)
  }

  /** One more embed of the batch: delivered unless the process has already stopped. */
  lemma RunNext(f: Feeds, batch: seq<(Embed, bool)>, lands: nat -> bool, i: nat)
    requires i < |batch|
    ensures var p := Run(f, batch[..i], lands);
      Run(f, batch[..i + 1], lands) ==
        if p.exited then p
        else match Deliver(p.feeds, batch[i].0, batch[i].1, lands(i))
          case None => Progress(p.feeds, true)
          case Some(g) => Progress(g, false)
  {
    assert batch[..i + 1][..i] == batch[..i];
  }

  /** Once the process has stopped, the rest of the batch changes nothing. */
  lemma {:induction false} RunStops(f: Feeds, batch: seq<(Embed, bool)>, lands: nat -> bool, n: nat)
    requires n <= |batch| && Run(f, batch[..n], lands).exited
    ensures Run(f, batch, lands) == Run(f, batch[..n], lands)
    decreases |batch| - n
  {
    if n < |batch| {
      assert batch[..n + 1][..n] == batch[..n];
      assert Run(f, batch[..n + 1], lands) == Run(f, batch[..n], lands);
      RunStops(f, batch, lands, n + 1);
    } else {
      assert batch[..n] == batch;
    }
  }

  /** The seen set only grows, and only by the ids of embeds in the batch. */
  lemma {:induction false} RunSeen(f: Feeds, batch: seq<(Embed, bool)>, lands: nat -> bool)
    ensures f.seen <= Run(f, batch, lands).feeds.seen
    ensures forall x :: x in Run(f, batch, lands).feeds.seen - f.seen ==>
      exists k :: 0 <= k < |batch| && EmbedId(batch[k].0) == Some(x)
  {
    if batch != [] {
      var init := batch[..|batch| - 1];
      RunSeen(f, init, lands);
      var p := Run(f, init, lands);
      if !p.exited {
        var last := batch[|batch| - 1];
        DeliverFacts(p.feeds, last.0, last.1, lands(|batch| - 1));
      }
      forall x | x in Run(f, batch, lands).feeds.seen - f.seen
        ensures exists k :: 0 <= k < |batch| && EmbedId(batch[k].0) == Some(x)
      {
        if x in p.feeds.seen {
          var k :| 0 <= k < |init| && EmbedId(init[k].0) == Some(x);
          assert batch[k] == init[k];
        } else {
          assert EmbedId(batch[|batch| - 1].0) == Some(x);
        }
      }
    }
  }

  datatype Outcome = Done | Exited(reason: string)

  /** The outcome of `print_new_embeds`, the "old" file and the two channels afterwards. */
  datatype World = World(outcome: Outcome, file: Option<string>, sfwFeed: seq<Message>, nsfwFeed: seq<Message>)

  /** `print_new_embeds`, over the state it starts from. */
  function PrintCycle(file: Option<string>, sfwFeed: seq<Message>, nsfwFeed: seq<Message>,
                      cache: seq<nat>, fetch: nat -> AnimeDetails, lands: nat -> bool): World
  {
    if file.None? then World(Exited("FileNotFoundError"), file, sfwFeed, nsfwFeed)
    else
      var oldIds := LinesOf(file.value);
      if |oldIds| <= SeenMinimum then World(Exited("AssertionError"), file, sfwFeed, nsfwFeed)
      else
        var c := CreateNewEmbedsSpec(file, cache, fetch);
        var p := Run(Feeds(sfwFeed, nsfwFeed, oldIds), c.embeds, lands);
        if p.exited then World(Exited("SystemExit"), file, p.feeds.sfwFeed, p.feeds.nsfwFeed)
        else
          match Dumped(p.feeds.seen)
          case None => World(Exited("ValueError"), file, p.feeds.sfwFeed, p.feeds.nsfwFeed)
          case Some(text) => World(Done, Some(text), p.feeds.sfwFeed, p.feeds.nsfwFeed)
  }

  /**
   * A cycle that stops persists nothing; a completed one saves a set that
   * holds every id of the old file, plus only catalog ids that were new.
   */
  lemma PrintCycleFacts(file: Option<string>, sfwFeed: seq<Message>, nsfwFeed: seq<Message>,
                        cache: seq<nat>, fetch: nat -> AnimeDetails, lands: nat -> bool)
    ensures var w := PrintCycle(file, sfwFeed, nsfwFeed, cache, fetch, lands);
      && (w.outcome.Exited? ==> w.file == file)
      && (w.outcome.Done? ==>
            && file.Some? && w.file.Some?
            && LinesOf(file.value) <= LinesOf(w.file.value)
            && (forall x :: x in LinesOf(w.file.value) - LinesOf(file.value) ==> x in CatalogSet(cache)))
  {
    var w := PrintCycle(file, sfwFeed, nsfwFeed, cache, fetch, lands);
    if file.Some? && |LinesOf(file.value)| > SeenMinimum {
      var c := CreateNewEmbedsSpec(file, cache, fetch);
      var p := Run(Feeds(sfwFeed, nsfwFeed, LinesOf(file.value)), c.embeds, lands);
      assert w.outcome.Exited? ==> p.exited || Dumped(p.feeds.seen).None?;
    }
    if w.outcome.Done? {
      var oldIds := LinesOf(file.value);
      var c := CreateNewEmbedsSpec(file, cache, fetch);
      var f0 := Feeds(sfwFeed, nsfwFeed, oldIds);
      CreationFacts(file.value, cache, fetch);
      RunWithin(f0, c.embeds, lands, CatalogSet(cache));
      DumpReadRoundTrip(Run(f0, c.embeds, lands).feeds.seen);
    }
  }

  /** When every embed of the batch carries an id of `ids`, the seen set grows only within `ids`. */
  lemma RunWithin(f: Feeds, batch: seq<(Embed, bool)>, lands: nat -> bool, ids: set<string>)
    requires forall k :: 0 <= k < |batch| ==> EmbedId(batch[k].0).Some? && EmbedId(batch[k].0).value in ids
    ensures f.seen <= Run(f, batch, lands).feeds.seen
    ensures Run(f, batch, lands).feeds.seen - f.seen <= ids
  {
    RunSeen(f, batch, lands);
    forall x | x in Run(f, batch, lands).feeds.seen - f.seen
      ensures x in ids
    {
      var k :| 0 <= k < |batch| && EmbedId(batch[k].0) == Some(x);
    }
  }

  /** One iteration of the loop of `print_new_embeds` on the two channels. */
  method DeliverOne(feed: Channel, nsfwFeed: Channel, seen: set<string>, e: Embed, sfw: bool, lands: bool)
    returns (r: Option<set<string>>)
    requires feed != nsfwFeed
    modifies feed, nsfwFeed
    ensures var d := Deliver(Feeds(old(feed.history), old(nsfwFeed.history), seen), e, sfw, lands);
      && (d.None? ==> r.None? && feed.history == old(feed.history) && nsfwFeed.history == old(nsfwFeed.history))
      && (d.Some? ==> r == Some(d.value.seen) && feed.history == d.value.sfwFeed && nsfwFeed.history == d.value.nsfwFeed)
  {
    var channel := if sfw then feed else nsfwFeed;
    if e.url.None? {
      return None;
    }
    var newMalId := ExtractMalId(e.url.value);
    if newMalId.None? {
      return None;
    }
    var mid := DigitsValue(newMalId.value);
    var previous := SearchFeedForMalId(mid, channel, SearchLimit);
    VisibleFound(Window(channel.history, SearchLimit), mid);
    if newMalId.value !in seen && previous.None? && lands {
      channel.Send(e);
    }
    var printed := SearchFeedForMalId(mid, channel, SearchLimit);
    VisibleFound(Window(channel.history, SearchLimit), mid);
    if printed.None? {
      return None;
    }
    return Some(seen + {newMalId.value});
  }

  /** The loop of `print_new_embeds` over the new embeds: whether it stopped, and the seen set. */
  method DeliverBatch(feed: Channel, nsfwFeed: Channel, seen: set<string>, batch: seq<(Embed, bool)>, lands: nat -> bool)
    returns (stopped: bool, seenAfter: set<string>)
    requires feed != nsfwFeed
    modifies feed, nsfwFeed
    ensures Run(Feeds(old(feed.history), old(nsfwFeed.history), seen), batch, lands)
      == Progress(Feeds(feed.history, nsfwFeed.history, seenAfter), stopped)
  {
    ghost var f0 := Feeds(feed.history, nsfwFeed.history, seen);
    seenAfter := seen;
    assert batch[..0] == [];
    for i := 0 to |batch|
      invariant Run(f0, batch[..i], lands) == Progress(Feeds(feed.history, nsfwFeed.history, seenAfter), false)
    {
      RunNext(f0, batch, lands, i);
      var r := DeliverOne(feed, nsfwFeed, seenAfter, batch[i].0, batch[i].1, lands(i));
      if r.None? {
        RunStops(f0, batch, lands, i + 1);
        return true, seenAfter;
      }
      seenAfter := r.value;
    }
    assert batch[..|batch|] == batch;
    return false, seenAfter;
  }

  /** `print_new_embeds`: one announcement cycle. */
  method PrintNewEmbeds(db: OldDatabase, feed: Channel, nsfwFeed: Channel,
                        cache: seq<nat>, fetch: nat -> AnimeDetails, lands: nat -> bool)
    returns (outcome: Outcome)
    requires feed != nsfwFeed
    modifies db, feed, nsfwFeed
    ensures World(outcome, db.file, feed.history, nsfwFeed.history)
      == PrintCycle(old(db.file), old(feed.history), old(nsfwFeed.history), cache, fetch, lands)
  {
    var read := db.Read();
    if read.Err? {
      return Exited("FileNotFoundError");
    }
    var oldIds := read.value;
    if |oldIds| <= SeenMinimum {
      return Exited("AssertionError");
    }
    var batch := CreateNewEmbeds(db, cache, fetch);
    var stopped;
    stopped, oldIds := DeliverBatch(feed, nsfwFeed, oldIds, batch, lands);
    if stopped {
      return Exited("SystemExit");
    }
    var ok := db.Dump(oldIds);
    if !ok {
      return Exited("ValueError");
    }
    return Done;
  }
}
