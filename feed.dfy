/**
 * The feed channels of mal_notify_bot/main.py: searching a channel's
 * history for the message of a MyAnimeList id, and exporting the sources
 * recorded in a channel's embeds. A channel is its message history,
 * newest first; messages are modelled by their embeds only.
 */
module Feed {
  import opened Wrappers
  import opened Text
  import opened MalUtils
  import opened EmbedModel

  /** A channel message, by its embeds (`message.embeds`). */
  datatype Message = Message(embeds: seq<Embed>)

  /** The history limit `_export_channel` asks for. */
  const ExportLimit: nat := 99999

  /** `channel.history(limit=n, oldest_first=False)`: the newest `n` messages, newest first. */
  function Window(history: seq<Message>, limit: nat): (w: seq<Message>)
    ensures |w| == if limit < |history| then limit else |history|
    ensures w == history[..|w|]
  {
    if limit < |history| then history[..limit] else history
  }

  /** The id an embed's URL carries: what `extract_mal_id_from_url` finds in it. */
  function EmbedId(e: Embed): (r: Option<string>)
    ensures r.Some? ==> r.value != [] && AllDigits(r.value)
  {
    if e.url.None? then None else ExtractMalId(e.url.value)
  }

  /**
   * The id the search loop reads from a message: none when it has no embed
   * (the `IndexError` the loop swallows), otherwise its first embed's id.
   */
  function MessageId(m: Message): (r: Option<string>)
    ensures r.Some? ==> r.value != [] && AllDigits(r.value)
  {
    if m.embeds == [] then None else EmbedId(m.embeds[0])
  }

  /** The message is the one for `malId`: `int(embed_id) == int(mal_id)`. */
  predicate IsFor(m: Message, malId: nat)
  {
    var id := MessageId(m);
    id.Some? && DigitsValue(id.value) == malId
  }

  /** The position of the newest message for `malId`, or `|msgs|` when there is none. */
  function FirstFor(msgs: seq<Message>, malId: nat): (i: nat)
    ensures i <= |msgs| && (i < |msgs| ==> IsFor(msgs[i], malId))
    ensures forall j :: 0 <= j < i ==> !IsFor(msgs[j], malId)
  {
    if msgs == [] then 0
    else if IsFor(msgs[0], malId) then 0
    else 1 + FirstFor(msgs[1..], malId)
  }

  /** What `search_feed_for_mal_id` finds among `msgs`. */
  function Found(msgs: seq<Message>, malId: nat): (r: Option<Message>)
    ensures r.None? <==> forall j :: 0 <= j < |msgs| ==> !IsFor(msgs[j], malId)
    ensures r.Some? ==> IsFor(r.value, malId) && r.value in msgs
  {
    var i := FirstFor(msgs, malId);
    if i < |msgs| then Some(msgs[i]) else None
  }

  /** The newest message for an id is found whatever older messages follow it. */
  lemma FoundNewest(m: Message, older: seq<Message>, malId: nat)
    requires IsFor(m, malId)
    ensures Found([m] + older, malId) == Some(m)
  {
  }

  /** Messages that are not for the id do not change what is found after them. */
  lemma FoundSkips(newer: seq<Message>, rest: seq<Message>, malId: nat)
    requires forall j :: 0 <= j < |newer| ==> !IsFor(newer[j], malId)
    ensures Found(newer + rest, malId) == Found(rest, malId)
  {
    FirstForSkips(newer, rest, malId);
    var i := FirstFor(rest, malId);
    if i < |rest| {
      assert (newer + rest)[|newer| + i] == rest[i];
    }
  }

  lemma {:induction false} FirstForSkips(newer: seq<Message>, rest: seq<Message>, malId: nat)
    requires forall j :: 0 <= j < |newer| ==> !IsFor(newer[j], malId)
    ensures FirstFor(newer + rest, malId) == |newer| + FirstFor(rest, malId)
  {
    if newer != [] {
      var all := newer + rest;
      assert all[0] == newer[0];
      assert all[1..] == newer[1..] + rest;
      FirstForSkips(newer[1..], rest, malId);
    } else {
      assert newer + rest == rest;
    }
  }

  /** A Discord text channel, by its message history, newest first. */
  class Channel {
    var history: seq<Message>

    constructor (history: seq<Message>)
      ensures this.history == history
    {
      this.history := history;
    }

    /** `channel.send(embed=e)`: a message with that one embed becomes the newest. */
    method Send(e: Embed)
      modifies this
      ensures history == [Message([e])] + old(history)
    {
      history := [Message([e])] + history;
    }

    /** `edit_message(message, embed=e)`: the message at position `i` now shows `e` alone. */
    method Edit(i: nat, e: Embed)
      requires i < |history|
      modifies this
      ensures history == old(history)[i := Message([e])]
    {
      history := history[i := Message([e])];
    }
  }

  /**
   * `search_feed_for_mal_id`: the newest message among the last `limit`
   * whose first embed links to `malId`; messages without an embed are skipped.
   */
  method SearchFeedForMalId(malId: nat, channel: Channel, limit: nat) returns (r: Option<Message>)
    ensures r == Found(Window(channel.history, limit), malId)
  {
    var msgs := Window(channel.history, limit);
    for i := 0 to |msgs|
      invariant forall j :: 0 <= j < i ==> !IsFor(msgs[j], malId)
    {
      var m := msgs[i];
      if m.embeds != [] {
        var embed := m.embeds[0];
        if embed.url.Some? {
          var embedId := ExtractMalId(embed.url.value);
          if embedId.Some? && DigitsValue(embedId.value) == malId {
            assert IsFor(msgs[i], malId);
            assert FirstFor(msgs, malId) == i;
            return Some(m);
          }
        }
      }
    }
    return None;
  }

  // ---------------------------------------------------------------------
  // Export

  /** What `_export_channel` records for a message: its id and its Source, when it has both. */
  function ExportEntry(m: Message): Option<(string, string)>
  {
    if m.embeds == [] || m.embeds[0].url.None? then None
    else
      match ExtractMalId(m.embeds[0].url.value)
      case None => None
      case Some(id) =>
        match FirstValue(m.embeds[0].fields, "Source")
        case None => None
        case Some(source) => Some((id, source))
  }

  /** The entries of `msgs`, one per message, in visiting order. */
  function Entries(msgs: seq<Message>): (es: seq<Option<(string, string)>>)
    ensures |es| == |msgs|
    ensures forall j :: 0 <= j < |msgs| ==> es[j] == ExportEntry(msgs[j])
  {
    if msgs == [] then [] else Entries(msgs[..|msgs| - 1]) + [ExportEntry(msgs[|msgs| - 1])]
  }

  /** The dictionary the export loop builds from the entries, assigning them in order. */
  function Collect(es: seq<Option<(string, string)>>): map<string, string>
  {
    if es == [] then map[]
    else
      var prev := Collect(es[..|es| - 1]);
      var e := es[|es| - 1];
      if e.Some? then prev[e.value.0 := e.value.1] else prev
  }

  /** What `_export_channel` builds from `msgs`. */
  function ExportMap(msgs: seq<Message>): map<string, string>
  {
    Collect(Entries(msgs))
  }

  predicate EntryFor(e: Option<(string, string)>, id: string)
  {
    e.Some? && e.value.0 == id
  }

  /** The position of the last entry (the oldest message) for `id`. */
  function LastEntry(es: seq<Option<(string, string)>>, id: string): (r: Option<nat>)
    ensures r.Some? ==> r.value < |es| && EntryFor(es[r.value], id)
    ensures r.Some? ==> forall j :: r.value < j < |es| ==> !EntryFor(es[j], id)
    ensures r.None? ==> forall j :: 0 <= j < |es| ==> !EntryFor(es[j], id)
  {
    if es == [] then None
    else if EntryFor(es[|es| - 1], id) then Some(|es| - 1)
    else
      var init := es[..|es| - 1];
      assert forall j :: 0 <= j < |init| ==> init[j] == es[j];
      LastEntry(init, id)
  }

  /**
   * An id is collected iff some entry is for it, and its value is the
   * Source of the last such entry, the oldest message's.
   */
  lemma {:induction false} CollectLast(es: seq<Option<(string, string)>>, id: string)
    ensures id in Collect(es) <==> LastEntry(es, id).Some?
    ensures id in Collect(es) ==> Collect(es)[id] == es[LastEntry(es, id).value].value.1
  {
    if es != [] {
      var init := es[..|es| - 1];
      CollectLast(init, id);
      if !EntryFor(es[|es| - 1], id) {
        assert LastEntry(es, id) == LastEntry(init, id);
        if LastEntry(init, id).Some? {
          assert es[LastEntry(init, id).value] == init[LastEntry(init, id).value];
        }
      }
    }
  }

  /**
   * An id is exported iff some visited message has an embed with that id and
   * a Source, and its value is the Source of the oldest such message.
   */
  lemma ExportMapLast(msgs: seq<Message>, id: string)
    ensures var r := LastEntry(Entries(msgs), id);
      && (id in ExportMap(msgs) <==> r.Some?)
      && (r.Some? ==> ExportEntry(msgs[r.value]) == Some((id, ExportMap(msgs)[id])))
      && (r.Some? ==> forall j :: r.value < j < |msgs| ==> ExportEntry(msgs[j]).None? || ExportEntry(msgs[j]).value.0 != id)
      && (r.None? ==> forall j :: 0 <= j < |msgs| ==> ExportEntry(msgs[j]).None? || ExportEntry(msgs[j]).value.0 != id)
  {
    var es := Entries(msgs);
    CollectLast(es, id);
    var r := LastEntry(es, id);
    if r.Some? {
      forall j | r.value < j < |msgs|
        ensures ExportEntry(msgs[j]).None? || ExportEntry(msgs[j]).value.0 != id
      {
        assert !EntryFor(es[j], id);
      }
    } else {
      forall j | 0 <= j < |msgs|
        ensures ExportEntry(msgs[j]).None? || ExportEntry(msgs[j]).value.0 != id
      {
        assert !EntryFor(es[j], id);
      }
    }
  }

  /** The body of the export loop for one message: its id and Source, when it has both. */
  method ReadEntry(m: Message) returns (e: Option<(string, string)>)
    ensures e == ExportEntry(m)
  {
    if m.embeds == [] {
      return None;
    }
    var embed := m.embeds[0];
    if embed.url.None? {
      return None;
    }
    var embedId := ExtractMalId(embed.url.value);
    if embedId.None? {
      return None;
    }
    var source := GetSource(embed);
    if source.None? {
      return None;
    }
    return Some((embedId.value, source.value));
  }

  /** `_export_channel`: the ids and sources of the newest 99999 messages. */
  method ExportChannel(channel: Channel) returns (results: map<string, string>)
    ensures results == ExportMap(Window(channel.history, ExportLimit))
  {
    results := map[];
    var msgs := Window(channel.history, ExportLimit);
    ghost var es := Entries(msgs);
    for i := 0 to |msgs|
      invariant results == Collect(es[..i])
    {
      assert es[..i + 1][..i] == es[..i];
      var e := ReadEntry(msgs[i]);
      if e.Some? {
        results := results[e.value.0 := e.value.1];
      }
    }
    assert es[..|msgs|] == es;
  }

  /**
   * `run_export`: the feed's export updated with the nsfw feed's, so an id
   * present in both gets the nsfw feed's source.
   */
  method RunExport(feed: Channel, nsfwFeed: Channel) returns (exported: map<string, string>)
    ensures var sfw, nsfw := ExportMap(Window(feed.history, ExportLimit)), ExportMap(Window(nsfwFeed.history, ExportLimit));
      && exported.Keys == sfw.Keys + nsfw.Keys
      && (forall id :: id in nsfw ==> exported[id] == nsfw[id])
      && (forall id :: id in sfw && id !in nsfw ==> exported[id] == sfw[id])
  {
    var feedResults := ExportChannel(feed);
    var nsfwResults := ExportChannel(nsfwFeed);
    exported := feedResults + nsfwResults;
  }
}
