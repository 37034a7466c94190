/**
 * The `source` command of bot.py: it cleans and checks the links it is
 * given, finds a message of the feed for a MyAnimeList id, and edits that
 * message so its embed records the links as its Source. The search visits
 * the feed in the order discord.py 0.16's `logs_from(..., reverse=True)`
 * yields it: blocks of 100 messages, newest block first, each block oldest
 * first. The HTTP check is an oracle from a link to what `requests.get` does.
 */
module BotSource {
  import opened Wrappers
  import opened Text
  import opened MalUtils
  import opened EmbedModel
  import opened Feed
  import UpdateEmbeds

  /** The history limit `logs_from` is given. */
  const LogsLimit: nat := 999999

  /** What `requests.get(link)` does: raise `MissingSchema`, raise something else, or answer with a status code. */
  datatype Probe = NoSchema | Raises(error: string) | Answered(code: int)

  /** How the command ends. */
  datatype SourceOutcome =
    | MissingSchema(link: string)        // "has no schema" is said and the command returns
    | BadStatus(link: string, code: int) // "Error connecting" is said and the command returns
    | Crashed(error: string)             // an exception escapes the command
    | NotFound                           // "Could not find a message" is said
    | Edited(index: nat, isNewSource: bool)

  /**
   * The bracket removal of the link loop: a leading `<` and a trailing `>`
   * come off independently. The word `<` leaves an empty link, whose
   * `link[-1]` raises `IndexError`.
   */
  function CleanLink(w: string): (r: Result<string, string>)
  {
    if w == [] then Err("IndexError")
    else
      var a := if w[0] == '<' then w[1..] else w;
      if a == [] then Err("IndexError")
      else Ok(if a[|a| - 1] == '>' then a[..|a| - 1] else a)
  }

  /** A wrapped link loses both brackets. */
  lemma CleanWrapped(x: string)
    ensures CleanLink("<" + x + ">") == Ok(x)
  {
    var w := "<" + x + ">";
    assert w[1..] == x + ">";
  }

  /**
   * A link with a `<` alone loses it here, where `remove_discord_link_supression`
   * keeps it: the two cleanups disagree on half-wrapped links.
   */
  lemma CleanHalfWrapped(x: string)
    requires x != [] && !IsSpace(x[|x| - 1]) && x[|x| - 1] != '>'
    ensures CleanLink("<" + x) == Ok(x)
    ensures RemoveLinkSuppression("<" + x) == "<" + x
  {
    assert ("<" + x)[1..] == x;
    HalfWrappedKept(x);
  }

  /** A trailing `>` comes off alone. */
  lemma CleanTrailing(x: string)
    requires x != [] && x[0] != '<'
    ensures CleanLink(x + ">") == Ok(x)
  {
    assert (x + ">")[0] == x[0];
    assert (x + ">")[..|x|] == x;
  }

  /** A link without brackets at its ends is kept, and the word `<` raises. */
  lemma CleanPlainAndLone(x: string)
    requires x != [] && x[0] != '<' && x[|x| - 1] != '>'
    ensures CleanLink(x) == Ok(x)
    ensures CleanLink("<") == Err("IndexError")
  {
    assert "<"[1..] == [];
  }

  /** The link loop: each word of `links.split()` is cleaned and checked in turn; the first failure ends the command. */
  function CheckLinks(words: seq<string>, probe: string -> Probe): Result<seq<string>, SourceOutcome>
  {
    if words == [] then Ok([])
    else
      match CheckLinks(words[..|words| - 1], probe)
      case Err(o) => Err(o)
      case Ok(links) =>
        match CleanLink(words[|words| - 1])
        case Err(x) => Err(Crashed(x))
        case Ok(link) =>
          match probe(link)
          case NoSchema => Err(MissingSchema(link))
          case Raises(x) => Err(Crashed(x))
          case Answered(code) => if code != 200 then Err(BadStatus(link, code)) else Ok(links + [link])
  }

  /** The word cleans to a link that answers 200. */
  predicate GoodWord(w: string, probe: string -> Probe)
  {
    CleanLink(w).Ok? && probe(CleanLink(w).value) == Answered(200)
  }

  /** The links pass iff every word cleans to a link that answers 200; the valid links are then those links, in order. */
  lemma {:induction false} CheckLinksFacts(words: seq<string>, probe: string -> Probe)
    ensures CheckLinks(words, probe).Ok? <==> forall k :: 0 <= k < |words| ==> GoodWord(words[k], probe)
    ensures CheckLinks(words, probe).Ok? ==>
      var links := CheckLinks(words, probe).value;
      |links| == |words| && forall k :: 0 <= k < |words| ==> links[k] == CleanLink(words[k]).value
  {
    if words != [] {
      var n := |words| - 1;
      var init := words[..n];
      CheckLinksFacts(init, probe);
      assert forall k :: 0 <= k < n ==> init[k] == words[k];
      if CheckLinks(init, probe).Err? {
        assert !GoodWord(init[0], probe) || exists k :: 0 <= k < n && !GoodWord(init[k], probe);
      }
    }
  }

  /** `logs_from` fetches the history in requests of at most this many messages. */
  const LogsBatch: nat := 100

  /** Where the block of 100 that holds window position `k` starts. */
  function BlockStart(k: nat): (r: nat)
    ensures r <= k < r + LogsBatch && r % LogsBatch == 0
  {
    k - k % LogsBatch
  }

  /** Where that block ends in a window of `n` messages: 100 on, or the end of the window. */
  function BlockEnd(n: nat, k: nat): (r: nat)
    requires k < n
    ensures k < r <= n && r <= BlockStart(k) + LogsBatch
    ensures r < n ==> r == BlockStart(k) + LogsBatch
  {
    if n - BlockStart(k) < LogsBatch then n else BlockStart(k) + LogsBatch
  }

  /**
   * The window position of the `k`th message `logs_from(..., reverse=True)`
   * yields. Without `after` the library fetches the newest messages in
   * blocks of 100 and reverses each block on its own, so the blocks come
   * newest block first, each oldest first.
   */
  function BatchPos(n: nat, k: nat): (r: nat)
    requires k < n
    ensures BlockStart(r) == BlockStart(k) && r < BlockEnd(n, k)
  {
    var s := BlockStart(k);
    var r := s + BlockEnd(n, k) - 1 - k;
    assert r % LogsBatch == r - s;
    r
  }

  /** Reading a block backwards twice gives the position back. */
  lemma BatchPosInvolution(n: nat, k: nat)
    requires k < n
    ensures BatchPos(n, BatchPos(n, k)) == k
  {
  }

  /** The feed as `logs_from(feed, limit=999999, reverse=True)` yields it: the newest 999999 messages, 100 at a time. */
  function LogsOrder(history: seq<Message>): (r: seq<Message>)
    ensures var w := Window(history, LogsLimit);
      |r| == |w| && forall k :: 0 <= k < |r| ==> BatchPos(|r|, k) < |w| && r[k] == history[BatchPos(|r|, k)]
  {
    var w := Window(history, LogsLimit);
    seq(|w|, k requires 0 <= k < |w| => w[BatchPos(|w|, k)])
  }

  /** In a feed of at most 100 messages the order is oldest first. */
  lemma LogsOrderSmall(history: seq<Message>)
    requires |history| <= LogsBatch
    ensures |LogsOrder(history)| == |history|
    ensures forall k :: 0 <= k < |history| ==> LogsOrder(history)[k] == history[|history| - 1 - k]
  {
    var r := LogsOrder(history);
    forall k | 0 <= k < |history|
      ensures r[k] == history[|history| - 1 - k]
    {
      assert BlockStart(k) == 0;
    }
  }

  /** With more than 100, the first message yielded is the 100th newest, not the oldest. */
  lemma LogsOrderBatched(history: seq<Message>)
    requires LogsBatch < |history|
    ensures LogsOrder(history)[0] == history[LogsBatch - 1]
  {
  }

  /** `str(mal_id)` for the `int` the command converts its argument to. */
  function IdText(malId: int): (r: string)
    ensures r != [] && (AllDigits(r) <==> malId >= 0)
  {
    if malId >= 0 then NatToString(malId)
    else
      var t := "-" + NatToString(-malId);
      assert !IsDigit(t[0]);
      t
  }

  /** The message's first embed links to `malId`: `m.group(1) == str(mal_id)`. */
  predicate Matches(m: Message, malId: int)
  {
    m.embeds != [] && m.embeds[0].url.Some? && ExtractMalId(m.embeds[0].url.value) == Some(IdText(malId))
  }

  /** The search loop goes on past the message: it has no embed, or its embed links to another id. */
  predicate Passes(m: Message, malId: int)
  {
    || m.embeds == []
    || (m.embeds[0].url.Some? && ExtractMalId(m.embeds[0].url.value).Some?
        && ExtractMalId(m.embeds[0].url.value) != Some(IdText(malId)))
  }

  /** What one iteration of the search loop does with a message. */
  datatype Look = Skip | Match | Stop(error: string)

  function LookAt(m: Message, malId: int): (r: Look)
    ensures r.Skip? <==> Passes(m, malId)
    ensures r.Match? <==> Matches(m, malId)
  {
    if m.embeds == [] then Skip
    else if m.embeds[0].url.None? then Stop("KeyError")
    else match ExtractMalId(m.embeds[0].url.value)
      case None => Stop("AttributeError")
      case Some(id) => if id == IdText(malId) then Match else Skip
  }

  /** What the search loop meets first. */
  datatype Scan = Miss | Hit(k: nat) | Fault(error: string)

  function ScanFor(msgs: seq<Message>, malId: int): (r: Scan)
    ensures r.Hit? ==> r.k < |msgs| && Matches(msgs[r.k], malId)
  {
    if msgs == [] then Miss
    else
      var r := ScanFor(msgs[..|msgs| - 1], malId);
      if !r.Miss? then r
      else match LookAt(msgs[|msgs| - 1], malId)
        case Skip => Miss
        case Match => Hit(|msgs| - 1)
        case Stop(x) => Fault(x)
  }

  /** The search finds nothing exactly when every message lets the loop go on. */
  lemma {:induction false} ScanMiss(msgs: seq<Message>, malId: int)
    ensures ScanFor(msgs, malId).Miss? <==> forall j :: 0 <= j < |msgs| ==> Passes(msgs[j], malId)
  {
    if msgs != [] {
      var n := |msgs| - 1;
      var init := msgs[..n];
      ScanMiss(init, malId);
      assert forall j :: 0 <= j < n ==> init[j] == msgs[j];
    }
  }

  /**
   * The search finds message `k` exactly when it is the first that matches
   * and every message before it lets the loop go on. Otherwise an embed
   * without a URL or without an id stops it with an exception.
   */
  lemma ScanHit(msgs: seq<Message>, malId: int)
    requires ScanFor(msgs, malId).Hit?
    ensures var k := ScanFor(msgs, malId).k;
      k < |msgs| && Matches(msgs[k], malId) && forall j :: 0 <= j < k ==> Passes(msgs[j], malId)
  {
    var k := ScanFor(msgs, malId).k;
    ScanPrefix(msgs, malId, k);
    ScanMiss(msgs[..k], malId);
    assert forall j :: 0 <= j < k ==> msgs[..k][j] == msgs[j];
  }

  /** Before the message it finds, the search had found nothing. */
  lemma {:induction false} ScanPrefix(msgs: seq<Message>, malId: int, k: nat)
    requires ScanFor(msgs, malId) == Hit(k)
    ensures k < |msgs| && ScanFor(msgs[..k], malId).Miss?
  {
    var n := |msgs| - 1;
    if ScanFor(msgs[..n], malId) != Miss {
      ScanPrefix(msgs[..n], malId, k);
      assert msgs[..n][..k] == msgs[..k];
    }
  }

  /** The string comparison is stricter than the integer one the newer bot makes. */
  lemma MatchesIsFor(m: Message, malId: int)
    requires Matches(m, malId)
    ensures malId >= 0 && IsFor(m, malId)
  {
    assert MessageId(m) == Some(IdText(malId));
    ValueOfNatToString(malId);
  }

  /** `embed['thumbnail']['url']` raises `KeyError` on an embed without a thumbnail. */
  function Rebuilt(e: Embed, source: string): Result<Embed, string>
  {
    if e.thumbnail.None? then Err("KeyError") else Ok(UpdateEmbeds.SourcedEmbed(e, source))
  }

  /** The search over the feed and the edit, with `source` the joined valid links. */
  function EditFound(malId: int, source: string, history: seq<Message>): (SourceOutcome, seq<Message>)
  {
    var msgs := LogsOrder(history);
    match ScanFor(msgs, malId)
    case Miss => (NotFound, history)
    case Fault(x) => (Crashed(x), history)
    case Hit(k) =>
      var i := BatchPos(|msgs|, k);
      var e := history[i].embeds[0];
      match Rebuilt(e, source)
      case Err(x) => (Crashed(x), history)
      case Ok(r) => (Edited(i, UpdateEmbeds.SourceName !in Names(e.fields)), history[i := Message([r])])
  }

  /** The command once the caller is trusted: how it ends and the feed afterwards. */
  function SourceSpec(malId: int, links: string, probe: string -> Probe, history: seq<Message>): (SourceOutcome, seq<Message>)
  {
    match CheckLinks(Words(links), probe)
    case Err(o) => (o, history)
    case Ok(valid) => EditFound(malId, Join(" ", valid), history)
  }

  /**
   * The message edited is in the window and matches. Every message of the
   * newer blocks of 100 was skipped, and so was every older message of its
   * own block: it is the oldest match of the newest block that has one.
   */
  lemma EditFoundTarget(malId: int, source: string, history: seq<Message>)
    requires EditFound(malId, source, history).0.Edited?
    ensures var o, n := EditFound(malId, source, history).0, |Window(history, LogsLimit)|;
      && o.index < n && Matches(history[o.index], malId)
      && (forall j :: 0 <= j < BlockStart(o.index) ==> Passes(history[j], malId))
      && (forall j :: o.index < j < BlockEnd(n, o.index) ==> Passes(history[j], malId))
  {
    LogsHit(history, malId);
  }

  /** A hit of the search in `logs_from` order, read back in the feed's own order. */
  lemma LogsHit(history: seq<Message>, malId: int)
    requires ScanFor(LogsOrder(history), malId).Hit?
    ensures var n, k := |LogsOrder(history)|, ScanFor(LogsOrder(history), malId).k;
      && k < n && var i := BatchPos(n, k);
      && i < |Window(history, LogsLimit)| && Matches(history[i], malId)
      && (forall j :: 0 <= j < BlockStart(i) ==> Passes(history[j], malId))
      && (forall j :: i < j < BlockEnd(n, i) ==> Passes(history[j], malId))
  {
    var msgs := LogsOrder(history);
    var n := |msgs|;
    ScanHit(msgs, malId);
    var k := ScanFor(msgs, malId).k;
    var i := BatchPos(n, k);
    forall j | 0 <= j < BlockStart(i)
      ensures Passes(history[j], malId)
    {
      BatchPosInvolution(n, j);
      BlockOrder(BatchPos(n, j), k);
      assert msgs[BatchPos(n, j)] == history[j];
    }
    forall j | i < j < BlockEnd(n, i)
      ensures Passes(history[j], malId)
    {
      SameBlock(BlockStart(i), j);
      BatchPosInvolution(n, j);
      assert msgs[BatchPos(n, j)] == history[j];
    }
  }

  /** A position in an earlier block comes earlier. */
  lemma BlockOrder(a: nat, b: nat)
    requires BlockStart(a) < BlockStart(b)
    ensures a < b
  {
    var p, q := BlockStart(a) / LogsBatch, BlockStart(b) / LogsBatch;
    assert BlockStart(a) == p * LogsBatch && BlockStart(b) == q * LogsBatch;
  }

  /** A position within 100 of a block start is in that block. */
  lemma SameBlock(s: nat, j: nat)
    requires s % LogsBatch == 0 && s <= j < s + LogsBatch
    ensures BlockStart(j) == s
  {
  }

  /** No message other than the edited one changes. */
  lemma EditFoundOthers(malId: int, source: string, history: seq<Message>)
    requires EditFound(malId, source, history).0.Edited?
    ensures var (o, h) := EditFound(malId, source, history);
      |h| == |history| && forall j :: 0 <= j < |history| && j != o.index ==> h[j] == history[j]
  {
    var msgs := LogsOrder(history);
    ScanHit(msgs, malId);
  }

  /**
   * The edited message holds one embed that keeps the title, URL,
   * thumbnail and info fields, whose Source is the joined links, and the
   * reply says "Added" exactly when the embed had no Source.
   */
  lemma EditFoundEmbed(malId: int, source: string, history: seq<Message>)
    requires EditFound(malId, source, history).0.Edited?
    ensures var (o, h) := EditFound(malId, source, history);
      && o.index < |history| && o.index < |h| && history[o.index].embeds != []
      && var e, m := history[o.index].embeds[0], h[o.index];
      && |m.embeds| == 1
      && m.embeds[0].title == e.title && m.embeds[0].url == e.url && m.embeds[0].thumbnail == e.thumbnail
      && FirstValue(m.embeds[0].fields, UpdateEmbeds.SourceName) == Some(source)
      && (forall n :: n in UpdateEmbeds.InfoNames ==> FirstValue(m.embeds[0].fields, n) == FirstValue(e.fields, n))
      && (o.isNewSource <==> UpdateEmbeds.SourceName !in Names(e.fields))
  {
    var msgs := LogsOrder(history);
    var k := ScanFor(msgs, malId).k;
    UpdateEmbeds.SourcedEmbedFacts(history[BatchPos(|msgs|, k)].embeds[0], source);
  }

  /** The link loop. */
  method ValidateLinks(words: seq<string>, probe: string -> Probe) returns (r: Result<seq<string>, SourceOutcome>)
    ensures r == CheckLinks(words, probe)
  {
    var valid: seq<string> := [];
    for i := 0 to |words|
      invariant CheckLinks(words[..i], probe) == Ok(valid)
    {
      assert words[..i + 1][..i] == words[..i];
      var link := words[i];
      if link == [] {
        ValidateStops(words, probe, i + 1);
        return Err(Crashed("IndexError"));
      }
      if link[0] == '<' {
        link := link[1..];
      }
      if link == [] {
        ValidateStops(words, probe, i + 1);
        return Err(Crashed("IndexError"));
      }
      if link[|link| - 1] == '>' {
        link := link[..|link| - 1];
      }
      var resp := probe(link);
      if resp.NoSchema? {
        ValidateStops(words, probe, i + 1);
        return Err(MissingSchema(link));
      }
      if resp.Raises? {
        ValidateStops(words, probe, i + 1);
        return Err(Crashed(resp.error));
      }
      if resp.code != 200 {
        ValidateStops(words, probe, i + 1);
        return Err(BadStatus(link, resp.code));
      }
      valid := valid + [link];
    }
    assert words[..|words|] == words;
    return Ok(valid);
  }

  /** A failure among the first words is the result for all of them. */
  lemma {:induction false} ValidateStops(words: seq<string>, probe: string -> Probe, n: nat)
    requires n <= |words| && CheckLinks(words[..n], probe).Err?
    ensures CheckLinks(words, probe) == CheckLinks(words[..n], probe)
  {
    if n < |words| {
      assert words[..|words| - 1][..n] == words[..n];
      ValidateStops(words[..|words| - 1], probe, n);
    } else {
      assert words[..n] == words;
    }
  }

  /** The search loop over the messages, in the order `logs_from` yields them. */
  method SearchLogs(msgs: seq<Message>, malId: int) returns (r: Scan)
    ensures r == ScanFor(msgs, malId)
  {
    for i := 0 to |msgs|
      invariant ScanFor(msgs[..i], malId) == Miss
    {
      assert msgs[..i + 1][..i] == msgs[..i];
      var m := msgs[i];
      if m.embeds == [] {
        continue;
      }
      var embed := m.embeds[0];
      if embed.url.None? {
        ScanStops(msgs, malId, i + 1);
        return Fault("KeyError");
      }
      var id := ExtractMalId(embed.url.value);
      if id.None? {
        ScanStops(msgs, malId, i + 1);
        return Fault("AttributeError");
      }
      if id.value == IdText(malId) {
        ScanStops(msgs, malId, i + 1);
        return Hit(i);
      }
    }
    assert msgs[..|msgs|] == msgs;
    return Miss;
  }

  /** Once the search has stopped, later messages change nothing. */
  lemma {:induction false} ScanStops(msgs: seq<Message>, malId: int, n: nat)
    requires n <= |msgs| && !ScanFor(msgs[..n], malId).Miss?
    ensures ScanFor(msgs, malId) == ScanFor(msgs[..n], malId)
  {
    if n < |msgs| {
      assert msgs[..|msgs| - 1][..n] == msgs[..n];
      ScanStops(msgs[..|msgs| - 1], malId, n);
    } else {
      assert msgs[..n] == msgs;
    }
  }

  /** The search and the edit of the command. */
  method EditMessage(malId: int, validLinks: seq<string>, feed: Channel) returns (o: SourceOutcome)
    modifies feed
    ensures (o, feed.history) == EditFound(malId, Join(" ", validLinks), old(feed.history))
  {
    var msgs := LogsOrder(feed.history);
    var scan := SearchLogs(msgs, malId);
    if scan.Miss? {
      return NotFound;
    }
    if scan.Fault? {
      return Crashed(scan.error);
    }
    var i := BatchPos(|msgs|, scan.k);
    var embed := feed.history[i].embeds[0];
    if embed.thumbnail.None? {
      return Crashed("KeyError");
    }
    var rebuilt, isNewSource := UpdateEmbeds.AddSource(embed, validLinks);
    feed.Edit(i, rebuilt);
    return Edited(i, isNewSource);
  }

  /** `source(ctx, mal_id, *, links)`, once the caller is trusted. */
  method Source(malId: int, links: string, probe: string -> Probe, feed: Channel) returns (o: SourceOutcome)
    modifies feed
    ensures (o, feed.history) == SourceSpec(malId, links, probe, old(feed.history))
  {
    var checked := ValidateLinks(Words(links), probe);
    if checked.Err? {
      return checked.error;
    }
    o := EditMessage(malId, checked.value, feed);
  }
}
