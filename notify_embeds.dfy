/**
 * The embed builders of mal_notify_bot/utils/embeds.py: `create_embed`,
 * `refresh_embed`, `add_source` and `remove_source`. Each starts a new
 * embed and makes a fixed chain of `add_to_embed` calls, described here by
 * its list of steps. What `get_data` returned for the anime (see
 * `AnimeData.GetData`) is a parameter.
 */
module NotifyEmbeds {
  import opened Wrappers
  import opened Text
  import opened MalUtils
  import opened AnimeData
  import opened EmbedModel

  const StatusName: string := "Status"
  const AirDateName: string := "Air Date"
  const MalIdName: string := "MAL ID"
  const SynopsisName: string := "Synopsis"
  const SourceName: string := "Source"

  /** The names every embed of this bot carries besides `Source`. */
  predicate IsInfoName(n: string)
  {
    n == StatusName || n == AirDateName || n == MalIdName || n == SynopsisName
  }

  function CreateSteps(d: AnimeDetails, malId: nat): seq<Step>
  {
    [ Step(StatusName, d.status, true),
      Step(AirDateName, d.airdate, true),
      Step(MalIdName, Some(NatToString(malId)), true),
      Step(SynopsisName, d.synopsis, false) ]
  }

  lemma CreateStepsDistinct(d: AnimeDetails, malId: nat)
    ensures DistinctNames(CreateSteps(d, malId))
  {
  }

  /** The embed `create_embed(mal_id)` builds from what `get_data` returned. */
  function CreatedEmbed(malId: nat, d: AnimeDetails): Embed
  {
    Embed(d.name, Some(AnimeUrl(malId)), d.image, Rebuild(None, CreateSteps(d, malId)))
  }

  /** `create_embed`: a new embed for `mal_id`, and whether it is safe for work. */
  method CreateEmbed(malId: nat, d: AnimeDetails) returns (e: Embed, sfw: bool)
    ensures e == CreatedEmbed(malId, d) && sfw == d.sfw
  {
    var b := new EmbedBuilder(d.name, Some(AnimeUrl(malId)));
    if d.image.Some? {
      b.SetThumbnail(d.image);
    }
    var steps := CreateSteps(d, malId);
    AddChain(b, None, steps);
    e := b.Snapshot();
    sfw := d.sfw;
  }

  /**
   * A created embed links to the anime's MyAnimeList page, from which
   * `extract_mal_id_from_url` reads the id back; its fields are exactly
   * Status, Air Date, MAL ID and Synopsis, in that order, holding the
   * status, the air date, the id and the synopsis (`None` shown as `None`).
   */
  lemma CreatedEmbedFacts(malId: nat, d: AnimeDetails)
    ensures var e := CreatedEmbed(malId, d);
      && e.title == d.name
      && e.url == Some(AnimeUrl(malId))
      && ExtractMalId(e.url.value) == Some(NatToString(malId))
      && Names(e.fields) == [StatusName, AirDateName, MalIdName, SynopsisName]
      && FirstValue(e.fields, SourceName).None?
  {
    var steps := CreateSteps(d, malId);
    ExtractAnimeUrl(malId);
    NamesRebuild(None, steps);
    KeptNamesFresh(steps);
  }

  /**
   * The fields of a created embed hold the status, the air date, the id and
   * the synopsis (`None` shown as `None`).
   */
  lemma CreatedEmbedValues(malId: nat, d: AnimeDetails)
    ensures var fs := CreatedEmbed(malId, d).fields;
      && FirstValue(fs, MalIdName) == Some(NatToString(malId))
      && FirstValue(fs, StatusName) == Some(Shown(d.status))
      && FirstValue(fs, AirDateName) == Some(Shown(d.airdate))
      && FirstValue(fs, SynopsisName) == Some(Shown(d.synopsis))
  {
    var steps := CreateSteps(d, malId);
    CreateStepsDistinct(d, malId);
    LookupAt(None, steps, 0);
    LookupAt(None, steps, 1);
    LookupAt(None, steps, 2);
    LookupAt(None, steps, 3);
  }

  /** `refresh_embed`'s second cut: over 400 characters, the first 400 and `...`. */
  function RecutSynopsis(s: Option<string>): (r: Option<string>)
    ensures r.None? <==> s.None?
    ensures s.Some? && |s.value| <= SynopsisLimit ==> r == s
    ensures s.Some? && |s.value| > SynopsisLimit ==> |r.value| == SynopsisLimit + |Ellipsis| && StartsWith(r.value, s.value[..SynopsisLimit])
  {
    if s.Some? && |s.value| > SynopsisLimit then Some(s.value[..SynopsisLimit] + Ellipsis) else s
  }

  function RefreshSteps(d: AnimeDetails, malId: nat): seq<Step>
  {
    [ Step(StatusName, d.status, true),
      Step(AirDateName, d.airdate, true),
      Step(MalIdName, Some(NatToString(malId)), true),
      Step(SynopsisName, RecutSynopsis(d.synopsis), false),
      Step(SourceName, None, false) ]
  }

  lemma RefreshStepsDistinct(d: AnimeDetails, malId: nat)
    ensures DistinctNames(RefreshSteps(d, malId))
  {
  }

  /** The embed `refresh_embed(embed, mal_id, remove_image)` builds from what `get_data` returned. */
  function RefreshedEmbed(prior: Embed, malId: nat, removeImage: bool, d: AnimeDetails): Embed
  {
    var thumb := if !removeImage && d.image.Some? then d.image else None;
    Embed(d.name, Some(AnimeUrl(malId)), thumb, Rebuild(Some(prior.fields), RefreshSteps(d, malId)))
  }

  /** `refresh_embed`: fresh MyAnimeList data over the previous embed. */
  method RefreshEmbed(prior: Embed, malId: nat, removeImage: bool, d: AnimeDetails) returns (e: Embed)
    ensures e == RefreshedEmbed(prior, malId, removeImage, d)
  {
    var synopsis := d.synopsis;
    if synopsis.Some? && |synopsis.value| > SynopsisLimit {
      synopsis := Some(synopsis.value[..SynopsisLimit] + Ellipsis);
    }
    var b := new EmbedBuilder(d.name, Some(AnimeUrl(malId)));
    if !removeImage && d.image.Some? {
      b.SetThumbnail(d.image);
    }
    var steps := [ Step(StatusName, d.status, true),
                   Step(AirDateName, d.airdate, true),
                   Step(MalIdName, Some(NatToString(malId)), true),
                   Step(SynopsisName, synopsis, false),
                   Step(SourceName, None, false) ];
    assert steps == RefreshSteps(d, malId);
    AddChain(b, Some(prior), steps);
    e := b.Snapshot();
  }

  /**
   * A refreshed embed keeps the old Source as it was, takes the new status
   * and id, keeps the old air date when MyAnimeList has none, and drops the
   * thumbnail when asked to.
   */
  lemma RefreshedEmbedFacts(prior: Embed, malId: nat, removeImage: bool, d: AnimeDetails)
    ensures var e := RefreshedEmbed(prior, malId, removeImage, d);
      && e.url == Some(AnimeUrl(malId))
      && FirstValue(e.fields, SourceName) == FirstValue(prior.fields, SourceName)
      && FirstValue(e.fields, StatusName) == (if d.status.Some? then d.status else FirstValue(prior.fields, StatusName))
      && FirstValue(e.fields, MalIdName) == Some(NatToString(malId))
      && FirstValue(e.fields, AirDateName) == (if d.airdate.Some? then d.airdate else FirstValue(prior.fields, AirDateName))
      && (removeImage ==> e.thumbnail.None?)
  {
    var steps := RefreshSteps(d, malId);
    RefreshStepsDistinct(d, malId);
    LookupAt(Some(prior.fields), steps, 0);
    LookupAt(Some(prior.fields), steps, 1);
    LookupAt(Some(prior.fields), steps, 2);
    LookupAt(Some(prior.fields), steps, 4);
  }

  function CarrySteps(synopsisInline: bool): seq<Step>
  {
    [ Step(StatusName, None, true),
      Step(AirDateName, None, true),
      Step(MalIdName, None, true),
      Step(SynopsisName, None, synopsisInline) ]
  }

  function AddSourceSteps(source: string): seq<Step>
  {
    [ Step(StatusName, None, true),
      Step(AirDateName, None, true),
      Step(MalIdName, None, true),
      Step(SynopsisName, None, true),
      Step(SourceName, Some(source), false) ]
  }

  lemma AddSourceStepsDistinct(source: string)
    ensures DistinctNames(AddSourceSteps(source))
  {
  }

  lemma CarryStepsDistinct(synopsisInline: bool)
    ensures DistinctNames(CarrySteps(synopsisInline))
  {
  }

  /** The embed `add_source(embed, valid_links)` builds, `source` being `" ".join(valid_links)`. */
  function SourcedEmbed(e: Embed, source: string): Embed
  {
    Embed(e.title, e.url, e.thumbnail, Rebuild(Some(e.fields), AddSourceSteps(source)))
  }

  /**
   * `add_source`: the embed with its Source set to the joined links, and
   * whether it had none before. It differs from `LegacyEmbeds.AddSource`
   * only in its step list, which also carries the MAL ID field.
   */
  method AddSource(e: Embed, validLinks: seq<string>) returns (r: Embed, isNewSource: bool)
    ensures r == SourcedEmbed(e, Join(" ", validLinks))
    ensures isNewSource <==> SourceName !in Names(e.fields)
  {
    var b := new EmbedBuilder(e.title, e.url);
    b.SetThumbnail(e.thumbnail);
    isNewSource := SourceName !in Names(e.fields);
    var source := Join(" ", validLinks);
    var steps := AddSourceSteps(source);
    AddChain(b, Some(e), steps);
    r := b.Snapshot();
  }

  /**
   * After `add_source`, `get_source` finds the joined links; the other four
   * fields keep the values they had, and title, URL and thumbnail are kept.
   */
  lemma SourcedEmbedFacts(e: Embed, source: string)
    ensures var r := SourcedEmbed(e, source);
      && r.title == e.title && r.url == e.url && r.thumbnail == e.thumbnail
      && FirstValue(r.fields, SourceName) == Some(source)
      && (forall n :: IsInfoName(n) ==> FirstValue(r.fields, n) == FirstValue(e.fields, n))
  {
    var steps := AddSourceSteps(source);
    AddSourceStepsDistinct(source);
    LookupAt(Some(e.fields), steps, 4);
    CarriedInfo(e.fields, steps);
  }

  /** The embed `remove_source(embed)` builds. */
  function UnsourcedEmbed(e: Embed): Embed
  {
    Embed(e.title, e.url, e.thumbnail, Rebuild(Some(e.fields), CarrySteps(false)))
  }

  /**
   * `remove_source`: the embed without its Source field. It differs from
   * `LegacyEmbeds.RemoveSource` only in the info fields it carries over.
   */
  method RemoveSource(e: Embed) returns (r: Embed)
    ensures r == UnsourcedEmbed(e)
  {
    var b := new EmbedBuilder(e.title, e.url);
    b.SetThumbnail(e.thumbnail);
    var steps := CarrySteps(false);
    AddChain(b, Some(e), steps);
    r := b.Snapshot();
  }

  /**
   * After `remove_source` no Source is left; whichever of the other four
   * fields the embed had keep their values, and title, URL and thumbnail are kept.
   */
  lemma UnsourcedEmbedFacts(e: Embed)
    ensures var r := UnsourcedEmbed(e);
      && r.title == e.title && r.url == e.url && r.thumbnail == e.thumbnail
      && SourceName !in Names(r.fields)
      && (forall k :: 0 <= k < |r.fields| ==> IsInfoName(r.fields[k].name))
      && (forall n :: IsInfoName(n) ==> FirstValue(r.fields, n) == FirstValue(e.fields, n))
  {
    var steps := CarrySteps(false);
    CarryStepsDistinct(false);
    RebuildNamesFromSteps(Some(e.fields), steps);
    assert StepNames(steps) == [StatusName, AirDateName, MalIdName, SynopsisName];
    LookupAbsent(Some(e.fields), steps, SourceName);
    CarriedInfo(e.fields, steps);
  }

  /** Chains whose first four steps carry Status, Air Date, MAL ID and Synopsis over keep those values. */
  lemma CarriedInfo(fields: seq<Field>, steps: seq<Step>)
    requires DistinctNames(steps) && |steps| >= 4
    requires steps[0].name == StatusName && steps[1].name == AirDateName
    requires steps[2].name == MalIdName && steps[3].name == SynopsisName
    requires forall k :: 0 <= k < 4 ==> steps[k].value.None?
    ensures forall n :: IsInfoName(n) ==> FirstValue(Rebuild(Some(fields), steps), n) == FirstValue(fields, n)
  {
    LookupAt(Some(fields), steps, 0);
    LookupAt(Some(fields), steps, 1);
    LookupAt(Some(fields), steps, 2);
    LookupAt(Some(fields), steps, 3);
  }

  /** Removing a source that was just added gives what removing it from the original gives. */
  lemma RemoveAfterAdd(e: Embed, source: string)
    ensures UnsourcedEmbed(SourcedEmbed(e, source)) == UnsourcedEmbed(e)
  {
    SourcedEmbedFacts(e, source);
    RebuildCarryOnly(SourcedEmbed(e, source).fields, e.fields, CarrySteps(false));
  }
}
