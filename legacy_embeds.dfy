/**
 * The two older embed modules, embeds.py and utils/embeds.py. Their
 * builders are the same chains of `add_to_embed` calls: no MAL ID field,
 * and a value helper that returns `None` instead of raising. utils/embeds.py
 * computes its details from a Jikan answer; embeds.py scrapes HTML, which is
 * not part of this model, so its builders take the details as given.
 */
module LegacyEmbeds {
  import opened Wrappers
  import opened Text
  import opened MalUtils
  import opened AnimeData
  import opened EmbedModel

  const StatusName: string := "Status"
  const AirDateName: string := "Air Date"
  const SynopsisName: string := "Synopsis"
  const SourceName: string := "Source"

  predicate IsInfoName(n: string)
  {
    n == StatusName || n == AirDateName || n == SynopsisName
  }

  // ---------------------------------------------------------------------
  // get_data of utils/embeds.py

  /** The members of a Jikan `anime` answer that `get_data` reads. */
  datatype JikanAnime = JikanAnime(
    title: string,
    imageUrl: Option<string>,
    synopsis: JsonField<string>,
    status: string,
    airedString: Option<string>,
    genres: seq<Genre>)

  /**
   * `get_data` as written: when `ignore_image` is set, or Jikan has no image,
   * `image` is `None` and `image.startswith(...)` raises `AttributeError`;
   * otherwise the synopsis follows the rule as written, carriage returns kept.
   */
  function GetDataJikanAsWritten(resp: JikanAnime, ignoreImage: bool): Result<AnimeDetails, string>
  {
    var image := if ignoreImage then None else resp.imageUrl;
    if image.None? then Err("AttributeError")
    else Ok(JikanDetails(resp, image, SynopsisOf(resp.synopsis)))
  }

  /** `refresh_embed(..., remove_image=True)` can never get past `get_data`. */
  lemma IgnoreImageRaises(resp: JikanAnime)
    ensures GetDataJikanAsWritten(resp, true).Err?
  {
  }

  /**
   * The evidently intended `get_data`: the placeholder test only runs on an
   * image, and carriage returns are removed from the synopsis. Where the
   * code as written does not raise it gives the same answer up to the
   * synopsis, and the same answer outright for a synopsis without `\r`.
   */
  function GetDataJikan(resp: JikanAnime, ignoreImage: bool): (d: AnimeDetails)
    ensures ignoreImage ==> d.image.None?
    ensures d.image.Some? ==> d.image == resp.imageUrl && !StartsWith(d.image.value, PlaceholderIcon)
    ensures d.sfw <==> forall k :: 0 <= k < |resp.genres| ==> resp.genres[k].malId != HentaiGenreId
    ensures d.status == Some(resp.status) && d.airdate == resp.airedString
    ensures resp.synopsis.Null? <==> d.synopsis.None?
    ensures d.synopsis.Some? ==> |d.synopsis.value| <= SynopsisLimit + |Ellipsis| && '\r' !in d.synopsis.value
    ensures !ignoreImage && resp.imageUrl.Some? ==>
      GetDataJikanAsWritten(resp, false) == Ok(d.(synopsis := SynopsisOf(resp.synopsis)))
    ensures !ignoreImage && resp.imageUrl.Some? && !(resp.synopsis.Present? && '\r' in resp.synopsis.v) ==>
      GetDataJikanAsWritten(resp, false) == Ok(d)
  {
    JikanDetails(resp, if ignoreImage then None else resp.imageUrl, SynopsisOfCorrected(resp.synopsis))
  }

  function JikanDetails(resp: JikanAnime, image: Option<string>, synopsis: Option<string>): AnimeDetails
  {
    var image := if image.Some? && StartsWith(image.value, PlaceholderIcon) then None else image;
    AnimeDetails(
      resp.title,
      image,
      synopsis,
      IsSfwByGenreId(resp.genres),
      resp.airedString,
      Some(resp.status))
  }

  // ---------------------------------------------------------------------
  // Builders

  /** `embed_value_helper`: the first value with that name, or `None`. */
  method EmbedValueOrNone(fields: seq<Field>, name: string) returns (r: Option<string>)
    ensures r == FirstValue(fields, name)
  {
    for i := 0 to |fields|
      invariant forall j :: 0 <= j < i ==> fields[j].name != name
    {
      if fields[i].name == name {
        assert FirstIndex(fields, name) == i;
        return Some(fields[i].value);
      }
    }
    return None;
  }

  function CreateSteps(d: AnimeDetails): seq<Step>
  {
    [ Step(StatusName, d.status, true),
      Step(AirDateName, d.airdate, true),
      Step(SynopsisName, d.synopsis, false) ]
  }

  function CreatedEmbed(malId: nat, d: AnimeDetails): Embed
  {
    Embed(d.name, Some(AnimeUrl(malId)), d.image, Rebuild(None, CreateSteps(d)))
  }

  /** `create_embed`: a new embed for the anime, and whether it is safe for work. */
  method CreateEmbed(malId: nat, d: AnimeDetails) returns (e: Embed, sfw: bool)
    ensures e == CreatedEmbed(malId, d) && sfw == d.sfw
  {
    var b := new EmbedBuilder(d.name, Some(AnimeUrl(malId)));
    if d.image.Some? {
      b.SetThumbnail(d.image);
    }
    var steps := CreateSteps(d);
    AddChain(b, None, steps);
    e := b.Snapshot();
    sfw := d.sfw;
  }

  /**
   * A created embed's fields are exactly Status, Air Date and Synopsis, in
   * that order (no MAL ID), and its URL gives the id back.
   */
  lemma CreatedEmbedFacts(malId: nat, d: AnimeDetails)
    ensures var e := CreatedEmbed(malId, d);
      && ExtractMalId(e.url.value) == Some(NatToString(malId))
      && Names(e.fields) == [StatusName, AirDateName, SynopsisName]
      && FirstValue(e.fields, StatusName) == Some(Shown(d.status))
      && FirstValue(e.fields, AirDateName) == Some(Shown(d.airdate))
      && FirstValue(e.fields, SynopsisName) == Some(Shown(d.synopsis))
  {
    var steps := CreateSteps(d);
    assert DistinctNames(steps);
    ExtractAnimeUrl(malId);
    NamesRebuild(None, steps);
    KeptNamesFresh(steps);
    LookupAt(None, steps, 0);
    LookupAt(None, steps, 1);
    LookupAt(None, steps, 2);
  }

  /** `refresh_embed`'s second cut of the synopsis. */
  function RecutSynopsis(s: Option<string>): Option<string>
  {
    if s.Some? && |s.value| > SynopsisLimit then Some(s.value[..SynopsisLimit] + Ellipsis) else s
  }

  function RefreshSteps(d: AnimeDetails): seq<Step>
  {
    [ Step(StatusName, d.status, true),
      Step(AirDateName, d.airdate, true),
      Step(SynopsisName, RecutSynopsis(d.synopsis), false),
      Step(SourceName, None, false) ]
  }

  function RefreshedEmbed(prior: Embed, malId: nat, removeImage: bool, d: AnimeDetails): Embed
  {
    var thumb := if !removeImage && d.image.Some? then d.image else None;
    Embed(d.name, Some(AnimeUrl(malId)), thumb, Rebuild(Some(prior.fields), RefreshSteps(d)))
  }

  /** `refresh_embed`: fresh details over the previous embed. */
  method RefreshEmbed(prior: Embed, malId: nat, removeImage: bool, d: AnimeDetails) returns (e: Embed)
    ensures e == RefreshedEmbed(prior, malId, removeImage, d)
  {
    var synopsis := d.synopsis;
    if synopsis.Some? && |synopsis.value| > SynopsisLimit {
      synopsis := Some(synopsis.value[..SynopsisLimit] + Ellipsis);
    }
    var b := new EmbedBuilder(d.name, Some(AnimeUrl(malId)));
    if !removeImage && d.image.Some? {
      b.SetThumbnail(d.image);
    }
    var steps := [ Step(StatusName, d.status, true),
                   Step(AirDateName, d.airdate, true),
                   Step(SynopsisName, synopsis, false),
                   Step(SourceName, None, false) ];
    assert steps == RefreshSteps(d);
    AddChain(b, Some(prior), steps);
    e := b.Snapshot();
  }

  /**
   * The refreshed embed carries the old Source over unchanged, and its
   * synopsis is the new one cut to 400 characters plus `...`, or the old
   * one when there is no new one.
   */
  lemma RefreshedEmbedFacts(prior: Embed, malId: nat, removeImage: bool, d: AnimeDetails)
    ensures var e := RefreshedEmbed(prior, malId, removeImage, d);
      && FirstValue(e.fields, SourceName) == FirstValue(prior.fields, SourceName)
      && (d.synopsis.Some? && |d.synopsis.value| > SynopsisLimit ==>
            FirstValue(e.fields, SynopsisName) == Some(d.synopsis.value[..SynopsisLimit] + Ellipsis))
      && (d.synopsis.None? ==> FirstValue(e.fields, SynopsisName) == FirstValue(prior.fields, SynopsisName))
  {
    var steps := RefreshSteps(d);
    assert DistinctNames(steps);
    LookupAt(Some(prior.fields), steps, 2);
    LookupAt(Some(prior.fields), steps, 3);
  }

  function CarrySteps(synopsisInline: bool): seq<Step>
  {
    [ Step(StatusName, None, true),
      Step(AirDateName, None, true),
      Step(SynopsisName, None, synopsisInline) ]
  }

  function AddSourceSteps(source: string): seq<Step>
  {
    [ Step(StatusName, None, true),
      Step(AirDateName, None, true),
      Step(SynopsisName, None, true),
      Step(SourceName, Some(source), false) ]
  }

  /** The embed `add_source(embed, valid_links)` builds, `source` being `" ".join(valid_links)`. */
  function SourcedEmbed(e: Embed, source: string): Embed
  {
    Embed(e.title, e.url, e.thumbnail, Rebuild(Some(e.fields), AddSourceSteps(source)))
  }

  /**
   * `add_source`: Source set to the joined links, and whether there was
   * none. It differs from `NotifyEmbeds.AddSource` only in its step list,
   * which has no MAL ID field.
   */
  method AddSource(e: Embed, validLinks: seq<string>) returns (r: Embed, isNewSource: bool)
    ensures r == SourcedEmbed(e, Join(" ", validLinks))
    ensures isNewSource <==> SourceName !in Names(e.fields)
  {
    var b := new EmbedBuilder(e.title, e.url);
    b.SetThumbnail(e.thumbnail);
    isNewSource := SourceName !in Names(e.fields);
    var source := Join(" ", validLinks);
    var steps := AddSourceSteps(source);
    AddChain(b, Some(e), steps);
    r := b.Snapshot();
  }

  /** After `add_source` the Source is the joined links and the other three fields keep their values. */
  lemma SourcedEmbedFacts(e: Embed, source: string)
    ensures var r := SourcedEmbed(e, source);
      && r.title == e.title && r.url == e.url && r.thumbnail == e.thumbnail
      && FirstValue(r.fields, SourceName) == Some(source)
      && (forall n :: IsInfoName(n) ==> FirstValue(r.fields, n) == FirstValue(e.fields, n))
  {
    var steps := AddSourceSteps(source);
    assert DistinctNames(steps);
    LookupAt(Some(e.fields), steps, 0);
    LookupAt(Some(e.fields), steps, 1);
    LookupAt(Some(e.fields), steps, 2);
    LookupAt(Some(e.fields), steps, 3);
  }

  function UnsourcedEmbed(e: Embed): Embed
  {
    Embed(e.title, e.url, e.thumbnail, Rebuild(Some(e.fields), CarrySteps(false)))
  }

  /**
   * `remove_source`: the embed without its Source field. It differs from
   * `NotifyEmbeds.RemoveSource` only in the info fields it carries over.
   */
  method RemoveSource(e: Embed) returns (r: Embed)
    ensures r == UnsourcedEmbed(e)
  {
    var b := new EmbedBuilder(e.title, e.url);
    b.SetThumbnail(e.thumbnail);
    var steps := CarrySteps(false);
    AddChain(b, Some(e), steps);
    r := b.Snapshot();
  }

  /** `remove_source` keeps only Status, Air Date and Synopsis, with their values. */
  lemma UnsourcedEmbedFacts(e: Embed)
    ensures var r := UnsourcedEmbed(e);
      && r.title == e.title && r.url == e.url && r.thumbnail == e.thumbnail
      && (forall k :: 0 <= k < |r.fields| ==> IsInfoName(r.fields[k].name))
      && (forall n :: IsInfoName(n) ==> FirstValue(r.fields, n) == FirstValue(e.fields, n))
  {
    var steps := CarrySteps(false);
    CarryStepsDistinct(false);
    RebuildNamesFromSteps(Some(e.fields), steps);
    assert StepNames(steps) == [StatusName, AirDateName, SynopsisName];
    CarriedInfo(e.fields, steps);
  }

  lemma CarryStepsDistinct(synopsisInline: bool)
    ensures DistinctNames(CarrySteps(synopsisInline))
  {
  }

  /** Chains whose three steps carry Status, Air Date and Synopsis over keep those values. */
  lemma CarriedInfo(fields: seq<Field>, steps: seq<Step>)
    requires DistinctNames(steps) && |steps| == 3
    requires steps[0].name == StatusName && steps[1].name == AirDateName && steps[2].name == SynopsisName
    requires forall k :: 0 <= k < 3 ==> steps[k].value.None?
    ensures forall n :: IsInfoName(n) ==> FirstValue(Rebuild(Some(fields), steps), n) == FirstValue(fields, n)
  {
    LookupAt(Some(fields), steps, 0);
    LookupAt(Some(fields), steps, 1);
    LookupAt(Some(fields), steps, 2);
  }
}
