/**
 * update_embeds.py: the embed rebuilders that copy fields by walking the
 * old embed's field list, instead of going through `add_to_embed`.
 * `get_image_and_synopsis` scrapes HTML, which is not part of this model:
 * its image and (already collapsed) synopsis are parameters.
 */
module UpdateEmbeds {
  import opened Wrappers
  import opened Text
  import opened AnimeData
  import opened EmbedModel

  const StatusName: string := "Status"
  const AirDateName: string := "Air Date"
  const SynopsisName: string := "Synopsis"
  const SourceName: string := "Source"

  /** The fields `refresh_embed` copies before the synopsis. */
  const StatusAndAirDate: set<string> := {StatusName, AirDateName}
  /** The fields `remove_source` keeps. */
  const InfoNames: set<string> := {StatusName, AirDateName, SynopsisName}
  /** The fields `refresh_embed` copies after the synopsis. */
  const SourceOnly: set<string> := {SourceName}

  /** Every copy loop writes Status and Air Date inline, everything else not. */
  function InlineFor(name: string): bool
  {
    name == StatusName || name == AirDateName
  }

  /** What one iteration of a copy loop adds for field `f`. */
  function Kept(f: Field, ns: set<string>): seq<Field>
  {
    if f.name in ns then [Field(f.name, f.value, InlineFor(f.name))] else []
  }

  /** The fields whose name is in `ns`, in their original order, re-added with the loop's inline flag. */
  function Filtered(fs: seq<Field>, ns: set<string>): (r: seq<Field>)
    ensures |r| <= |fs|
    ensures forall k :: 0 <= k < |r| ==> r[k].name in ns && r[k].inline == InlineFor(r[k].name)
  {
    if fs == [] then [] else Kept(fs[0], ns) + Filtered(fs[1..], ns)
  }

  lemma {:induction false} FilteredAppend(a: seq<Field>, b: seq<Field>, ns: set<string>)
    ensures Filtered(a + b, ns) == Filtered(a, ns) + Filtered(b, ns)
  {
    if a == [] {
      assert a + b == b;
    } else {
      assert (a + b)[1..] == a[1..] + b;
      FilteredAppend(a[1..], b, ns);
    }
  }

  lemma FilteredSnoc(fs: seq<Field>, i: nat, ns: set<string>)
    requires i < |fs|
    ensures Filtered(fs[..i + 1], ns) == Filtered(fs[..i], ns) + Kept(fs[i], ns)
  {
    assert fs[..i + 1] == fs[..i] + [fs[i]];
    FilteredAppend(fs[..i], [fs[i]], ns);
    assert [fs[i]][1..] == [];
  }

  /**
   * Copying keeps the value of every kept name, the first occurrence
   * winning as before, and no field of any other name survives.
   */
  lemma {:induction false} FilteredLookup(fs: seq<Field>, ns: set<string>, n: string)
    ensures n in ns ==> FirstValue(Filtered(fs, ns), n) == FirstValue(fs, n)
    ensures n !in ns ==> FirstValue(Filtered(fs, ns), n).None?
  {
    if fs != [] {
      FilteredLookup(fs[1..], ns, n);
      FirstValueAppend(Kept(fs[0], ns), Filtered(fs[1..], ns), n);
      FirstValueAppend([fs[0]], fs[1..], n);
      assert [fs[0]] + fs[1..] == fs;
    }
  }

  /** Copying twice is copying once. */
  lemma {:induction false} FilteredIdempotent(fs: seq<Field>, ns: set<string>)
    ensures Filtered(Filtered(fs, ns), ns) == Filtered(fs, ns)
  {
    if fs != [] {
      var k := Kept(fs[0], ns);
      FilteredAppend(k, Filtered(fs[1..], ns), ns);
      FilteredIdempotent(fs[1..], ns);
      if k != [] {
        assert k[1..] == [];
      }
    }
  }

  // ---------------------------------------------------------------------
  // refresh_embed

  /** `refresh_embed`'s cut: over 400 characters, the first 400 plus `...`. */
  function RecutSynopsis(s: Option<string>): (r: Option<string>)
    ensures r.None? <==> s.None?
    ensures s.Some? && |s.value| <= SynopsisLimit ==> r == s
    ensures s.Some? && |s.value| > SynopsisLimit ==>
      |r.value| == SynopsisLimit + 3 && StartsWith(r.value, s.value[..SynopsisLimit]) && EndsWith(r.value, Ellipsis)
  {
    if s.Some? && |s.value| > SynopsisLimit then Some(s.value[..SynopsisLimit] + Ellipsis) else s
  }

  function SynopsisFields(s: Option<string>): seq<Field>
  {
    if s.Some? then [Field(SynopsisName, s.value, false)] else []
  }

  function RefreshedEmbed(prior: Embed, removeImage: bool, image: Option<string>, synopsis: Option<string>): Embed
  {
    var thumb := if !removeImage && image.Some? then image else None;
    Embed(prior.title, prior.url, thumb,
      Filtered(prior.fields, StatusAndAirDate) + SynopsisFields(RecutSynopsis(synopsis)) + Filtered(prior.fields, SourceOnly))
  }

  /**
   * `refresh_embed`: the old Status and Air Date fields, the new synopsis
   * when there is one, then the old Source fields.
   */
  method RefreshEmbed(prior: Embed, removeImage: bool, image: Option<string>, synopsis: Option<string>) returns (e: Embed)
    ensures e == RefreshedEmbed(prior, removeImage, image, synopsis)
  {
    var s := synopsis;
    if s.Some? && |s.value| > SynopsisLimit {
      s := Some(s.value[..SynopsisLimit] + Ellipsis);
    }
    var b := new EmbedBuilder(prior.title, prior.url);
    if !removeImage && image.Some? {
      b.SetThumbnail(image);
    }
    CopyStatusAndAirDate(b, prior.fields);
    if s.Some? {
      b.AddField(SynopsisName, s.value, false);
    }
    assert b.fields == Filtered(prior.fields, StatusAndAirDate) + SynopsisFields(RecutSynopsis(synopsis));
    CopySources(b, prior.fields);
    e := b.Snapshot();
  }

  /** `refresh_embed`'s first loop: the Status and Air Date fields, in their order. */
  method CopyStatusAndAirDate(b: EmbedBuilder, fs: seq<Field>)
    modifies b
    ensures b.fields == old(b.fields) + Filtered(fs, StatusAndAirDate)
    ensures b.title == old(b.title) && b.url == old(b.url) && b.thumbnail == old(b.thumbnail)
  {
    for i := 0 to |fs|
      invariant b.title == old(b.title) && b.url == old(b.url) && b.thumbnail == old(b.thumbnail)
      invariant b.fields == old(b.fields) + Filtered(fs[..i], StatusAndAirDate)
    {
      FilteredSnoc(fs, i, StatusAndAirDate);
      if fs[i].name == StatusName {
        b.AddField(StatusName, fs[i].value, true);
      } else if fs[i].name == AirDateName {
        b.AddField(AirDateName, fs[i].value, true);
      }
    }
    assert fs[..|fs|] == fs;
  }

  /** `refresh_embed`'s last loop: every Source field, in its order. */
  method CopySources(b: EmbedBuilder, fs: seq<Field>)
    modifies b
    ensures b.fields == old(b.fields) + Filtered(fs, SourceOnly)
    ensures b.title == old(b.title) && b.url == old(b.url) && b.thumbnail == old(b.thumbnail)
  {
    for i := 0 to |fs|
      invariant b.title == old(b.title) && b.url == old(b.url) && b.thumbnail == old(b.thumbnail)
      invariant b.fields == old(b.fields) + Filtered(fs[..i], SourceOnly)
    {
      FilteredSnoc(fs, i, SourceOnly);
      if fs[i].name == SourceName {
        b.AddField(fs[i].name, fs[i].value, false);
      }
    }
    assert fs[..|fs|] == fs;
  }

  /**
   * After `refresh_embed`: title and URL are the old ones; Status, Air Date
   * and Source keep their old values; the synopsis is the new one, cut,
   * and is gone when there is no new one.
   */
  lemma RefreshedEmbedFacts(prior: Embed, removeImage: bool, image: Option<string>, synopsis: Option<string>)
    ensures var e := RefreshedEmbed(prior, removeImage, image, synopsis);
      && e.title == prior.title && e.url == prior.url
      && (removeImage ==> e.thumbnail.None?)
      && FirstValue(e.fields, StatusName) == FirstValue(prior.fields, StatusName)
      && FirstValue(e.fields, AirDateName) == FirstValue(prior.fields, AirDateName)
      && FirstValue(e.fields, SourceName) == FirstValue(prior.fields, SourceName)
      && FirstValue(e.fields, SynopsisName) == RecutSynopsis(synopsis)
  {
    var a := Filtered(prior.fields, StatusAndAirDate);
    var m := SynopsisFields(RecutSynopsis(synopsis));
    var c := Filtered(prior.fields, SourceOnly);
    assert a + m + c == a + (m + c);
    forall n | n in {StatusName, AirDateName, SourceName, SynopsisName}
      ensures FirstValue(a + (m + c), n) == (if n == SynopsisName then RecutSynopsis(synopsis) else FirstValue(prior.fields, n))
    {
      FilteredLookup(prior.fields, StatusAndAirDate, n);
      FilteredLookup(prior.fields, SourceOnly, n);
      FirstValueAppend(a, m + c, n);
      FirstValueAppend(m, c, n);
    }
  }

  // ---------------------------------------------------------------------
  // add_source

  /** One iteration of `add_source`'s loop: info fields are copied, a Source field gets the new links. */
  function Resourced(f: Field, source: string): seq<Field>
  {
    if f.name == SourceName then [Field(SourceName, source, false)] else Kept(f, InfoNames)
  }

  function ResourcedAll(fs: seq<Field>, source: string): (r: seq<Field>)
    ensures |r| <= |fs|
    ensures forall k :: 0 <= k < |r| ==> r[k].name in InfoNames || r[k] == Field(SourceName, source, false)
  {
    if fs == [] then [] else Resourced(fs[0], source) + ResourcedAll(fs[1..], source)
  }

  lemma {:induction false} ResourcedAppend(a: seq<Field>, b: seq<Field>, source: string)
    ensures ResourcedAll(a + b, source) == ResourcedAll(a, source) + ResourcedAll(b, source)
  {
    if a == [] {
      assert a + b == b;
    } else {
      assert (a + b)[1..] == a[1..] + b;
      ResourcedAppend(a[1..], b, source);
    }
  }

  lemma ResourcedSnoc(fs: seq<Field>, i: nat, source: string)
    requires i < |fs|
    ensures ResourcedAll(fs[..i + 1], source) == ResourcedAll(fs[..i], source) + Resourced(fs[i], source)
  {
    assert fs[..i + 1] == fs[..i] + [fs[i]];
    ResourcedAppend(fs[..i], [fs[i]], source);
    assert [fs[i]][1..] == [];
  }

  function NewSourceField(fs: seq<Field>, source: string): seq<Field>
  {
    if SourceName in Names(fs) then [] else [Field(SourceName, source, false)]
  }

  /** The embed the loop of `add_source` is evidently meant to build, `source` being `" ".join(valid_links)`. */
  function SourcedEmbed(e: Embed, source: string): Embed
  {
    Embed(e.title, e.url, e.thumbnail, ResourcedAll(e.fields, source) + NewSourceField(e.fields, source))
  }

  /**
   * `add_source` as written: the `return` sits inside the loop, so only the
   * first field is looked at, and an embed without fields gives `None`.
   */
  function AddSourceAsWritten(e: Embed, source: string): Option<(Embed, bool)>
  {
    if e.fields == [] then None
    else
      var isNew := SourceName !in Names(e.fields);
      Some((Embed(e.title, e.url, e.thumbnail, Resourced(e.fields[0], source) + NewSourceField(e.fields, source)), isNew))
  }

  /** The loop of `add_source` as written, returning in its first iteration. */
  method AddSourceLoopAsWritten(e: Embed, validLinks: seq<string>) returns (r: Option<(Embed, bool)>)
    ensures r == AddSourceAsWritten(e, Join(" ", validLinks))
  {
    var source := Join(" ", validLinks);
    var b := new EmbedBuilder(e.title, e.url);
    if e.thumbnail.Some? {
      b.SetThumbnail(e.thumbnail);
    }
    var fs := e.fields;
    for i := 0 to |fs|
      invariant i == 0 && b.fields == []
      invariant b.title == e.title && b.url == e.url && b.thumbnail == e.thumbnail
    {
      if fs[i].name == StatusName {
        b.AddField(StatusName, fs[i].value, true);
      } else if fs[i].name == AirDateName {
        b.AddField(AirDateName, fs[i].value, true);
      } else if fs[i].name == SynopsisName {
        b.AddField(SynopsisName, fs[i].value, false);
      } else if fs[i].name == SourceName {
        b.AddField(fs[i].name, source, false);
      }
      assert b.fields == Resourced(fs[i], source);
      var isNewSource := SourceName !in Names(fs);
      if isNewSource {
        b.AddField(SourceName, source, false);
      }
      assert b.fields == Resourced(fs[0], source) + NewSourceField(fs, source);
      assert e.fields != [];
      r := Some((b.Snapshot(), isNewSource));
      assert r == AddSourceAsWritten(e, source);
      return;
    }
    return None;
  }

  /** An embed with no fields makes `add_source` return `None`, which its caller cannot unpack. */
  lemma AddSourceNoFields(e: Embed, source: string)
    requires e.fields == []
    ensures AddSourceAsWritten(e, source).None?
    ensures SourcedEmbed(e, source).fields == [Field(SourceName, source, false)]
  {
  }

  /** On a created embed, everything after the first field is dropped: the Synopsis is lost. */
  lemma AddSourceDropsSynopsis(status: string, synopsis: string, source: string)
    ensures var e := Embed("t", None, None, [Field(StatusName, status, true), Field(SynopsisName, synopsis, false)]);
      && AddSourceAsWritten(e, source).value.0.fields == [Field(StatusName, status, true), Field(SourceName, source, false)]
      && FirstValue(SourcedEmbed(e, source).fields, SynopsisName) == Some(synopsis)
  {
    var fs := [Field(StatusName, status, true), Field(SynopsisName, synopsis, false)];
    assert Names(fs) == [StatusName, SynopsisName];
    assert fs[1..][1..] == [];
    assert ResourcedAll(fs[1..], source) == fs[1..];
    assert ResourcedAll(fs, source) == fs;
    FirstValueAppend(fs, NewSourceField(fs, source), SynopsisName);
    assert FirstIndex(fs, SynopsisName) == 1;
  }

  /** On an embed with exactly one field the two versions agree. */
  lemma AddSourceSingleField(e: Embed, source: string)
    requires |e.fields| == 1
    ensures AddSourceAsWritten(e, source) == Some((SourcedEmbed(e, source), SourceName !in Names(e.fields)))
  {
    assert e.fields[1..] == [];
    var k := Resourced(e.fields[0], source);
    assert ResourcedAll(e.fields, source) == k + [];
    assert k + [] == k;
  }

  /** `add_source` with the `return` after the loop. */
  method AddSource(e: Embed, validLinks: seq<string>) returns (r: Embed, isNewSource: bool)
    ensures r == SourcedEmbed(e, Join(" ", validLinks))
    ensures isNewSource <==> SourceName !in Names(e.fields)
  {
    var source := Join(" ", validLinks);
    var b := new EmbedBuilder(e.title, e.url);
    if e.thumbnail.Some? {
      b.SetThumbnail(e.thumbnail);
    }
    var fs := e.fields;
    for i := 0 to |fs|
      invariant b.title == e.title && b.url == e.url && b.thumbnail == e.thumbnail
      invariant b.fields == ResourcedAll(fs[..i], source)
    {
      ResourcedSnoc(fs, i, source);
      if fs[i].name == StatusName {
        b.AddField(StatusName, fs[i].value, true);
      } else if fs[i].name == AirDateName {
        b.AddField(AirDateName, fs[i].value, true);
      } else if fs[i].name == SynopsisName {
        b.AddField(SynopsisName, fs[i].value, false);
      } else if fs[i].name == SourceName {
        b.AddField(fs[i].name, source, false);
      }
    }
    assert fs[..|fs|] == fs;
    assert b.fields == ResourcedAll(e.fields, source);
    isNewSource := SourceName !in Names(fs);
    if isNewSource {
      b.AddField(SourceName, source, false);
    }
    assert b.fields == ResourcedAll(e.fields, source) + NewSourceField(e.fields, source);
    assert b.thumbnail == e.thumbnail;
    r := b.Snapshot();
  }

  lemma {:induction false} ResourcedLookup(fs: seq<Field>, source: string, n: string)
    ensures n in InfoNames ==> FirstValue(ResourcedAll(fs, source), n) == FirstValue(fs, n)
    ensures n == SourceName ==>
      FirstValue(ResourcedAll(fs, source), n) == (if SourceName in Names(fs) then Some(source) else None)
  {
    if fs != [] {
      ResourcedLookup(fs[1..], source, n);
      FirstValueAppend(Resourced(fs[0], source), ResourcedAll(fs[1..], source), n);
      FirstValueAppend([fs[0]], fs[1..], n);
      assert [fs[0]] + fs[1..] == fs;
      assert Names(fs) == [fs[0].name] + Names(fs[1..]);
    }
  }

  /** After `add_source` the Source is the joined links and the info fields keep their values. */
  lemma SourcedEmbedFacts(e: Embed, source: string)
    ensures var r := SourcedEmbed(e, source);
      && r.title == e.title && r.url == e.url && r.thumbnail == e.thumbnail
      && FirstValue(r.fields, SourceName) == Some(source)
      && (forall n :: n in InfoNames ==> FirstValue(r.fields, n) == FirstValue(e.fields, n))
  {
    var a := ResourcedAll(e.fields, source);
    var t := NewSourceField(e.fields, source);
    forall n | n in InfoNames || n == SourceName
      ensures FirstValue(a + t, n) == (if n == SourceName then Some(source) else FirstValue(e.fields, n))
    {
      ResourcedLookup(e.fields, source, n);
      FirstValueAppend(a, t, n);
      if n in InfoNames {
        assert t == [] || t[0].name != n;
      }
    }
  }

  // ---------------------------------------------------------------------
  // remove_source

  function UnsourcedEmbed(e: Embed): Embed
  {
    Embed(e.title, e.url, e.thumbnail, Filtered(e.fields, InfoNames))
  }

  /** `remove_source`: only the Status, Air Date and Synopsis fields, in their order. */
  method RemoveSource(e: Embed) returns (r: Embed)
    ensures r == UnsourcedEmbed(e)
  {
    var b := new EmbedBuilder(e.title, e.url);
    if e.thumbnail.Some? {
      b.SetThumbnail(e.thumbnail);
    }
    var fs := e.fields;
    for i := 0 to |fs|
      invariant b.title == e.title && b.url == e.url && b.thumbnail == e.thumbnail
      invariant b.fields == Filtered(fs[..i], InfoNames)
    {
      FilteredSnoc(fs, i, InfoNames);
      if fs[i].name == StatusName {
        b.AddField(StatusName, fs[i].value, true);
      } else if fs[i].name == AirDateName {
        b.AddField(AirDateName, fs[i].value, true);
      } else if fs[i].name == SynopsisName {
        b.AddField(SynopsisName, fs[i].value, false);
      }
    }
    assert fs[..|fs|] == fs;
    r := b.Snapshot();
  }

  /** `remove_source` drops every Source field and keeps the info values. */
  lemma UnsourcedEmbedFacts(e: Embed)
    ensures var r := UnsourcedEmbed(e);
      && r.title == e.title && r.url == e.url && r.thumbnail == e.thumbnail
      && FirstValue(r.fields, SourceName).None?
      && (forall k :: 0 <= k < |r.fields| ==> r.fields[k].name in InfoNames)
      && (forall n :: n in InfoNames ==> FirstValue(r.fields, n) == FirstValue(e.fields, n))
  {
    FilteredLookup(e.fields, InfoNames, SourceName);
    forall n | n in InfoNames
      ensures FirstValue(Filtered(e.fields, InfoNames), n) == FirstValue(e.fields, n)
    {
      FilteredLookup(e.fields, InfoNames, n);
    }
  }

  lemma {:induction false} FilteredResourced(fs: seq<Field>, source: string)
    ensures Filtered(ResourcedAll(fs, source), InfoNames) == Filtered(fs, InfoNames)
  {
    if fs != [] {
      var k := Resourced(fs[0], source);
      FilteredAppend(k, ResourcedAll(fs[1..], source), InfoNames);
      FilteredResourced(fs[1..], source);
      if k != [] {
        assert k[1..] == [];
      }
    }
  }

  /** Removing a source that was just added gives back the embed without a source. */
  lemma RemoveAfterAdd(e: Embed, source: string)
    ensures UnsourcedEmbed(SourcedEmbed(e, source)) == UnsourcedEmbed(e)
  {
    var t := NewSourceField(e.fields, source);
    FilteredAppend(ResourcedAll(e.fields, source), t, InfoNames);
    FilteredResourced(e.fields, source);
    if t != [] {
      assert t[1..] == [];
    }
  }
}
