/**
 * The part of `discord.Embed` the bot relies on, and the field rule every
 * embed builder follows. An embed is a title, a URL, an optional thumbnail
 * and an ordered list of `(name, value, inline)` fields; `add_field` appends
 * one field and stores `str(value)`, so a `None` value shows as `None`.
 *
 * `add_to_embed` (mal_notify_bot/utils/embeds.py, embeds.py and
 * utils/embeds.py, all with the same branches) appends at most one field to
 * the embed being built, choosing between the fresh value and the value the
 * previous embed had for that name.
 */
module EmbedModel {
  import opened Wrappers

  datatype Field = Field(name: string, value: string, inline: bool)

  datatype Embed = Embed(title: string, url: Option<string>, thumbnail: Option<string>, fields: seq<Field>)

  /** One `add_to_embed(new_embed, embed_dict, name, value, inline)` call. */
  datatype Step = Step(name: string, value: Option<string>, inline: bool)

  /** `str(value)` as `add_field` stores it. */
  function Shown(v: Option<string>): string
  {
    if v.Some? then v.value else "None"
  }

  function Names(fields: seq<Field>): (ns: seq<string>)
    ensures |ns| == |fields|
    ensures forall k :: 0 <= k < |fields| ==> ns[k] == fields[k].name
  {
    if fields == [] then [] else [fields[0].name] + Names(fields[1..])
  }

  /** Position of the first field called `name`, or `|fields|`. */
  function FirstIndex(fields: seq<Field>, name: string): (i: nat)
    ensures i <= |fields| && (i < |fields| ==> fields[i].name == name)
    ensures forall j :: 0 <= j < i ==> fields[j].name != name
  {
    if fields == [] then 0
    else if fields[0].name == name then 0
    else 1 + FirstIndex(fields[1..], name)
  }

  /** The value of the first field called `name`: what `embed_value_helper` and `get_source` look up. */
  function FirstValue(fields: seq<Field>, name: string): (r: Option<string>)
    ensures r.None? <==> name !in Names(fields)
  {
    var i := FirstIndex(fields, name);
    if i < |fields| then Some(fields[i].value) else None
  }

  lemma {:induction false} FirstIndexAppend(a: seq<Field>, b: seq<Field>, name: string)
    ensures FirstIndex(a + b, name) == if FirstIndex(a, name) < |a| then FirstIndex(a, name) else |a| + FirstIndex(b, name)
  {
    if a == [] {
      assert a + b == b;
    } else if a[0].name != name {
      assert (a + b)[1..] == a[1..] + b;
      FirstIndexAppend(a[1..], b, name);
    }
  }

  lemma FirstValueAppend(a: seq<Field>, b: seq<Field>, name: string)
    ensures FirstValue(a + b, name) == if FirstValue(a, name).Some? then FirstValue(a, name) else FirstValue(b, name)
  {
    FirstIndexAppend(a, b, name);
    var ia := FirstIndex(a, name);
    if ia < |a| {
      assert (a + b)[ia] == a[ia];
    } else {
      var ib := FirstIndex(b, name);
      if ib < |b| {
        assert (a + b)[|a| + ib] == b[ib];
      }
    }
  }

  /**
   * The value `add_to_embed` writes for one step, or `None` when it adds
   * nothing. Without a previous embed the step's value is always written
   * (`None` as the text `None`); with one, a fresh value wins, a missing one
   * is taken from the previous embed, and a name the previous embed lacks
   * is added only with a fresh value.
   */
  function Merged(prev: Option<seq<Field>>, s: Step): (r: Option<string>)
    ensures prev.None? ==> r == Some(Shown(s.value))
    ensures prev.Some? && s.value.Some? ==> r == s.value
    ensures prev.Some? && s.value.None? ==> r == FirstValue(prev.value, s.name)
  {
    match prev
    case None => Some(Shown(s.value))
    case Some(ps) => if s.value.Some? then s.value else FirstValue(ps, s.name)
  }

  /** The fields one `add_to_embed` call appends: none, or one field named as the step. */
  function AddedFields(prev: Option<seq<Field>>, s: Step): seq<Field>
  {
    match Merged(prev, s)
    case None => []
    case Some(v) => [Field(s.name, v, s.inline)]
  }

  /** The fields a chain of `add_to_embed` calls appends, in call order. */
  function Rebuild(prev: Option<seq<Field>>, steps: seq<Step>): seq<Field>
  {
    if steps == [] then [] else AddedFields(prev, steps[0]) + Rebuild(prev, steps[1..])
  }

  predicate DistinctNames(steps: seq<Step>)
  {
    forall i, j :: 0 <= i < j < |steps| ==> steps[i].name != steps[j].name
  }

  /** The step of a chain that is called `name`, if any. */
  function StepFor(steps: seq<Step>, name: string): (r: Option<Step>)
    ensures r.Some? ==> r.value.name == name && r.value in steps
    ensures r.None? ==> forall k :: 0 <= k < |steps| ==> steps[k].name != name
  {
    if steps == [] then None
    else if steps[0].name == name then Some(steps[0])
    else StepFor(steps[1..], name)
  }

  /** The value a rebuilt embed shows under `name`, read off the step list alone. */
  function Expected(prev: Option<seq<Field>>, steps: seq<Step>, name: string): Option<string>
  {
    match StepFor(steps, name)
    case None => None
    case Some(s) => Merged(prev, s)
  }

  /**
   * Looking a name up in a rebuilt embed gives what its step chose: the
   * names no step mentions are gone, the others carry the merged value.
   */
  lemma {:induction false} LookupRebuild(prev: Option<seq<Field>>, steps: seq<Step>, name: string)
    requires DistinctNames(steps)
    ensures FirstValue(Rebuild(prev, steps), name) == Expected(prev, steps, name)
  {
    if steps != [] {
      var s, rest := steps[0], steps[1..];
      var a := AddedFields(prev, s);
      assert Rebuild(prev, steps) == a + Rebuild(prev, rest);
      FirstValueAppend(a, Rebuild(prev, rest), name);
      assert DistinctNames(rest) by {
        forall i, j | 0 <= i < j < |rest| ensures rest[i].name != rest[j].name {
          assert rest[i] == steps[i + 1] && rest[j] == steps[j + 1];
        }
      }
      LookupRebuild(prev, rest, name);
      if s.name == name {
        assert forall k :: 0 <= k < |rest| ==> rest[k].name != name by {
          forall k | 0 <= k < |rest| ensures rest[k].name != name {
            assert rest[k] == steps[k + 1];
          }
        }
        assert StepFor(rest, name).None?;
        if Merged(prev, s).Some? {
          assert a == [Field(name, Merged(prev, s).value, s.inline)];
        }
      } else {
        assert FirstValue(a, name).None?;
      }
    }
  }

  /** The `k`-th step of a chain with distinct names decides the value under its name. */
  lemma LookupAt(prev: Option<seq<Field>>, steps: seq<Step>, k: nat)
    requires DistinctNames(steps) && k < |steps|
    ensures FirstValue(Rebuild(prev, steps), steps[k].name) == Merged(prev, steps[k])
  {
    LookupRebuild(prev, steps, steps[k].name);
    StepForAt(steps, k);
  }

  lemma {:induction false} StepForAt(steps: seq<Step>, k: nat)
    requires DistinctNames(steps) && k < |steps|
    ensures StepFor(steps, steps[k].name) == Some(steps[k])
  {
    if k > 0 {
      assert DistinctNames(steps[1..]) by {
        forall i, j | 0 <= i < j < |steps[1..]| ensures steps[1..][i].name != steps[1..][j].name {
          assert steps[1..][i] == steps[i + 1] && steps[1..][j] == steps[j + 1];
        }
      }
      assert steps[0].name != steps[k].name;
      StepForAt(steps[1..], k - 1);
      assert steps[1..][k - 1] == steps[k];
    }
  }

  /** A name no step mentions is absent from the rebuilt embed. */
  lemma LookupAbsent(prev: Option<seq<Field>>, steps: seq<Step>, name: string)
    requires DistinctNames(steps)
    requires forall k :: 0 <= k < |steps| ==> steps[k].name != name
    ensures FirstValue(Rebuild(prev, steps), name).None?
  {
    LookupRebuild(prev, steps, name);
  }

  function StepNames(steps: seq<Step>): (ns: seq<string>)
    ensures |ns| == |steps|
    ensures forall k :: 0 <= k < |steps| ==> ns[k] == steps[k].name
  {
    if steps == [] then [] else [steps[0].name] + StepNames(steps[1..])
  }

  /** A rebuilt embed holds no field that some step did not name. */
  lemma {:induction false} RebuildNamesFromSteps(prev: Option<seq<Field>>, steps: seq<Step>)
    ensures forall k :: 0 <= k < |Rebuild(prev, steps)| ==> Rebuild(prev, steps)[k].name in StepNames(steps)
  {
    if steps != [] {
      var a: seq<Field>, r: seq<Field> := AddedFields(prev, steps[0]), Rebuild(prev, steps[1..]);
      RebuildNamesFromSteps(prev, steps[1..]);
      assert StepNames(steps) == [steps[0].name] + StepNames(steps[1..]);
      forall k | 0 <= k < |a + r| ensures (a + r)[k].name in StepNames(steps) {
        if k >= |a| {
          assert (a + r)[k] == r[k - |a|];
        }
      }
    }
  }

  /** The names a rebuilt embed ends up with, in step order. */
  function KeptNames(prev: Option<seq<Field>>, steps: seq<Step>): seq<string>
  {
    if steps == [] then []
    else (if Merged(prev, steps[0]).Some? then [steps[0].name] else []) + KeptNames(prev, steps[1..])
  }

  lemma {:induction false} NamesRebuild(prev: Option<seq<Field>>, steps: seq<Step>)
    ensures Names(Rebuild(prev, steps)) == KeptNames(prev, steps)
  {
    if steps != [] {
      var a := AddedFields(prev, steps[0]);
      var r := Rebuild(prev, steps[1..]);
      NamesRebuild(prev, steps[1..]);
      NamesAppend(a, r);
    }
  }

  lemma {:induction false} NamesAppend(a: seq<Field>, b: seq<Field>)
    ensures Names(a + b) == Names(a) + Names(b)
  {
    if a != [] {
      assert (a + b)[1..] == a[1..] + b;
      NamesAppend(a[1..], b);
    }
  }

  /** Without a previous embed every step adds exactly its field. */
  lemma {:induction false} KeptNamesFresh(steps: seq<Step>)
    ensures |KeptNames(None, steps)| == |steps|
    ensures forall k :: 0 <= k < |steps| ==> KeptNames(None, steps)[k] == steps[k].name
  {
    if steps != [] {
      KeptNamesFresh(steps[1..]);
    }
  }

  /** The `discord.Embed` an embed builder fills in. */
  class EmbedBuilder {
    var title: string
    var url: Option<string>
    var thumbnail: Option<string>
    var fields: seq<Field>

    /** `discord.Embed(title=..., url=..., color=...)`: no thumbnail, no fields. */
    constructor (title: string, url: Option<string>)
      ensures this.title == title && this.url == url
      ensures thumbnail.None? && fields == []
    {
      this.title := title;
      this.url := url;
      thumbnail := None;
      fields := [];
    }

    /** `set_thumbnail(url=u)`; a `None` URL clears it. */
    method SetThumbnail(u: Option<string>)
      modifies this
      ensures thumbnail == u
      ensures title == old(title) && url == old(url) && fields == old(fields)
    {
      thumbnail := u;
    }

    /** `add_field(name=..., value=..., inline=...)`. */
    method AddField(name: string, value: string, inline: bool)
      modifies this
      ensures fields == old(fields) + [Field(name, value, inline)]
      ensures title == old(title) && url == old(url) && thumbnail == old(thumbnail)
    {
      fields := fields + [Field(name, value, inline)];
    }

    function Snapshot(): Embed
      reads this
    {
      Embed(title, url, thumbnail, fields)
    }
  }

  /**
   * `embed_value_helper` of mal_notify_bot/utils/embeds.py: the first
   * field's value, or the `RuntimeError` raised when no field has the name.
   */
  method EmbedValueHelper(fields: seq<Field>, name: string) returns (r: Result<string, string>)
    ensures r.Ok? <==> name in Names(fields)
    ensures r.Ok? ==> FirstValue(fields, name) == Some(r.value)
    ensures r.Err? ==> r.error == "Could not find " + name + " on embed object"
  {
    var i := 0;
    while i < |fields|
      invariant 0 <= i <= |fields|
      invariant forall j :: 0 <= j < i ==> fields[j].name != name
    {
      if fields[i].name == name {
        assert FirstIndex(fields, name) == i;
        return Ok(fields[i].value);
      }
      i := i + 1;
    }
    return Err("Could not find " + name + " on embed object");
  }

  /**
   * `add_to_embed`: with no previous embed the field is always added; with
   * one, a field it has is added with the fresh value or its old one, and a
   * field it lacks is added only with a fresh value.
   */
  method AddToEmbed(b: EmbedBuilder, prev: Option<Embed>, s: Step)
    modifies b
    ensures b.fields == old(b.fields) + AddedFields(if prev.Some? then Some(prev.value.fields) else None, s)
    ensures b.title == old(b.title) && b.url == old(b.url) && b.thumbnail == old(b.thumbnail)
  {
    if prev.Some? {
      var old_fields := prev.value.fields;
      if s.name in Names(old_fields) {
        if s.value.Some? {
          b.AddField(s.name, s.value.value, s.inline);
        } else {
          var v := EmbedValueHelper(old_fields, s.name);
          b.AddField(s.name, v.value, s.inline);
        }
      } else {
        if s.value.Some? {
          b.AddField(s.name, s.value.value, s.inline);
        }
      }
    } else {
      b.AddField(s.name, Shown(s.value), s.inline);
    }
  }

  /** One more `add_to_embed` call extends the chain's fields by what that call adds. */
  lemma {:induction false} RebuildSnoc(prev: Option<seq<Field>>, steps: seq<Step>, s: Step)
    ensures Rebuild(prev, steps + [s]) == Rebuild(prev, steps) + AddedFields(prev, s)
  {
    if steps == [] {
      assert [] + [s] == [s];
    } else {
      assert (steps + [s])[1..] == steps[1..] + [s];
      RebuildSnoc(prev, steps[1..], s);
    }
  }

  /**
   * The next call of a builder's `add_to_embed` chain: once the fields are
   * what the first `k` steps add, they are what the first `k + 1` add.
   */
  method AddStep(b: EmbedBuilder, prev: Option<Embed>, steps: seq<Step>, k: nat)
    requires k < |steps|
    requires b.fields == Rebuild(if prev.Some? then Some(prev.value.fields) else None, steps[..k])
    modifies b
    ensures b.fields == Rebuild(if prev.Some? then Some(prev.value.fields) else None, steps[..k + 1])
    ensures b.title == old(b.title) && b.url == old(b.url) && b.thumbnail == old(b.thumbnail)
  {
    var p := if prev.Some? then Some(prev.value.fields) else None;
    AddToEmbed(b, prev, steps[k]);
    RebuildSnoc(p, steps[..k], steps[k]);
    assert steps[..k + 1] == steps[..k] + [steps[k]];
  }

  /**
   * A whole chain of `add_to_embed` calls on a fresh builder, one call per
   * step; the builders of this bot make chains of three to five calls.
   */
  method AddChain(b: EmbedBuilder, prev: Option<Embed>, steps: seq<Step>)
    requires |steps| <= 5 && b.fields == []
    modifies b
    ensures b.fields == Rebuild(if prev.Some? then Some(prev.value.fields) else None, steps)
    ensures b.title == old(b.title) && b.url == old(b.url) && b.thumbnail == old(b.thumbnail)
  {
    assert steps[..0] == [];
    if 0 < |steps| { AddStep(b, prev, steps, 0); }
    if 1 < |steps| { AddStep(b, prev, steps, 1); }
    if 2 < |steps| { AddStep(b, prev, steps, 2); }
    if 3 < |steps| { AddStep(b, prev, steps, 3); }
    if 4 < |steps| { AddStep(b, prev, steps, 4); }
    assert steps[..|steps|] == steps;
  }

  /**
   * When every step asks for the previous value, two previous embeds that
   * agree on the steps' names give the same rebuilt fields.
   */
  lemma {:induction false} RebuildCarryOnly(p1: seq<Field>, p2: seq<Field>, steps: seq<Step>)
    requires forall k :: 0 <= k < |steps| ==> steps[k].value.None?
    requires forall k :: 0 <= k < |steps| ==> FirstValue(p1, steps[k].name) == FirstValue(p2, steps[k].name)
    ensures Rebuild(Some(p1), steps) == Rebuild(Some(p2), steps)
  {
    if steps != [] {
      RebuildCarryOnly(p1, p2, steps[1..]);
    }
  }

  /** `get_source`: the value of the first `Source` field, if any. */
  method GetSource(e: Embed) returns (r: Option<string>)
    ensures r == FirstValue(e.fields, "Source")
  {
    for i := 0 to |e.fields|
      invariant forall j :: 0 <= j < i ==> e.fields[j].name != "Source"
    {
      if e.fields[i].name == "Source" {
        assert FirstIndex(e.fields, "Source") == i;
        return Some(e.fields[i].value);
      }
    }
    return None;
  }
}
