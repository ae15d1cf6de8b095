/** The dimensions a save leaves and the ids its draft keys stand for, told from the command and the stored dimensions. */
module SkuStructure {
  import opened Basics
  import opened SkuCore
  import opened SkuDocument

  function GivenOr(id: Option<string>, newId: string): string { if id.Some? then id.value else newId }

  // ----- values -----

  predicate HasValueId(values: seq<SpecValue>, id: string) { exists j :: 0 <= j < |values| && values[j].id == id }

  /** First the values asked for, live and in order; then the former values that were not asked for, archived. */
  predicate ValuesAsPromised(inputs: seq<ValueInput>, ids: seq<string>, prior: seq<SpecValue>, values: seq<SpecValue>) {
    && |values| >= |inputs|
    && (forall j | 0 <= j < |inputs| :: values[j] == SpecValue(GivenOr(inputs[j].id, At(ids, j)), false))
    && (forall j | |inputs| <= j < |values| :: values[j].archived && HasValueId(prior, values[j].id) && !HasValueId(values[..|inputs|], values[j].id))
    && forall j | 0 <= j < |prior| :: HasValueId(values, prior[j].id)
  }

  /** What is left of the former values: archived, none of them asked for, and none missing. */
  predicate LeftFits(prior: seq<SpecValue>, now: seq<SpecValue>, left: seq<SpecValue>) {
    && (forall j | 0 <= j < |left| :: left[j].archived && HasValueId(prior, left[j].id) && !HasValueId(now, left[j].id))
    && forall j | 0 <= j < |prior| :: HasValueId(now, prior[j].id) || HasValueId(left, prior[j].id)
  }

  lemma {:induction false} LeftValuesAre(prior: seq<SpecValue>, now: seq<SpecValue>)
    ensures LeftFits(prior, now, LeftValues(prior, now))
  {
    if prior != [] {
      if HasValue(now, prior[0].id) {
        LeftValuesAre(prior[1..], now);
        ValueKept(prior, now, LeftValues(prior, now));
      } else {
        var v := SpecValue(prior[0].id, true);
        LeftValuesAre(prior[1..], now + [v]);
        ValueLeft(prior, now, v, LeftValues(prior[1..], now + [v]));
      }
    }
  }

  lemma TailHas(prior: seq<SpecValue>, id: string)
    requires prior != []
    ensures HasValueId(prior, id) <==> prior[0].id == id || HasValueId(prior[1..], id)
  {
    if j :| 0 <= j < |prior| && prior[j].id == id { assert j > 0 ==> prior[1..][j - 1] == prior[j]; }
    if j :| 0 <= j < |prior[1..]| && prior[1..][j].id == id { assert prior[j + 1] == prior[1..][j]; }
  }

  lemma ValueKept(prior: seq<SpecValue>, now: seq<SpecValue>, left: seq<SpecValue>)
    requires prior != [] && LeftFits(prior[1..], now, left) && HasValueId(now, prior[0].id)
    ensures LeftFits(prior, now, left)
  {
    forall j | 0 <= j < |left| ensures HasValueId(prior, left[j].id) { TailHas(prior, left[j].id); }
    forall j | 0 <= j < |prior| ensures HasValueId(now, prior[j].id) || HasValueId(left, prior[j].id) {
      if j > 0 { assert prior[1..][j - 1] == prior[j]; }
    }
  }

  lemma OneMoreHas(now: seq<SpecValue>, v: SpecValue, id: string)
    ensures HasValueId(now + [v], id) <==> HasValueId(now, id) || v.id == id
    ensures HasValueId([v] + now, id) <==> HasValueId(now, id) || v.id == id
  {
    TailHas([v] + now, id);
    assert ([v] + now)[1..] == now;
    if j :| 0 <= j < |now| && now[j].id == id { assert (now + [v])[j] == now[j]; }
    assert (now + [v])[|now|] == v;
  }

  lemma ValueLeft(prior: seq<SpecValue>, now: seq<SpecValue>, v: SpecValue, left: seq<SpecValue>)
    requires prior != [] && v == SpecValue(prior[0].id, true) && !HasValueId(now, v.id) && LeftFits(prior[1..], now + [v], left)
    ensures LeftFits(prior, now, [v] + left)
  {
    var all := [v] + left;
    forall j | 0 <= j < |all| ensures all[j].archived && HasValueId(prior, all[j].id) && !HasValueId(now, all[j].id) {
      TailHas(prior, all[j].id);
      OneMoreHas(now, v, all[j].id);
      if j > 0 { assert all[j] == left[j - 1]; }
    }
    forall j | 0 <= j < |prior| ensures HasValueId(now, prior[j].id) || HasValueId(all, prior[j].id) {
      OneMoreHas(now, v, prior[j].id);
      OneMoreHas(left, v, prior[j].id);
      if j > 0 { assert prior[1..][j - 1] == prior[j]; }
    }
  }

  lemma AllPresent(now: seq<SpecValue>, left: seq<SpecValue>, id: string)
    requires HasValueId(now, id) || HasValueId(left, id)
    ensures HasValueId(now + left, id)
  {
    if j :| 0 <= j < |now| && now[j].id == id { assert (now + left)[j] == now[j]; }
    if j :| 0 <= j < |left| && left[j].id == id { assert (now + left)[|now| + j] == left[j]; }
  }

  function PriorValues(d: Document, input: DimensionInput): seq<SpecValue> {
    if Previous(d, input).Some? then Previous(d, input).value.values else []
  }

  lemma BuiltValues(d: Document, input: DimensionInput, newId: string, ids: seq<string>)
    ensures ValuesAsPromised(input.values, ids, PriorValues(d, input), BuiltDimension(d, input, newId, ids).values)
    ensures BuiltDimension(d, input, newId, ids).id == GivenOr(input.id, newId) && !BuiltDimension(d, input, newId, ids).archived
  {
    var now, prior := NewValues(input.values, ids), PriorValues(d, input);
    LeftValuesAre(prior, now);
    assert now + LeftValues(prior, now) == BuiltDimension(d, input, newId, ids).values;
    assert (now + LeftValues(prior, now))[..|input.values|] == now;
    forall j | 0 <= j < |prior| ensures HasValueId(now + LeftValues(prior, now), prior[j].id) { AllPresent(now, LeftValues(prior, now), prior[j].id); }
  }

  // ----- dimensions -----

  predicate HasDimensionId(dims: seq<Dimension>, id: string) { exists j :: 0 <= j < |dims| && dims[j].id == id }

  /** A former dimension with everything in it archived. */
  predicate IsArchivedOf(dim: Dimension, prior: Dimension) {
    && dim.id == prior.id && dim.archived && |dim.values| == |prior.values|
    && forall j | 0 <= j < |prior.values| :: dim.values[j] == SpecValue(prior.values[j].id, true)
  }

  predicate IsArchivedOfSome(dim: Dimension, prior: seq<Dimension>) { exists j :: 0 <= j < |prior| && IsArchivedOf(dim, prior[j]) }

  /** First the dimensions asked for, live and in order; then the former dimensions that were not asked for, archived. */
  predicate DimensionsAsPromised(d: Document, c: Command, env: Env, dims: seq<Dimension>)
    requires c.Save?
  {
    && |dims| >= |c.dimensions|
    && (forall i | 0 <= i < |c.dimensions| ::
          && dims[i].id == GivenOr(c.dimensions[i].id, At(env.dimensionIds, i)) && !dims[i].archived
          && ValuesAsPromised(c.dimensions[i].values, Ids(env, i), PriorValues(d, c.dimensions[i]), dims[i].values))
    && (forall i | |c.dimensions| <= i < |dims| :: IsArchivedOfSome(dims[i], d.dimensions) && !HasDimensionId(dims[..|c.dimensions|], dims[i].id))
    && forall j | 0 <= j < |d.dimensions| :: HasDimensionId(dims, d.dimensions[j].id)
  }

  lemma FoundIff(dims: seq<Dimension>, id: string)
    ensures FindDimension(dims, id).Some? <==> HasDimensionId(dims, id)
  {
  }

  predicate DimensionsLeft(prior: seq<Dimension>, now: seq<Dimension>, left: seq<Dimension>) {
    && (forall j | 0 <= j < |left| :: IsArchivedOfSome(left[j], prior) && !HasDimensionId(now, left[j].id))
    && forall j | 0 <= j < |prior| :: HasDimensionId(now, prior[j].id) || HasDimensionId(left, prior[j].id)
  }

  lemma {:induction false} LeftDimensionsAre(prior: seq<Dimension>, now: seq<Dimension>)
    ensures DimensionsLeft(prior, now, LeftDimensions(prior, now))
  {
    if prior != [] {
      FoundIff(now, prior[0].id);
      if FindDimension(now, prior[0].id).Some? {
        LeftDimensionsAre(prior[1..], now);
        DimensionKept(prior, now, LeftDimensions(prior, now));
      } else {
        var dim := Dimension(prior[0].id, ArchivedValues(prior[0].values), true);
        LeftDimensionsAre(prior[1..], now + [dim]);
        DimensionLeft(prior, now, dim, LeftDimensions(prior[1..], now + [dim]));
      }
    }
  }

  lemma TailArchived(dim: Dimension, prior: seq<Dimension>)
    requires prior != [] && IsArchivedOfSome(dim, prior[1..])
    ensures IsArchivedOfSome(dim, prior)
  {
    var j :| 0 <= j < |prior[1..]| && IsArchivedOf(dim, prior[1..][j]);
    assert prior[j + 1] == prior[1..][j];
  }

  lemma DimensionKept(prior: seq<Dimension>, now: seq<Dimension>, left: seq<Dimension>)
    requires prior != [] && DimensionsLeft(prior[1..], now, left) && HasDimensionId(now, prior[0].id)
    ensures DimensionsLeft(prior, now, left)
  {
    forall j | 0 <= j < |left| ensures IsArchivedOfSome(left[j], prior) { TailArchived(left[j], prior); }
    forall j | 0 <= j < |prior| ensures HasDimensionId(now, prior[j].id) || HasDimensionId(left, prior[j].id) {
      if j > 0 { assert prior[1..][j - 1] == prior[j]; }
    }
  }

  lemma OneMoreDimension(now: seq<Dimension>, dim: Dimension, id: string)
    ensures HasDimensionId(now + [dim], id) <==> HasDimensionId(now, id) || dim.id == id
    ensures HasDimensionId([dim] + now, id) <==> HasDimensionId(now, id) || dim.id == id
  {
    if j :| 0 <= j < |now| && now[j].id == id { assert (now + [dim])[j] == now[j] && ([dim] + now)[j + 1] == now[j]; }
    assert (now + [dim])[|now|] == dim && ([dim] + now)[0] == dim;
  }

  lemma DimensionLeft(prior: seq<Dimension>, now: seq<Dimension>, dim: Dimension, left: seq<Dimension>)
    requires prior != [] && IsArchivedOf(dim, prior[0]) && !HasDimensionId(now, dim.id) && DimensionsLeft(prior[1..], now + [dim], left)
    ensures DimensionsLeft(prior, now, [dim] + left)
  {
    var all := [dim] + left;
    forall j | 0 <= j < |all| ensures IsArchivedOfSome(all[j], prior) && !HasDimensionId(now, all[j].id) {
      OneMoreDimension(now, dim, all[j].id);
      if j > 0 { TailArchived(left[j - 1], prior); }
    }
    forall j | 0 <= j < |prior| ensures HasDimensionId(now, prior[j].id) || HasDimensionId(all, prior[j].id) {
      OneMoreDimension(now, dim, prior[j].id);
      OneMoreDimension(left, dim, prior[j].id);
      if j > 0 { assert prior[1..][j - 1] == prior[j]; }
    }
  }

  lemma AllDimensionsPresent(now: seq<Dimension>, left: seq<Dimension>, id: string)
    requires HasDimensionId(now, id) || HasDimensionId(left, id)
    ensures HasDimensionId(now + left, id)
  {
    if j :| 0 <= j < |now| && now[j].id == id { assert (now + left)[j] == now[j]; }
    if j :| 0 <= j < |left| && left[j].id == id { assert (now + left)[|now| + j] == left[j]; }
  }

  lemma NewDimensionsAsPromised(d: Document, c: Command, env: Env)
    requires c.Save?
    ensures DimensionsAsPromised(d, c, env, NewDimensions(d, c, env))
  {
    var kept := KeptDimensions(d, c, env);
    LeftDimensionsAre(d.dimensions, kept);
    forall i | 0 <= i < |c.dimensions|
      ensures kept[i].id == GivenOr(c.dimensions[i].id, At(env.dimensionIds, i)) && !kept[i].archived
      ensures ValuesAsPromised(c.dimensions[i].values, Ids(env, i), PriorValues(d, c.dimensions[i]), kept[i].values)
    {
      BuiltValues(d, c.dimensions[i], At(env.dimensionIds, i), Ids(env, i));
    }
    assert NewDimensions(d, c, env)[..|c.dimensions|] == kept;
    forall j | 0 <= j < |d.dimensions| ensures HasDimensionId(NewDimensions(d, c, env), d.dimensions[j].id) {
      AllDimensionsPresent(kept, LeftDimensions(d.dimensions, kept), d.dimensions[j].id);
    }
  }

  // ----- draft keys -----

  datatype Entry = Entry(draftKey: Option<string>, id: string)

  function ValueEntries(values: seq<ValueInput>, ids: seq<string>): seq<Entry> {
    seq(|values|, j requires 0 <= j < |values| => Entry(values[j].draftKey, GivenOr(values[j].id, At(ids, j))))
  }

  /** What is named in the command, with its id: each dimension, then its values. */
  function Entries(inputs: seq<DimensionInput>, env: Env): seq<Entry> {
    if inputs == [] then [] else
      var n := |inputs| - 1;
      Entries(inputs[..n], env) + [Entry(inputs[n].draftKey, GivenOr(inputs[n].id, At(env.dimensionIds, n)))] + ValueEntries(inputs[n].values, Ids(env, n))
  }

  predicate IsLast(entries: seq<Entry>, key: string, n: nat) {
    n < |entries| && entries[n].draftKey == Some(key) && forall i | n < i < |entries| :: entries[i].draftKey != Some(key)
  }

  /** A draft key stands for the last thing named by it. */
  ghost predicate MapsAsPromised(m: map<string, string>, entries: seq<Entry>) {
    && (forall key | key in m :: exists n: nat :: IsLast(entries, key, n))
    && forall key, n: nat | IsLast(entries, key, n) :: key in m && m[key] == entries[n].id
  }

  lemma MapsOneMore(m: map<string, string>, entries: seq<Entry>, e: Entry)
    requires MapsAsPromised(m, entries)
    ensures MapsAsPromised(Mapped(m, e.draftKey, e.id), entries + [e])
  {
    var more := entries + [e];
    forall key, n: nat | n < |entries| && e.draftKey != Some(key) ensures IsLast(more, key, n) <==> IsLast(entries, key, n) {
      assert forall i | 0 <= i < |entries| :: more[i] == entries[i];
      assert more[|entries|] == e;
    }
    forall key | key in Mapped(m, e.draftKey, e.id) ensures exists n: nat :: IsLast(more, key, n) {
      if e.draftKey == Some(key) {
        assert IsLast(more, key, |entries|);
      } else {
        var n: nat :| IsLast(entries, key, n);
        assert IsLast(more, key, n);
      }
    }
    forall key, n: nat | IsLast(more, key, n) ensures key in Mapped(m, e.draftKey, e.id) && Mapped(m, e.draftKey, e.id)[key] == more[n].id {
      assert more[|entries|] == e;
      if e.draftKey != Some(key) { assert n < |entries| && IsLast(entries, key, n); } else { assert n == |entries|; }
    }
  }

  lemma {:induction false} ValuesMap(m: map<string, string>, entries: seq<Entry>, values: seq<ValueInput>, ids: seq<string>)
    requires MapsAsPromised(m, entries)
    ensures MapsAsPromised(ValueMappings(m, values, ids), entries + ValueEntries(values, ids))
  {
    if values == [] {
      assert entries + ValueEntries(values, ids) == entries;
    } else {
      var n := |values| - 1;
      ValuesMap(m, entries, values[..n], ids);
      var e := Entry(values[n].draftKey, GivenOr(values[n].id, At(ids, n)));
      MapsOneMore(ValueMappings(m, values[..n], ids), entries + ValueEntries(values[..n], ids), e);
      assert ValueEntries(values, ids) == ValueEntries(values[..n], ids) + [e];
      assert entries + ValueEntries(values, ids) == entries + ValueEntries(values[..n], ids) + [e];
    }
  }

  lemma {:induction false} MappingsAsPromised(d: Document, inputs: seq<DimensionInput>, env: Env)
    ensures MapsAsPromised(Mappings(d, inputs, env), Entries(inputs, env))
  {
    if inputs != [] {
      var n := |inputs| - 1;
      MappingsAsPromised(d, inputs[..n], env);
      var e := Entry(inputs[n].draftKey, GivenOr(inputs[n].id, At(env.dimensionIds, n)));
      MapsOneMore(Mappings(d, inputs[..n], env), Entries(inputs[..n], env), e);
      ValuesMap(Mapped(Mappings(d, inputs[..n], env), e.draftKey, e.id), Entries(inputs[..n], env) + [e], inputs[n].values, Ids(env, n));
    }
  }
}
