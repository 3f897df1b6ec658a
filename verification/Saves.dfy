// The two public entry points: the bulk Save and the single Save.
module Saves {
  import opened Wrappers
  import opened Schema
  import opened Runtime

  datatype BulkResult = Saved(nodes: seq<Option<nat>>) | BulkFailed(error: Error)
  datatype SingleResult = SavedOne(node: nat) | SingleFailed(error: Error)

  // builder.defaults() for builder b; only a UUID entity has a default ID.
  function DefaultsOn(c: Config, sup: Supply, b: nat, s: State): (t: State)
    requires Wf(c, s) && b < |s.cur|
    ensures Wf(c, t) && Extends(s, t) && t.view.trace == s.view.trace
  {
    var m := s.cur[b];
    var mut := s.view.muts[m];
    var id := if c.entity.idPolicy.BuilderUuid? && mut.id.NoId? then OwnId(sup.id) else mut.id;
    var filled := MutationState(WithDefaults(c.entity.columns, sup, mut.fields), id, mut.done);
    s.(view := s.view.(muts := s.view.muts[m := filled]))
  }

  // The defaults of the builders at positions i, i+1, ...
  function AllDefaults(c: Config, sups: seq<Supply>, i: nat, s: State): (t: State)
    requires Wf(c, s) && |sups| == |c.who| && i <= |c.who|
    ensures Wf(c, t) && Extends(s, t) && t.view.trace == s.view.trace
    ensures t.cur == s.cur && t.specs == s.specs && t.nodes == s.nodes && t.view.store == s.view.store
    decreases |c.who| - i
  {
    if i == |c.who| then s else AllDefaults(c, sups, i + 1, DefaultsOn(c, sups[i], c.who[i], s))
  }

  // A state whose `specs` and `nodes` slices have just been made.
  function Fresh(c: Config, v: View, cur: seq<nat>): State {
    State(v, cur, seq(|c.who|, _ => None), seq(|c.who|, _ => None))
  }

  // What a caller of Save may hand over: builders that hold existing mutations.
  ghost predicate ValidStart(c: Config, v: View, cur: seq<nat>) {
    && c.Valid() && ValidView(v) && |cur| == |c.hooks|
    && forall b :: 0 <= b < |cur| ==> cur[b] < |v.muts|
  }

  // CreateBulk.Save; `preset` is the error MapCreateBulk leaves for a wrong argument.
  function BulkSave(c: Config, preset: Option<Error>, sups: seq<Supply>, v: View,
    cur: seq<nat>): (r: (BulkResult, State))
    requires ValidStart(c, v, cur) && |sups| == |c.who|
    ensures Wf(c, r.1) && Extends(Fresh(c, v, cur), r.1)
  {
    var s0 := Fresh(c, v, cur);
    if preset.Some? then (BulkFailed(preset.value), s0)
    else
      var s1 := AllDefaults(c, sups, 0, s0);
      if |c.who| == 0 then (Saved([]), s1)
      else
        var (o, t) := Mutate(c, 0, 0, Own(s1.cur[c.who[0]]), s1);
        (if o.Err? then BulkFailed(o.error) else Saved(t.nodes), t)
  }

  // Create.Save through withHooks.
  function SingleSave(c: Config, sup: Supply, v: View, cur: seq<nat>): (r: (SingleResult, State))
    requires ValidStart(c, v, cur) && c.single
    ensures Wf(c, r.1) && Extends(Fresh(c, v, cur), r.1)
  {
    var s1 := AllDefaults(c, [sup], 0, Fresh(c, v, cur));
    var (o, t) := Mutate(c, 0, 0, Own(s1.cur[c.who[0]]), s1);
    match o
    case Err(e) => (SingleFailed(e), t)
    case Ok(NodeValue(n)) => (SavedOne(n), t)
    case Ok(_) => (SingleFailed(UnexpectedNode), t)
  }

  // A bulk that MapCreateBulk could not build fails with that error and does nothing;
  // an empty one succeeds without a write.
  lemma NothingToSave(c: Config, preset: Option<Error>, sups: seq<Supply>, v: View, cur: seq<nat>)
    requires ValidStart(c, v, cur) && |sups| == |c.who|
    ensures preset.Some? ==> BulkSave(c, preset, sups, v, cur) == (BulkFailed(preset.value), Fresh(c, v, cur))
    ensures preset.None? && |c.who| == 0 ==> BulkSave(c, preset, sups, v, cur) == (Saved([]), Fresh(c, v, cur))
  {
  }
}
