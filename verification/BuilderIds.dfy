// The IDs that builders start with, in what a save leaves.
module BuilderIds {
  import opened Wrappers
  import opened Schema
  import opened Runtime
  import opened Saves
  import opened ChainCoherence
  import opened SingleRefinement
  import opened Relaying
  import opened Editing

  // The first position, from i on, whose builder holds mutation m.
  function FirstAt(c: Config, cur: seq<nat>, m: nat, i: nat): (k: nat)
    requires c.Valid() && |cur| == |c.hooks| && i <= |c.who|
    ensures i <= k <= |c.who| && (k < |c.who| ==> cur[c.who[k]] == m)
    ensures forall l :: i <= l < k ==> cur[c.who[l]] != m
    decreases |c.who| - i
  {
    if i == |c.who| || cur[c.who[i]] == m then i else FirstAt(c, cur, m, i + 1)
  }

  // The ID that position j starts with: its mutation's, if that has one. Otherwise, if
  // builders make IDs, the one made for the first position that holds the mutation.
  function StartId(c: Config, sups: seq<Supply>, v: View, cur: seq<nat>, j: nat): Option<Id>
    requires ValidStart(c, v, cur) && |sups| == |c.who| && j < |c.who|
  {
    var m := cur[c.who[j]];
    var own := CameWith(c.entity, v.store, v.muts[m]);
    if own.Some? || c.entity.idPolicy != BuilderUuid then own
    else Some(sups[FirstAt(c, cur, m, 0)].id)
  }

  // What defaults() over the positions from i on does to the IDs.
  lemma {:induction false} DefaultIds(c: Config, sups: seq<Supply>, i: nat, s: State, m: nat)
    requires Wf(c, s) && |sups| == |c.who| && i <= |c.who| && m < |s.view.muts|
    ensures var was, now := s.view.muts[m].id, AllDefaults(c, sups, i, s).view.muts[m].id;
      var k := FirstAt(c, s.cur, m, i);
      now == if c.entity.idPolicy == BuilderUuid && was == NoId && k < |c.who| then OwnId(sups[k].id) else was
    decreases |c.who| - i
  {
    if i < |c.who| {
      DefaultIds(c, sups, i + 1, DefaultsOn(c, sups[i], c.who[i], s), m);
    }
  }

  lemma StartsWith(c: Config, sups: seq<Supply>, v: View, cur: seq<nat>, j: nat)
    requires ValidStart(c, v, cur) && |sups| == |c.who| && j < |c.who|
    ensures var s := AllDefaults(c, sups, 0, Fresh(c, v, cur));
      CameWith(c.entity, s.view.store, s.view.muts[s.cur[c.who[j]]]) == StartId(c, sups, v, cur, j)
  {
    DefaultIds(c, sups, 0, Fresh(c, v, cur), cur[c.who[j]]);
  }

  // The hooks pass on what they received and set no ID before they do.
  ghost predicate AllCarryOn(c: Config) {
    && AllPassOn(c)
    && forall b, h :: 0 <= b < |c.hooks| && 0 <= h < |c.hooks[b]| ==> SetsNoId(c.hooks[b][h])
  }

  // The builders hold what they held in s, and every creation since came with the ID
  // that its position's mutation had in s.
  ghost predicate CameFrom(c: Config, s: State, t: State)
    requires Wf(c, s)
  {
    && t.cur == s.cur
    && forall p :: |s.view.trace| <= p < |t.view.trace| && t.view.trace[p].Created? ==>
      && t.view.trace[p].pos < |c.who|
      && t.view.trace[p].id == CameWith(c.entity, s.view.store, s.view.muts[s.cur[c.who[t.view.trace[p].pos]]])
  }

  // Going back to a state before, with the same mutations' IDs and more events.
  lemma CameFromBefore(c: Config, s: State, s1: State, t: State)
    requires Wf(c, s) && Wf(c, s1) && CameFrom(c, s1, t) && s1.cur == s.cur && SameIds(s, s1)
    requires s.view.store <= s1.view.store && s.view.trace <= s1.view.trace <= t.view.trace
    requires forall p :: |s.view.trace| <= p < |s1.view.trace| && s1.view.trace[p].Created? ==>
      && s1.view.trace[p].pos < |c.who|
      && s1.view.trace[p].id == CameWith(c.entity, s.view.store, s.view.muts[s.cur[c.who[s1.view.trace[p].pos]]])
    ensures CameFrom(c, s, t)
  {
    assert forall p :: 0 <= p < |s1.view.trace| ==> t.view.trace[p] == s1.view.trace[p];
  }

  lemma {:induction false} BaseCame(c: Config, i: nat, s: State)
    requires Wf(c, s) && i < |c.who| && AllCallOnce(c) && AllCarryOn(c) && !c.single
    ensures CameFrom(c, s, Base(c, i, Own(s.cur[c.who[i]]), s).1)
    decreases |c.who| - i, 0, 0, 0
  {
    var m := s.cur[c.who[i]];
    if Missing(c.entity.columns, s.view.muts[m].fields).None? {
      var s1 := CreateAt(c, i, m, s);
      InnerCame(c, i, s1);
      var (err, t) := Inner(c, i, s1);
      assert s1.cur == s.cur;
      CameFromBefore(c, s, s1, t);
    }
  }

  lemma {:induction false} InnerCame(c: Config, i: nat, s: State)
    requires Wf(c, s) && i < |c.who| && AllCallOnce(c) && AllCarryOn(c) && !c.single
    ensures CameFrom(c, s, Inner(c, i, s).1)
    decreases |c.who| - i - 1, if i + 1 < |c.who| then |HooksAt(c, i + 1)| else 0, 2, 0
  {
    if i + 1 < |c.who| {
      MutateCame(c, i + 1, 0, s);
    }
  }

  lemma {:induction false} MutateCame(c: Config, i: nat, h: nat, s: State)
    requires Wf(c, s) && i < |c.who| && h <= |HooksAt(c, i)| && AllCallOnce(c) && AllCarryOn(c) && !c.single
    ensures CameFrom(c, s, Mutate(c, i, h, Own(s.cur[c.who[i]]), s).1)
    decreases |c.who| - i, |HooksAt(c, i)| - h, 1, 0
  {
    if h == |HooksAt(c, i)| {
      BaseCame(c, i, s);
    } else {
      var a, s1, o, t := OnceTurn(c, i, h, Own(s.cur[c.who[i]]), s);
      MutateCame(c, i, h + 1, s1);
      CameFromBefore(c, s, s1, t);
    }
  }

  lemma {:induction false} LastIsCreation(tr: seq<Event>, j: nat)
    ensures var p := LastCreated(tr, j); p >= 0 ==> p < |tr| && tr[p].Created? && tr[p].pos == j
  {
    if tr != [] {
      LastIsCreation(tr[..|tr| - 1], j);
    }
  }

  // Position j has a spec and a node with the ID.
  ghost predicate Bears(t: State, j: nat, id: Id) {
    && j < |t.nodes| == |t.specs| && t.nodes[j].Some? && t.nodes[j].value < |t.view.store|
    && t.specs[j].Some? && t.specs[j].value.id == Some(id)
    && t.view.store[t.nodes[j].value].id == id
  }

  // Main result: with relaying hooks that pass on what they received and set no ID
  // before `next`, a successful bulk save gives every position that starts with an ID
  // that ID, in its spec and its node. Where builders make IDs, that is every position.
  lemma StartIdsAreKept(c: Config, sups: seq<Supply>, v: View, cur: seq<nat>)
    requires ValidStart(c, v, cur) && |sups| == |c.who| > 0 && v.trace == []
    requires AllRelay(c) && AllCarryOn(c) && HonestIds(c) && !c.single
    ensures var (r, t) := BulkSave(c, None, sups, v, cur);
      r.Saved? ==> forall j :: 0 <= j < |c.who| ==>
        var id := StartId(c, sups, v, cur, j);
        && (id.Some? ==> Bears(t, j, id.value))
        && (c.entity.idPolicy == BuilderUuid ==> id.Some?)
  {
    var (r, t) := BulkSave(c, None, sups, v, cur);
    var s := AllDefaults(c, sups, 0, Fresh(c, v, cur));
    MutateCame(c, 0, 0, s);
    IdsAfterSave(c, sups, v, cur);
    BatchSeesEveryBuilder(c, None, sups, v, cur);
    if r.Saved? {
      forall j | 0 <= j < |c.who| && StartId(c, sups, v, cur, j).Some?
        ensures Bears(t, j, StartId(c, sups, v, cur, j).value)
      {
        assert Settled(c, t, j, |v.store|);
        CreatedIffSpec(c.entity, t.view.trace, j);
        LastIsCreation(t.view.trace, j);
        StartsWith(c, sups, v, cur, j);
        assert IdKept(c, t, t.view.trace[LastCreated(t.view.trace, j)]);
      }
    }
  }

  // The same for the single save.
  lemma SingleStartIdIsKept(c: Config, sup: Supply, v: View, cur: seq<nat>)
    requires ValidStart(c, v, cur) && !c.single && |c.who| == 1 && v.trace == []
    requires AllRelay(c) && AllCarryOn(c) && HonestIds(c)
    ensures var (r, t) := SingleSave(AsSingle(c), sup, v, cur);
      r.SavedOne? ==>
        var id := StartId(c, [sup], v, cur, 0);
        && (id.Some? ==> Bears(t, 0, id.value))
        && (c.entity.idPolicy == BuilderUuid ==> id.Some?)
  {
    StartIdsAreKept(c, [sup], v, cur);
    BulkOfOneIsSingle(c, sup, v, cur);
    var rb := BulkSave(c, None, [sup], v, cur).0;
    assert rb.BulkFailed? ==> rb == BulkFailed(rb.error);
  }
}
