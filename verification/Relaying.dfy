// Bulk saves whose hooks call `next` once and pass its verdict on, whatever else
// they do: what becomes of the nodes, the IDs and the mutations.
module Relaying {
  import opened Wrappers
  import opened Schema
  import opened Runtime
  import opened Saves
  import opened SingleRefinement

  // The hook calls `next` exactly once.
  ghost predicate CallsOnce(hook: Hook) {
    && (forall arg, v :: hook.limit(arg, v) == 1)
    && (forall arg, v :: hook.step(arg, v, []).CallNext?)
  }

  ghost predicate AllCallOnce(c: Config) {
    forall b, h :: 0 <= b < |c.hooks| && 0 <= h < |c.hooks[b]| ==> CallsOnce(c.hooks[b][h])
  }

  // For some input it turns a verdict of `next` into the verdict `out`.
  ghost predicate Decides(hook: Hook, inside: bool, out: bool) {
    exists arg, v, past: Past :: past.outcome.Ok? == inside && hook.last(arg, v, [past]).result.Ok? == out
  }

  // It calls `next` once, and fails exactly when `next` failed.
  ghost predicate Relays(hook: Hook) {
    && CallsOnce(hook)
    && (forall arg, v, past: Past :: hook.last(arg, v, [past]).result.Ok? <==> past.outcome.Ok?)
  }

  ghost predicate AllRelay(c: Config) {
    forall b, h :: 0 <= b < |c.hooks| && 0 <= h < |c.hooks[b]| ==> Relays(c.hooks[b][h])
  }

  // After `next` the hook sets no mutation's ID.
  ghost predicate KeepsIds(hook: Hook) {
    forall arg, v, past: Past, e :: e in hook.last(arg, v, [past]).edits ==> !e.SetId?
  }

  // Before `next` it sets none.
  ghost predicate SetsNoId(hook: Hook) {
    forall arg, v, e :: hook.step(arg, v, []).CallNext? && e in hook.step(arg, v, []).edits ==> !e.SetId?
  }

  ghost predicate AllKeepIds(c: Config) {
    forall b, h :: 0 <= b < |c.hooks| && 0 <= h < |c.hooks[b]| ==> KeepsIds(c.hooks[b][h])
  }

  // What a hook's edits and the events around it leave alone.
  ghost predicate SameBoard(s: State, t: State) {
    && t.cur == s.cur && t.specs == s.specs && t.nodes == s.nodes && t.view.store == s.view.store
    && |t.view.muts| == |s.view.muts|
    && forall m :: 0 <= m < |s.view.muts| ==> t.view.muts[m].done == s.view.muts[m].done
  }

  ghost predicate SameIds(s: State, t: State) {
    && |t.view.muts| == |s.view.muts|
    && forall m :: 0 <= m < |s.view.muts| ==> t.view.muts[m].id == s.view.muts[m].id
  }

  lemma {:induction false} EditsKeepFlags(es: seq<Edit>, v: View)
    requires ValidView(v)
    ensures var w := ApplyEdits(es, v);
      && |w.muts| == |v.muts|
      && (forall m :: 0 <= m < |v.muts| ==> w.muts[m].done == v.muts[m].done)
      && ((forall e :: e in es ==> !e.SetId?) ==> forall m :: 0 <= m < |v.muts| ==> w.muts[m].id == v.muts[m].id)
  {
    if es != [] {
      assert es[0] in es && forall e :: e in es[1..] ==> e in es;
      EditsKeepFlags(es[1..], ApplyEdit(es[0], v));
    }
  }

  // The whole run of a hook that calls once: edits, one call, edits and a verdict.
  lemma OnceTurn(c: Config, i: nat, h: nat, arg: Arg, s: State) returns (a: Arg, s1: State, o: Outcome, t: State)
    requires Wf(c, s) && i < |c.who| && h < |HooksAt(c, i)| && CallsOnce(HooksAt(c, i)[h])
    ensures Wf(c, s1) && s1.view.trace == s.view.trace + [Enter(i, h)] && SameBoard(s, s1)
    ensures PassesOn(HooksAt(c, i)[h]) ==> a == arg
    ensures SetsNoId(HooksAt(c, i)[h]) ==> SameIds(s, s1)
    ensures (o, t) == Mutate(c, i, h + 1, a, s1)
    ensures var (p, u) := Mutate(c, i, h, arg, s);
      && Decides(HooksAt(c, i)[h], o.Ok?, p.Ok?)
      && u.view.trace == t.view.trace + [Exit(i, h)] && SameBoard(t, u)
      && (KeepsIds(HooksAt(c, i)[h]) ==> SameIds(t, u))
  {
    var hook := HooksAt(c, i)[h];
    var s0 := Log(s, Enter(i, h));
    var act := hook.step(arg, s0.view, []);
    a, s1 := act.arg, Edited(act.edits, s0);
    EditsKeepFlags(act.edits, s0.view);
    var r := Mutate(c, i, h + 1, a, s1);
    o, t := r.0, r.1;
    var past := Past(s0.view, o);
    assert [] + [past] == [past];
    assert RunHook(c, i, h, arg, [], s0) == RunHook(c, i, h, arg, [past], t);
    EditsKeepFlags(hook.last(arg, t.view, [past]).edits, t.view);
    assert past.outcome.Ok? == o.Ok? && hook.last(arg, t.view, [past]).result.Ok? == Mutate(c, i, h, arg, s).0.Ok?;
  }

  // What the database makes of the ID a spec came with.
  predicate Answers(policy: IdPolicy, given: Option<Id>, got: Option<Id>) {
    && (given.Some? || policy.BuilderUuid? ==> got == given)
    && (!policy.BuilderUuid? ==> got.Some?)
  }

  lemma AnsweredId(policy: IdPolicy, given: Option<Id>, got: Option<Id>)
    requires Answers(policy, given, got) && got.Some?
    ensures FinalId(policy, false, if given.Some? then given.value else 0, got) == got.value
  {
  }

  // Position j has a node made since there were `base` of them, and a spec; the spec
  // has an ID unless only the builder makes IDs, and it is the node's ID.
  ghost predicate Settled(c: Config, t: State, j: nat, base: nat)
    requires j < |t.nodes| == |t.specs|
  {
    && t.nodes[j].Some? && t.specs[j].Some? && base <= t.nodes[j].value < |t.view.store|
    && (!c.entity.idPolicy.BuilderUuid? ==> t.specs[j].value.id.Some?)
    && (t.specs[j].value.id.Some? ==> t.view.store[t.nodes[j].value].id == t.specs[j].value.id.value)
  }

  // The ID a creation came with is what its spec has, as the database answered.
  ghost predicate IdKept(c: Config, t: State, e: Event)
    requires e.Created?
  {
    && e.pos < |t.specs| && t.specs[e.pos].Some?
    && Answers(c.entity.idPolicy, e.id, t.specs[e.pos].value.id)
  }

  // A run from position i on that succeeded: IDs and nodes.
  ghost predicate Ids(c: Config, i: nat, s: State, t: State)
    requires Wf(c, s) && Wf(c, t) && i <= |c.who|
  {
    && s.view.trace <= t.view.trace && s.view.store <= t.view.store
    && (forall j :: 0 <= j < i ==> t.nodes[j] == s.nodes[j])
    && (forall j :: 0 <= j < i && s.specs[j].Some? ==>
          t.specs[j].Some? && Answers(c.entity.idPolicy, s.specs[j].value.id, t.specs[j].value.id))
    && (forall j :: i <= j < |c.who| ==> Settled(c, t, j, |s.view.store|))
    && (forall p :: |s.view.trace| <= p < |t.view.trace| && t.view.trace[p].Created? ==> IdKept(c, t, t.view.trace[p]))
  }

  // Builder b is at position i or a later one.
  ghost predicate Takes(c: Config, i: nat, b: nat) {
    exists j :: i <= j < |c.who| && c.who[j] == b
  }

  // The mutations the builders hold: those of positions from i on are done, and
  // builders without such a position hold what they held.
  ghost predicate Held(c: Config, i: nat, s: State, t: State)
    requires Wf(c, s) && Wf(c, t)
  {
    && (forall b :: 0 <= b < |s.cur| && !Takes(c, i, b) ==> t.cur[b] == s.cur[b])
    && (forall j :: i <= j < |c.who| ==> t.view.muts[t.cur[c.who[j]]].done)
  }

  ghost predicate NoneDone(tr: seq<Event>) {
    forall p :: 0 <= p < |tr| ==> !tr[p].Done?
  }

  // No later completion was for the same mutation.
  ghost predicate LastMark(tr: seq<Event>, p: nat)
    requires p < |tr| && tr[p].Done?
  {
    forall q :: p < q < |tr| && tr[q].Done? ==> tr[q].m != tr[p].m
  }

  // The completed mutation's ID pointer points at its position's node.
  ghost predicate PointsTo(t: State, e: Event)
    requires e.Done?
  {
    && e.pos < |t.nodes| && t.nodes[e.pos].Some? && e.m < |t.view.muts|
    && t.view.muts[e.m].id == NodeId(t.nodes[e.pos].value)
  }

  ghost predicate Pointing(t: State) {
    forall p :: 0 <= p < |t.view.trace| && t.view.trace[p].Done? && LastMark(t.view.trace, p) ==>
      PointsTo(t, t.view.trace[p])
  }

  // The three together, each under what it needs.
  ghost predicate Relayed(c: Config, i: nat, s: State, t: State)
    requires Wf(c, s) && Wf(c, t) && i <= |c.who|
  {
    && Held(c, i, s, t)
    && (HonestIds(c) ==> Ids(c, i, s, t))
    && (AllKeepIds(c) && NoneDone(s.view.trace) ==> Pointing(t))
  }

  // From the run below a creation at position i to its completion: the IDs.
  lemma CreationIds(c: Config, i: nat, m: nat, s: State, t: State)
    requires Wf(c, s) && i < |c.who| && m < |s.view.muts| && Wf(c, t) && m < |t.view.muts| && !c.single
    requires Ids(c, i + 1, CreateAt(c, i, m, s), t) && t.nodes[i].Some?
    ensures Ids(c, i, s, Complete(c, i, m, t))
  {
    var s1, u := CreateAt(c, i, m, s), Complete(c, i, m, t);
    var n := |s.view.store|;
    var given, got := s1.specs[i].value.id, t.specs[i].value.id;
    assert t.nodes[i] == Some(n) && t.view.store[n] == s1.view.store[n];
    if got.Some? {
      AnsweredId(c.entity.idPolicy, given, got);
    }
    assert u.view.store[..n] == t.view.store[..n] == s1.view.store[..n] == s.view.store;
    forall p | |s.view.trace| <= p < |u.view.trace| && u.view.trace[p].Created? ensures IdKept(c, u, u.view.trace[p]) {
      if p < |t.view.trace| {
        assert u.view.trace[p] == t.view.trace[p];
        if p < |s1.view.trace| {
          assert t.view.trace[p] == s1.view.trace[p];
        }
      }
    }
    forall j | i <= j < |c.who| ensures Settled(c, u, j, n) {
      if j > i {
        assert Settled(c, t, j, n + 1);
      }
    }
  }

  // The same for the mutations.
  lemma CreationHolds(c: Config, i: nat, m: nat, s: State, t: State)
    requires Wf(c, s) && i < |c.who| && m < |s.view.muts| && Wf(c, t) && m < |t.view.muts|
    requires Held(c, i + 1, CreateAt(c, i, m, s), t) && t.nodes[i].Some?
    ensures Held(c, i, s, Complete(c, i, m, t))
  {
    var s1, u := CreateAt(c, i, m, s), Complete(c, i, m, t);
    forall b | 0 <= b < |s.cur| && !Takes(c, i, b) ensures u.cur[b] == s.cur[b] {
      assert c.who[i] != b && !Takes(c, i + 1, b);
    }
    if !Takes(c, i + 1, c.who[i]) {
      assert t.cur[c.who[i]] == s1.cur[c.who[i]] == m;
    } else {
      var j :| i + 1 <= j < |c.who| && c.who[j] == c.who[i];
      assert t.view.muts[t.cur[c.who[j]]].done;
    }
  }

  lemma CompletionPoints(c: Config, i: nat, m: nat, t: State)
    requires Wf(c, t) && i < |c.who| && m < |t.view.muts| && t.nodes[i].Some? && Pointing(t)
    ensures Pointing(Complete(c, i, m, t))
  {
    var u := Complete(c, i, m, t);
    var tr, ext := t.view.trace, u.view.trace;
    forall p | 0 <= p < |ext| && ext[p].Done? && LastMark(ext, p) ensures PointsTo(u, ext[p]) {
      if p < |tr| {
        assert ext[p] == tr[p] && ext[|tr|].Done?;
        forall q | p < q < |tr| && tr[q].Done? ensures tr[q].m != tr[p].m {
          assert ext[q] == tr[q];
        }
        assert PointsTo(t, tr[p]);
      }
    }
  }

  lemma {:induction false} RelayBase(c: Config, i: nat, arg: Arg, s: State)
    requires Wf(c, s) && i < |c.who| && AllRelay(c) && !c.single
    ensures Base(c, i, arg, s).0.Ok? ==> Relayed(c, i, s, Base(c, i, arg, s).1)
    decreases |c.who| - i, 0, 0, 0
  {
    if Base(c, i, arg, s).0.Ok? {
      var m := arg.m;
      var s1 := CreateAt(c, i, m, s);
      RelayInner(c, i, s1);
      var (err, t) := Inner(c, i, s1);
      CreationHolds(c, i, m, s, t);
      if HonestIds(c) {
        CreationIds(c, i, m, s, t);
      }
      if AllKeepIds(c) && NoneDone(s.view.trace) {
        assert NoneDone(s1.view.trace);
        CompletionPoints(c, i, m, t);
      }
    }
  }

  lemma {:induction false} RelayInner(c: Config, i: nat, s: State)
    requires Wf(c, s) && i < |c.who| && AllRelay(c) && !c.single
    ensures Inner(c, i, s).0.None? ==> Relayed(c, i + 1, s, Inner(c, i, s).1)
    decreases |c.who| - i - 1, if i + 1 < |c.who| then |HooksAt(c, i + 1)| else 0, 2, 0
  {
    if i + 1 < |c.who| {
      RelayMutate(c, i + 1, 0, Own(s.cur[c.who[i + 1]]), s);
    }
  }

  // Going round a hook.
  lemma RelayAround(c: Config, i: nat, s: State, enter: Event, s1: State, t: State, exit: Event, u: State)
    requires Wf(c, s) && Wf(c, s1) && Wf(c, t) && Wf(c, u) && i < |c.who| && Relayed(c, i, s1, t)
    requires enter.Enter? && exit.Exit? && SameBoard(s, s1) && SameBoard(t, u)
    requires s1.view.trace == s.view.trace + [enter] && u.view.trace == t.view.trace + [exit]
    requires s1.view.trace <= t.view.trace && (AllKeepIds(c) ==> SameIds(t, u))
    ensures Relayed(c, i, s, u)
  {
    var n := |t.view.trace|;
    assert forall p :: 0 <= p < n ==> u.view.trace[p] == t.view.trace[p];
    assert t.view.trace[|s.view.trace|] == s1.view.trace[|s.view.trace|] == enter;
    if HonestIds(c) {
      forall j | i <= j < |c.who| ensures Settled(c, u, j, |s.view.store|) {
        assert Settled(c, t, j, |s1.view.store|);
      }
    }
    if AllKeepIds(c) && NoneDone(s.view.trace) {
      forall p | 0 <= p < |u.view.trace| && u.view.trace[p].Done? && LastMark(u.view.trace, p)
        ensures PointsTo(u, u.view.trace[p])
      {
        assert LastMark(t.view.trace, p);
        assert PointsTo(t, t.view.trace[p]);
      }
    }
  }

  lemma {:induction false} RelayMutate(c: Config, i: nat, h: nat, arg: Arg, s: State)
    requires Wf(c, s) && i < |c.who| && h <= |HooksAt(c, i)| && AllRelay(c) && !c.single
    ensures Mutate(c, i, h, arg, s).0.Ok? ==> Relayed(c, i, s, Mutate(c, i, h, arg, s).1)
    decreases |c.who| - i, |HooksAt(c, i)| - h, 1, 0
  {
    if h == |HooksAt(c, i)| {
      RelayBase(c, i, arg, s);
    } else {
      var a, s1, o, t := OnceTurn(c, i, h, arg, s);
      RelayMutate(c, i, h + 1, a, s1);
      if o.Ok? {
        RelayAround(c, i, s, Enter(i, h), s1, t, Exit(i, h), Mutate(c, i, h, arg, s).1);
      }
    }
  }

  // A successful bulk save as one relation.
  lemma SavedIsRelayed(c: Config, sups: seq<Supply>, v: View, cur: seq<nat>) returns (s: State)
    requires ValidStart(c, v, cur) && |sups| == |c.who| > 0 && v.trace == [] && AllRelay(c) && !c.single
    ensures Wf(c, s) && s.view.store == v.store && s.view.trace == []
    ensures var (r, t) := BulkSave(c, None, sups, v, cur);
      r.Saved? ==> r.nodes == t.nodes && Relayed(c, 0, s, t)
  {
    s := AllDefaults(c, sups, 0, Fresh(c, v, cur));
    RelayMutate(c, 0, 0, Own(s.cur[c.who[0]]), s);
  }

  // Main result: after a successful bulk save every position has a new node and a
  // spec, the spec has an ID if the database assigns them, the node has the spec's
  // ID, and an ID that a mutation had when it was created from is kept. The hooks may
  // edit mutations before and after `next`, and pass on others.
  lemma IdsAfterSave(c: Config, sups: seq<Supply>, v: View, cur: seq<nat>)
    requires ValidStart(c, v, cur) && |sups| == |c.who| > 0 && v.trace == []
    requires AllRelay(c) && HonestIds(c) && !c.single
    ensures var (r, t) := BulkSave(c, None, sups, v, cur);
      r.Saved? ==>
        && r.nodes == t.nodes
        && (forall j :: 0 <= j < |c.who| ==> Settled(c, t, j, |v.store|))
        && (forall p :: 0 <= p < |t.view.trace| && t.view.trace[p].Created? ==>
              && IdKept(c, t, t.view.trace[p])
              && (t.view.trace[p].id.Some? ==>
                    t.view.store[t.nodes[t.view.trace[p].pos].value].id == t.view.trace[p].id.value))
  {
    var s := SavedIsRelayed(c, sups, v, cur);
    var (r, t) := BulkSave(c, None, sups, v, cur);
    if r.Saved? {
      forall p | 0 <= p < |t.view.trace| && t.view.trace[p].Created? && t.view.trace[p].id.Some?
        ensures t.view.store[t.nodes[t.view.trace[p].pos].value].id == t.view.trace[p].id.value
      {
        assert IdKept(c, t, t.view.trace[p]);
        assert Settled(c, t, t.view.trace[p].pos, |v.store|);
      }
    }
  }

  // Main result: if moreover no hook sets an ID after `next`, the ID pointer of every
  // completed mutation, though set before the node's ID was written, reads the final
  // ID of the node of the position that completed it last.
  lemma PointersAfterSave(c: Config, sups: seq<Supply>, v: View, cur: seq<nat>)
    requires ValidStart(c, v, cur) && |sups| == |c.who| > 0 && v.trace == []
    requires AllRelay(c) && AllKeepIds(c) && !c.single
    ensures var (r, t) := BulkSave(c, None, sups, v, cur);
      var tr := t.view.trace;
      r.Saved? ==> forall p :: 0 <= p < |tr| && tr[p].Done? && LastMark(tr, p) ==>
        && PointsTo(t, tr[p])
        && ReadId(t.view, tr[p].m) == Some(t.view.store[t.nodes[tr[p].pos].value].id)
  {
    var s := SavedIsRelayed(c, sups, v, cur);
  }

  // Main result: the mutations all builders hold in the end are done.
  lemma HeldAreDone(c: Config, sups: seq<Supply>, v: View, cur: seq<nat>)
    requires ValidStart(c, v, cur) && |sups| == |c.who| > 0 && v.trace == [] && AllRelay(c) && !c.single
    ensures var (r, t) := BulkSave(c, None, sups, v, cur);
      r.Saved? ==> forall j :: 0 <= j < |c.who| ==> t.view.muts[t.cur[c.who[j]]].done
  {
    var s := SavedIsRelayed(c, sups, v, cur);
  }
}
