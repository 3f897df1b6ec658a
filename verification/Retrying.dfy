// Bulk saves whose hooks may call `next` again: what becomes of the nodes, the IDs and
// the mutations. Relaying hooks are among them.
module Retrying {
  import opened Wrappers
  import opened Schema
  import opened Runtime
  import opened Saves
  import opened ChainCoherence
  import opened SingleRefinement
  import opened Relaying

  ghost predicate LastFailed(seen: seq<Past>) {
    seen != [] && seen[|seen| - 1].outcome.Err?
  }

  // The hook calls `next` at least once, and succeeds only if its last call did.
  ghost predicate Retries(hook: Hook) {
    && (forall arg, v :: hook.limit(arg, v) > 0 && hook.step(arg, v, []).CallNext?)
    && (forall arg, v, seen :: LastFailed(seen) && |seen| == Allowed(hook, arg, seen, v) ==>
          hook.last(arg, v, seen).result.Err?)
    && (forall arg, v, seen :: LastFailed(seen) && |seen| < Allowed(hook, arg, seen, v) ==>
          hook.step(arg, v, seen).Stop? ==> hook.step(arg, v, seen).finish.result.Err?)
  }

  ghost predicate AllRetry(c: Config) {
    forall b, h :: 0 <= b < |c.hooks| && 0 <= h < |c.hooks[b]| ==> Retries(c.hooks[b][h])
  }

  // The ID of a spec some writes later: as it was, or as the database answered.
  predicate Later(policy: IdPolicy, before: Option<Id>, after: Option<Id>) {
    after == before || Answers(policy, before, after)
  }

  // What a run from position i on leaves of the positions below, however it ends.
  ghost predicate Spared(c: Config, i: nat, s: State, t: State)
    requires Wf(c, s) && Wf(c, t) && i <= |c.who|
  {
    && s.view.store <= t.view.store
    && |t.view.muts| == |s.view.muts|
    && (forall j :: 0 <= j < i ==> t.nodes[j] == s.nodes[j])
    && (forall j :: 0 <= j < i ==> LastCreated(t.view.trace, j) == LastCreated(s.view.trace, j))
    && s.view.trace <= t.view.trace
    && (forall j :: 0 <= j < i && s.specs[j].Some? ==>
          t.specs[j].Some? && Later(c.entity.idPolicy, s.specs[j].value.id, t.specs[j].value.id))
    && (forall b :: 0 <= b < |s.cur| && !Takes(c, i, b) ==> t.cur[b] == s.cur[b])
    && (forall m :: 0 <= m < |s.view.muts| && s.view.muts[m].done ==> t.view.muts[m].done)
  }

  // The ID that position j's last creation came with is what its spec has, as the
  // database answered.
  ghost predicate LastIdKept(c: Config, t: State, j: nat) {
    var p := LastCreated(t.view.trace, j);
    0 <= p < |t.view.trace| && t.view.trace[p].Created? && t.view.trace[p].pos == j && IdKept(c, t, t.view.trace[p])
  }

  // What a run from position i on that began at s leaves when it succeeds.
  ghost predicate Arrived(c: Config, i: nat, s: State, t: State)
    requires Wf(c, s) && Wf(c, t) && i <= |c.who|
  {
    && (forall j :: 0 <= j < i && s.specs[j].Some? ==>
          t.specs[j].Some? && Answers(c.entity.idPolicy, s.specs[j].value.id, t.specs[j].value.id))
    && (forall j :: i <= j < |c.who| ==> Settled(c, t, j, |s.view.store|) && LastIdKept(c, t, j))
    && (forall j :: i <= j < |c.who| ==> t.view.muts[t.cur[c.who[j]]].done)
  }

  lemma SparedTrans(c: Config, i: nat, s: State, t: State, u: State)
    requires Wf(c, s) && Wf(c, t) && Wf(c, u) && i <= |c.who| && Spared(c, i, s, t) && Spared(c, i, t, u)
    ensures Spared(c, i, s, u)
    ensures Arrived(c, i, t, u) ==> Arrived(c, i, s, u)
  {
    if Arrived(c, i, t, u) {
      forall j | i <= j < |c.who| ensures Settled(c, u, j, |s.view.store|) {
        assert Settled(c, u, j, |t.view.store|);
      }
    }
  }

  // Edits and events around hooks spare everything and undo nothing.
  lemma LogSpares(c: Config, i: nat, s: State, e: Event)
    requires Wf(c, s) && i <= |c.who| && !e.Created?
    ensures Spared(c, i, s, Log(s, e))
  {
    TakeAppend(s.view.trace, e);
  }

  lemma EditSpares(c: Config, i: nat, s: State, es: seq<Edit>)
    requires Wf(c, s) && i <= |c.who|
    ensures Spared(c, i, s, Edited(es, s))
  {
    EditsKeepFlags(es, s.view);
  }

  lemma LastIdStays(c: Config, t: State, u: State, e: Event, j: nat)
    requires LastIdKept(c, t, j) && u.specs == t.specs && u.view.trace == t.view.trace + [e] && !e.Created?
    ensures LastIdKept(c, u, j)
  {
    TakeAppend(t.view.trace, e);
  }

  lemma LogArrived(c: Config, i: nat, s: State, t: State, e: Event)
    requires Wf(c, s) && Wf(c, t) && i <= |c.who| && Arrived(c, i, s, t) && !e.Created?
    ensures Arrived(c, i, s, Log(t, e))
  {
    forall j | i <= j < |c.who| ensures Settled(c, Log(t, e), j, |s.view.store|) && LastIdKept(c, Log(t, e), j) {
      assert Settled(c, t, j, |s.view.store|);
      LastIdStays(c, t, Log(t, e), e, j);
    }
  }

  lemma EditArrived(c: Config, i: nat, s: State, t: State, es: seq<Edit>)
    requires Wf(c, s) && Wf(c, t) && i <= |c.who| && Arrived(c, i, s, t)
    ensures Arrived(c, i, s, Edited(es, t))
  {
    EditsKeepFlags(es, t.view);
    var u := Edited(es, t);
    forall j | i <= j < |c.who| ensures Settled(c, u, j, |s.view.store|) && LastIdKept(c, u, j) {
      assert Settled(c, t, j, |s.view.store|) && LastIdKept(c, t, j);
    }
  }

  // What a run spares from position i + 1 on, it spares from i on.
  lemma SparesMore(c: Config, i: nat, s: State, t: State)
    requires Wf(c, s) && Wf(c, t) && i < |c.who| && Spared(c, i + 1, s, t)
    ensures Spared(c, i, s, t)
  {
    forall b | 0 <= b < |s.cur| && !Takes(c, i, b) ensures t.cur[b] == s.cur[b] {
      assert !Takes(c, i + 1, b);
    }
  }

  lemma CompleteSpares(c: Config, i: nat, m: nat, s: State, t: State)
    requires Wf(c, s) && Wf(c, t) && i < |c.who| && m < |t.view.muts| && Spared(c, i, s, t)
    requires t.nodes[i].Some? && t.nodes[i].value >= |s.view.store|
    ensures Spared(c, i, s, Complete(c, i, m, t))
  {
    var u := Complete(c, i, m, t);
    TakeAppend(t.view.trace, Done(i, m));
    assert u.view.store[..|s.view.store|] == t.view.store[..|s.view.store|] == s.view.store;
  }

  // The creation at position i and the run below it, completed.
  lemma CompleteArrives(c: Config, i: nat, m: nat, s: State, t: State)
    requires Wf(c, s) && i < |c.who| && m < |s.view.muts| && Wf(c, t) && m < |t.view.muts| && !c.single
    requires Spared(c, i + 1, CreateAt(c, i, m, s), t) && Arrived(c, i + 1, CreateAt(c, i, m, s), t)
    requires t.nodes[i].Some?
    ensures Arrived(c, i, s, Complete(c, i, m, t))
  {
    var s1, u := CreateAt(c, i, m, s), Complete(c, i, m, t);
    var n := |s.view.store|;
    var given, got := s1.specs[i].value.id, t.specs[i].value.id;
    assert t.nodes[i] == Some(n) && t.view.store[n] == s1.view.store[n];
    if got.Some? {
      AnsweredId(c.entity.idPolicy, given, got);
    }
    assert t.view.trace[|s.view.trace|] == s1.view.trace[|s.view.trace|];
    assert LastIdKept(c, t, i);
    forall j | i <= j < |c.who| ensures Settled(c, u, j, n) && LastIdKept(c, u, j) {
      LastIdStays(c, t, u, Done(i, m), j);
      if j > i {
        assert Settled(c, t, j, n + 1);
      }
    }
    CompleteHolds(c, i, m, s1, t);
  }

  lemma CompleteHolds(c: Config, i: nat, m: nat, s1: State, t: State)
    requires Wf(c, s1) && Wf(c, t) && i < |c.who| && m < |t.view.muts| && t.nodes[i].Some?
    requires Spared(c, i + 1, s1, t) && s1.cur[c.who[i]] == m
    requires forall j :: i + 1 <= j < |c.who| ==> t.view.muts[t.cur[c.who[j]]].done
    ensures var u := Complete(c, i, m, t); forall j :: i <= j < |c.who| ==> u.view.muts[u.cur[c.who[j]]].done
  {
    if Takes(c, i + 1, c.who[i]) {
      var j :| i + 1 <= j < |c.who| && c.who[j] == c.who[i];
      assert t.view.muts[t.cur[c.who[j]]].done;
    }
  }

  lemma {:induction false} RetryBase(c: Config, i: nat, arg: Arg, s: State)
    requires Wf(c, s) && i < |c.who| && AllRetry(c) && HonestIds(c) && !c.single
    ensures var (o, t) := Base(c, i, arg, s); Spared(c, i, s, t) && (o.Ok? ==> Arrived(c, i, s, t))
    decreases |c.who| - i, 0, 0, 0
  {
    if arg.Foreign? || arg.m >= |s.view.muts| {
      LogSpares(c, i, s, Rejected(i));
    } else {
      var missing := Missing(c.entity.columns, s.view.muts[s.cur[c.who[i]]].fields);
      if missing.Some? {
        LogSpares(c, i, s, Invalid(i, missing.value));
      } else {
        RetryCreation(c, i, arg.m, s);
      }
    }
  }

  lemma {:induction false} RetryCreation(c: Config, i: nat, m: nat, s: State)
    requires Wf(c, s) && i < |c.who| && m < |s.view.muts| && AllRetry(c) && HonestIds(c) && !c.single
    ensures var (err, t) := Inner(c, i, CreateAt(c, i, m, s));
      if err.Some? then Spared(c, i, s, t)
      else Spared(c, i, s, Complete(c, i, m, t)) && Arrived(c, i, s, Complete(c, i, m, t))
    decreases |c.who| - i - 1, if i + 1 < |c.who| then |HooksAt(c, i + 1)| else 0, 3, 0
  {
    var s1 := CreateAt(c, i, m, s);
    RetryInner(c, i, s1);
    var (err, t) := Inner(c, i, s1);
    SparesMore(c, i, s1, t);
    SparedTrans(c, i, s, s1, t);
    if err.None? {
      assert t.nodes[i] == s1.nodes[i] == Some(|s.view.store|);
      CompleteSpares(c, i, m, s, t);
      CompleteArrives(c, i, m, s, t);
    }
  }

  lemma {:induction false} RetryInner(c: Config, i: nat, s: State)
    requires Wf(c, s) && i < |c.who| && AllRetry(c) && HonestIds(c) && !c.single
    ensures var (err, t) := Inner(c, i, s); Spared(c, i + 1, s, t) && (err.None? ==> Arrived(c, i + 1, s, t))
    decreases |c.who| - i - 1, if i + 1 < |c.who| then |HooksAt(c, i + 1)| else 0, 2, 0
  {
    if i + 1 < |c.who| {
      RetryMutate(c, i + 1, 0, Own(s.cur[c.who[i + 1]]), s);
    }
  }

  lemma {:induction false} RetryMutate(c: Config, i: nat, h: nat, arg: Arg, s: State)
    requires Wf(c, s) && i < |c.who| && h <= |HooksAt(c, i)| && AllRetry(c) && HonestIds(c) && !c.single
    ensures var (o, t) := Mutate(c, i, h, arg, s); Spared(c, i, s, t) && (o.Ok? ==> Arrived(c, i, s, t))
    decreases |c.who| - i, |HooksAt(c, i)| - h, 1, 0
  {
    if h == |HooksAt(c, i)| {
      RetryBase(c, i, arg, s);
    } else {
      var s1 := Log(s, Enter(i, h));
      LogSpares(c, i, s, Enter(i, h));
      RetryHook(c, i, h, arg, [], s, s1);
      var (o, t) := RunHook(c, i, h, arg, [], s1);
      LogSpares(c, i, t, Exit(i, h));
      SparedTrans(c, i, s, t, Log(t, Exit(i, h)));
      if o.Ok? {
        LogArrived(c, i, s, t, Exit(i, h));
      }
    }
  }

  // The rest of a hook that was entered in s0: if its last call succeeded, the run from
  // position i on has arrived.
  ghost predicate Underway(c: Config, i: nat, seen: seq<Past>, s0: State, s: State)
    requires Wf(c, s0) && Wf(c, s) && i <= |c.who|
  {
    Spared(c, i, s0, s) && (seen != [] && !LastFailed(seen) ==> Arrived(c, i, s0, s))
  }

  lemma HookCalled(c: Config, i: nat, seen: seq<Past>, s0: State, s: State, es: seq<Edit>, o: Outcome, t: State)
    requires Wf(c, s0) && Wf(c, s) && Wf(c, t) && i <= |c.who| && Underway(c, i, seen, s0, s)
    requires Spared(c, i, Edited(es, s), t) && (o.Ok? ==> Arrived(c, i, Edited(es, s), t))
    ensures Underway(c, i, seen + [Past(s.view, o)], s0, t)
  {
    EditSpares(c, i, s, es);
    SparedTrans(c, i, s0, s, Edited(es, s));
    SparedTrans(c, i, s0, Edited(es, s), t);
  }

  lemma {:induction false} RetryHook(c: Config, i: nat, h: nat, arg: Arg, seen: seq<Past>, s0: State, s: State)
    requires Wf(c, s0) && Wf(c, s) && i < |c.who| && h < |HooksAt(c, i)| && AllRetry(c) && HonestIds(c) && !c.single
    requires |seen| <= Allowed(HooksAt(c, i)[h], arg, seen, s.view) && Underway(c, i, seen, s0, s)
    ensures var (o, t) := RunHook(c, i, h, arg, seen, s); Spared(c, i, s0, t) && (o.Ok? ==> Arrived(c, i, s0, t))
    decreases |c.who| - i, |HooksAt(c, i)| - h, 0, Allowed(HooksAt(c, i)[h], arg, seen, s.view) - |seen|
  {
    var hook := HooksAt(c, i)[h];
    assert Retries(hook);
    if |seen| == Allowed(hook, arg, seen, s.view) {
      HookEnds(c, i, seen, s0, s, hook.last(arg, s.view, seen));
    } else {
      match hook.step(arg, s.view, seen)
      case Stop(fin) => HookEnds(c, i, seen, s0, s, fin);
      case CallNext(edits, a) =>
        var s1 := Edited(edits, s);
        RetryMutate(c, i, h + 1, a, s1);
        var (o, t) := Mutate(c, i, h + 1, a, s1);
        HookCalled(c, i, seen, s0, s, edits, o, t);
        RetryHook(c, i, h, arg, seen + [Past(s.view, o)], s0, t);
    }
  }

  lemma HookEnds(c: Config, i: nat, seen: seq<Past>, s0: State, s: State, fin: Finish)
    requires Wf(c, s0) && Wf(c, s) && i <= |c.who| && Underway(c, i, seen, s0, s) && seen != []
    requires LastFailed(seen) ==> fin.result.Err?
    ensures var t := Edited(fin.edits, s); Spared(c, i, s0, t) && (fin.result.Ok? ==> Arrived(c, i, s0, t))
  {
    EditSpares(c, i, s, fin.edits);
    SparedTrans(c, i, s0, s, Edited(fin.edits, s));
    if fin.result.Ok? {
      EditArrived(c, i, s0, s, fin.edits);
    }
  }

  // Main result: with hooks that may retry, and edit mutations and pass on others, a
  // successful bulk save leaves every position with a new node and a spec, the spec
  // with an ID if the database assigns them, and the node with the spec's ID, which is
  // the one the position's last creation came with if it came with one; and the mutation
  // every builder holds is done.
  lemma IdsAfterRetries(c: Config, sups: seq<Supply>, v: View, cur: seq<nat>)
    requires ValidStart(c, v, cur) && |sups| == |c.who| > 0 && v.trace == []
    requires AllRetry(c) && HonestIds(c) && !c.single
    ensures var (r, t) := BulkSave(c, None, sups, v, cur);
      r.Saved? ==>
        && r.nodes == t.nodes
        && (forall j :: 0 <= j < |c.who| ==> Settled(c, t, j, |v.store|) && LastIdKept(c, t, j))
        && (forall j :: 0 <= j < |c.who| ==> t.view.muts[t.cur[c.who[j]]].done)
  {
    var s := AllDefaults(c, sups, 0, Fresh(c, v, cur));
    RetryMutate(c, 0, 0, Own(s.cur[c.who[0]]), s);
  }
}
