// A bulk save of one builder against the single Save of that builder.
module SingleRefinement {
  import opened Wrappers
  import opened Schema
  import opened Runtime
  import opened Saves

  // The hook passes on the mutation object it was given, as often as it likes.
  ghost predicate PassesOn(hook: Hook) {
    forall arg, v, seen :: hook.step(arg, v, seen).CallNext? ==> hook.step(arg, v, seen).arg == arg
  }

  ghost predicate AllPassOn(c: Config) {
    forall b, h :: 0 <= b < |c.hooks| && 0 <= h < |c.hooks[b]| ==> PassesOn(c.hooks[b][h])
  }

  // What the database is assumed to do with IDs: it keeps the ones it is given
  // and gives one to every other row, except that it never makes up a UUID.
  ghost predicate HonestReply(policy: IdPolicy, specs: seq<Option<Spec>>, reply: Reply) {
    reply.Stored? ==>
      && |reply.ids| == |specs|
      && forall j :: 0 <= j < |specs| && specs[j].Some? ==>
        && (specs[j].value.id.Some? || policy.BuilderUuid? ==> reply.ids[j] == specs[j].value.id)
        && (!policy.BuilderUuid? ==> reply.ids[j].Some?)
  }

  ghost predicate HonestIds(c: Config) {
    forall tr, specs :: HonestReply(c.entity.idPolicy, specs, c.database(tr, specs))
  }

  function AsSingle(c: Config): Config {
    c.(single := true)
  }

  // One position, one mutation, held by the builder and passed down.
  ghost predicate OneBuilder(c: Config, s: State) {
    Wf(c, s) && !c.single && |c.who| == 1
  }

  // After an accepted write both kinds of save give the node the same ID.
  ghost predicate SameFinalId(c: Config, s1: State)
    requires Wf(c, s1) && |c.who| == 1 && s1.nodes[0].Some?
  {
    var (err, s2) := WriteAll(c, s1);
    var nodeId, specId := s1.view.store[s1.nodes[0].value].id, s2.specs[0].value.id;
    err.None? ==> FinalId(c.entity.idPolicy, true, nodeId, specId) == FinalId(c.entity.idPolicy, false, nodeId, specId)
  }

  lemma CreationAgrees(c: Config, m: nat, s: State)
    requires OneBuilder(c, s) && m < |s.view.muts| && SameFinalId(c, CreateAt(c, 0, m, s))
    ensures var s1 := CreateAt(c, 0, m, s);
      var (err, s2) := Inner(c, 0, s1);
      && s1 == CreateAt(AsSingle(c), 0, m, s)
      && (err, s2) == Inner(AsSingle(c), 0, s1)
      && s2.cur == s1.cur
      && (err.None? ==> Complete(c, 0, m, s2) == Complete(AsSingle(c), 0, m, s2))
  {
  }

  lemma BaseAgrees(c: Config, s: State)
    requires OneBuilder(c, s) && HonestIds(c)
    ensures Base(c, 0, Own(s.cur[c.who[0]]), s) == Base(AsSingle(c), 0, Own(s.cur[c.who[0]]), s)
    ensures Base(c, 0, Own(s.cur[c.who[0]]), s).1.cur == s.cur
  {
    var m := s.cur[c.who[0]];
    assert Receive(AsSingle(c), 0, m, s) == s;
    CreationAgrees(c, m, s);
  }

  lemma {:induction false} MutateAgrees(c: Config, h: nat, s: State)
    requires OneBuilder(c, s) && HonestIds(c) && h <= |HooksAt(c, 0)| && AllPassOn(c)
    ensures Mutate(c, 0, h, Own(s.cur[c.who[0]]), s) == Mutate(AsSingle(c), 0, h, Own(s.cur[c.who[0]]), s)
    ensures Mutate(c, 0, h, Own(s.cur[c.who[0]]), s).1.cur == s.cur
    decreases |HooksAt(c, 0)| - h, 1, 0
  {
    if h == |HooksAt(c, 0)| {
      BaseAgrees(c, s);
    } else {
      HookAgrees(c, h, [], Log(s, Enter(0, h)));
    }
  }

  lemma {:induction false} HookAgrees(c: Config, h: nat, seen: seq<Past>, s: State)
    requires OneBuilder(c, s) && HonestIds(c) && h < |HooksAt(c, 0)|
      && |seen| <= Allowed(HooksAt(c, 0)[h], Own(s.cur[c.who[0]]), seen, s.view) && AllPassOn(c)
    ensures RunHook(c, 0, h, Own(s.cur[c.who[0]]), seen, s) == RunHook(AsSingle(c), 0, h, Own(s.cur[c.who[0]]), seen, s)
    ensures RunHook(c, 0, h, Own(s.cur[c.who[0]]), seen, s).1.cur == s.cur
    decreases |HooksAt(c, 0)| - h, 0, Allowed(HooksAt(c, 0)[h], Own(s.cur[c.who[0]]), seen, s.view) - |seen|
  {
    var hook := HooksAt(c, 0)[h];
    var arg := Own(s.cur[c.who[0]]);
    if |seen| < Allowed(hook, arg, seen, s.view) && hook.step(arg, s.view, seen).CallNext? {
      assert PassesOn(hook);
      var s1 := Edited(hook.step(arg, s.view, seen).edits, s);
      MutateAgrees(c, h + 1, s1);
      var (o, t) := Mutate(c, 0, h + 1, arg, s1);
      HookAgrees(c, h, seen + [Past(s.view, o)], t);
    }
  }

  function SingleVerdict(o: Outcome): SingleResult {
    match o
    case Err(e) => SingleFailed(e)
    case Ok(NodeValue(n)) => SavedOne(n)
    case Ok(_) => SingleFailed(UnexpectedNode)
  }

  // Both saves come from one run.
  lemma SharedRun(c: Config, sup: Supply, v: View, cur: seq<nat>) returns (s: State, o: Outcome, t: State)
    requires ValidStart(c, v, cur) && !c.single && |c.who| == 1 && HonestIds(c) && AllPassOn(c)
    ensures Wf(c, s) && (o, t) == Mutate(c, 0, 0, Own(s.cur[c.who[0]]), s)
    ensures BulkSave(c, None, [sup], v, cur) == (if o.Err? then BulkFailed(o.error) else Saved(t.nodes), t)
    ensures SingleSave(AsSingle(c), sup, v, cur) == (SingleVerdict(o), t)
  {
    var c1 := AsSingle(c);
    var s0 := Fresh(c, v, cur);
    assert DefaultsOn(c, sup, c.who[0], s0) == DefaultsOn(c1, sup, c.who[0], s0);
    s := AllDefaults(c, [sup], 0, s0);
    assert AllDefaults(c, [sup], 1, DefaultsOn(c, sup, c.who[0], s0)) == DefaultsOn(c, sup, c.who[0], s0);
    assert s == AllDefaults(c1, [sup], 0, s0);
    MutateAgrees(c, 0, s);
    var r := Mutate(c, 0, 0, Own(s.cur[c.who[0]]), s);
    o, t := r.0, r.1;
  }

  // Main result: for hooks that pass on what they receive, a bulk save of one
  // builder ends in the same state as the single save (same trace, nodes, done
  // and id marks) and fails with the same error.
  lemma BulkOfOneIsSingle(c: Config, sup: Supply, v: View, cur: seq<nat>)
    requires ValidStart(c, v, cur) && !c.single && |c.who| == 1 && HonestIds(c) && AllPassOn(c)
    ensures var (rb, tb) := BulkSave(c, None, [sup], v, cur);
      var (rs, ts) := SingleSave(AsSingle(c), sup, v, cur);
      && tb == ts
      && (forall e :: rb == BulkFailed(e) ==> rs == SingleFailed(e))
      && (rb.Saved? ==> rs.SavedOne? || rs == SingleFailed(UnexpectedNode))
  {
    var _, _, _ := SharedRun(c, sup, v, cur);
  }

  // The hook calls `next` once and hands its value back.
  ghost predicate Returns(hook: Hook) {
    && (forall arg, v :: hook.limit(arg, v) == 1)
    && (forall arg, v :: hook.step(arg, v, []).CallNext?)
    && (forall arg, v, past: Past ::
          if past.outcome.Ok? then hook.last(arg, v, [past]).result == past.outcome
          else hook.last(arg, v, [past]).result.Err?)
  }

  // The outcome, if it is no error, is the node of the one position.
  ghost predicate GivesNode(r: (Outcome, State)) {
    r.0.Ok? ==> |r.1.nodes| > 0 && r.1.nodes[0].Some? && r.0 == Ok(NodeValue(r.1.nodes[0].value))
  }

  // The run of such a hook: its outcome is that of `next`, or an error.
  lemma ReturnTurn(c: Config, h: nat, arg: Arg, s: State) returns (a: Arg, s1: State, o: Outcome, t: State)
    requires Wf(c, s) && |c.who| == 1 && h < |HooksAt(c, 0)| && Returns(HooksAt(c, 0)[h])
    ensures Wf(c, s1) && (o, t) == Mutate(c, 0, h + 1, a, s1)
    ensures GivesNode((o, t)) ==> GivesNode(Mutate(c, 0, h, arg, s))
  {
    var hook := HooksAt(c, 0)[h];
    var s0 := Log(s, Enter(0, h));
    var act := hook.step(arg, s0.view, []);
    a, s1 := act.arg, Edited(act.edits, s0);
    var r := Mutate(c, 0, h + 1, a, s1);
    o, t := r.0, r.1;
    var past := Past(s0.view, o);
    assert [] + [past] == [past];
    assert RunHook(c, 0, h, arg, [], s0) == RunHook(c, 0, h, arg, [past], t);
  }

  lemma BaseReturnsNode(c: Config, arg: Arg, s: State)
    requires Wf(c, s) && |c.who| == 1
    ensures GivesNode(Base(c, 0, arg, s))
  {
  }

  lemma {:induction false} ReturnsNode(c: Config, h: nat, arg: Arg, s: State)
    requires Wf(c, s) && |c.who| == 1 && h <= |HooksAt(c, 0)|
    requires forall k :: 0 <= k < |HooksAt(c, 0)| ==> Returns(HooksAt(c, 0)[k])
    ensures GivesNode(Mutate(c, 0, h, arg, s))
    decreases |HooksAt(c, 0)| - h
  {
    if h < |HooksAt(c, 0)| {
      var a, s1, o, t := ReturnTurn(c, h, arg, s);
      ReturnsNode(c, h + 1, a, s1);
    } else {
      BaseReturnsNode(c, arg, s);
    }
  }

  // With hooks that also hand back the value of `next`, both saves return the same node.
  lemma BulkOfOneReturnsTheNode(c: Config, sup: Supply, v: View, cur: seq<nat>)
    requires ValidStart(c, v, cur) && !c.single && |c.who| == 1 && HonestIds(c) && AllPassOn(c)
    requires forall k :: 0 <= k < |HooksAt(c, 0)| ==> Returns(HooksAt(c, 0)[k])
    ensures var (rb, tb) := BulkSave(c, None, [sup], v, cur);
      var (rs, ts) := SingleSave(AsSingle(c), sup, v, cur);
      && (rs.SavedOne? <==> rb.Saved?)
      && (rs.SavedOne? ==> rb.nodes == [Some(rs.node)])
  {
    var s, o, t := SharedRun(c, sup, v, cur);
    ReturnsNode(c, 0, Own(s.cur[c.who[0]]), s);
  }
}
