// Bulk saves whose hooks only observe: the whole result in closed form, and what
// becomes of the IDs.
module QuietSave {
  import opened Wrappers
  import opened Schema
  import opened Runtime
  import opened Saves
  import opened SingleRefinement

  // The hook edits nothing, calls `next` once with what it got, and returns its outcome.
  ghost predicate Observes(hook: Hook) {
    && (forall arg, v :: hook.limit(arg, v) == 1)
    && (forall arg, v :: hook.step(arg, v, []) == CallNext([], arg))
    && (forall arg, v, past: Past :: hook.last(arg, v, [past]) == Finish([], past.outcome))
  }

  ghost predicate AllObserve(c: Config) {
    forall b, h :: 0 <= b < |c.hooks| && 0 <= h < |c.hooks[b]| ==> Observes(c.hooks[b][h])
  }

  // The mutation held at position i.
  function MutAt(c: Config, s: State, i: nat): nat
    requires Wf(c, s) && i < |c.who|
  {
    s.cur[c.who[i]]
  }

  // Builders hold existing mutations.
  ghost predicate Holds(c: Config, muts: seq<MutationState>, cur: seq<nat>) {
    c.Valid() && |cur| == |c.hooks| && forall b :: 0 <= b < |cur| ==> cur[b] < |muts|
  }

  // The first complaint of check() over positions i, i+1, ...
  function FirstMissing(c: Config, muts: seq<MutationState>, cur: seq<nat>, i: nat): Option<Field>
    requires Holds(c, muts, cur) && i <= |c.who|
    decreases |c.who| - i
  {
    if i == |c.who| then None
    else
      var f := Missing(c.entity.columns, muts[cur[c.who[i]]].fields);
      if f.Some? then f else FirstMissing(c, muts, cur, i + 1)
  }

  function SpecOf(c: Config, s: State, i: nat): Spec
    requires Wf(c, s) && i < |c.who|
  {
    MakeSpec(c.entity, SpecId(c.entity, s.view, MutAt(c, s, i)), s.view.muts[MutAt(c, s, i)].fields)
  }

  function NodeOf(c: Config, s: State, i: nat): NodeState
    requires Wf(c, s) && i < |c.who|
  {
    MakeNode(c.entity, SpecId(c.entity, s.view, MutAt(c, s, i)), s.view.muts[MutAt(c, s, i)].fields)
  }

  // The mutations once positions i, i+1, ... are marked, last position first;
  // `base` is the handle of the node made for position 0.
  function MarkFrom(c: Config, muts: seq<MutationState>, cur: seq<nat>, i: nat, base: int): (r: seq<MutationState>)
    requires Holds(c, muts, cur) && i <= |c.who| && base + i >= 0
    ensures |r| == |muts|
    decreases |c.who| - i
  {
    if i == |c.who| then muts
    else
      var later := MarkFrom(c, muts, cur, i + 1, base);
      var m := cur[c.who[i]];
      later[m := later[m].(id := NodeId(base + i), done := true)]
  }

  // What position j, reached from position i on, leaves when the write was accepted.
  ghost predicate StoredAt(c: Config, s: State, i: nat, ids: seq<Option<Id>>, t: State, j: nat)
    requires Wf(c, s) && Wf(c, t) && i <= j < |c.who| == |ids|
    requires |t.view.store| == |s.view.store| + |c.who| - i
  {
    var n := |s.view.store| - i + j;
    && t.nodes[j] == Some(n)
    && t.specs[j] == Some(SpecOf(c, s, j).(id := ids[j]))
    && t.view.store[n] == NodeOf(c, s, j).(id := FinalId(c.entity.idPolicy, false, NodeOf(c, s, j).id, ids[j]))
  }

  // The same for position i and all those after it, with the mutations.
  ghost predicate StoredFrom(c: Config, s: State, i: nat, ids: seq<Option<Id>>, t: State)
    requires Wf(c, s) && Wf(c, t) && i <= |c.who|
  {
    var base := |s.view.store| - i;
    && t.cur == s.cur
    && t.view.muts == MarkFrom(c, s.view.muts, s.cur, i, base)
    && |t.view.store| == |s.view.store| + |c.who| - i
    && t.view.store[..|s.view.store|] == s.view.store
    && |ids| == |c.who|
    && forall j :: i <= j < |c.who| ==> StoredAt(c, s, i, ids, t, j)
  }

  // The batch that reaches the database from position i on.
  ghost predicate BatchFrom(c: Config, s: State, i: nat, batch: seq<Option<Spec>>)
    requires Wf(c, s) && i <= |c.who|
  {
    && |batch| == |c.who|
    && (forall j :: 0 <= j < i ==> batch[j] == s.specs[j])
    && (forall j :: i <= j < |c.who| ==> batch[j] == Some(SpecOf(c, s, j)))
  }

  // The error a refused batch comes back with.
  function Refusal(constraint: bool): Error {
    if constraint then ConstraintError else StoreError
  }

  // The run from position i on: refused by a check, refused by the store, or stored.
  ghost predicate RunFrom(c: Config, s: State, i: nat, err: Option<Error>, t: State, w: Event)
    requires Wf(c, s) && Wf(c, t) && i <= |c.who|
  {
    match FirstMissing(c, s.view.muts, s.cur, i)
    case Some(f) => err == Some(MissingField(f)) && t.view.muts == s.view.muts && t.cur == s.cur
    case None =>
      && w.Write? && w in t.view.trace && BatchFrom(c, s, i, w.specs)
      && HonestReply(c.entity.idPolicy, w.specs, w.reply)
      && match w.reply
         case Refused(constraint) => err == Some(Refusal(constraint)) && t.view.muts == s.view.muts && t.cur == s.cur
         case Stored(ids) => err.None? && StoredFrom(c, s, i, ids, t)
  }

  // Entries below i only get the IDs of the reply.
  ghost predicate KeepsEarlier(c: Config, s: State, i: nat, t: State, w: Event)
    requires Wf(c, s) && Wf(c, t) && i <= |c.who| && w.Write? && w.reply.Stored? && |w.reply.ids| == |c.who|
  {
    forall j :: 0 <= j < i && s.specs[j].Some? ==>
      t.specs[j] == Some(s.specs[j].value.(id := w.reply.ids[j])) && t.nodes[j] == s.nodes[j]
  }

  // The same for a mutator, which also returns the node of its position.
  ghost predicate Ran(c: Config, s: State, i: nat, o: Outcome, t: State, w: Event)
    requires Wf(c, s) && Wf(c, t) && i < |c.who|
  {
    && RunFrom(c, s, i, if o.Err? then Some(o.error) else None, t, w)
    && (o.Ok? ==> t.nodes[i].Some? && o == Ok(NodeValue(t.nodes[i].value)) && KeepsEarlier(c, s, i, t, w))
  }

  lemma WriteRuns(c: Config, s: State) returns (w: Event)
    requires Wf(c, s) && HonestIds(c)
    ensures RunFrom(c, s, |c.who|, WriteAll(c, s).0, WriteAll(c, s).1, w)
    ensures w.Write? && w.reply.Stored? ==> WriteAll(c, s).1.specs == AssignIds(s.specs, w.reply.ids)
  {
    w := Write(s.specs, c.database(s.view.trace, s.specs));
    assert WriteAll(c, s).1.view.trace[|s.view.trace|] == w;
  }

  lemma {:induction false} ObservedBase(c: Config, i: nat, s: State) returns (w: Event)
    requires Wf(c, s) && i < |c.who| && AllObserve(c) && HonestIds(c) && !c.single
    ensures var (o, t) := Base(c, i, Own(MutAt(c, s, i)), s); Ran(c, s, i, o, t, w)
    decreases |c.who| - i, 0, 0, 0
  {
    var m := MutAt(c, s, i);
    w := Rejected(i);
    if Missing(c.entity.columns, s.view.muts[m].fields).None? {
      w := ObservedInner(c, i, CreateAt(c, i, m, s));
      var (err, t) := Inner(c, i, CreateAt(c, i, m, s));
      CreationRan(c, i, s, err, t, w);
    }
  }

  // From the run below a creation at position i to the run from it.
  lemma CreationRan(c: Config, i: nat, s: State, err: Option<Error>, t: State, w: Event)
    requires Wf(c, s) && i < |c.who| && Wf(c, t) && !c.single
    requires Missing(c.entity.columns, s.view.muts[MutAt(c, s, i)].fields).None?
    requires var s1 := CreateAt(c, i, MutAt(c, s, i), s);
      RunFrom(c, s1, i + 1, err, t, w) && (err.None? ==> KeepsEarlier(c, s1, i + 1, t, w))
    ensures err.Some? ==> Ran(c, s, i, Err(err.value), t, w)
    ensures err.None? ==> t.nodes[i].Some?
    ensures err.None? ==>
      var u := Complete(c, i, MutAt(c, s, i), t);
      Ran(c, s, i, Ok(NodeValue(u.nodes[i].value)), u, w)
  {
    var s1 := CreateAt(c, i, MutAt(c, s, i), s);
    assert s1.cur == s.cur;
    forall j | i <= j < |c.who| ensures SpecOf(c, s1, j) == SpecOf(c, s, j) {
    }
    if err.None? {
      FinishStored(c, i, s, s1, t, w.reply.ids);
    }
  }

  // What completing position i does to the nodes.
  lemma StoreAfter(c: Config, i: nat, m: nat, s1: State, s2: State, n: nat)
    requires Wf(c, s2) && i < |c.who| && m < |s2.view.muts| && s2.nodes[i] == Some(n) && !c.single
    requires Wf(c, s1) && |s1.view.store| == n + 1 && s2.view.store[..n + 1] == s1.view.store
    ensures var t, node := Complete(c, i, m, s2), s1.view.store[n];
      && |t.view.store| == |s2.view.store|
      && t.view.store[..n] == s1.view.store[..n]
      && t.view.store[n] == node.(id := FinalId(c.entity.idPolicy, false, node.id, s2.specs[i].value.id))
      && forall k :: n < k < |t.view.store| ==> t.view.store[k] == s2.view.store[k]
  {
    assert s2.view.store[n] == s2.view.store[..n + 1][n];
    assert s2.view.store[..n] == s2.view.store[..n + 1][..n];
  }

  // From what the later positions left to what position i leaves.
  lemma FinishStored(c: Config, i: nat, s: State, s1: State, s2: State, ids: seq<Option<Id>>)
    requires Wf(c, s) && i < |c.who| && s1 == CreateAt(c, i, MutAt(c, s, i), s) && Wf(c, s2) && !c.single
    requires StoredFrom(c, s1, i + 1, ids, s2)
    requires s2.nodes[i] == s1.nodes[i] && s2.specs[i] == Some(SpecOf(c, s, i).(id := ids[i]))
    ensures StoredFrom(c, s, i, ids, Complete(c, i, MutAt(c, s, i), s2))
  {
    var n, u := |s.view.store|, Complete(c, i, MutAt(c, s, i), s2);
    assert s1.cur == s.cur;
    assert s1.view.store[..n] == s.view.store && s1.view.store[n] == NodeOf(c, s, i);
    StoreAfter(c, i, MutAt(c, s, i), s1, s2, n);
    forall j | i <= j < |c.who| ensures StoredAt(c, s, i, ids, u, j) {
      if j > i {
        assert StoredAt(c, s1, i + 1, ids, s2, j);
      }
    }
  }

  lemma {:induction false} ObservedInner(c: Config, i: nat, s: State) returns (w: Event)
    requires Wf(c, s) && i < |c.who| && AllObserve(c) && HonestIds(c) && !c.single
    ensures RunFrom(c, s, i + 1, Inner(c, i, s).0, Inner(c, i, s).1, w)
    ensures Inner(c, i, s).0.None? ==> KeepsEarlier(c, s, i + 1, Inner(c, i, s).1, w)
    decreases |c.who| - i - 1, if i + 1 < |c.who| then |HooksAt(c, i + 1)| else 0, 2, 0
  {
    if i + 1 < |c.who| {
      w := ObservedMutate(c, i + 1, 0, s);
    } else {
      w := WriteRuns(c, s);
    }
  }

  lemma {:induction false} ObservedMutate(c: Config, i: nat, h: nat, s: State) returns (w: Event)
    requires Wf(c, s) && i < |c.who| && h <= |HooksAt(c, i)| && AllObserve(c) && HonestIds(c) && !c.single
    ensures var (o, t) := Mutate(c, i, h, Own(MutAt(c, s, i)), s); Ran(c, s, i, o, t, w)
    decreases |c.who| - i, |HooksAt(c, i)| - h, 1, 0
  {
    if h == |HooksAt(c, i)| {
      w := ObservedBase(c, i, s);
    } else {
      w := ObservedMutate(c, i, h + 1, Log(s, Enter(i, h)));
      var o, t := ObserverTurn(c, i, h, Own(MutAt(c, s, i)), s);
      LogsAround(c, i, s, Enter(i, h), o, t, Exit(i, h), w);
    }
  }

  lemma StoredLog(c: Config, i: nat, s: State, enter: Event, ids: seq<Option<Id>>, t: State, exit: Event)
    requires Wf(c, s) && Wf(c, t) && i <= |c.who| && StoredFrom(c, Log(s, enter), i, ids, t)
    ensures StoredFrom(c, s, i, ids, Log(t, exit))
  {
    forall j | i <= j < |c.who| ensures StoredAt(c, s, i, ids, Log(t, exit), j) {
      assert StoredAt(c, Log(s, enter), i, ids, t, j);
    }
  }

  lemma LogsAround(c: Config, i: nat, s: State, enter: Event, o: Outcome, t: State, exit: Event, w: Event)
    requires Wf(c, s) && Wf(c, t) && i < |c.who| && Ran(c, Log(s, enter), i, o, t, w)
    ensures Ran(c, s, i, o, Log(t, exit), w)
  {
    if FirstMissing(c, s.view.muts, s.cur, i).None? {
      if w.reply.Stored? {
        StoredLog(c, i, s, enter, w.reply.ids, t, exit);
      }
    }
  }

  // An observing hook only adds its two events.
  lemma ObserverTurn(c: Config, i: nat, h: nat, arg: Arg, s: State) returns (o: Outcome, t: State)
    requires Wf(c, s) && i < |c.who| && h < |HooksAt(c, i)| && Observes(HooksAt(c, i)[h])
    ensures (o, t) == Mutate(c, i, h + 1, arg, Log(s, Enter(i, h)))
    ensures Mutate(c, i, h, arg, s) == (o, Log(t, Exit(i, h)))
  {
    var s1 := Log(s, Enter(i, h));
    var r := Mutate(c, i, h + 1, arg, s1);
    o, t := r.0, r.1;
    assert Edited([], s1) == s1 && Edited([], t) == t;
    var past := Past(s1.view, o);
    assert [] + [past] == [past];
    assert RunHook(c, i, h, arg, [], s1) == RunHook(c, i, h, arg, [past], t);
  }

  function ErrorOf(r: BulkResult): Option<Error> {
    if r.BulkFailed? then Some(r.error) else None
  }

  // Main result: with observing hooks a bulk save is three cases. The first
  // missing field over all builders is the error and nothing changed; otherwise
  // the batch of all builders' specs was written, and it was refused, with
  // nothing changed, or every node and mutation is as StoredFrom says.
  lemma QuietBulkSave(c: Config, sups: seq<Supply>, v: View, cur: seq<nat>) returns (w: Event)
    requires ValidStart(c, v, cur) && |sups| == |c.who| > 0 && AllObserve(c) && HonestIds(c) && !c.single
    ensures var (r, t) := BulkSave(c, None, sups, v, cur);
      && RunFrom(c, AllDefaults(c, sups, 0, Fresh(c, v, cur)), 0, ErrorOf(r), t, w)
      && (r.Saved? ==> r.nodes == t.nodes)
  {
    w := ObservedMutate(c, 0, 0, AllDefaults(c, sups, 0, Fresh(c, v, cur)));
  }

  // Position j is the first, from i on, that holds mutation m.
  ghost predicate FirstHolder(c: Config, cur: seq<nat>, i: nat, j: nat, m: nat)
    requires c.Valid() && |cur| == |c.hooks|
  {
    i <= j < |c.who| && cur[c.who[j]] == m && forall k :: i <= k < j ==> cur[c.who[k]] != m
  }

  // A marked mutation is done and points at the node of its first holder.
  lemma {:induction false} MarkedAt(c: Config, muts: seq<MutationState>, cur: seq<nat>, i: nat, base: int, j: nat,
    m: nat)
    requires Holds(c, muts, cur) && i <= |c.who| && base + i >= 0 && m < |muts| && FirstHolder(c, cur, i, j, m)
    ensures MarkFrom(c, muts, cur, i, base)[m].id == NodeId(base + j) && MarkFrom(c, muts, cur, i, base)[m].done
    decreases |c.who| - i
  {
    if i < j {
      MarkedAt(c, muts, cur, i + 1, base, j, m);
    }
  }

  // The final ID of a node, given an honest reply.
  lemma FinalIdFacts(policy: IdPolicy, specs: seq<Option<Spec>>, reply: Reply, j: nat)
    requires HonestReply(policy, specs, reply) && reply.Stored? && j < |specs| && specs[j].Some?
    ensures var given, stored := specs[j].value.id, reply.ids[j];
      var id := FinalId(policy, false, if given.Some? then given.value else 0, stored);
      && (stored.Some? ==> id == stored.value)
      && (given.Some? ==> id == given.value)
      && (!policy.BuilderUuid? ==> stored.Some?)
  {
  }

  // Position j has a node whose ID is its spec's and the one its builder gave, if it
  // gave one; and the mutation, if no earlier position holds it, is done and its ID
  // pointer reads the node's final ID.
  ghost predicate HasFinalId(c: Config, s: State, t: State, j: nat)
    requires Wf(c, s) && Wf(c, t) && j < |c.who|
  {
    && t.nodes[j].Some? && t.specs[j].Some? && MutAt(c, s, j) < |t.view.muts|
    && var id := t.view.store[t.nodes[j].value].id;
    && (t.specs[j].value.id.Some? ==> id == t.specs[j].value.id.value)
    && (!c.entity.idPolicy.BuilderUuid? ==> t.specs[j].value.id.Some?)
    && (SpecOf(c, s, j).id.Some? ==> id == SpecOf(c, s, j).id.value)
    && (FirstHolder(c, s.cur, 0, j, MutAt(c, s, j)) ==>
          t.view.muts[MutAt(c, s, j)].done && ReadId(t.view, MutAt(c, s, j)) == Some(id))
  }

  // The IDs after an accepted write.
  lemma IdsAfterStore(c: Config, s: State, w: Event, t: State, j: nat)
    requires Wf(c, s) && Wf(c, t) && j < |c.who| && !c.single
    requires FirstMissing(c, s.view.muts, s.cur, 0).None? && RunFrom(c, s, 0, None, t, w)
    ensures HasFinalId(c, s, t, j)
  {
    var base := |s.view.store|;
    assert w.specs[j] == Some(SpecOf(c, s, j));
    FinalIdFacts(c.entity.idPolicy, w.specs, w.reply, j);
    assert StoredAt(c, s, 0, w.reply.ids, t, j);
    if FirstHolder(c, s.cur, 0, j, MutAt(c, s, j)) {
      MarkedAt(c, s.view.muts, s.cur, 0, base, j, MutAt(c, s, j));
    }
  }

  // So with observing hooks a successful bulk save gives every position its final ID,
  // taken from the mutation its builder held after defaults(). Relaying has the IDs
  // for hooks that edit.
  lemma ObservedIds(c: Config, sups: seq<Supply>, v: View, cur: seq<nat>)
    requires ValidStart(c, v, cur) && |sups| == |c.who| > 0 && AllObserve(c) && HonestIds(c) && !c.single
    ensures var s := AllDefaults(c, sups, 0, Fresh(c, v, cur));
      var (r, t) := BulkSave(c, None, sups, v, cur);
      r.Saved? ==> r.nodes == t.nodes && forall j :: 0 <= j < |c.who| ==> HasFinalId(c, s, t, j)
  {
    var s := AllDefaults(c, sups, 0, Fresh(c, v, cur));
    var w := QuietBulkSave(c, sups, v, cur);
    var (r, t) := BulkSave(c, None, sups, v, cur);
    if r.Saved? {
      forall j | 0 <= j < |c.who| ensures HasFinalId(c, s, t, j) {
        IdsAfterStore(c, s, w, t, j);
      }
    }
  }
}
