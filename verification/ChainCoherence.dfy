// What the batch write sees, for any hooks: the `specs` and `nodes` slices are a
// function of the calls made so far, and a write only ever finds them complete.
module ChainCoherence {
  import opened Wrappers
  import opened Schema
  import opened Runtime
  import opened Saves

  // When position j was last created, as an index into the trace; -1 if never.
  function LastCreated(tr: seq<Event>, j: nat): int {
    if tr == [] then -1
    else
      var e := tr[|tr| - 1];
      if e.Created? && e.pos == j then |tr| - 1 else LastCreated(tr[..|tr| - 1], j)
  }

  // The spec position j must hold after a trace: made from the builder's mutation
  // at its last creation, and given an ID by the writes that came after.
  function SpecAt(e: Entity, tr: seq<Event>, j: nat): Option<Spec> {
    if tr == [] then None
    else
      var before := SpecAt(e, tr[..|tr| - 1], j);
      match tr[|tr| - 1]
      case Created(pos, id, fields, _) => if pos == j then Some(MakeSpec(e, id, fields)) else before
      case Write(_, Stored(ids)) => if before.Some? && j < |ids| then Some(before.value.(id := ids[j])) else before
      case _ => before
  }

  function NodeAt(tr: seq<Event>, j: nat): Option<nat> {
    if tr == [] then None
    else
      var e := tr[|tr| - 1];
      if e.Created? && e.pos == j then Some(e.node) else NodeAt(tr[..|tr| - 1], j)
  }

  ghost predicate Coherent(c: Config, s: State)
    requires |s.specs| == |s.nodes| == |c.who|
  {
    forall j :: 0 <= j < |c.who| ==>
      && s.specs[j] == SpecAt(c.entity, s.view.trace, j)
      && s.nodes[j] == NodeAt(s.view.trace, j)
  }

  // Positions 0..k-1 have been created, each one after the one before it.
  ghost predicate CreatedInOrder(tr: seq<Event>, k: nat) {
    && (forall j :: 0 <= j < k ==> LastCreated(tr, j) >= 0)
    && (forall j, l :: 0 <= j < l < k ==> LastCreated(tr, j) < LastCreated(tr, l))
  }

  // A write that follows `before`: all positions created on the way in, and entry
  // j is exactly what position j's last creation, and the writes since, left there.
  ghost predicate WriteSound(c: Config, before: seq<Event>, specs: seq<Option<Spec>>) {
    && |specs| == |c.who|
    && CreatedInOrder(before, |c.who|)
    && forall j :: 0 <= j < |c.who| ==> specs[j].Some? && specs[j] == SpecAt(c.entity, before, j)
  }

  ghost predicate WritesSound(c: Config, tr: seq<Event>) {
    forall p :: 0 <= p < |tr| && tr[p].Write? ==> WriteSound(c, tr[..p], tr[p].specs)
  }

  lemma TakeAppend<T>(xs: seq<T>, x: T)
    ensures (xs + [x])[..|xs|] == xs && (xs + [x])[|xs|] == x
  {
  }

  lemma {:induction false} CreatedIffSpec(e: Entity, tr: seq<Event>, j: nat)
    ensures SpecAt(e, tr, j).Some? <==> LastCreated(tr, j) >= 0
    ensures LastCreated(tr, j) < |tr|
  {
    if tr != [] {
      CreatedIffSpec(e, tr[..|tr| - 1], j);
    }
  }

  lemma SoundAppend(c: Config, tr: seq<Event>, e: Event)
    requires WritesSound(c, tr)
    requires e.Write? ==> WriteSound(c, tr, e.specs)
    ensures WritesSound(c, tr + [e])
  {
    var ext := tr + [e];
    forall p | 0 <= p < |ext| && ext[p].Write? ensures WriteSound(c, ext[..p], ext[p].specs) {
      if p < |tr| {
        assert ext[..p] == tr[..p];
      } else {
        TakeAppend(tr, e);
      }
    }
  }

  // The invariant of the chain, in one predicate.
  ghost predicate Inv(c: Config, s: State) {
    Wf(c, s) && Coherent(c, s) && WritesSound(c, s.view.trace)
  }

  // The creations below position i are as they were.
  ghost predicate KeepsBelow(i: nat, s: State, t: State) {
    forall j :: 0 <= j < i ==> LastCreated(t.view.trace, j) == LastCreated(s.view.trace, j)
  }

  // Logging anything that is neither a creation nor a write keeps the invariant.
  lemma LogKeeps(c: Config, s: State, e: Event)
    requires Inv(c, s) && !e.Created? && !e.Write?
    ensures Inv(c, Log(s, e)) && KeepsBelow(|c.who|, s, Log(s, e))
  {
    TakeAppend(s.view.trace, e);
    SoundAppend(c, s.view.trace, e);
  }

  lemma EditKeeps(c: Config, s: State, es: seq<Edit>)
    requires Inv(c, s)
    ensures Inv(c, Edited(es, s)) && Edited(es, s).view.trace == s.view.trace
  {
  }

  lemma CreateKeeps(c: Config, i: nat, m: nat, s: State)
    requires Inv(c, s) && i < |c.who| && m < |s.view.muts| && CreatedInOrder(s.view.trace, i)
    ensures Inv(c, CreateAt(c, i, m, s)) && KeepsBelow(i, s, CreateAt(c, i, m, s))
    ensures CreatedInOrder(CreateAt(c, i, m, s).view.trace, i + 1)
  {
    var e := Created(i, SpecId(c.entity, s.view, m), s.view.muts[m].fields, |s.view.store|);
    TakeAppend(s.view.trace, e);
    SoundAppend(c, s.view.trace, e);
    forall j: nat ensures LastCreated(s.view.trace, j) < |s.view.trace| {
      CreatedIffSpec(c.entity, s.view.trace, j);
    }
  }

  lemma WriteKeeps(c: Config, s: State)
    requires Inv(c, s) && CreatedInOrder(s.view.trace, |c.who|)
    ensures Inv(c, WriteAll(c, s).1) && KeepsBelow(|c.who|, s, WriteAll(c, s).1)
  {
    forall j | 0 <= j < |c.who| ensures s.specs[j].Some? {
      CreatedIffSpec(c.entity, s.view.trace, j);
    }
    SoundAppend(c, s.view.trace, Write(s.specs, c.database(s.view.trace, s.specs)));
  }

  lemma CompleteKeeps(c: Config, i: nat, m: nat, s: State)
    requires Inv(c, s) && i < |c.who| && m < |s.view.muts| && s.nodes[i].Some?
    ensures Inv(c, Complete(c, i, m, s)) && KeepsBelow(|c.who|, s, Complete(c, i, m, s))
  {
    TakeAppend(s.view.trace, Done(i, m));
    SoundAppend(c, s.view.trace, Done(i, m));
  }

  lemma {:induction false} BaseKeeps(c: Config, i: nat, arg: Arg, s: State)
    requires Inv(c, s) && i < |c.who| && CreatedInOrder(s.view.trace, i)
    ensures Inv(c, Base(c, i, arg, s).1) && KeepsBelow(i, s, Base(c, i, arg, s).1)
    decreases |c.who| - i, 0, 0, 0
  {
    if arg.Foreign? || arg.m >= |s.view.muts| {
      LogKeeps(c, s, Rejected(i));
    } else {
      var s0 := Receive(c, i, arg.m, s);
      var m := Received(c, i, arg.m, s);
      var missing := Missing(c.entity.columns, s0.view.muts[s0.cur[c.who[i]]].fields);
      if missing.Some? {
        LogKeeps(c, s0, Invalid(i, missing.value));
      } else {
        CreateKeeps(c, i, m, s0);
        var s1 := CreateAt(c, i, m, s0);
        InnerKeeps(c, i, s1);
        var (err, s2) := Inner(c, i, s1);
        if err.None? {
          CompleteKeeps(c, i, m, s2);
        }
      }
    }
  }

  lemma {:induction false} InnerKeeps(c: Config, i: nat, s: State)
    requires Inv(c, s) && i < |c.who| && CreatedInOrder(s.view.trace, i + 1)
    ensures Inv(c, Inner(c, i, s).1) && KeepsBelow(i + 1, s, Inner(c, i, s).1)
    decreases |c.who| - i - 1, if i + 1 < |c.who| then |HooksAt(c, i + 1)| else 0, 2, 0
  {
    if i + 1 < |c.who| {
      MutateKeeps(c, i + 1, 0, Own(s.cur[c.who[i + 1]]), s);
    } else {
      WriteKeeps(c, s);
    }
  }

  lemma {:induction false} MutateKeeps(c: Config, i: nat, h: nat, arg: Arg, s: State)
    requires Inv(c, s) && i < |c.who| && h <= |HooksAt(c, i)| && CreatedInOrder(s.view.trace, i)
    ensures Inv(c, Mutate(c, i, h, arg, s).1) && KeepsBelow(i, s, Mutate(c, i, h, arg, s).1)
    decreases |c.who| - i, |HooksAt(c, i)| - h, 1, 0
  {
    if h == |HooksAt(c, i)| {
      BaseKeeps(c, i, arg, s);
    } else {
      LogKeeps(c, s, Enter(i, h));
      var s1 := Log(s, Enter(i, h));
      HookKeeps(c, i, h, arg, [], s1);
      LogKeeps(c, RunHook(c, i, h, arg, [], s1).1, Exit(i, h));
    }
  }

  lemma {:induction false} HookKeeps(c: Config, i: nat, h: nat, arg: Arg, seen: seq<Past>, s: State)
    requires Inv(c, s) && i < |c.who| && h < |HooksAt(c, i)| && |seen| <= Allowed(HooksAt(c, i)[h], arg, seen, s.view)
    requires CreatedInOrder(s.view.trace, i)
    ensures Inv(c, RunHook(c, i, h, arg, seen, s).1) && KeepsBelow(i, s, RunHook(c, i, h, arg, seen, s).1)
    decreases |c.who| - i, |HooksAt(c, i)| - h, 0, Allowed(HooksAt(c, i)[h], arg, seen, s.view) - |seen|
  {
    var hook := HooksAt(c, i)[h];
    if |seen| == Allowed(hook, arg, seen, s.view) {
      EditKeeps(c, s, hook.last(arg, s.view, seen).edits);
    } else {
      match hook.step(arg, s.view, seen)
      case Stop(fin) => EditKeeps(c, s, fin.edits);
      case CallNext(edits, a) =>
        EditKeeps(c, s, edits);
        var s1 := Edited(edits, s);
        MutateKeeps(c, i, h + 1, a, s1);
        var (o, t) := Mutate(c, i, h + 1, a, s1);
        HookKeeps(c, i, h, arg, seen + [Past(s.view, o)], t);
    }
  }

  // Main result: in a bulk save with any hooks, calling `next` any number of
  // times with any mutations, whenever the batch write is reached every builder
  // has passed check() and been created, in order, and entry j of the batch is
  // the spec of builder j's latest creation.
  lemma BatchSeesEveryBuilder(c: Config, preset: Option<Error>, sups: seq<Supply>, v: View, cur: seq<nat>)
    requires ValidStart(c, v, cur) && |sups| == |c.who| && v.trace == []
    ensures WritesSound(c, BulkSave(c, preset, sups, v, cur).1.view.trace)
    ensures Coherent(c, BulkSave(c, preset, sups, v, cur).1)
  {
    var s0 := Fresh(c, v, cur);
    assert Inv(c, s0);
    var s1 := AllDefaults(c, sups, 0, s0);
    if preset.None? && |c.who| > 0 {
      MutateKeeps(c, 0, 0, Own(s1.cur[c.who[0]]), s1);
    }
  }
}
