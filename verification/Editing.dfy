// What becomes of the edits a hook makes: those before `next` are in the spec that is
// created inside it, those after it are in the mutations that are left.
module Editing {
  import opened Wrappers
  import opened Schema
  import opened Runtime

  // The edit is of field g of mutation m.
  predicate Touches(e: Edit, m: nat, g: Field) {
    e.m == m && !e.SetId? && e.name == g
  }

  // The last edit of field g of mutation m; -1 if there is none.
  function LastTouch(es: seq<Edit>, m: nat, g: Field): (k: int)
    ensures -1 <= k < |es| && (k >= 0 ==> Touches(es[k], m, g))
    ensures forall l :: k < l < |es| ==> !Touches(es[l], m, g)
  {
    if es == [] then -1
    else if Touches(es[|es| - 1], m, g) then |es| - 1 else LastTouch(es[..|es| - 1], m, g)
  }

  // Field g of mutation m after the edits: as the last of them for it says, and as it
  // was if there is none.
  ghost predicate FieldAfter(es: seq<Edit>, m: nat, g: Field, was: map<Field, Val>, now: map<Field, Val>) {
    var k := LastTouch(es, m, g);
    if k < 0 then (g in now <==> g in was) && (g in was ==> now[g] == was[g])
    else if es[k].SetField? then g in now && now[g] == es[k].v
    else g !in now
  }

  // The last edit of its ID.
  function LastIdSet(es: seq<Edit>, m: nat): (k: int)
    ensures -1 <= k < |es| && (k >= 0 ==> es[k].SetId? && es[k].m == m)
    ensures forall l :: k < l < |es| ==> !(es[l].SetId? && es[l].m == m)
  {
    if es == [] then -1
    else if es[|es| - 1].SetId? && es[|es| - 1].m == m then |es| - 1 else LastIdSet(es[..|es| - 1], m)
  }

  // A mutation after the edits: no part of it changes but as they say.
  ghost predicate After(es: seq<Edit>, m: nat, was: MutationState, now: MutationState) {
    && (forall g :: FieldAfter(es, m, g, was.fields, now.fields))
    && now.id == (if LastIdSet(es, m) < 0 then was.id else OwnId(es[LastIdSet(es, m)].id))
    && now.done == was.done
  }

  lemma {:induction false} EditsOfLast(es: seq<Edit>, v: View)
    requires es != [] && ValidView(v)
    ensures ApplyEdits(es, v) == ApplyEdit(es[|es| - 1], ApplyEdits(es[..|es| - 1], v))
  {
    var n := |es| - 1;
    if n > 0 {
      EditsOfLast(es[1..], ApplyEdit(es[0], v));
      assert es[1..][..n - 1] == es[..n][1..];
    }
  }

  lemma LastEdit(es: seq<Edit>, v: View, m: nat, was: MutationState)
    requires es != [] && m < |v.muts| && After(es[..|es| - 1], m, was, v.muts[m])
    ensures |ApplyEdit(es[|es| - 1], v).muts| == |v.muts|
    ensures After(es, m, was, ApplyEdit(es[|es| - 1], v).muts[m])
  {
    var n := |es| - 1;
    var now := ApplyEdit(es[n], v).muts[m];
    forall g ensures FieldAfter(es, m, g, was.fields, now.fields) {
      assert FieldAfter(es[..n], m, g, was.fields, v.muts[m].fields);
    }
  }

  // Edits do to every mutation what they say.
  lemma {:induction false} EditsMean(es: seq<Edit>, v: View, m: nat)
    requires ValidView(v) && m < |v.muts|
    ensures After(es, m, v.muts[m], ApplyEdits(es, v).muts[m])
  {
    if es != [] {
      var n := |es| - 1;
      EditsMean(es[..n], v, m);
      EditsOfLast(es, v);
      LastEdit(es, ApplyEdits(es[..n], v), m, v.muts[m]);
    }
  }

  // The ID that a mutation in this state comes with when it is created from.
  function CameWith(e: Entity, store: seq<NodeState>, mut: MutationState): Option<Id>
    requires mut.id.NodeId? ==> mut.id.node < |store|
  {
    if e.idPolicy == AlwaysAssigned then None
    else match mut.id
      case NoId => None
      case OwnId(id) => Some(id)
      case NodeId(n) => Some(store[n].id)
  }

  // Event p creates position i from a mutation in the state `mut`.
  ghost predicate CreatesFrom(c: Config, i: nat, tr: seq<Event>, p: nat, store: seq<NodeState>, mut: MutationState) {
    && (mut.id.NodeId? ==> mut.id.node < |store|)
    && p < |tr| && tr[p].Created? && tr[p].pos == i
    && tr[p].fields == mut.fields && tr[p].id == CameWith(c.entity, store, mut)
  }

  // check() finds nothing missing in the mutation, whatever the edits did to it.
  ghost predicate StaysComplete(c: Config, es: seq<Edit>, m: nat, was: MutationState) {
    forall now :: After(es, m, was, now) ==> Missing(c.entity.columns, now.fields).None?
  }

  // What hook h at position i does first: it was passed `arg`, sees the state with its
  // own entry logged, makes the edits `es` and calls `next` with mutation m.
  ghost predicate FirstCalls(c: Config, i: nat, h: nat, arg: Arg, s: State, es: seq<Edit>, m: nat)
    requires c.Valid() && i < |c.who| && h < |HooksAt(c, i)|
  {
    var view := View(s.view.muts, s.view.store, s.view.trace + [Enter(i, h)]);
    HooksAt(c, i)[h].limit(arg, view) > 0 && HooksAt(c, i)[h].step(arg, view, []) == CallNext(es, Own(m))
  }

  lemma {:induction false} HookExtends(c: Config, i: nat, h: nat, arg: Arg, s: State, es: seq<Edit>, m: nat)
    requires Wf(c, s) && i < |c.who| && h < |HooksAt(c, i)| && FirstCalls(c, i, h, arg, s, es, m)
    ensures var s1 := Edited(es, Log(s, Enter(i, h)));
      Mutate(c, i, h + 1, Own(m), s1).1.view.trace <= Mutate(c, i, h, arg, s).1.view.trace
  {
    var s0 := Log(s, Enter(i, h));
    var (o, t) := Mutate(c, i, h + 1, Own(m), Edited(es, s0));
    var r := RunHook(c, i, h, arg, [] + [Past(s0.view, o)], t);
    assert Extends(t, r.1);
    assert RunHook(c, i, h, arg, [], s0) == r;
  }

  // What check() looks at when m is passed: a single save adopts it first.
  function CheckedMutation(c: Config, i: nat, m: nat, s: State): nat
    requires Wf(c, s) && i < |c.who|
  {
    if c.single then m else s.cur[c.who[i]]
  }

  lemma BaseCreates(c: Config, i: nat, m: nat, s: State)
    requires Wf(c, s) && i < |c.who| && m < |s.view.muts|
    requires Missing(c.entity.columns, s.view.muts[CheckedMutation(c, i, m, s)].fields).None?
    ensures CreatesFrom(c, i, Base(c, i, Own(m), s).1.view.trace, |s.view.trace|, s.view.store, s.view.muts[m])
  {
    var own := s.cur[c.who[i]];
    var s1 := if c.single then CreateAt(c, i, own, Receive(c, i, m, s)) else CreateAt(c, i, m, s);
    var from := if c.single then own else m;
    var (err, t) := Inner(c, i, s1);
    assert Extends(s1, t);
    assert err.None? ==> Extends(t, Complete(c, i, from, t));
    assert t.view.trace[|s.view.trace|] == s1.view.trace[|s.view.trace|];
  }

  // Main result: at any position of a save, after anything, whatever the innermost
  // hook edits before its first call of `next` is in what is created inside that call:
  // the creation is from the mutation passed, with each field and the ID as the last
  // edit of it says.
  lemma EditsReachTheSpec(c: Config, i: nat, h: nat, arg: Arg, s: State, es: seq<Edit>, m: nat)
      returns (now: MutationState)
    requires Wf(c, s) && i < |c.who| && h + 1 == |HooksAt(c, i)| && m < |s.view.muts|
    requires FirstCalls(c, i, h, arg, s, es, m)
    requires var own := CheckedMutation(c, i, m, s); StaysComplete(c, es, own, s.view.muts[own])
    ensures After(es, m, s.view.muts[m], now)
    ensures CreatesFrom(c, i, Mutate(c, i, h, arg, s).1.view.trace, |s.view.trace| + 1, s.view.store, now)
  {
    var own := CheckedMutation(c, i, m, s);
    var s1 := Edited(es, Log(s, Enter(i, h)));
    EditsMean(es, s.view.(trace := s.view.trace + [Enter(i, h)]), m);
    EditsMean(es, s.view.(trace := s.view.trace + [Enter(i, h)]), own);
    now := s1.view.muts[m];
    BaseCreates(c, i, m, s1);
    HookExtends(c, i, h, arg, s, es, m);
  }

  // What the hook sees when it is entered in s.
  function Entered(i: nat, h: nat, s: State): View {
    View(s.view.muts, s.view.store, s.view.trace + [Enter(i, h)])
  }

  // Main result: and what a hook decides after its one call of `next`, from what it sees
  // then, from what it saw before the call, and from the outcome, is what is done: its
  // edits are in the mutations that it leaves, on top of what `next` left, and its
  // verdict is the one returned.
  lemma LateEditsStay(c: Config, i: nat, h: nat, arg: Arg, s: State, es: seq<Edit>, m: nat)
      returns (s1: State, o: Outcome, t: State, late: Finish)
    requires Wf(c, s) && i < |c.who| && h < |HooksAt(c, i)| && FirstCalls(c, i, h, arg, s, es, m)
    requires HooksAt(c, i)[h].limit(arg, Entered(i, h, s)) == 1
    ensures Wf(c, s1) && (o, t) == Mutate(c, i, h + 1, Own(m), s1)
    ensures |s1.view.muts| == |s.view.muts| && |t.view.muts| == |s.view.muts|
    ensures forall k :: 0 <= k < |s.view.muts| ==> After(es, k, s.view.muts[k], s1.view.muts[k])
    ensures late == HooksAt(c, i)[h].last(arg, t.view, [Past(Entered(i, h, s), o)])
    ensures var (p, u) := Mutate(c, i, h, arg, s);
      && p == late.result
      && |u.view.muts| == |t.view.muts|
      && forall k :: 0 <= k < |t.view.muts| ==> After(late.edits, k, t.view.muts[k], u.view.muts[k])
  {
    var s0 := Log(s, Enter(i, h));
    s1 := Edited(es, s0);
    var r := Mutate(c, i, h + 1, Own(m), s1);
    o, t := r.0, r.1;
    var past := Past(s0.view, o);
    late := HooksAt(c, i)[h].last(arg, t.view, [past]);
    assert [] + [past] == [past];
    assert RunHook(c, i, h, arg, [], s0) == RunHook(c, i, h, arg, [past], t);
    forall k | 0 <= k < |s.view.muts| ensures After(es, k, s.view.muts[k], s1.view.muts[k]) {
      EditsMean(es, s0.view, k);
    }
    forall k | 0 <= k < |t.view.muts|
      ensures After(late.edits, k, t.view.muts[k], Mutate(c, i, h, arg, s).1.view.muts[k])
    {
      EditsMean(late.edits, t.view, k);
    }
  }

  // A hook that calls `next` again does so from what it sees after the first call and
  // remembers of it, and what it decides in the end is from its memory of both calls.
  lemma SecondCallRemembers(c: Config, i: nat, h: nat, arg: Arg, s: State, es: seq<Edit>, m: nat)
      returns (o: Outcome, t: State, s2: State, o2: Outcome, t2: State)
    requires Wf(c, s) && i < |c.who| && h < |HooksAt(c, i)| && FirstCalls(c, i, h, arg, s, es, m)
    requires HooksAt(c, i)[h].limit(arg, Entered(i, h, s)) == 2
    ensures Wf(c, t) && |t.view.muts| == |s.view.muts|
    ensures var hook, first := HooksAt(c, i)[h], Past(Entered(i, h, s), o);
      match hook.step(arg, t.view, [first])
      case Stop(fin) => Mutate(c, i, h, arg, s).0 == fin.result
      case CallNext(again, a) =>
        && Wf(c, s2) && (o2, t2) == Mutate(c, i, h + 1, a, s2) && |s2.view.muts| == |t.view.muts|
        && (forall k :: 0 <= k < |t.view.muts| ==> After(again, k, t.view.muts[k], s2.view.muts[k]))
        && Mutate(c, i, h, arg, s).0 == hook.last(arg, t2.view, [first, Past(t.view, o2)]).result
  {
    var hook, s0 := HooksAt(c, i)[h], Log(s, Enter(i, h));
    var r := Mutate(c, i, h + 1, Own(m), Edited(es, s0));
    o, t := r.0, r.1;
    s2, o2, t2 := t, o, t;
    var first := Past(s0.view, o);
    assert [] + [first] == [first];
    assert RunHook(c, i, h, arg, [], s0) == RunHook(c, i, h, arg, [first], t);
    match hook.step(arg, t.view, [first])
    case Stop(_) =>
    case CallNext(again, a) =>
      s2 := Edited(again, t);
      var r2 := Mutate(c, i, h + 1, a, s2);
      o2, t2 := r2.0, r2.1;
      var second := Past(t.view, o2);
      assert [first] + [second] == [first, second];
      assert RunHook(c, i, h, arg, [first], t) == RunHook(c, i, h, arg, [first, second], t2);
      forall k | 0 <= k < |t.view.muts| ensures After(again, k, t.view.muts[k], s2.view.muts[k]) {
        EditsMean(again, t.view, k);
      }
  }

  // Hook h at position i, passed `arg` in s, decides this without calling `next`.
  ghost predicate StopsWith(c: Config, i: nat, h: nat, arg: Arg, s: State, fin: Finish)
    requires c.Valid() && i < |c.who| && h < |HooksAt(c, i)|
  {
    var hook, view := HooksAt(c, i)[h], Entered(i, h, s);
    if hook.limit(arg, view) == 0 then hook.last(arg, view, []) == fin else hook.step(arg, view, []) == Stop(fin)
  }

  // Then nothing runs inside it: its edits are made, its verdict is returned, and
  // nothing else has changed.
  lemma StoppedHookDecides(c: Config, i: nat, h: nat, arg: Arg, s: State, fin: Finish)
    requires Wf(c, s) && i < |c.who| && h < |HooksAt(c, i)| && StopsWith(c, i, h, arg, s, fin)
    ensures var (p, u) := Mutate(c, i, h, arg, s);
      && p == fin.result
      && u.view.trace == s.view.trace + [Enter(i, h), Exit(i, h)]
      && u.view.store == s.view.store && u.cur == s.cur && u.specs == s.specs && u.nodes == s.nodes
      && |u.view.muts| == |s.view.muts|
      && forall k :: 0 <= k < |s.view.muts| ==> After(fin.edits, k, s.view.muts[k], u.view.muts[k])
  {
    var s0 := Log(s, Enter(i, h));
    assert RunHook(c, i, h, arg, [], s0) == (fin.result, Edited(fin.edits, s0));
    forall k | 0 <= k < |s.view.muts|
      ensures After(fin.edits, k, s.view.muts[k], Mutate(c, i, h, arg, s).1.view.muts[k])
    {
      EditsMean(fin.edits, s0.view, k);
    }
  }

  // A hook that sets field f of the mutation it is passed to what it reads there in
  // field g, calls `next` once with it, and returns the outcome.
  function Copier(f: Field, g: Field): Hook {
    Hook((_, _) => 1,
         (arg: Arg, v: View, _) =>
           if arg.Own? && arg.m < |v.muts| && g in v.muts[arg.m].fields
           then CallNext([SetField(arg.m, f, v.muts[arg.m].fields[g])], arg) else CallNext([], arg),
         (_, _, seen: seq<Past>) => Finish([], if |seen| == 1 then seen[0].outcome else Err(HookError(0))))
  }

  // For instance, what such a hook reads is what is there, and what it sets is created.
  lemma CopierReachesTheSpec(c: Config, i: nat, f: Field, g: Field, s: State)
    requires Wf(c, s) && i < |c.who| && HooksAt(c, i) == [Copier(f, g)]
    requires var fields := s.view.muts[s.cur[c.who[i]]].fields;
      g in fields && Missing(c.entity.columns, fields[f := fields[g]]).None?
    ensures var m := s.cur[c.who[i]];
      var was := s.view.muts[m];
      CreatesFrom(c, i, Mutate(c, i, 0, Own(m), s).1.view.trace, |s.view.trace| + 1, s.view.store,
                  was.(fields := was.fields[f := was.fields[g]]))
  {
    var m := s.cur[c.who[i]];
    var was := s.view.muts[m];
    var es := [SetField(m, f, was.fields[g])];
    forall now | After(es, m, was, now) ensures now == was.(fields := was.fields[f := was.fields[g]]) {
      OneSet(m, f, was.fields[g], was, now);
    }
    var now := EditsReachTheSpec(c, i, 0, Own(m), s, es, m);
  }

  // One setter call changes its field alone.
  lemma OneSet(m: nat, f: Field, x: Val, was: MutationState, now: MutationState)
    requires After([SetField(m, f, x)], m, was, now)
    ensures now == was.(fields := was.fields[f := x])
  {
    var es := [SetField(m, f, x)];
    assert LastTouch(es, m, f) == 0;
    forall g | g != f ensures g in now.fields <==> g in was.fields {
      assert FieldAfter(es, m, g, was.fields, now.fields);
    }
    forall g | g != f && g in was.fields ensures now.fields[g] == was.fields[g] {
      assert FieldAfter(es, m, g, was.fields, now.fields);
    }
    assert FieldAfter(es, m, f, was.fields, now.fields);
    assert now.fields == was.fields[f := x];
  }

  // A hook that sets field f of the mutation it is passed for the duration of `next`:
  // afterwards it sets it back to what it saw there on entry.
  function Borrower(f: Field, x: Val): Hook {
    Hook((_, _) => 1,
         (arg: Arg, _, _) => CallNext(if arg.Own? then [SetField(arg.m, f, x)] else [], arg),
         (arg: Arg, _, seen: seq<Past>) =>
           if arg.Own? && |seen| == 1 && arg.m < |seen[0].view.muts| && f in seen[0].view.muts[arg.m].fields
           then Finish([SetField(arg.m, f, seen[0].view.muts[arg.m].fields[f])], seen[0].outcome)
           else Finish([], Err(HookError(0))))
  }

  // Whatever happens inside, the field is then as it was.
  lemma BorrowerRestores(c: Config, i: nat, h: nat, f: Field, x: Val, m: nat, s: State)
    requires Wf(c, s) && i < |c.who| && h < |HooksAt(c, i)| && HooksAt(c, i)[h] == Borrower(f, x)
    requires m < |s.view.muts| && f in s.view.muts[m].fields
    ensures var fields := Mutate(c, i, h, Own(m), s).1.view.muts[m].fields;
      f in fields && fields[f] == s.view.muts[m].fields[f]
  {
    var s1, o, t, late := LateEditsStay(c, i, h, Own(m), s, [SetField(m, f, x)], m);
    var u := Mutate(c, i, h, Own(m), s).1;
    assert late.edits == [SetField(m, f, s.view.muts[m].fields[f])];
    OneSet(m, f, s.view.muts[m].fields[f], t.view.muts[m], u.view.muts[m]);
  }
}
