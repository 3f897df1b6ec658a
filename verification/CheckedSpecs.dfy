// Whether what is written has been checked.
module CheckedSpecs {
  import opened Wrappers
  import opened Schema
  import opened Runtime
  import opened Saves
  import opened SingleRefinement

  // Every creation was from fields that satisfy check().
  ghost predicate Checked(e: Entity, tr: seq<Event>) {
    forall p :: 0 <= p < |tr| && tr[p].Created? ==> Missing(e.columns, tr[p].fields).None?
  }

  // The mutator is passed the mutation its builder holds, or it is a single save.
  ghost predicate Faithful(c: Config, i: nat, arg: Arg, s: State)
    requires Wf(c, s) && i < |c.who|
  {
    c.single || (AllPassOn(c) && arg == Own(s.cur[c.who[i]]))
  }

  // Nothing unchecked was created, and the builders hold what they held.
  ghost predicate StaysChecked(c: Config, s: State, t: State) {
    t.cur == s.cur && (Checked(c.entity, s.view.trace) ==> Checked(c.entity, t.view.trace))
  }

  lemma {:induction false} BaseChecked(c: Config, i: nat, arg: Arg, s: State)
    requires Wf(c, s) && i < |c.who| && Faithful(c, i, arg, s)
    ensures StaysChecked(c, s, Base(c, i, arg, s).1)
    decreases |c.who| - i, 0, 0, 0
  {
    if !arg.Foreign? && arg.m < |s.view.muts| {
      var s0 := Receive(c, i, arg.m, s);
      var m := Received(c, i, arg.m, s);
      if Missing(c.entity.columns, s0.view.muts[m].fields).None? {
        CreationChecked(c, i, m, s0);
      }
    }
  }

  lemma {:induction false} CreationChecked(c: Config, i: nat, m: nat, s: State)
    requires Wf(c, s) && i < |c.who| && m == s.cur[c.who[i]] && (c.single || AllPassOn(c))
    requires Missing(c.entity.columns, s.view.muts[m].fields).None?
    ensures var (err, t) := Inner(c, i, CreateAt(c, i, m, s));
      StaysChecked(c, s, if err.None? then Complete(c, i, m, t) else t)
    decreases |c.who| - i - 1, if i + 1 < |c.who| then |HooksAt(c, i + 1)| else 0, 3, 0
  {
    var s1 := CreateAt(c, i, m, s);
    assert s1.cur == s.cur;
    InnerChecked(c, i, s1);
  }

  lemma {:induction false} InnerChecked(c: Config, i: nat, s: State)
    requires Wf(c, s) && i < |c.who| && (c.single || AllPassOn(c))
    ensures StaysChecked(c, s, Inner(c, i, s).1)
    decreases |c.who| - i - 1, if i + 1 < |c.who| then |HooksAt(c, i + 1)| else 0, 2, 0
  {
    if i + 1 < |c.who| {
      MutateChecked(c, i + 1, 0, Own(s.cur[c.who[i + 1]]), s);
    }
  }

  lemma {:induction false} MutateChecked(c: Config, i: nat, h: nat, arg: Arg, s: State)
    requires Wf(c, s) && i < |c.who| && h <= |HooksAt(c, i)| && Faithful(c, i, arg, s)
    ensures StaysChecked(c, s, Mutate(c, i, h, arg, s).1)
    decreases |c.who| - i, |HooksAt(c, i)| - h, 1, 0
  {
    if h == |HooksAt(c, i)| {
      BaseChecked(c, i, arg, s);
    } else {
      HookChecked(c, i, h, arg, [], Log(s, Enter(i, h)));
    }
  }

  lemma {:induction false} HookChecked(c: Config, i: nat, h: nat, arg: Arg, seen: seq<Past>, s: State)
    requires Wf(c, s) && i < |c.who| && h < |HooksAt(c, i)| && |seen| <= Allowed(HooksAt(c, i)[h], arg, seen, s.view)
    requires Faithful(c, i, arg, s)
    ensures StaysChecked(c, s, RunHook(c, i, h, arg, seen, s).1)
    decreases |c.who| - i, |HooksAt(c, i)| - h, 0, Allowed(HooksAt(c, i)[h], arg, seen, s.view) - |seen|
  {
    var hook := HooksAt(c, i)[h];
    if |seen| < Allowed(hook, arg, seen, s.view) && hook.step(arg, s.view, seen).CallNext? {
      var act := hook.step(arg, s.view, seen);
      assert !c.single ==> PassesOn(hook);
      var s1 := Edited(act.edits, s);
      MutateChecked(c, i, h + 1, act.arg, s1);
      var (o, t) := Mutate(c, i, h + 1, act.arg, s1);
      HookChecked(c, i, h, arg, seen + [Past(s.view, o)], t);
    }
  }

  // Main result: when hooks pass on the mutation they received, however often and
  // with whatever edits, a bulk save creates nothing that check() would refuse.
  lemma BulkCreatesChecked(c: Config, sups: seq<Supply>, v: View, cur: seq<nat>)
    requires ValidStart(c, v, cur) && |sups| == |c.who| && v.trace == [] && AllPassOn(c)
    ensures Checked(c.entity, BulkSave(c, None, sups, v, cur).1.view.trace)
  {
    var s := AllDefaults(c, sups, 0, Fresh(c, v, cur));
    if |c.who| > 0 {
      MutateChecked(c, 0, 0, Own(s.cur[c.who[0]]), s);
    }
  }

  // A single save needs no such condition, because withHooks adopts first.
  lemma SingleCreatesChecked(c: Config, sup: Supply, v: View, cur: seq<nat>)
    requires ValidStart(c, v, cur) && v.trace == [] && c.single
    ensures Checked(c.entity, SingleSave(c, sup, v, cur).1.view.trace)
  {
    var s := AllDefaults(c, [sup], 0, Fresh(c, v, cur));
    MutateChecked(c, 0, 0, Own(s.cur[c.who[0]]), s);
  }

  // A hook that calls `next` once, with another mutation, and returns its outcome.
  function Redirect(m: nat): Hook {
    Hook((_, _) => 1, (_, _, _) => CallNext([], Own(m)),
         (_, _, seen: seq<Past>) => Finish([], if |seen| == 1 then seen[0].outcome else Err(HookError(0))))
  }

  // Event p is position i's creation from fields that check() would refuse.
  ghost predicate UncheckedAt(c: Config, i: nat, tr: seq<Event>, p: nat) {
    p < |tr| && tr[p].Created? && tr[p].pos == i && Missing(c.entity.columns, tr[p].fields).Some?
  }

  // How a bulk save's mutator at position i ends when m reaches its base. `check` is
  // the place in the trace of what the base does first, and `refused` is the state
  // that is left when the builder's own mutation lacks a field.
  ghost predicate Ends(c: Config, i: nat, m: nat, s: State, o: Outcome, t: State, check: nat, refused: Field -> State)
    requires Wf(c, s) && i < |c.who| && m < |s.view.muts|
  {
    var own := Missing(c.entity.columns, s.view.muts[s.cur[c.who[i]]].fields);
    var passed := Missing(c.entity.columns, s.view.muts[m].fields);
    && check < |t.view.trace|
    && (UncheckedAt(c, i, t.view.trace, check) <==> own.None? && passed.Some?)
    && (own.Some? ==> o == Err(MissingField(own.value)) && t == refused(own.value))
  }

  // Where bulk and single saves part: a bulk save checks the mutation the builder
  // held but creates from the one it was passed. So, at any position and after
  // anything, the base mutator creates an unchecked spec exactly when the first is
  // complete and the second is not; when the first is not, it only reports that.
  lemma RedirectedBase(c: Config, i: nat, m: nat, s: State)
    requires Wf(c, s) && !c.single && i < |c.who| && m < |s.view.muts|
    ensures var (o, t) := Base(c, i, Own(m), s);
      Ends(c, i, m, s, o, t, |s.view.trace|, f => Log(s, Invalid(i, f)))
  {
    if Missing(c.entity.columns, s.view.muts[s.cur[c.who[i]]].fields).None? {
      var s1 := CreateAt(c, i, m, s);
      var (o, t) := Base(c, i, Own(m), s);
      CreatesFirst(c, i, m, s);
      assert t.view.trace[|s.view.trace|] == s1.view.trace[|s.view.trace|];
    }
  }

  lemma CreatesFirst(c: Config, i: nat, m: nat, s: State)
    requires Wf(c, s) && !c.single && i < |c.who| && m < |s.view.muts|
    requires Missing(c.entity.columns, s.view.muts[s.cur[c.who[i]]].fields).None?
    ensures CreateAt(c, i, m, s).view.trace <= Base(c, i, Own(m), s).1.view.trace
  {
    var (err, t) := Inner(c, i, CreateAt(c, i, m, s));
    assert err.None? ==> Extends(t, Complete(c, i, m, t));
  }

  // The same for the mutator at position i when a redirecting hook is around it.
  lemma RedirectedBulk(c: Config, i: nat, m: nat, s: State)
    requires Wf(c, s) && !c.single && i < |c.who| && m < |s.view.muts| && HooksAt(c, i) == [Redirect(m)]
    ensures var (o, t) := Mutate(c, i, 0, Own(s.cur[c.who[i]]), s);
      Ends(c, i, m, s, o, t, |s.view.trace| + 1, f => Log(Log(Log(s, Enter(i, 0)), Invalid(i, f)), Exit(i, 0)))
  {
    var o, t := RedirectedRun(c, i, m, s);
    ExitKeepsEnds(c, i, m, s, o, t);
  }

  lemma RedirectedRun(c: Config, i: nat, m: nat, s: State) returns (o: Outcome, t: State)
    requires Wf(c, s) && !c.single && i < |c.who| && m < |s.view.muts| && HooksAt(c, i) == [Redirect(m)]
    ensures Mutate(c, i, 0, Own(s.cur[c.who[i]]), s) == (o, Log(t, Exit(i, 0)))
    ensures var s1 := Log(s, Enter(i, 0));
      Ends(c, i, m, s1, o, t, |s1.view.trace|, f => Log(s1, Invalid(i, f)))
  {
    o, t := RedirectTurn(c, i, m, s);
    RedirectedBase(c, i, m, Log(s, Enter(i, 0)));
  }

  lemma ExitKeepsEnds(c: Config, i: nat, m: nat, s: State, o: Outcome, t: State)
    requires Wf(c, s) && i < |c.who| && m < |s.view.muts|
    requires var s1 := Log(s, Enter(i, 0));
      Ends(c, i, m, s1, o, t, |s1.view.trace|, f => Log(s1, Invalid(i, f)))
    ensures Ends(c, i, m, s, o, Log(t, Exit(i, 0)), |s.view.trace| + 1,
                 f => Log(Log(Log(s, Enter(i, 0)), Invalid(i, f)), Exit(i, 0)))
  {
  }

  // Builder b's only hook, if it has one, passes on mutation to[b].
  ghost predicate Redirecting(c: Config, to: seq<Option<nat>>, muts: nat) {
    && |to| == |c.hooks|
    && forall b :: 0 <= b < |to| ==>
      && c.hooks[b] == (if to[b].Some? then [Redirect(to[b].value)] else [])
      && (to[b].Some? ==> to[b].value < muts)
  }

  // Which mutations check() passes.
  function Completes(c: Config, muts: seq<MutationState>): (r: seq<bool>)
    ensures |r| == |muts| && forall m :: 0 <= m < |muts| ==> r[m] == Missing(c.entity.columns, muts[m].fields).None?
  {
    seq(|muts|, m requires 0 <= m < |muts| => Missing(c.entity.columns, muts[m].fields).None?)
  }

  // From position i on, the mutation passed is complete at every position that is
  // reached, that is, as long as the builders' own are.
  predicate Safe(c: Config, to: seq<Option<nat>>, complete: seq<bool>, cur: seq<nat>, i: nat)
    requires c.Valid() && |to| == |c.hooks| == |cur| && i <= |c.who|
    requires forall b :: 0 <= b < |cur| ==> cur[b] < |complete| && (to[b].Some? ==> to[b].value < |complete|)
    decreases |c.who| - i
  {
    i == |c.who| ||
    (var b := c.who[i];
     var m := if to[b].Some? then to[b].value else cur[b];
     !complete[cur[b]] || (complete[m] && Safe(c, to, complete, cur[b := m], i + 1)))
  }

  lemma CheckedPrefix(e: Entity, s: seq<Event>, t: seq<Event>)
    requires s <= t && Checked(e, t)
    ensures Checked(e, s)
  {
    assert forall p :: 0 <= p < |s| ==> t[p] == s[p];
  }

  lemma CheckedLog(e: Entity, s: seq<Event>, x: Event)
    ensures Checked(e, s + [x]) <==> Checked(e, s) && (x.Created? ==> Missing(e.columns, x.fields).None?)
  {
    assert (s + [x])[|s|] == x && forall p :: 0 <= p < |s| ==> (s + [x])[p] == s[p];
  }

  lemma {:induction false} RedirectedFrom(c: Config, to: seq<Option<nat>>, i: nat, s: State)
    requires Wf(c, s) && !c.single && i < |c.who| && Redirecting(c, to, |s.view.muts|)
      && Checked(c.entity, s.view.trace)
    ensures Checked(c.entity, Mutate(c, i, 0, Own(s.cur[c.who[i]]), s).1.view.trace)
      <==> Safe(c, to, Completes(c, s.view.muts), s.cur, i)
    decreases |c.who| - i, 1
  {
    var b := c.who[i];
    if to[b].Some? {
      var s1 := Log(s, Enter(i, 0));
      var o, t := RedirectTurn(c, i, to[b].value, s);
      CheckedLog(c.entity, s.view.trace, Enter(i, 0));
      RedirectedCreation(c, to, i, to[b].value, s1);
      CheckedLog(c.entity, t.view.trace, Exit(i, 0));
    } else {
      RedirectedCreation(c, to, i, s.cur[b], s);
    }
  }

  lemma {:induction false} RedirectedCreation(c: Config, to: seq<Option<nat>>, i: nat, m: nat, s: State)
    requires Wf(c, s) && !c.single && i < |c.who| && Redirecting(c, to, |s.view.muts|)
      && Checked(c.entity, s.view.trace)
    requires m == if to[c.who[i]].Some? then to[c.who[i]].value else s.cur[c.who[i]]
    ensures Checked(c.entity, Base(c, i, Own(m), s).1.view.trace) <==> Safe(c, to, Completes(c, s.view.muts), s.cur, i)
    decreases |c.who| - i, 0
  {
    var own := Missing(c.entity.columns, s.view.muts[s.cur[c.who[i]]].fields);
    if own.Some? {
      CheckedLog(c.entity, s.view.trace, Invalid(i, own.value));
    } else {
      var s1 := CreateAt(c, i, m, s);
      CreationChecks(c, i, m, s);
      if Checked(c.entity, s1.view.trace) {
        if i + 1 < |c.who| {
          RedirectedFrom(c, to, i + 1, s1);
        } else {
          WriteChecked(c, s1);
        }
      }
    }
  }

  // Past a successful check(), what the base mutator leaves is checked as what is
  // created and what runs inside it.
  lemma CreationChecks(c: Config, i: nat, m: nat, s: State)
    requires Wf(c, s) && !c.single && i < |c.who| && m < |s.view.muts| && Checked(c.entity, s.view.trace)
    requires Missing(c.entity.columns, s.view.muts[s.cur[c.who[i]]].fields).None?
    ensures var s1 := CreateAt(c, i, m, s);
      && (Checked(c.entity, s1.view.trace) <==> Missing(c.entity.columns, s.view.muts[m].fields).None?)
      && (Checked(c.entity, Base(c, i, Own(m), s).1.view.trace) <==> Checked(c.entity, Inner(c, i, s1).1.view.trace))
      && (Checked(c.entity, Inner(c, i, s1).1.view.trace) ==> Checked(c.entity, s1.view.trace))
  {
    var s1 := CreateAt(c, i, m, s);
    var (err, t) := Inner(c, i, s1);
    CheckedLog(c.entity, s.view.trace, s1.view.trace[|s.view.trace|]);
    CheckedLog(c.entity, t.view.trace, Done(i, m));
    if Checked(c.entity, t.view.trace) {
      CheckedPrefix(c.entity, s1.view.trace, t.view.trace);
    }
  }

  lemma WriteChecked(c: Config, s: State)
    requires Wf(c, s)
    ensures Checked(c.entity, WriteAll(c, s).1.view.trace) <==> Checked(c.entity, s.view.trace)
  {
    CheckedLog(c.entity, s.view.trace, Write(s.specs, c.database(s.view.trace, s.specs)));
  }

  // Main result: a bulk save whose builders redirect creates nothing that check()
  // would refuse if and only if, at every position up to the first builder whose own
  // mutation is incomplete after defaults(), the mutation passed is complete.
  lemma RedirectedSave(c: Config, to: seq<Option<nat>>, sups: seq<Supply>, v: View, cur: seq<nat>)
    requires ValidStart(c, v, cur) && |sups| == |c.who| && v.trace == [] && !c.single && Redirecting(c, to, |v.muts|)
    ensures var s := AllDefaults(c, sups, 0, Fresh(c, v, cur));
      Checked(c.entity, BulkSave(c, None, sups, v, cur).1.view.trace)
      <==> Safe(c, to, Completes(c, s.view.muts), s.cur, 0)
  {
    if |c.who| > 0 {
      RedirectedFrom(c, to, 0, AllDefaults(c, sups, 0, Fresh(c, v, cur)));
    }
  }

  // One builder of a one-column entity, whose hook passes on mutation 1.
  function LoneRedirect(): Config {
    Config(Entity(BuilderUuid, [Column(Col(0), KString, false, true, NoDefault)]), false, [0], [[Redirect(1)]],
           (_, specs: seq<Option<Spec>>) => Stored(seq(|specs|, _ => None)))
  }

  // Its mutation 0 is complete, mutation 1 is not.
  function TwoMutations(): View {
    View([MutationState(map[Col(0) := Str("")], NoId, false), MutationState(map[], NoId, false)], [], [])
  }

  // The input behind the difference: this save creates a spec without its required field.
  lemma UncheckedSave(sup: Supply)
    ensures var c, v := LoneRedirect(), TwoMutations();
      && ValidStart(c, v, [0]) && Redirecting(c, [Some(1)], |v.muts|)
      && !Checked(c.entity, BulkSave(c, None, [sup], v, [0]).1.view.trace)
  {
    var c, v := LoneRedirect(), TwoMutations();
    var s := LoneDefaults(sup);
    RedirectedSave(c, [Some(1)], [sup], v, [0]);
    assert !Safe(c, [Some(1)], Completes(c, s.view.muts), s.cur, 0);
  }

  // defaults() completes neither mutation and spoils neither.
  lemma LoneDefaults(sup: Supply) returns (s: State)
    ensures ValidStart(LoneRedirect(), TwoMutations(), [0])
    ensures s == AllDefaults(LoneRedirect(), [sup], 0, Fresh(LoneRedirect(), TwoMutations(), [0]))
    ensures s.cur == [0] && |s.view.muts| == 2
    ensures var cols := LoneRedirect().entity.columns;
      Missing(cols, s.view.muts[0].fields).None? && Missing(cols, s.view.muts[1].fields).Some?
  {
    var c, v := LoneRedirect(), TwoMutations();
    var s0 := Fresh(c, v, [0]);
    s := DefaultsOn(c, sup, 0, s0);
    assert c.entity.columns[1..] == [];
    assert WithDefaults(c.entity.columns, sup, v.muts[0].fields) == v.muts[0].fields;
    assert AllDefaults(c, [sup], 0, s0) == AllDefaults(c, [sup], 1, s) == s;
  }

  // The single save, in that case, reports the field missing in the one it was passed.
  lemma RedirectedSingle(c: Config, m: nat, s: State)
    requires Wf(c, s) && c.single && m < |s.view.muts| && HooksAt(c, 0) == [Redirect(m)]
    requires Missing(c.entity.columns, s.view.muts[m].fields).Some?
    ensures Mutate(c, 0, 0, Own(s.cur[c.who[0]]), s).0
         == Err(MissingField(Missing(c.entity.columns, s.view.muts[m].fields).value))
  {
    var _, _ := RedirectTurn(c, 0, m, s);
  }

  // Builder 0 holds the mutation it held in s, with the contents of m, and, after
  // success, marked and pointing at the node; m itself is as it was.
  ghost predicate Adopted(c: Config, m: nat, s: State, o: Outcome, t: State)
    requires Wf(c, s) && |c.who| == 1 && m < |s.view.muts|
  {
    var own := s.cur[c.who[0]];
    && t.cur == s.cur && |t.view.muts| == |s.view.muts| && |t.nodes| == 1
    && t.view.muts[own].fields == s.view.muts[m].fields
    && (o.Ok? ==> t.view.muts[own].done && t.nodes[0].Some? && t.view.muts[own].id == NodeId(t.nodes[0].value))
    && (m != own ==> t.view.muts[m] == s.view.muts[m])
  }

  lemma BaseAdopts(c: Config, m: nat, s: State)
    requires Wf(c, s) && c.single && m < |s.view.muts|
    requires Missing(c.entity.columns, s.view.muts[m].fields).None?
    ensures var (o, t) := Base(c, 0, Own(m), s); Adopted(c, m, s, o, t)
  {
    var own := s.cur[c.who[0]];
    var s0 := Receive(c, 0, m, s);
    var s1 := CreateAt(c, 0, own, s0);
    assert s1.cur == s.cur;
    assert Inner(c, 0, s1) == WriteAll(c, s1);
  }

  // And when nothing is missing there, it copies that one's contents into the mutation
  // its builder holds, creates from and marks the copy, and leaves the original alone.
  lemma SingleAdoptsContents(c: Config, m: nat, s: State)
    requires Wf(c, s) && c.single && m < |s.view.muts| && HooksAt(c, 0) == [Redirect(m)]
    requires Missing(c.entity.columns, s.view.muts[m].fields).None?
    ensures var (o, t) := Mutate(c, 0, 0, Own(s.cur[c.who[0]]), s); Adopted(c, m, s, o, t)
  {
    var o, t := RedirectTurn(c, 0, m, s);
    BaseAdopts(c, m, Log(s, Enter(0, 0)));
  }

  // A hook that calls `next` once, with a mutation of another type, and returns its outcome.
  function Divert(): Hook {
    Hook((_, _) => 1, (_, _, _) => CallNext([], Foreign),
         (_, _, seen: seq<Past>) => Finish([], if |seen| == 1 then seen[0].outcome else Err(HookError(0))))
  }

  // Any mutator with such a hook alone fails, because the type is not its own, and does
  // nothing else; so does every save whose first position has it.
  lemma DivertedIsRefused(c: Config, i: nat, arg: Arg, s: State)
    requires Wf(c, s) && i < |c.who| && HooksAt(c, i) == [Divert()]
    ensures Mutate(c, i, 0, arg, s)
         == (Err(UnexpectedMutation), Log(Log(Log(s, Enter(i, 0)), Rejected(i)), Exit(i, 0)))
  {
    var s1 := Log(s, Enter(i, 0));
    assert Edited([], s1) == s1;
    var (o, t) := Mutate(c, i, 1, Foreign, s1);
    assert (o, t) == Base(c, i, Foreign, s1) == (Err(UnexpectedMutation), Log(s1, Rejected(i)));
    assert Edited([], t) == t;
    var past := Past(s1.view, o);
    assert [] + [past] == [past];
    assert RunHook(c, i, 0, arg, [], s1) == RunHook(c, i, 0, arg, [past], t);
  }

  // The redirecting hook only adds its two events to a run of the base mutator on m.
  lemma RedirectTurn(c: Config, i: nat, m: nat, s: State) returns (o: Outcome, t: State)
    requires Wf(c, s) && i < |c.who| && HooksAt(c, i) == [Redirect(m)]
    ensures (o, t) == Base(c, i, Own(m), Log(s, Enter(i, 0)))
    ensures Mutate(c, i, 0, Own(s.cur[c.who[i]]), s) == (o, Log(t, Exit(i, 0)))
  {
    var arg := Own(s.cur[c.who[i]]);
    var s1 := Log(s, Enter(i, 0));
    assert Edited([], s1) == s1;
    var r := Mutate(c, i, 1, Own(m), s1);
    o, t := r.0, r.1;
    assert Edited([], t) == t;
    var past := Past(s1.view, o);
    assert [] + [past] == [past];
    assert RunHook(c, i, 0, arg, [], s1) == RunHook(c, i, 0, arg, [past], t);
  }
}
