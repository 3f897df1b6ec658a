// What a successful bulk save returns when hooks may skip `next`, for any hooks.
module SkippedCalls {
  import opened Wrappers
  import opened Schema
  import opened Runtime
  import opened Saves
  import opened ChainCoherence
  import opened CallCounting
  import opened SingleRefinement

  // Creations at the last position that no write has followed yet.
  function Owed(c: Config, tr: seq<Event>): int
    requires |c.who| > 0
  {
    Made(tr, |c.who| - 1) - Writes(tr)
  }

  lemma OwedLog(c: Config, tr: seq<Event>, e: Event)
    requires |c.who| > 0
    ensures Owed(c, tr + [e]) ==
      Owed(c, tr) + (if e.Created? && e.pos == |c.who| - 1 then 1 else 0) - (if e.Write? then 1 else 0)
  {
    TakeAppend(tr, e);
  }

  lemma {:induction false} BaseOwes(c: Config, i: nat, arg: Arg, s: State)
    requires Wf(c, s) && i < |c.who|
    ensures Owed(c, Base(c, i, arg, s).1.view.trace) == Owed(c, s.view.trace)
    decreases |c.who| - i, 0, 0, 0
  {
    if arg.Foreign? || arg.m >= |s.view.muts| {
      OwedLog(c, s.view.trace, Rejected(i));
    } else {
      var s0 := Receive(c, i, arg.m, s);
      var m := Received(c, i, arg.m, s);
      var missing := Missing(c.entity.columns, s0.view.muts[s0.cur[c.who[i]]].fields);
      if missing.Some? {
        OwedLog(c, s.view.trace, Invalid(i, missing.value));
      } else {
        CreationOwes(c, i, m, s0);
      }
    }
  }

  lemma {:induction false} CreationOwes(c: Config, i: nat, m: nat, s: State)
    requires Wf(c, s) && i < |c.who| && m < |s.view.muts|
    ensures var (err, t) := Inner(c, i, CreateAt(c, i, m, s));
      Owed(c, if err.None? then Complete(c, i, m, t).view.trace else t.view.trace) == Owed(c, s.view.trace)
    decreases |c.who| - i - 1, if i + 1 < |c.who| then |HooksAt(c, i + 1)| else 0, 3, 0
  {
    var s1 := CreateAt(c, i, m, s);
    OwedLog(c, s.view.trace, Created(i, SpecId(c.entity, s.view, m), s.view.muts[m].fields, |s.view.store|));
    InnerOwes(c, i, s1);
    OwedLog(c, Inner(c, i, s1).1.view.trace, Done(i, m));
  }

  lemma {:induction false} InnerOwes(c: Config, i: nat, s: State)
    requires Wf(c, s) && i < |c.who|
    ensures Owed(c, Inner(c, i, s).1.view.trace) == Owed(c, s.view.trace) - if i + 1 < |c.who| then 0 else 1
    decreases |c.who| - i - 1, if i + 1 < |c.who| then |HooksAt(c, i + 1)| else 0, 2, 0
  {
    if i + 1 < |c.who| {
      MutateOwes(c, i + 1, 0, Own(s.cur[c.who[i + 1]]), s);
    } else {
      OwedLog(c, s.view.trace, Write(s.specs, c.database(s.view.trace, s.specs)));
    }
  }

  lemma {:induction false} MutateOwes(c: Config, i: nat, h: nat, arg: Arg, s: State)
    requires Wf(c, s) && i < |c.who| && h <= |HooksAt(c, i)|
    ensures Owed(c, Mutate(c, i, h, arg, s).1.view.trace) == Owed(c, s.view.trace)
    decreases |c.who| - i, |HooksAt(c, i)| - h, 1, 0
  {
    if h == |HooksAt(c, i)| {
      BaseOwes(c, i, arg, s);
    } else {
      var s1 := Log(s, Enter(i, h));
      OwedLog(c, s.view.trace, Enter(i, h));
      HookOwes(c, i, h, arg, [], s1);
      OwedLog(c, RunHook(c, i, h, arg, [], s1).1.view.trace, Exit(i, h));
    }
  }

  lemma {:induction false} HookOwes(c: Config, i: nat, h: nat, arg: Arg, seen: seq<Past>, s: State)
    requires Wf(c, s) && i < |c.who| && h < |HooksAt(c, i)| && |seen| <= Allowed(HooksAt(c, i)[h], arg, seen, s.view)
    ensures Owed(c, RunHook(c, i, h, arg, seen, s).1.view.trace) == Owed(c, s.view.trace)
    decreases |c.who| - i, |HooksAt(c, i)| - h, 0, Allowed(HooksAt(c, i)[h], arg, seen, s.view) - |seen|
  {
    var hook := HooksAt(c, i)[h];
    if |seen| < Allowed(hook, arg, seen, s.view) && hook.step(arg, s.view, seen).CallNext? {
      var act := hook.step(arg, s.view, seen);
      var s1 := Edited(act.edits, s);
      MutateOwes(c, i, h + 1, act.arg, s1);
      var (o, t) := Mutate(c, i, h + 1, act.arg, s1);
      HookOwes(c, i, h, arg, seen + [Past(s.view, o)], t);
    }
  }

  // Main result: with any hooks, the batch is written exactly as often as the last
  // position is created.
  lemma WritesAreLastCreations(c: Config, sups: seq<Supply>, v: View, cur: seq<nat>)
    requires ValidStart(c, v, cur) && |sups| == |c.who| > 0 && v.trace == []
    ensures var tr := BulkSave(c, None, sups, v, cur).1.view.trace; Writes(tr) == Made(tr, |c.who| - 1)
  {
    var s := AllDefaults(c, sups, 0, Fresh(c, v, cur));
    MutateOwes(c, 0, 0, Own(s.cur[c.who[0]]), s);
  }

  ghost predicate HasWrite(tr: seq<Event>) {
    exists p :: 0 <= p < |tr| && tr[p].Write?
  }

  lemma {:induction false} WritesIffHasWrite(tr: seq<Event>)
    ensures Writes(tr) > 0 <==> HasWrite(tr)
  {
    if tr != [] {
      var n := |tr| - 1;
      WritesIffHasWrite(tr[..n]);
      if p :| 0 <= p < |tr| && tr[p].Write? {
        assert p < n ==> tr[..n][p] == tr[p];
      }
    }
  }

  lemma {:induction false} MadeStays(tr: seq<Event>, p: nat, j: nat)
    requires p <= |tr|
    ensures Made(tr[..p], j) <= Made(tr, j)
  {
    if p < |tr| {
      var b := tr[..|tr| - 1];
      assert b[..p] == tr[..p];
      MadeStays(b, p, j);
    } else {
      assert tr[..p] == tr;
    }
  }

  lemma FilledIffMade(c: Config, t: State, j: nat)
    requires Wf(c, t) && Coherent(c, t) && j < |c.who|
    ensures t.nodes[j].Some? <==> Made(t.view.trace, j) > 0
  {
    MadeIffCreated(t.view.trace, j);
    CreatedIffSpec(c.entity, t.view.trace, j);
  }

  // Main result: with any hooks, a bulk save that reports success has no nil node
  // exactly when the batch was written, accepted or not.
  lemma FilledIffWritten(c: Config, sups: seq<Supply>, v: View, cur: seq<nat>)
    requires ValidStart(c, v, cur) && |sups| == |c.who| > 0 && v.trace == []
    ensures var (r, t) := BulkSave(c, None, sups, v, cur);
      && |t.nodes| == |c.who| && (AllFilled(t.nodes) <==> HasWrite(t.view.trace))
      && (r.Saved? ==> r.nodes == t.nodes)
  {
    var t := BulkSave(c, None, sups, v, cur).1;
    var tr := t.view.trace;
    BatchSeesEveryBuilder(c, None, sups, v, cur);
    WritesAreLastCreations(c, sups, v, cur);
    WritesIffHasWrite(tr);
    FilledIffMade(c, t, |c.who| - 1);
    if p :| 0 <= p < |tr| && tr[p].Write? {
      forall j | 0 <= j < |c.who| ensures t.nodes[j].Some? {
        MadeIffCreated(tr[..p], j);
        MadeStays(tr, p, j);
        FilledIffMade(c, t, j);
      }
    }
  }

  // A hook that does not call `next` and reports success.
  function Skip(): Hook {
    Hook((_, _) => 0, (_, _, _) => Stop(Finish([], Ok(OtherValue(0)))), (_, _, _) => Finish([], Ok(OtherValue(0))))
  }

  // The input behind nil entries with a nil error: with that hook outermost at the
  // first position a bulk save reports success and returns nothing but nil nodes.
  lemma SkippedSave(c: Config, sups: seq<Supply>, v: View, cur: seq<nat>)
    requires ValidStart(c, v, cur) && |sups| == |c.who| > 0
    requires |HooksAt(c, 0)| > 0 && HooksAt(c, 0)[0] == Skip()
    ensures BulkSave(c, None, sups, v, cur).0 == Saved(seq(|c.who|, _ => None))
  {
    var s := AllDefaults(c, sups, 0, Fresh(c, v, cur));
    var arg := Own(s.cur[c.who[0]]);
    var s1 := Log(s, Enter(0, 0));
    assert RunHook(c, 0, 0, arg, [], s1) == (Ok(OtherValue(0)), Edited([], s1));
    assert s.nodes == seq(|c.who|, _ => None);
  }

  // The hook passes on what it was given and unsets no field.
  ghost predicate Tame(hook: Hook) {
    && PassesOn(hook)
    && (forall arg, v, seen, e ::
          hook.step(arg, v, seen).CallNext? && e in hook.step(arg, v, seen).edits ==> !e.ResetField?)
    && (forall arg, v, seen, e ::
          hook.step(arg, v, seen).Stop? && e in hook.step(arg, v, seen).finish.edits ==> !e.ResetField?)
    && (forall arg, v, seen, e :: e in hook.last(arg, v, seen).edits ==> !e.ResetField?)
  }

  ghost predicate AllTame(c: Config) {
    forall b, h :: 0 <= b < |c.hooks| && 0 <= h < |c.hooks[b]| ==> Tame(c.hooks[b][h])
  }

  // The mutations of all positions would pass check().
  ghost predicate AllComplete(c: Config, s: State)
    requires Wf(c, s)
  {
    forall i :: 0 <= i < |c.who| ==> Missing(c.entity.columns, s.view.muts[s.cur[c.who[i]]].fields).None?
  }

  // Nothing was refused between s and t, and nothing after t has cause to be.
  ghost predicate Steady(c: Config, s: State, t: State)
    requires Wf(c, s) && Wf(c, t)
  {
    t.cur == s.cur && AllComplete(c, t) && (NoRefusal(s.view.trace) ==> NoRefusal(t.view.trace))
  }

  // check() passes on more fields if it passes on fewer.
  lemma MissingShrinks(cols: seq<Column>, fields: map<Field, Val>, more: map<Field, Val>)
    requires Missing(cols, fields).None? && fields.Keys <= more.Keys
    ensures Missing(cols, more).None?
  {
    MissingIsFirst(cols, fields);
    MissingIsFirst(cols, more);
    assert forall k :: 0 <= k < |cols| && cols[k].name in fields ==> cols[k].name in more.Keys;
  }

  lemma {:induction false} EditsKeepFields(es: seq<Edit>, v: View)
    requires ValidView(v) && forall e :: e in es ==> !e.ResetField?
    ensures var w := ApplyEdits(es, v);
      |w.muts| == |v.muts| && forall m :: 0 <= m < |v.muts| ==> v.muts[m].fields.Keys <= w.muts[m].fields.Keys
  {
    if es != [] {
      assert es[0] in es && forall e :: e in es[1..] ==> e in es;
      EditsKeepFields(es[1..], ApplyEdit(es[0], v));
    }
  }

  lemma EditedSteady(c: Config, es: seq<Edit>, s: State)
    requires Wf(c, s) && AllComplete(c, s) && forall e :: e in es ==> !e.ResetField?
    ensures Steady(c, s, Edited(es, s))
  {
    EditsKeepFields(es, s.view);
    var t := Edited(es, s);
    forall i | 0 <= i < |c.who| ensures Missing(c.entity.columns, t.view.muts[t.cur[c.who[i]]].fields).None? {
      var m := s.cur[c.who[i]];
      MissingShrinks(c.entity.columns, s.view.muts[m].fields, t.view.muts[m].fields);
    }
  }

  lemma {:induction false} BaseSteady(c: Config, i: nat, s: State)
    requires Wf(c, s) && i < |c.who| && AllTame(c) && AllComplete(c, s)
    ensures Steady(c, s, Base(c, i, Own(s.cur[c.who[i]]), s).1)
    decreases |c.who| - i, 0, 0, 0
  {
    var m := s.cur[c.who[i]];
    assert Receive(c, i, m, s) == s;
    CreateSteady(c, i, s);
    InnerSteady(c, i, CreateAt(c, i, m, s));
  }

  lemma CreateSteady(c: Config, i: nat, s: State)
    requires Wf(c, s) && i < |c.who| && AllComplete(c, s)
    ensures Steady(c, s, CreateAt(c, i, s.cur[c.who[i]], s))
  {
    assert CreateAt(c, i, s.cur[c.who[i]], s).cur == s.cur;
  }

  lemma {:induction false} InnerSteady(c: Config, i: nat, s: State)
    requires Wf(c, s) && i < |c.who| && AllTame(c) && AllComplete(c, s)
    ensures Steady(c, s, Inner(c, i, s).1)
    decreases |c.who| - i - 1, if i + 1 < |c.who| then |HooksAt(c, i + 1)| else 0, 2, 0
  {
    if i + 1 < |c.who| {
      MutateSteady(c, i + 1, 0, s);
    }
  }

  lemma {:induction false} MutateSteady(c: Config, i: nat, h: nat, s: State)
    requires Wf(c, s) && i < |c.who| && h <= |HooksAt(c, i)| && AllTame(c) && AllComplete(c, s)
    ensures Steady(c, s, Mutate(c, i, h, Own(s.cur[c.who[i]]), s).1)
    decreases |c.who| - i, |HooksAt(c, i)| - h, 1, 0
  {
    if h == |HooksAt(c, i)| {
      BaseSteady(c, i, s);
    } else {
      var s1 := Log(s, Enter(i, h));
      HookSteady(c, i, h, [], s1);
    }
  }

  lemma {:induction false} HookSteady(c: Config, i: nat, h: nat, seen: seq<Past>, s: State)
    requires Wf(c, s) && i < |c.who| && h < |HooksAt(c, i)| && AllTame(c) && AllComplete(c, s)
    requires |seen| <= Allowed(HooksAt(c, i)[h], Own(s.cur[c.who[i]]), seen, s.view)
    ensures Steady(c, s, RunHook(c, i, h, Own(s.cur[c.who[i]]), seen, s).1)
    decreases |c.who| - i, |HooksAt(c, i)| - h, 0,
      Allowed(HooksAt(c, i)[h], Own(s.cur[c.who[i]]), seen, s.view) - |seen|
  {
    var hook, arg := HooksAt(c, i)[h], Own(s.cur[c.who[i]]);
    assert Tame(hook);
    if |seen| == Allowed(hook, arg, seen, s.view) {
      EditedSteady(c, hook.last(arg, s.view, seen).edits, s);
    } else {
      match hook.step(arg, s.view, seen)
      case Stop(fin) => EditedSteady(c, fin.edits, s);
      case CallNext(edits, a) =>
        assert a == arg;
        EditedSteady(c, edits, s);
        var s1 := Edited(edits, s);
        MutateSteady(c, i, h + 1, s1);
        var (o, t) := Mutate(c, i, h + 1, arg, s1);
        HookSteady(c, i, h, seen + [Past(s.view, o)], t);
    }
  }

  // Every position's builder was given the fields that defaults() does not fill.
  ghost predicate AllGiven(c: Config, v: View, cur: seq<nat>)
    requires ValidStart(c, v, cur)
  {
    forall i :: 0 <= i < |c.who| ==> FirstAbsent(Demanded(c.entity.columns), v.muts[cur[c.who[i]]].fields).None?
  }

  lemma {:induction false} DemandedGiven(cols: seq<Column>, fields: map<Field, Val>, k: nat)
    requires FirstAbsent(Demanded(cols), fields).None?
    requires k < |cols| && cols[k].required && cols[k].default.NoDefault?
    ensures cols[k].name in fields
  {
    var tail := cols[1..];
    if cols[0].required && cols[0].default.NoDefault? {
      assert Demanded(cols)[1..] == Demanded(tail);
    } else {
      assert Demanded(cols) == Demanded(tail);
    }
    if k > 0 {
      assert tail[k - 1] == cols[k];
      DemandedGiven(tail, fields, k - 1);
    }
  }

  // Mutations only gain fields by defaults(), and those of the positions from i on
  // have all the defaulted ones afterwards.
  lemma {:induction false} DefaultsGive(c: Config, sups: seq<Supply>, i: nat, s: State)
    requires Wf(c, s) && |sups| == |c.who| && i <= |c.who|
    ensures var t := AllDefaults(c, sups, i, s);
      && (forall m :: 0 <= m < |s.view.muts| ==> s.view.muts[m].fields.Keys <= t.view.muts[m].fields.Keys)
      && (forall j :: i <= j < |c.who| ==>
            Defaulted(c.entity.columns) <= t.view.muts[s.cur[c.who[j]]].fields.Keys)
    decreases |c.who| - i
  {
    if i < |c.who| {
      var m := s.cur[c.who[i]];
      DefaultsFillOnlyGaps(c.entity.columns, sups[i], s.view.muts[m].fields);
      DefaultsGive(c, sups, i + 1, DefaultsOn(c, sups[i], c.who[i], s));
    }
  }

  lemma GivenIsComplete(c: Config, sups: seq<Supply>, v: View, cur: seq<nat>)
    requires ValidStart(c, v, cur) && |sups| == |c.who| && AllGiven(c, v, cur)
    ensures AllComplete(c, AllDefaults(c, sups, 0, Fresh(c, v, cur)))
  {
    var s := Fresh(c, v, cur);
    var t := AllDefaults(c, sups, 0, s);
    var cols := c.entity.columns;
    DefaultsGive(c, sups, 0, s);
    DefaultedNames(cols);
    forall i | 0 <= i < |c.who| ensures Missing(cols, t.view.muts[t.cur[c.who[i]]].fields).None? {
      var fields := t.view.muts[cur[c.who[i]]].fields;
      MissingIsFirst(cols, fields);
      forall k | 0 <= k < |cols| && cols[k].required ensures cols[k].name in fields {
        if cols[k].default.NoDefault? {
          DemandedGiven(cols, v.muts[cur[c.who[i]]].fields, k);
        }
        assert cols[k].name in fields.Keys;
      }
    }
  }

  // With tame hooks and all demanded fields given, no base mutator refuses anything.
  lemma NothingRefused(c: Config, sups: seq<Supply>, v: View, cur: seq<nat>)
    requires ValidStart(c, v, cur) && |sups| == |c.who| > 0 && v.trace == [] && AllTame(c) && AllGiven(c, v, cur)
    ensures NoRefusal(BulkSave(c, None, sups, v, cur).1.view.trace)
  {
    GivenIsComplete(c, sups, v, cur);
    MutateSteady(c, 0, 0, AllDefaults(c, sups, 0, Fresh(c, v, cur)));
  }

  // Main result, by what a caller knows before the call: with tame hooks of fixed call
  // counts and all demanded fields given, the batch is written as often as the product
  // of the counts, and a save that reports success has no nil node exactly when no
  // hook skips `next`.
  lemma SaveFillsNodesIffHooksCall(c: Config, sups: seq<Supply>, v: View, cur: seq<nat>)
    requires ValidStart(c, v, cur) && |sups| == |c.who| > 0 && v.trace == []
    requires AllFixed(c) && AllTame(c) && AllGiven(c, v, cur)
    ensures var (r, t) := BulkSave(c, None, sups, v, cur);
      && Writes(t.view.trace) == TotalFanout(c, |c.who|)
      && (r.Saved? ==> (AllFilled(r.nodes) <==> HooksCall(c, |c.who|)))
  {
    NothingRefused(c, sups, v, cur);
    WritesAreProduct(c, sups, v, cur);
    NodesFilledIffHooksCall(c, sups, v, cur);
  }
}
