// How often the batch write runs when every hook calls `next` a fixed number of times.
module CallCounting {
  import opened Wrappers
  import opened Schema
  import opened Runtime
  import opened Saves
  import opened ChainCoherence

  // Times the base mutator at position i was entered.
  function Tried(tr: seq<Event>, i: nat): nat {
    if tr == [] then 0
    else
      var e := tr[|tr| - 1];
      Tried(tr[..|tr| - 1], i) + (if (e.Rejected? || e.Invalid? || e.Created?) && e.pos == i then 1 else 0)
  }

  // Times it got past the type test and check().
  function Made(tr: seq<Event>, i: nat): nat {
    if tr == [] then 0
    else
      var e := tr[|tr| - 1];
      Made(tr[..|tr| - 1], i) + (if e.Created? && e.pos == i then 1 else 0)
  }

  function Writes(tr: seq<Event>): nat {
    if tr == [] then 0
    else Writes(tr[..|tr| - 1]) + (if tr[|tr| - 1].Write? then 1 else 0)
  }

  // How often a hook with a fixed call count calls `next`.
  function Count(hook: Hook): nat {
    hook.limit(Foreign, View([], [], []))
  }

  // The hook calls `next` exactly that often, whatever it is passed and sees.
  ghost predicate FixedCalls(hook: Hook) {
    && (forall arg, v :: hook.limit(arg, v) == Count(hook))
    && (forall arg, v, seen :: |seen| < Count(hook) ==> hook.step(arg, v, seen).CallNext?)
  }

  ghost predicate AllFixed(c: Config) {
    forall b, h :: 0 <= b < |c.hooks| && 0 <= h < |c.hooks[b]| ==> FixedCalls(c.hooks[b][h])
  }

  // Multiplication by a count, as repeated addition.
  function Times(a: nat, b: int): int {
    if a == 0 then 0 else b + Times(a - 1, b)
  }

  lemma {:induction false} TimesIsProduct(a: nat, b: int)
    ensures Times(a, b) == a * b
  {
    if a > 0 {
      TimesIsProduct(a - 1, b);
    }
  }

  lemma {:induction false} TimesDistributes(p: nat, a: int, b: int)
    ensures Times(p, a) + Times(p, b) == Times(p, a + b)
  {
    if p > 0 {
      TimesDistributes(p - 1, a, b);
    }
  }

  lemma {:induction false} TimesSpecial(p: nat)
    ensures Times(p, 0) == 0 && Times(p, 1) == p
  {
    if p > 0 {
      TimesSpecial(p - 1);
    }
  }

  // The number of calls that reach the inside of hooks h, h+1, ... per call of hook h.
  function Fanout(hooks: seq<Hook>, h: nat): nat
    requires h <= |hooks|
    decreases |hooks| - h
  {
    if h == |hooks| then 1
    else
      TimesIsProduct(Count(hooks[h]), Fanout(hooks, h + 1));
      Times(Count(hooks[h]), Fanout(hooks, h + 1))
  }

  function TriedIn(s: seq<Event>, t: seq<Event>, i: nat): int {
    Tried(t, i) - Tried(s, i)
  }

  function MadeIn(s: seq<Event>, t: seq<Event>, i: nat): int {
    Made(t, i) - Made(s, i)
  }

  function WritesIn(s: seq<Event>, t: seq<Event>): int {
    Writes(t) - Writes(s)
  }

  // Between traces s and t, nothing was tried at positions below i, and from i on
  // each creation led to Fanout tries one position further. For positions below k.
  ghost predicate BalancedUpTo(c: Config, i: nat, k: nat, s: seq<Event>, t: seq<Event>)
    requires c.Valid() && k <= |c.who|
  {
    k == 0 ||
    (var j := k - 1;
     && BalancedUpTo(c, i, j, s, t)
     && (j < i ==> TriedIn(s, t, j) == MadeIn(s, t, j) == 0)
     && (j > i ==> TriedIn(s, t, j) == Times(Fanout(HooksAt(c, j), 0), MadeIn(s, t, j - 1))))
  }

  // The same for all positions, and each creation at the last led to one write.
  ghost predicate Balanced(c: Config, i: nat, s: seq<Event>, t: seq<Event>)
    requires c.Valid()
  {
    BalancedUpTo(c, i, |c.who|, s, t) && (i < |c.who| ==> WritesIn(s, t) == MadeIn(s, t, |c.who| - 1))
  }

  lemma {:induction false} TransUpTo(c: Config, i: nat, k: nat, s: seq<Event>, t: seq<Event>, u: seq<Event>)
    requires c.Valid() && k <= |c.who| && BalancedUpTo(c, i, k, s, t) && BalancedUpTo(c, i, k, t, u)
    ensures BalancedUpTo(c, i, k, s, u)
  {
    if k > 0 {
      TransUpTo(c, i, k - 1, s, t, u);
      if k - 1 > i {
        TimesDistributes(Fanout(HooksAt(c, k - 1), 0), MadeIn(s, t, k - 2), MadeIn(t, u, k - 2));
      }
    }
  }

  lemma BalancedTrans(c: Config, i: nat, s: seq<Event>, t: seq<Event>, u: seq<Event>)
    requires c.Valid() && Balanced(c, i, s, t) && Balanced(c, i, t, u)
    ensures Balanced(c, i, s, u)
    ensures TriedIn(s, u, i) == TriedIn(s, t, i) + TriedIn(t, u, i)
  {
    TransUpTo(c, i, |c.who|, s, t, u);
  }

  // Reading one position off.
  lemma {:induction false} BalancedAt(c: Config, i: nat, k: nat, j: nat, s: seq<Event>, t: seq<Event>)
    requires c.Valid() && j < k <= |c.who| && BalancedUpTo(c, i, k, s, t)
    ensures j < i ==> TriedIn(s, t, j) == MadeIn(s, t, j) == 0
    ensures j > i ==> TriedIn(s, t, j) == Times(Fanout(HooksAt(c, j), 0), MadeIn(s, t, j - 1))
  {
    if j < k - 1 {
      BalancedAt(c, i, k - 1, j, s, t);
    }
  }

  // What one event adds to the counts.
  lemma LogCounts(s: seq<Event>, t: seq<Event>, e: Event, k: nat)
    requires t == s + [e]
    ensures TriedIn(s, t, k) == if (e.Rejected? || e.Invalid? || e.Created?) && e.pos == k then 1 else 0
    ensures MadeIn(s, t, k) == if e.Created? && e.pos == k then 1 else 0
    ensures WritesIn(s, t) == if e.Write? then 1 else 0
  {
    TakeAppend(s, e);
  }

  // No counted event beyond a refusal at position i.
  lemma {:induction false} QuietUpTo(c: Config, i: nat, k: nat, s: seq<Event>, t: seq<Event>, e: Event)
    requires c.Valid() && k <= |c.who| && t == s + [e]
    requires e.Enter? || e.Exit? || e.Done? || ((e.Rejected? || e.Invalid?) && e.pos == i)
    ensures BalancedUpTo(c, i, k, s, t)
  {
    if k > 0 {
      QuietUpTo(c, i, k - 1, s, t, e);
      LogCounts(s, t, e, k - 1);
      if k > 1 {
        LogCounts(s, t, e, k - 2);
      }
      TimesSpecial(Fanout(HooksAt(c, k - 1), 0));
    }
  }

  lemma QuietLog(c: Config, i: nat, s: seq<Event>, t: seq<Event>, e: Event)
    requires c.Valid() && t == s + [e]
    requires e.Enter? || e.Exit? || e.Done? || ((e.Rejected? || e.Invalid?) && e.pos == i)
    ensures Balanced(c, i, s, t)
    ensures TriedIn(s, t, i) == if e.Rejected? || e.Invalid? then 1 else 0
  {
    QuietUpTo(c, i, |c.who|, s, t, e);
    LogCounts(s, t, e, i);
    if |c.who| > 0 {
      LogCounts(s, t, e, |c.who| - 1);
    }
  }

  lemma {:induction false} WriteUpTo(c: Config, k: nat, s: seq<Event>, t: seq<Event>, e: Event)
    requires c.Valid() && k <= |c.who| && t == s + [e] && e.Write?
    ensures BalancedUpTo(c, |c.who|, k, s, t)
  {
    if k > 0 {
      WriteUpTo(c, k - 1, s, t, e);
      LogCounts(s, t, e, k - 1);
    }
  }

  lemma {:induction false} ReflUpTo(c: Config, i: nat, k: nat, s: seq<Event>)
    requires c.Valid() && k <= |c.who|
    ensures BalancedUpTo(c, i, k, s, s)
  {
    if k > 0 {
      ReflUpTo(c, i, k - 1, s);
      TimesSpecial(Fanout(HooksAt(c, k - 1), 0));
    }
  }

  lemma BalancedRefl(c: Config, i: nat, s: seq<Event>)
    requires c.Valid()
    ensures Balanced(c, i, s, s) && TriedIn(s, s, i) == 0
  {
    ReflUpTo(c, i, |c.who|, s);
  }

  // A creation at i followed by what Inner does is balanced from i on.
  lemma {:induction false} CreateUpTo(c: Config, i: nat, k: nat, s: seq<Event>, t: seq<Event>, u: seq<Event>, e: Event)
    requires c.Valid() && i < |c.who| && k <= |c.who| && t == s + [e] && e.Created? && e.pos == i
    requires BalancedUpTo(c, i + 1, |c.who|, t, u) && BalancedUpTo(c, i + 1, k, t, u)
    requires i + 1 < |c.who| ==> TriedIn(t, u, i + 1) == Fanout(HooksAt(c, i + 1), 0)
    ensures BalancedUpTo(c, i, k, s, u)
  {
    if k > 0 {
      CreateUpTo(c, i, k - 1, s, t, u, e);
      LogCounts(s, t, e, k - 1);
      if k > 1 {
        LogCounts(s, t, e, k - 2);
      }
      BalancedAt(c, i + 1, |c.who|, i, t, u);
      TimesSpecial(Fanout(HooksAt(c, k - 1), 0));
    }
  }

  lemma CreateThenInner(c: Config, i: nat, s: seq<Event>, t: seq<Event>, u: seq<Event>, e: Event)
    requires c.Valid() && i < |c.who| && t == s + [e] && e.Created? && e.pos == i
    requires Balanced(c, i + 1, t, u)
    requires i + 1 < |c.who| ==> TriedIn(t, u, i + 1) == Fanout(HooksAt(c, i + 1), 0)
    requires i + 1 == |c.who| ==> WritesIn(t, u) == 1
    ensures Balanced(c, i, s, u) && TriedIn(s, u, i) == 1
  {
    CreateUpTo(c, i, |c.who|, s, t, u, e);
    BalancedAt(c, i + 1, |c.who|, i, t, u);
    LogCounts(s, t, e, i);
    LogCounts(s, t, e, |c.who| - 1);
  }

  lemma {:induction false} CountBase(c: Config, i: nat, arg: Arg, s: State)
    requires Wf(c, s) && i < |c.who| && AllFixed(c)
    ensures Balanced(c, i, s.view.trace, Base(c, i, arg, s).1.view.trace)
    ensures TriedIn(s.view.trace, Base(c, i, arg, s).1.view.trace, i) == 1
    decreases |c.who| - i, 0, 0, 0
  {
    var tr := s.view.trace;
    if arg.Foreign? || arg.m >= |s.view.muts| {
      QuietLog(c, i, tr, tr + [Rejected(i)], Rejected(i));
    } else {
      var s0 := Receive(c, i, arg.m, s);
      var m := Received(c, i, arg.m, s);
      var missing := Missing(c.entity.columns, s0.view.muts[s0.cur[c.who[i]]].fields);
      if missing.Some? {
        QuietLog(c, i, tr, tr + [Invalid(i, missing.value)], Invalid(i, missing.value));
      } else {
        var s1 := CreateAt(c, i, m, s0);
        var e := Created(i, SpecId(c.entity, s0.view, m), s0.view.muts[m].fields, |s0.view.store|);
        CountInner(c, i, s1);
        var (err, s2) := Inner(c, i, s1);
        CreateThenInner(c, i, tr, s1.view.trace, s2.view.trace, e);
        if err.None? {
          var tr3 := s2.view.trace + [Done(i, m)];
          QuietLog(c, i, s2.view.trace, tr3, Done(i, m));
          BalancedTrans(c, i, tr, s2.view.trace, tr3);
        }
      }
    }
  }

  lemma {:induction false} CountInner(c: Config, i: nat, s: State)
    requires Wf(c, s) && i < |c.who| && AllFixed(c)
    ensures Balanced(c, i + 1, s.view.trace, Inner(c, i, s).1.view.trace)
    ensures i + 1 < |c.who| ==>
      TriedIn(s.view.trace, Inner(c, i, s).1.view.trace, i + 1) == Fanout(HooksAt(c, i + 1), 0)
    ensures i + 1 == |c.who| ==> WritesIn(s.view.trace, Inner(c, i, s).1.view.trace) == 1
    decreases |c.who| - i - 1, if i + 1 < |c.who| then |HooksAt(c, i + 1)| else 0, 2, 0
  {
    if i + 1 < |c.who| {
      CountMutate(c, i + 1, 0, Own(s.cur[c.who[i + 1]]), s);
    } else {
      var tr, t := s.view.trace, Inner(c, i, s).1.view.trace;
      var e := Write(s.specs, c.database(tr, s.specs));
      WriteUpTo(c, |c.who|, tr, t, e);
      LogCounts(tr, t, e, i);
    }
  }

  lemma {:induction false} CountMutate(c: Config, i: nat, h: nat, arg: Arg, s: State)
    requires Wf(c, s) && i < |c.who| && h <= |HooksAt(c, i)| && AllFixed(c)
    ensures Balanced(c, i, s.view.trace, Mutate(c, i, h, arg, s).1.view.trace)
    ensures TriedIn(s.view.trace, Mutate(c, i, h, arg, s).1.view.trace, i) == Fanout(HooksAt(c, i), h)
    decreases |c.who| - i, |HooksAt(c, i)| - h, 1, 0
  {
    if h == |HooksAt(c, i)| {
      CountBase(c, i, arg, s);
    } else {
      var s1 := Log(s, Enter(i, h));
      CountHook(c, i, h, arg, [], Count(HooksAt(c, i)[h]), s1);
      var t := RunHook(c, i, h, arg, [], s1).1;
      Surround(c, i, h, s.view.trace, s1.view.trace, t.view.trace);
    }
  }

  // The enter and exit events around a hook's run change no count.
  lemma Surround(c: Config, i: nat, h: nat, s: seq<Event>, s1: seq<Event>, t: seq<Event>)
    requires c.Valid() && s1 == s + [Enter(i, h)] && Balanced(c, i, s1, t)
    ensures Balanced(c, i, s, t + [Exit(i, h)]) && TriedIn(s, t + [Exit(i, h)], i) == TriedIn(s1, t, i)
  {
    QuietLog(c, i, s, s1, Enter(i, h));
    QuietLog(c, i, t, t + [Exit(i, h)], Exit(i, h));
    BalancedTrans(c, i, s, s1, t);
    BalancedTrans(c, i, s, t, t + [Exit(i, h)]);
  }

  // One turn of a hook with fixed call count: edit, call `next`, go on.
  lemma HookTurn(c: Config, i: nat, h: nat, arg: Arg, seen: seq<Past>, s: State)
      returns (a: Arg, s1: State, o: Outcome, t: State)
    requires Wf(c, s) && i < |c.who| && h < |HooksAt(c, i)| && |seen| < Count(HooksAt(c, i)[h])
    requires FixedCalls(HooksAt(c, i)[h])
    ensures Wf(c, s1) && s1.view.trace == s.view.trace
    ensures (o, t) == Mutate(c, i, h + 1, a, s1)
    ensures RunHook(c, i, h, arg, seen, s) == RunHook(c, i, h, arg, seen + [Past(s.view, o)], t)
  {
    var act := HooksAt(c, i)[h].step(arg, s.view, seen);
    a, s1 := act.arg, Edited(act.edits, s);
    var r := Mutate(c, i, h + 1, a, s1);
    o, t := r.0, r.1;
  }

  lemma {:induction false} CountHook(c: Config, i: nat, h: nat, arg: Arg, seen: seq<Past>, left: nat, s: State)
    requires Wf(c, s) && i < |c.who| && h < |HooksAt(c, i)| && AllFixed(c)
    requires |seen| + left == Count(HooksAt(c, i)[h])
    ensures Balanced(c, i, s.view.trace, RunHook(c, i, h, arg, seen, s).1.view.trace)
    ensures TriedIn(s.view.trace, RunHook(c, i, h, arg, seen, s).1.view.trace, i)
      == Times(left, Fanout(HooksAt(c, i), h + 1))
    decreases |c.who| - i, |HooksAt(c, i)| - h, 0, left
  {
    if left > 0 {
      var a, s1, o, t := HookTurn(c, i, h, arg, seen, s);
      CountMutate(c, i, h + 1, a, s1);
      CountHook(c, i, h, arg, seen + [Past(s.view, o)], left - 1, t);
      BalancedTrans(c, i, s.view.trace, t.view.trace, RunHook(c, i, h, arg, seen + [Past(s.view, o)], t).1.view.trace);
    } else {
      BalancedRefl(c, i, s.view.trace);
    }
  }

  // Conservation: every creation at one position leads to Fanout tries at the
  // next, and every creation at the last position to exactly one write.
  lemma CallsAreConserved(c: Config, sups: seq<Supply>, v: View, cur: seq<nat>)
    requires ValidStart(c, v, cur) && |sups| == |c.who| > 0 && v.trace == [] && AllFixed(c)
    ensures var tr := BulkSave(c, None, sups, v, cur).1.view.trace;
      && Tried(tr, 0) == Fanout(HooksAt(c, 0), 0)
      && (forall k :: 0 < k < |c.who| ==> Tried(tr, k) == Fanout(HooksAt(c, k), 0) * Made(tr, k - 1))
      && Writes(tr) == Made(tr, |c.who| - 1)
  {
    var s1 := AllDefaults(c, sups, 0, Fresh(c, v, cur));
    CountMutate(c, 0, 0, Own(s1.cur[c.who[0]]), s1);
    var tr := BulkSave(c, None, sups, v, cur).1.view.trace;
    forall k | 0 < k < |c.who| ensures Tried(tr, k) == Fanout(HooksAt(c, k), 0) * Made(tr, k - 1) {
      BalancedAt(c, 0, |c.who|, k, [], tr);
      assert TriedIn([], tr, k) == Times(Fanout(HooksAt(c, k), 0), MadeIn([], tr, k - 1));
      TimesIsProduct(Fanout(HooksAt(c, k), 0), Made(tr, k - 1));
    }
  }

  // No base mutator refused the mutation it was passed or failed check().
  ghost predicate NoRefusal(tr: seq<Event>) {
    forall p :: 0 <= p < |tr| ==> !tr[p].Rejected? && !tr[p].Invalid?
  }

  lemma {:induction false} TriedAreMade(tr: seq<Event>, i: nat)
    requires NoRefusal(tr)
    ensures Tried(tr, i) == Made(tr, i)
  {
    if tr != [] {
      TriedAreMade(tr[..|tr| - 1], i);
    }
  }

  // The product of all counts over all hooks of positions 0..k-1.
  function TotalFanout(c: Config, k: nat): nat
    requires c.Valid() && k <= |c.who|
  {
    if k == 0 then 1 else Fanout(HooksAt(c, k - 1), 0) * TotalFanout(c, k - 1)
  }

  lemma {:induction false} MadeIsProduct(c: Config, tr: seq<Event>, k: nat)
    requires c.Valid() && k < |c.who| && NoRefusal(tr)
    requires Tried(tr, 0) == Fanout(HooksAt(c, 0), 0)
    requires forall j :: 0 < j < |c.who| ==> Tried(tr, j) == Fanout(HooksAt(c, j), 0) * Made(tr, j - 1)
    ensures Made(tr, k) == TotalFanout(c, k + 1)
  {
    TriedAreMade(tr, k);
    if k > 0 {
      MadeIsProduct(c, tr, k - 1);
    } else {
      assert TotalFanout(c, 0) == 1;
    }
  }

  // Main result: with fixed call counts and no failing check, the batch write
  // runs as many times as the product of those counts over all builders and hooks.
  lemma WritesAreProduct(c: Config, sups: seq<Supply>, v: View, cur: seq<nat>)
    requires ValidStart(c, v, cur) && |sups| == |c.who| > 0 && v.trace == [] && AllFixed(c)
    requires NoRefusal(BulkSave(c, None, sups, v, cur).1.view.trace)
    ensures Writes(BulkSave(c, None, sups, v, cur).1.view.trace) == TotalFanout(c, |c.who|)
  {
    CallsAreConserved(c, sups, v, cur);
    MadeIsProduct(c, BulkSave(c, None, sups, v, cur).1.view.trace, |c.who| - 1);
  }

  lemma {:induction false} FanoutPositive(hooks: seq<Hook>, h: nat)
    requires h <= |hooks|
    ensures Fanout(hooks, h) > 0 <==> forall k :: h <= k < |hooks| ==> Count(hooks[k]) > 0
    decreases |hooks| - h
  {
    if h < |hooks| {
      FanoutPositive(hooks, h + 1);
      TimesIsProduct(Count(hooks[h]), Fanout(hooks, h + 1));
    }
  }

  // Every hook at positions 0..k-1 calls `next` at least once.
  ghost predicate HooksCall(c: Config, k: nat)
    requires c.Valid() && k <= |c.who|
  {
    forall i, h :: 0 <= i < k && 0 <= h < |HooksAt(c, i)| ==> Count(HooksAt(c, i)[h]) > 0
  }

  lemma {:induction false} TotalPositive(c: Config, k: nat)
    requires c.Valid() && k <= |c.who|
    ensures TotalFanout(c, k) > 0 <==> HooksCall(c, k)
  {
    if k > 0 {
      TotalPositive(c, k - 1);
      FanoutPositive(HooksAt(c, k - 1), 0);
      if HooksCall(c, k) {
        assert HooksCall(c, k - 1);
        assert forall hook :: hook in HooksAt(c, k - 1) ==> Count(hook) > 0;
      }
    }
  }

  lemma {:induction false} MadeIffCreated(tr: seq<Event>, i: nat)
    ensures Made(tr, i) > 0 <==> LastCreated(tr, i) >= 0
  {
    if tr != [] {
      MadeIffCreated(tr[..|tr| - 1], i);
    }
  }

  predicate AllFilled(nodes: seq<Option<nat>>) {
    forall i :: 0 <= i < |nodes| ==> nodes[i].Some?
  }

  // The slice of a successful Save has no nil entry exactly when no hook skips `next`.
  lemma NodesFilledIffHooksCall(c: Config, sups: seq<Supply>, v: View, cur: seq<nat>)
    requires ValidStart(c, v, cur) && |sups| == |c.who| > 0 && v.trace == [] && AllFixed(c)
    requires NoRefusal(BulkSave(c, None, sups, v, cur).1.view.trace)
    ensures var (r, t) := BulkSave(c, None, sups, v, cur);
      && (AllFilled(t.nodes) <==> HooksCall(c, |c.who|))
      && (r.Saved? ==> (AllFilled(r.nodes) <==> HooksCall(c, |c.who|)))
  {
    var t := BulkSave(c, None, sups, v, cur).1;
    CallsAreConserved(c, sups, v, cur);
    BatchSeesEveryBuilder(c, None, sups, v, cur);
    forall i | 0 <= i < |c.who| ensures t.nodes[i].Some? <==> HooksCall(c, i + 1) {
      NodeFilled(c, t, i);
    }
    NodeFilled(c, t, |c.who| - 1);
    if HooksCall(c, |c.who|) {
      forall i | 0 <= i < |c.who| ensures t.nodes[i].Some? {
        assert HooksCall(c, i + 1);
      }
    }
  }

  lemma NodeFilled(c: Config, t: State, i: nat)
    requires Wf(c, t) && Coherent(c, t) && i < |c.who| && NoRefusal(t.view.trace)
    requires Tried(t.view.trace, 0) == Fanout(HooksAt(c, 0), 0)
    requires forall j :: 0 < j < |c.who| ==>
      Tried(t.view.trace, j) == Fanout(HooksAt(c, j), 0) * Made(t.view.trace, j - 1)
    ensures t.nodes[i].Some? <==> HooksCall(c, i + 1)
  {
    MadeIsProduct(c, t.view.trace, i);
    MadeIffCreated(t.view.trace, i);
    CreatedIffSpec(c.entity, t.view.trace, i);
    TotalPositive(c, i + 1);
  }

  // In particular the write runs exactly once when every hook calls `next` once.
  lemma OnceEachIsOneWrite(c: Config, sups: seq<Supply>, v: View, cur: seq<nat>)
    requires ValidStart(c, v, cur) && |sups| == |c.who| > 0 && v.trace == [] && AllFixed(c)
    requires NoRefusal(BulkSave(c, None, sups, v, cur).1.view.trace)
    requires forall b, h :: 0 <= b < |c.hooks| && 0 <= h < |c.hooks[b]| ==> Count(c.hooks[b][h]) == 1
    ensures Writes(BulkSave(c, None, sups, v, cur).1.view.trace) == 1
  {
    WritesAreProduct(c, sups, v, cur);
    TotalOfOnes(c, |c.who|);
  }

  lemma {:induction false} FanoutOfOnes(hooks: seq<Hook>, h: nat)
    requires h <= |hooks| && forall k :: 0 <= k < |hooks| ==> Count(hooks[k]) == 1
    ensures Fanout(hooks, h) == 1
    decreases |hooks| - h
  {
    if h < |hooks| {
      FanoutOfOnes(hooks, h + 1);
    }
  }

  lemma {:induction false} TotalOfOnes(c: Config, k: nat)
    requires c.Valid() && k <= |c.who|
    requires forall b, h :: 0 <= b < |c.hooks| && 0 <= h < |c.hooks[b]| ==> Count(c.hooks[b][h]) == 1
    ensures TotalFanout(c, k) == 1
  {
    if k > 0 {
      TotalOfOnes(c, k - 1);
      FanoutOfOnes(HooksAt(c, k - 1), 0);
    }
  }
}
