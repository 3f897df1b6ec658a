// The order of events when every hook calls `next` once.
module Nesting {
  import opened Wrappers
  import opened Schema
  import opened Runtime
  import opened Saves
  import opened ChainCoherence
  import opened Relaying

  // An event without the data it carries.
  function Erase(e: Event): Event {
    match e
    case Created(i, _, _, _) => Created(i, None, map[], 0)
    case Done(i, _) => Done(i, 0)
    case _ => e
  }

  function EraseAll(tr: seq<Event>): seq<Event> {
    seq(|tr|, k requires 0 <= k < |tr| => Erase(tr[k]))
  }

  // The way in: each builder's hooks in registration order, then its creation,
  // then the next builder.
  function Descent(c: Config, i: nat, h: nat): seq<Event>
    requires c.Valid() && i < |c.who| && h <= |HooksAt(c, i)|
    decreases |c.who| - i, |HooksAt(c, i)| - h
  {
    if h < |HooksAt(c, i)| then [Enter(i, h)] + Descent(c, i, h + 1)
    else [Created(i, None, map[], 0)] + if i + 1 < |c.who| then Descent(c, i + 1, 0) else []
  }

  // What answers an event of the way in on the way out; `inside` is the verdict of the
  // run inside it, without which a creation is not marked done.
  function Mirror(e: Event, inside: bool): seq<Event> {
    match e
    case Enter(i, h) => [Exit(i, h)]
    case Created(i, _, _, _) => if inside then [Done(i, 0)] else []
    case _ => []
  }

  // The way out: the mirror images, last first.
  function Out(down: seq<Event>, inside: seq<bool>): seq<Event>
    requires |inside| == |down|
  {
    if down == [] then [] else Out(down[1..], inside[1..]) + Mirror(down[0], inside[0])
  }

  // How the verdict of a step of the way in comes from that of the run inside it: a
  // creation passes it on, and a hook decides.
  ghost predicate Passes(c: Config, e: Event, out: bool, inside: bool)
    requires c.Valid()
  {
    match e
    case Enter(i, h) => i < |c.who| && h < |HooksAt(c, i)| && Decides(HooksAt(c, i)[h], inside, out)
    case Created(_, _, _, _) => out <==> inside
    case _ => false
  }

  // Where a run along the way `d` turned round after k steps: at the write when it got
  // that far, and before that only where a creation was refused.
  ghost predicate TurnsAt(d: seq<Event>, ok: bool, k: nat, w: Event)
    requires k <= |d|
  {
    if k == |d| then w.Write? && (ok <==> w.reply.Stored?)
    else !ok && d[k].Created? && (w.Invalid? || w.Rejected?) && w.pos == d[k].pos
  }

  // The database gave the answer that a write reports.
  ghost predicate Replied(c: Config, w: Event)
    requires w.Write?
  {
    exists before :: c.database(before, w.specs) == w.reply
  }

  // Such a run: the first k steps, the turning point w, and the mirror image of those
  // steps. oks[p] is the verdict of step p with all that is inside it, and oks[k] that
  // of the turning point.
  ghost predicate Turned(c: Config, d: seq<Event>, run: seq<Event>, oks: seq<bool>, k: nat, w: Event)
    requires c.Valid()
  {
    && k <= |d| && |oks| == k + 1
    && EraseAll(run) == d[..k] + [w] + Out(d[..k], oks[1..])
    && TurnsAt(d, oks[k], k, w) && (w.Write? ==> Replied(c, w))
    && forall p :: 0 <= p < k ==> Passes(c, d[p], oks[p], oks[p + 1])
  }

  lemma Surrounded(c: Config, d: seq<Event>, run: seq<Event>, oks: seq<bool>, k: nat, w: Event,
                   e: Event, out: bool, back: seq<Event>)
    requires c.Valid() && Turned(c, d, run, oks, k, w)
    requires EraseAll(back) == Mirror(Erase(e), oks[0]) && Passes(c, Erase(e), out, oks[0])
    ensures Turned(c, [Erase(e)] + d, [e] + run + back, [out] + oks, k + 1, w)
  {
    var d' := [Erase(e)] + d;
    assert d'[..k + 1] == [Erase(e)] + d[..k];
    assert ([out] + oks)[1..] == oks == [oks[0]] + oks[1..];
    EraseSurround(e, run, back);
  }

  lemma EraseSurround(e: Event, run: seq<Event>, back: seq<Event>)
    ensures EraseAll([e] + run + back) == [Erase(e)] + EraseAll(run) + EraseAll(back)
  {
  }

  lemma AppendThree<T>(xs: seq<T>, a: seq<T>, b: seq<T>, c: seq<T>)
    ensures xs + (a + b + c) == xs + a + b + c
    ensures c == [] ==> xs + a + b + c == xs + a + b
  {
  }

  // The way in from inside the creation at position i.
  function Below(c: Config, i: nat): seq<Event>
    requires c.Valid() && i < |c.who|
  {
    if i + 1 < |c.who| then Descent(c, i + 1, 0) else []
  }

  lemma {:induction false} NestBase(c: Config, i: nat, arg: Arg, s: State)
      returns (run: seq<Event>, oks: seq<bool>, k: nat, w: Event)
    requires Wf(c, s) && i < |c.who| && AllCallOnce(c)
    ensures Base(c, i, arg, s).1.view.trace == s.view.trace + run
    ensures Turned(c, Descent(c, i, |HooksAt(c, i)|), run, oks, k, w) && oks[0] == Base(c, i, arg, s).0.Ok?
    decreases |c.who| - i, 0, 0, 0
  {
    var d := Descent(c, i, |HooksAt(c, i)|);
    k, oks := 0, [false];
    if arg.Foreign? || arg.m >= |s.view.muts| {
      w := Rejected(i);
      run := [w];
    } else {
      var s0 := Receive(c, i, arg.m, s);
      var missing := Missing(c.entity.columns, s0.view.muts[s0.cur[c.who[i]]].fields);
      if missing.Some? {
        w := Invalid(i, missing.value);
        run := [w];
      } else {
        run, oks, k, w := NestCreation(c, i, Received(c, i, arg.m, s), s0);
      }
    }
  }

  // From the creation at position i on: everything below it, then its completion.
  lemma {:induction false} NestCreation(c: Config, i: nat, m: nat, s: State)
      returns (run: seq<Event>, oks: seq<bool>, k: nat, w: Event)
    requires Wf(c, s) && i < |c.who| && m < |s.view.muts| && AllCallOnce(c)
    ensures var (err, t) := Inner(c, i, CreateAt(c, i, m, s));
      && (if err.None? then Complete(c, i, m, t) else t).view.trace == s.view.trace + run
      && Turned(c, Descent(c, i, |HooksAt(c, i)|), run, oks, k, w)
      && oks[0] == err.None?
    decreases |c.who| - i - 1, if i + 1 < |c.who| then |HooksAt(c, i + 1)| else 0, 3, 0
  {
    var s1 := CreateAt(c, i, m, s);
    var e := Created(i, SpecId(c.entity, s.view, m), s.view.muts[m].fields, |s.view.store|);
    var inner: seq<Event>, below: seq<bool>;
    inner, below, k, w := NestInner(c, i, s1);
    var ok := Inner(c, i, s1).0.None?;
    var back := if ok then [Done(i, m)] else [];
    Surrounded(c, Below(c, i), inner, below, k, w, e, ok, back);
    AppendThree(s.view.trace, [e], inner, back);
    run, oks, k := [e] + inner + back, [ok] + below, k + 1;
  }

  lemma {:induction false} NestInner(c: Config, i: nat, s: State)
      returns (run: seq<Event>, oks: seq<bool>, k: nat, w: Event)
    requires Wf(c, s) && i < |c.who| && AllCallOnce(c)
    ensures Inner(c, i, s).1.view.trace == s.view.trace + run
    ensures Turned(c, Below(c, i), run, oks, k, w) && oks[0] == Inner(c, i, s).0.None?
    decreases |c.who| - i - 1, if i + 1 < |c.who| then |HooksAt(c, i + 1)| else 0, 2, 0
  {
    if i + 1 < |c.who| {
      run, oks, k, w := NestMutate(c, i + 1, 0, Own(s.cur[c.who[i + 1]]), s);
    } else {
      k, w := 0, Write(s.specs, c.database(s.view.trace, s.specs));
      run, oks := [w], [w.reply.Stored?];
    }
  }

  // A hook's two events around the run inside it.
  lemma HookAround(c: Config, i: nat, h: nat, before: seq<Event>, inner: seq<Event>, below: seq<bool>, k: nat,
                   w: Event, out: bool)
      returns (run: seq<Event>, oks: seq<bool>, k': nat)
    requires c.Valid() && i < |c.who| && h < |HooksAt(c, i)| && Turned(c, Descent(c, i, h + 1), inner, below, k, w)
    requires Decides(HooksAt(c, i)[h], below[0], out)
    ensures before + [Enter(i, h)] + inner + [Exit(i, h)] == before + run
    ensures Turned(c, Descent(c, i, h), run, oks, k', w) && oks[0] == out
  {
    run, oks, k' := [Enter(i, h)] + inner + [Exit(i, h)], [out] + below, k + 1;
    Surrounded(c, Descent(c, i, h + 1), inner, below, k, w, Enter(i, h), out, [Exit(i, h)]);
    AppendThree(before, [Enter(i, h)], inner, [Exit(i, h)]);
  }

  lemma {:induction false} NestMutate(c: Config, i: nat, h: nat, arg: Arg, s: State)
      returns (run: seq<Event>, oks: seq<bool>, k: nat, w: Event)
    requires Wf(c, s) && i < |c.who| && h <= |HooksAt(c, i)| && AllCallOnce(c)
    ensures Mutate(c, i, h, arg, s).1.view.trace == s.view.trace + run
    ensures Turned(c, Descent(c, i, h), run, oks, k, w) && oks[0] == Mutate(c, i, h, arg, s).0.Ok?
    decreases |c.who| - i, |HooksAt(c, i)| - h, 1, 0
  {
    if h == |HooksAt(c, i)| {
      run, oks, k, w := NestBase(c, i, arg, s);
    } else {
      run, oks, k, w := NestHook(c, i, h, arg, s);
    }
  }

  lemma {:induction false} NestHook(c: Config, i: nat, h: nat, arg: Arg, s: State)
      returns (run: seq<Event>, oks: seq<bool>, k: nat, w: Event)
    requires Wf(c, s) && i < |c.who| && h < |HooksAt(c, i)| && AllCallOnce(c)
    ensures Mutate(c, i, h, arg, s).1.view.trace == s.view.trace + run
    ensures Turned(c, Descent(c, i, h), run, oks, k, w) && oks[0] == Mutate(c, i, h, arg, s).0.Ok?
    decreases |c.who| - i, |HooksAt(c, i)| - h, 0, 0
  {
    var a, s1, o, t := OnceTurn(c, i, h, arg, s);
    run, oks, k, w := NestMutate(c, i, h + 1, a, s1);
    run, oks, k := HookAround(c, i, h, s.view.trace, run, oks, k, w, Mutate(c, i, h, arg, s).0.Ok?);
  }

  // Main result: with hooks that call `next` once, whatever they make of its verdict,
  // the trace of a bulk save is a prefix of the way in, a turning point, and the exact
  // mirror image of that prefix, where a position is marked done exactly if the run
  // inside it reported success. The verdicts, from the turning point outwards, are
  // those of the hooks, and the outermost one is the save's.
  lemma CallOnceIsNested(c: Config, sups: seq<Supply>, v: View, cur: seq<nat>)
    requires ValidStart(c, v, cur) && |sups| == |c.who| > 0 && v.trace == [] && AllCallOnce(c)
    ensures var (r, t) := BulkSave(c, None, sups, v, cur);
      exists oks: seq<bool>, k: nat, w: Event ::
        Turned(c, Descent(c, 0, 0), t.view.trace, oks, k, w) && oks[0] == r.Saved?
  {
    var s1 := AllDefaults(c, sups, 0, Fresh(c, v, cur));
    var run, oks, k, w := NestMutate(c, 0, 0, Own(s1.cur[c.who[0]]), s1);
    var t := BulkSave(c, None, sups, v, cur).1;
    assert t.view.trace == [] + run == run;
    assert Turned(c, Descent(c, 0, 0), t.view.trace, oks, k, w);
  }

  // The way out when all verdicts agree: a failed run marks nothing done.
  function Unwind(down: seq<Event>, ok: bool): seq<Event> {
    if down == [] then [] else Unwind(down[1..], ok) + Mirror(down[0], ok)
  }

  lemma {:induction false} OutIsUnwind(down: seq<Event>, inside: seq<bool>, ok: bool)
    requires |inside| == |down| && forall p :: 0 <= p < |inside| ==> inside[p] == ok
    ensures Out(down, inside) == Unwind(down, ok)
  {
    if down != [] {
      OutIsUnwind(down[1..], inside[1..], ok);
    }
  }

  ghost predicate Shape(d: seq<Event>, run: seq<Event>, ok: bool, k: nat, w: Event) {
    && k <= |d|
    && EraseAll(run) == d[..k] + [w] + Unwind(d[..k], ok)
    && TurnsAt(d, ok, k, w)
  }

  // Relaying hooks make all verdicts the one of the turning point.
  lemma {:induction false} VerdictsAgree(c: Config, d: seq<Event>, run: seq<Event>, oks: seq<bool>, k: nat, w: Event,
                                         p: nat)
    requires c.Valid() && AllRelay(c) && Turned(c, d, run, oks, k, w) && p <= k
    ensures oks[p] == oks[k]
    decreases k - p
  {
    if p < k {
      VerdictsAgree(c, d, run, oks, k, w, p + 1);
      assert Passes(c, d[p], oks[p], oks[p + 1]);
      if d[p].Enter? {
        assert Relays(HooksAt(c, d[p].pos)[d[p].hook]);
      }
    }
  }

  // With relaying hooks, so, the save succeeds exactly when it turned at a write that
  // the database accepted; otherwise the first refused creation is where it turned,
  // and the write was never attempted.
  lemma BulkSaveIsNested(c: Config, sups: seq<Supply>, v: View, cur: seq<nat>)
    requires ValidStart(c, v, cur) && |sups| == |c.who| > 0 && v.trace == [] && AllRelay(c)
    ensures var (r, t) := BulkSave(c, None, sups, v, cur);
      exists k, w :: Shape(Descent(c, 0, 0), t.view.trace, r.Saved?, k, w)
  {
    var (r, t) := BulkSave(c, None, sups, v, cur);
    CallOnceIsNested(c, sups, v, cur);
    var oks: seq<bool>, k: nat, w: Event :| Turned(c, Descent(c, 0, 0), t.view.trace, oks, k, w) && oks[0] == r.Saved?;
    forall p: nat | p <= k ensures oks[p] == oks[k] {
      VerdictsAgree(c, Descent(c, 0, 0), t.view.trace, oks, k, w, p);
    }
    OutIsUnwind(Descent(c, 0, 0)[..k], oks[1..], r.Saved?);
    assert Shape(Descent(c, 0, 0), t.view.trace, r.Saved?, k, w);
  }

  // The events between two states.
  function Between(s: State, t: State): seq<Event>
    requires s.view.trace <= t.view.trace
  {
    t.view.trace[|s.view.trace|..]
  }

  ghost predicate Completes(run: seq<Event>, m: nat) {
    exists p :: 0 <= p < |run| && run[p].Done? && run[p].m == m
  }

  // Bulk saves only: a mutation is done afterwards exactly if it was before or a
  // completion marked it, whatever the hooks do.
  ghost predicate Marked(s: State, t: State)
    requires s.view.trace <= t.view.trace
  {
    && |t.view.muts| == |s.view.muts|
    && forall m :: 0 <= m < |s.view.muts| ==>
      (t.view.muts[m].done <==> s.view.muts[m].done || Completes(Between(s, t), m))
  }

  lemma MarkedTrans(s: State, t: State, u: State)
    requires s.view.trace <= t.view.trace <= u.view.trace && Marked(s, t) && Marked(t, u)
    ensures Marked(s, u)
  {
    var x, y := Between(s, t), Between(t, u);
    assert Between(s, u) == x + y;
    forall m: nat ensures Completes(x + y, m) <==> Completes(x, m) || Completes(y, m) {
      if p :| 0 <= p < |x| && x[p].Done? && x[p].m == m {
        assert (x + y)[p] == x[p];
      }
      if p :| 0 <= p < |y| && y[p].Done? && y[p].m == m {
        assert (x + y)[|x| + p] == y[p];
      }
    }
  }

  lemma SameFlags(s: State, t: State)
    requires s.view.trace <= t.view.trace && |t.view.muts| == |s.view.muts|
    requires forall e :: e in Between(s, t) ==> !e.Done?
    requires forall m :: 0 <= m < |s.view.muts| ==> t.view.muts[m].done == s.view.muts[m].done
    ensures Marked(s, t)
  {
  }

  lemma EditedFlags(es: seq<Edit>, s: State)
    requires ValidView(s.view)
    ensures Marked(s, Edited(es, s))
  {
    EditsKeepFlags(es, s.view);
    assert Between(s, Edited(es, s)) == [];
    SameFlags(s, Edited(es, s));
  }

  lemma CompleteMarks(c: Config, i: nat, m: nat, s: State)
    requires Wf(c, s) && i < |c.who| && m < |s.view.muts| && s.nodes[i].Some?
    ensures Marked(s, Complete(c, i, m, s))
  {
    var t := Complete(c, i, m, s);
    assert Between(s, t) == [Done(i, m)];
    assert Between(s, t)[0].m == m;
  }

  lemma {:induction false} BaseMarks(c: Config, i: nat, arg: Arg, s: State)
    requires Wf(c, s) && i < |c.who| && !c.single
    ensures Marked(s, Base(c, i, arg, s).1)
    decreases |c.who| - i, 0, 0, 0
  {
    if arg.Foreign? || arg.m >= |s.view.muts| {
      SameFlags(s, Log(s, Rejected(i)));
    } else {
      var missing := Missing(c.entity.columns, s.view.muts[s.cur[c.who[i]]].fields);
      if missing.Some? {
        SameFlags(s, Log(s, Invalid(i, missing.value)));
      } else {
        var s1 := CreateAt(c, i, arg.m, s);
        SameFlags(s, s1);
        InnerMarks(c, i, s1);
        var (err, s2) := Inner(c, i, s1);
        MarkedTrans(s, s1, s2);
        if err.None? {
          CompleteMarks(c, i, arg.m, s2);
          MarkedTrans(s, s2, Complete(c, i, arg.m, s2));
        }
      }
    }
  }

  lemma {:induction false} InnerMarks(c: Config, i: nat, s: State)
    requires Wf(c, s) && i < |c.who| && !c.single
    ensures Marked(s, Inner(c, i, s).1)
    decreases |c.who| - i - 1, if i + 1 < |c.who| then |HooksAt(c, i + 1)| else 0, 2, 0
  {
    if i + 1 < |c.who| {
      MutateMarks(c, i + 1, 0, Own(s.cur[c.who[i + 1]]), s);
    } else {
      SameFlags(s, Inner(c, i, s).1);
    }
  }

  lemma {:induction false} MutateMarks(c: Config, i: nat, h: nat, arg: Arg, s: State)
    requires Wf(c, s) && i < |c.who| && h <= |HooksAt(c, i)| && !c.single
    ensures Marked(s, Mutate(c, i, h, arg, s).1)
    decreases |c.who| - i, |HooksAt(c, i)| - h, 1, 0
  {
    if h == |HooksAt(c, i)| {
      BaseMarks(c, i, arg, s);
    } else {
      var s1 := Log(s, Enter(i, h));
      SameFlags(s, s1);
      HookMarks(c, i, h, arg, [], s1);
      var t := RunHook(c, i, h, arg, [], s1).1;
      SameFlags(t, Log(t, Exit(i, h)));
      MarkedTrans(s, s1, t);
      MarkedTrans(s, t, Log(t, Exit(i, h)));
    }
  }

  lemma {:induction false} HookMarks(c: Config, i: nat, h: nat, arg: Arg, seen: seq<Past>, s: State)
    requires Wf(c, s) && i < |c.who| && h < |HooksAt(c, i)| && |seen| <= Allowed(HooksAt(c, i)[h], arg, seen, s.view)
      && !c.single
    ensures Marked(s, RunHook(c, i, h, arg, seen, s).1)
    decreases |c.who| - i, |HooksAt(c, i)| - h, 0, Allowed(HooksAt(c, i)[h], arg, seen, s.view) - |seen|
  {
    var hook := HooksAt(c, i)[h];
    if |seen| == Allowed(hook, arg, seen, s.view) {
      EditedFlags(hook.last(arg, s.view, seen).edits, s);
    } else {
      match hook.step(arg, s.view, seen)
      case Stop(fin) => EditedFlags(fin.edits, s);
      case CallNext(edits, a) =>
        var s1 := Edited(edits, s);
        EditedFlags(edits, s);
        MutateMarks(c, i, h + 1, a, s1);
        var (o, t) := Mutate(c, i, h + 1, a, s1);
        HookMarks(c, i, h, arg, seen + [Past(s.view, o)], t);
        MarkedTrans(s, s1, t);
        MarkedTrans(s, t, RunHook(c, i, h, arg, seen + [Past(s.view, o)], t).1);
    }
  }

  lemma {:induction false} DescentKinds(c: Config, i: nat, h: nat)
    requires c.Valid() && i < |c.who| && h <= |HooksAt(c, i)|
    ensures forall e :: e in Descent(c, i, h) ==> e.Enter? || e.Created?
    ensures forall j :: i <= j < |c.who| ==> Created(j, None, map[], 0) in Descent(c, i, h)
    decreases |c.who| - i, |HooksAt(c, i)| - h
  {
    if h < |HooksAt(c, i)| {
      DescentKinds(c, i, h + 1);
    } else if i + 1 < |c.who| {
      DescentKinds(c, i + 1, 0);
    }
  }

  lemma {:induction false} UnwindKinds(down: seq<Event>, ok: bool)
    requires forall e :: e in down ==> e.Enter? || e.Created?
    ensures forall e :: e in Unwind(down, ok) ==> e.Exit? || (ok && e.Done?)
    ensures ok ==> forall e :: e in down && e.Created? ==> Done(e.pos, 0) in Unwind(down, ok)
  {
    if down != [] {
      UnwindKinds(down[1..], ok);
    }
  }

  ghost predicate Completed(run: seq<Event>, i: nat) {
    exists p :: 0 <= p < |run| && run[p].Done? && run[p].pos == i
  }

  ghost predicate WasStored(run: seq<Event>) {
    exists p :: 0 <= p < |run| && run[p].Write? && run[p].reply.Stored?
  }

  // The three parts of a run: the way in, the turning point, the way out.
  lemma ShapeKinds(d: seq<Event>, run: seq<Event>, ok: bool, k: nat, w: Event)
    requires Shape(d, run, ok, k, w)
    requires forall e :: e in d ==> e.Enter? || e.Created?
    ensures k < |run| && Erase(run[k]) == w
    ensures forall p :: 0 <= p < k ==> run[p].Enter? || run[p].Created?
    ensures forall p :: k < p < |run| ==> run[p].Exit? || (ok && run[p].Done?)
  {
    var up := Unwind(d[..k], ok);
    UnwindKinds(d[..k], ok);
    var er := EraseAll(run);
    assert |er| == |run| && forall p :: 0 <= p < |run| ==> er[p] == Erase(run[p]);
    forall p | 0 <= p < k ensures run[p].Enter? || run[p].Created? {
      assert er[p] == d[p] && d[p] in d;
    }
    forall p | k < p < |run| ensures run[p].Exit? || (ok && run[p].Done?) {
      assert er[p] == up[p - k - 1] && up[p - k - 1] in up;
    }
  }

  lemma ShapeCompletes(d: seq<Event>, run: seq<Event>, k: nat, w: Event, e: Event)
    requires Shape(d, run, true, k, w)
    requires forall x :: x in d ==> x.Enter? || x.Created?
    requires e in d && e.Created?
    ensures Completed(run, e.pos)
  {
    var up := Unwind(d[..k], true);
    assert d[..k] == d;
    UnwindKinds(d, true);
    var q :| 0 <= q < |up| && up[q] == Done(e.pos, 0);
    assert EraseAll(run)[k + 1 + q] == up[q];
    assert Erase(run[k + 1 + q]) == up[q];
  }

  lemma VerdictOfShape(d: seq<Event>, run: seq<Event>, ok: bool, k: nat, w: Event)
    requires Shape(d, run, ok, k, w)
    requires forall e :: e in d ==> e.Enter? || e.Created?
    ensures ok <==> WasStored(run)
    ensures (exists p :: 0 <= p < |run| && (run[p].Invalid? || run[p].Rejected?))
      <==> !exists p :: 0 <= p < |run| && run[p].Write?
    ensures !ok ==> forall p :: 0 <= p < |run| ==> !run[p].Done?
  {
    ShapeKinds(d, run, ok, k, w);
    assert run[k] == w;
    if ok {
      assert run[k].Write? && run[k].reply.Stored?;
    }
  }

  lemma {:induction false} CreatedStays(tr: seq<Event>, p: nat, j: nat)
    requires p <= |tr| && LastCreated(tr[..p], j) >= 0
    ensures LastCreated(tr, j) >= 0
  {
    if p < |tr| {
      var b := tr[..|tr| - 1];
      assert b[..p] == tr[..p];
      CreatedStays(b, p, j);
    } else {
      assert tr[..p] == tr;
    }
  }

  lemma {:induction false} DefaultsKeepFlags(c: Config, sups: seq<Supply>, i: nat, s: State)
    requires Wf(c, s) && |sups| == |c.who| && i <= |c.who|
    ensures var t := AllDefaults(c, sups, i, s);
      forall m :: 0 <= m < |s.view.muts| ==> t.view.muts[m].done == s.view.muts[m].done
    decreases |c.who| - i
  {
    if i < |c.who| {
      DefaultsKeepFlags(c, sups, i + 1, DefaultsOn(c, sups[i], c.who[i], s));
    }
  }

  // A save marks exactly what it completes.
  lemma SaveMarks(c: Config, sups: seq<Supply>, v: View, cur: seq<nat>)
    requires ValidStart(c, v, cur) && |sups| == |c.who| > 0 && v.trace == [] && !c.single
    ensures var t := BulkSave(c, None, sups, v, cur).1;
      forall m :: 0 <= m < |v.muts| ==> (t.view.muts[m].done <==> v.muts[m].done || Completes(t.view.trace, m))
  {
    var t := BulkSave(c, None, sups, v, cur).1;
    var s1 := AllDefaults(c, sups, 0, Fresh(c, v, cur));
    DefaultsKeepFlags(c, sups, 0, Fresh(c, v, cur));
    MutateMarks(c, 0, 0, Own(s1.cur[c.who[0]]), s1);
    assert Between(s1, t) == t.view.trace;
  }

  // Main result: with such hooks a bulk save succeeds exactly when the database
  // stored the batch. Then no node is nil, every position was completed, and the
  // mutations the builders hold are done; on failure no mutation is newly marked
  // done, and a refused creation rules out that the write was attempted at all.
  lemma BulkSaveVerdict(c: Config, sups: seq<Supply>, v: View, cur: seq<nat>)
    requires ValidStart(c, v, cur) && |sups| == |c.who| > 0 && v.trace == [] && AllRelay(c) && !c.single
    ensures var (r, t) := BulkSave(c, None, sups, v, cur);
      && (r.Saved? <==> WasStored(t.view.trace))
      && (r.Saved? ==> forall i :: 0 <= i < |c.who| ==> r.nodes[i].Some? && Completed(t.view.trace, i))
      && (r.Saved? ==> forall j :: 0 <= j < |c.who| ==> t.view.muts[t.cur[c.who[j]]].done)
      && (forall m :: 0 <= m < |v.muts| ==> (t.view.muts[m].done <==> v.muts[m].done || Completes(t.view.trace, m)))
      && (r.BulkFailed? ==> forall m :: 0 <= m < |v.muts| ==> t.view.muts[m].done == v.muts[m].done)
      && ((exists p :: 0 <= p < |t.view.trace| && (t.view.trace[p].Invalid? || t.view.trace[p].Rejected?))
          <==> !exists p :: 0 <= p < |t.view.trace| && t.view.trace[p].Write?)
  {
    var (r, t) := BulkSave(c, None, sups, v, cur);
    var tr := t.view.trace;
    HeldAreDone(c, sups, v, cur);
    BulkSaveIsNested(c, sups, v, cur);
    var k, w :| Shape(Descent(c, 0, 0), tr, r.Saved?, k, w);
    DescentKinds(c, 0, 0);
    VerdictOfShape(Descent(c, 0, 0), tr, r.Saved?, k, w);
    SaveMarks(c, sups, v, cur);
    if r.Saved? {
      BatchSeesEveryBuilder(c, None, sups, v, cur);
      var p :| 0 <= p < |tr| && tr[p].Write? && tr[p].reply.Stored?;
      forall i | 0 <= i < |c.who| ensures r.nodes[i].Some? && Completed(tr, i) {
        CreatedStays(tr, p, i);
        NodeIffCreated(tr, i);
        ShapeCompletes(Descent(c, 0, 0), tr, k, w, Created(i, None, map[], 0));
      }
    }
  }

  lemma {:induction false} NodeIffCreated(tr: seq<Event>, j: nat)
    ensures NodeAt(tr, j).Some? <==> LastCreated(tr, j) >= 0
  {
    if tr != [] {
      NodeIffCreated(tr[..|tr| - 1], j);
    }
  }

  // A hook that calls `next` and reports success whatever came back.
  function Swallow(): Hook {
    Hook((_, _) => 1, (arg, _, _) => CallNext([], arg), (_, _, _) => Finish([], Ok(OtherValue(0))))
  }

  // Why the hooks must pass failures on: with a swallowing hook outermost at the
  // first position a bulk save reports success, stored or not.
  lemma SwallowedFailure(c: Config, sups: seq<Supply>, v: View, cur: seq<nat>)
    requires ValidStart(c, v, cur) && |sups| == |c.who| > 0
    requires |HooksAt(c, 0)| > 0 && HooksAt(c, 0)[0] == Swallow()
    ensures BulkSave(c, None, sups, v, cur).0.Saved?
  {
    var s1 := AllDefaults(c, sups, 0, Fresh(c, v, cur));
    var arg := Own(s1.cur[c.who[0]]);
    var s2 := Log(s1, Enter(0, 0));
    var (o, t) := Mutate(c, 0, 1, arg, Edited([], s2));
    assert RunHook(c, 0, 0, arg, [], s2) == RunHook(c, 0, 0, arg, [] + [Past(s2.view, o)], t);
  }
}
