// Bulk saves some of whose hooks drop errors: what a reported success means.
module Absorbing {
  import opened Wrappers
  import opened Schema
  import opened Runtime
  import opened Saves
  import opened CallCounting
  import opened SkippedCalls
  import opened Relaying
  import opened Nesting

  // The hook calls `next` once and reports success whatever came back.
  ghost predicate Absorbs(hook: Hook) {
    CallsOnce(hook) && forall arg, v, past: Past :: hook.last(arg, v, [past]).result.Ok?
  }

  // Every hook either passes the verdict of `next` on or absorbs it.
  ghost predicate AllRelayOrAbsorb(c: Config) {
    forall b, h :: 0 <= b < |c.hooks| && 0 <= h < |c.hooks[b]| ==> Relays(c.hooks[b][h]) || Absorbs(c.hooks[b][h])
  }

  // The event enters an absorbing hook.
  ghost predicate AbsorbsAt(c: Config, e: Event)
    requires c.Valid()
  {
    e.Enter? && e.pos < |c.who| && e.hook < |HooksAt(c, e.pos)| && Absorbs(HooksAt(c, e.pos)[e.hook])
  }

  ghost predicate EntersAbsorber(c: Config, tr: seq<Event>)
    requires c.Valid()
  {
    exists p :: 0 <= p < |tr| && AbsorbsAt(c, tr[p])
  }

  // A step succeeds exactly if the turning point did or an absorbing hook is between.
  lemma {:induction false} VerdictFrom(c: Config, d: seq<Event>, run: seq<Event>, oks: seq<bool>, k: nat, w: Event,
                                       p: nat)
    requires c.Valid() && AllRelayOrAbsorb(c) && Turned(c, d, run, oks, k, w) && p <= k
    ensures oks[p] <==> oks[k] || exists q :: p <= q < k && AbsorbsAt(c, d[q])
    decreases k - p
  {
    if p < k {
      VerdictFrom(c, d, run, oks, k, w, p + 1);
      assert Passes(c, d[p], oks[p], oks[p + 1]);
    }
  }

  lemma {:induction false} OutKinds(down: seq<Event>, inside: seq<bool>)
    requires |inside| == |down|
    ensures forall e :: e in Out(down, inside) ==> e.Exit? || e.Done?
  {
    if down != [] {
      OutKinds(down[1..], inside[1..]);
    }
  }

  // The three parts of a run.
  lemma TurnedParts(c: Config, d: seq<Event>, run: seq<Event>, oks: seq<bool>, k: nat, w: Event)
    requires c.Valid() && Turned(c, d, run, oks, k, w)
    requires forall e :: e in d ==> e.Enter? || e.Created?
    ensures k < |run| && run[k] == w
    ensures forall p :: 0 <= p < k ==> Erase(run[p]) == d[p] && (run[p].Enter? || run[p].Created?)
    ensures forall p :: k < p < |run| ==> run[p].Exit? || run[p].Done?
  {
    var up := Out(d[..k], oks[1..]);
    OutKinds(d[..k], oks[1..]);
    var er := EraseAll(run);
    assert |er| == |run| && forall p :: 0 <= p < |run| ==> er[p] == Erase(run[p]);
    assert er[k] == w;
    forall p | 0 <= p < k ensures Erase(run[p]) == d[p] && (run[p].Enter? || run[p].Created?) {
      assert er[p] == d[p] && d[p] in d;
    }
    forall p | k < p < |run| ensures run[p].Exit? || run[p].Done? {
      assert er[p] == up[p - k - 1] && up[p - k - 1] in up;
    }
  }

  lemma StoredIffTurned(c: Config, d: seq<Event>, run: seq<Event>, oks: seq<bool>, k: nat, w: Event)
    requires c.Valid() && Turned(c, d, run, oks, k, w)
    requires forall e :: e in d ==> e.Enter? || e.Created?
    ensures WasStored(run) <==> oks[k]
  {
    TurnedParts(c, d, run, oks, k, w);
    if oks[k] {
      assert run[k].Write? && run[k].reply.Stored?;
    }
  }

  lemma EntersIffPassed(c: Config, d: seq<Event>, run: seq<Event>, oks: seq<bool>, k: nat, w: Event)
    requires c.Valid() && Turned(c, d, run, oks, k, w)
    requires forall e :: e in d ==> e.Enter? || e.Created?
    ensures EntersAbsorber(c, run) <==> exists q :: 0 <= q < k && AbsorbsAt(c, d[q])
  {
    TurnedParts(c, d, run, oks, k, w);
    if p :| 0 <= p < |run| && AbsorbsAt(c, run[p]) {
      assert p < k && d[p] == run[p];
    }
    if q :| 0 <= q < k && AbsorbsAt(c, d[q]) {
      assert run[q] == d[q];
    }
  }

  // Main result: when every hook calls `next` once and relays or absorbs its verdict,
  // a bulk save reports success exactly if the batch was stored or an absorbing hook
  // was entered.
  lemma SavedIffStoredOrAbsorbed(c: Config, sups: seq<Supply>, v: View, cur: seq<nat>)
    requires ValidStart(c, v, cur) && |sups| == |c.who| > 0 && v.trace == [] && AllRelayOrAbsorb(c)
    ensures var (r, t) := BulkSave(c, None, sups, v, cur);
      r.Saved? <==> WasStored(t.view.trace) || EntersAbsorber(c, t.view.trace)
  {
    var (r, t) := BulkSave(c, None, sups, v, cur);
    var d, tr := Descent(c, 0, 0), t.view.trace;
    CallOnceIsNested(c, sups, v, cur);
    var oks: seq<bool>, k: nat, w: Event :| Turned(c, d, tr, oks, k, w) && oks[0] == r.Saved?;
    DescentKinds(c, 0, 0);
    VerdictFrom(c, d, tr, oks, k, w, 0);
    StoredIffTurned(c, d, tr, oks, k, w);
    EntersIffPassed(c, d, tr, oks, k, w);
  }

  // Some position has an absorbing hook.
  ghost predicate HasAbsorber(c: Config)
    requires c.Valid()
  {
    exists i, h :: 0 <= i < |c.who| && 0 <= h < |HooksAt(c, i)| && Absorbs(HooksAt(c, i)[h])
  }

  // The way in enters every hook of every position from here on, and only those.
  lemma {:induction false} DescentEnters(c: Config, i: nat, h: nat)
    requires c.Valid() && i < |c.who| && h <= |HooksAt(c, i)|
    ensures forall j, g :: (j == i && h <= g < |HooksAt(c, i)|) || (i < j < |c.who| && 0 <= g < |HooksAt(c, j)|) ==>
      Enter(j, g) in Descent(c, i, h)
    decreases |c.who| - i, |HooksAt(c, i)| - h
  {
    if h < |HooksAt(c, i)| {
      DescentEnters(c, i, h + 1);
    } else if i + 1 < |c.who| {
      DescentEnters(c, i + 1, 0);
    }
  }

  // A run that nothing refused went all the way in.
  lemma AbsorberIsEntered(c: Config, run: seq<Event>, oks: seq<bool>, k: nat, w: Event)
    requires c.Valid() && |c.who| > 0 && Turned(c, Descent(c, 0, 0), run, oks, k, w) && NoRefusal(run)
    ensures EntersAbsorber(c, run) <==> HasAbsorber(c)
  {
    var d := Descent(c, 0, 0);
    DescentKinds(c, 0, 0);
    TurnedParts(c, d, run, oks, k, w);
    EntersIffPassed(c, d, run, oks, k, w);
    assert k == |d|;
    if i, h :| 0 <= i < |c.who| && 0 <= h < |HooksAt(c, i)| && Absorbs(HooksAt(c, i)[h]) {
      DescentEnters(c, 0, 0);
      assert Enter(i, h) in d;
      var q :| 0 <= q < |d| && d[q] == Enter(i, h);
      assert AbsorbsAt(c, d[q]);
    }
    if p :| 0 <= p < |run| && AbsorbsAt(c, run[p]) {
      assert Absorbs(HooksAt(c, run[p].pos)[run[p].hook]);
    }
  }

  // The database refuses every batch.
  ghost predicate NeverStores(c: Config) {
    forall before, specs :: c.database(before, specs).Refused?
  }

  // Main result, by what a caller knows before the call: if moreover the hooks are tame
  // and all demanded fields are given, a bulk save reports success exactly if the batch
  // was stored or some position has an absorbing hook; so, over a database that
  // refuses everything, exactly if there is such a hook.
  lemma FailureIsDroppedIffAbsorber(c: Config, sups: seq<Supply>, v: View, cur: seq<nat>)
    requires ValidStart(c, v, cur) && |sups| == |c.who| > 0 && v.trace == []
    requires AllRelayOrAbsorb(c) && AllTame(c) && AllGiven(c, v, cur)
    ensures var (r, t) := BulkSave(c, None, sups, v, cur);
      && (r.Saved? <==> WasStored(t.view.trace) || HasAbsorber(c))
      && (NeverStores(c) ==> (r.Saved? <==> HasAbsorber(c)))
  {
    var (r, t) := BulkSave(c, None, sups, v, cur);
    var d, tr := Descent(c, 0, 0), t.view.trace;
    SavedIffStoredOrAbsorbed(c, sups, v, cur);
    NothingRefused(c, sups, v, cur);
    CallOnceIsNested(c, sups, v, cur);
    var oks: seq<bool>, k: nat, w: Event :| Turned(c, d, tr, oks, k, w) && oks[0] == r.Saved?;
    AbsorberIsEntered(c, tr, oks, k, w);
    DescentKinds(c, 0, 0);
    StoredIffTurned(c, d, tr, oks, k, w);
  }
}
