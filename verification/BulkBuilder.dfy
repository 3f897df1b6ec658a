// The save builders as they work on the heap: they fill the `specs`, `nodes` and
// `mutators` slices, adopt mutations, create nodes and mark mutations done. Every
// method is proved equal to the corresponding function of Runtime and Saves.
module BulkBuilder {
  import opened Wrappers
  import opened Schema
  import opened Runtime
  import opened Saves
  import opened Compose

  class Mutation {
    var fields: map<Field, Val>
    var id: IdRef
    var done: bool

    constructor (start: MutationState)
      ensures Contents() == start
    {
      fields, id, done := start.fields, start.id, start.done;
    }

    function Contents(): MutationState
      reads this
    {
      MutationState(fields, id, done)
    }

    method Assign(s: MutationState)
      modifies this
      ensures Contents() == s
    {
      fields, id, done := s.fields, s.id, s.done;
    }
  }

  class Node {
    var id: Id
    var fields: map<Field, Option<Val>>

    constructor (start: NodeState)
      ensures Contents() == start
    {
      id, fields := start.id, start.fields;
    }

    function Contents(): NodeState
      reads this
    {
      NodeState(id, fields)
    }
  }

  class CreateBuilder {
    // The mutation it holds, as a handle into the pool.
    var mutation: nat
    const hooks: seq<Hook>

    constructor (m: nat, hooks: seq<Hook>)
      ensures mutation == m && this.hooks == hooks
    {
      mutation, this.hooks := m, hooks;
    }
  }

  // The closures Save builds: the base mutator of position i, and a hook applied
  // to the mutator inside it.
  datatype Mutator = Innermost(i: nat) | Hooked(i: nat, h: nat, hook: Hook, next: Mutator)

  method BlankSlices(n: nat)
      returns (specs: array<Option<Spec>>, nodes: array<Option<nat>>, mutators: array<Mutator>)
    ensures fresh(specs) && specs[..] == seq(n, _ => None)
    ensures fresh(nodes) && nodes[..] == seq(n, _ => None)
    ensures fresh(mutators) && mutators.Length == n
    ensures (specs as object) != nodes && (specs as object) != mutators && (nodes as object) != mutators
  {
    specs, nodes := new Option<Spec>[n](_ => None), new Option<nat>[n](_ => None);
    mutators := new Mutator[n](k requires 0 <= k => Innermost(k));
  }

  // Hooks h, h+1, ... of position i around its base mutator.
  function Chain(hooks: seq<Hook>, i: nat, h: nat): Mutator
    requires h <= |hooks|
    decreases |hooks| - h
  {
    if h == |hooks| then Innermost(i) else Hooked(i, h, hooks[h], Chain(hooks, i, h + 1))
  }

  lemma FreshIsWf(c: Config, v: View, cur: seq<nat>)
    requires ValidStart(c, v, cur)
    ensures Wf(c, Fresh(c, v, cur))
  {
  }

  lemma DefaultsStep(c: Config, sups: seq<Supply>, i: nat, s: State)
    requires Wf(c, s) && |sups| == |c.who| && i < |c.who|
    ensures AllDefaults(c, sups, i, s) == AllDefaults(c, sups, i + 1, DefaultsOn(c, sups[i], c.who[i], s))
  {
  }

  // The hooks of a builder, nil ones included, against what the configuration says.
  ghost predicate HasHooks(hooks: seq<Option<Hook>>, expected: seq<Hook>) {
    AnyNone(hooks) || Values(hooks) == expected
  }

  // Applying the hook at place k of position i.
  function Application(i: nat, k: nat, hook: Option<Hook>): Option<Mutator -> Mutator> {
    match hook
    case None => None
    case Some(h) => Some(next => Hooked(i, k, h, next))
  }

  // The composition of the applications is the chain.
  lemma {:induction false} ChainIsComposed(hooks: seq<Hook>, i: nat, h: nat, apply: seq<Mutator -> Mutator>)
    requires h <= |hooks| && |apply| == |hooks| - h
    requires forall k, next :: 0 <= k < |apply| ==> apply[k](next) == Hooked(i, h + k, hooks[h + k], next)
    ensures WrapAll(apply, Innermost(i)) == Chain(hooks, i, h)
    decreases |hooks| - h
  {
    if h < |hooks| {
      ChainIsComposed(hooks, i, h + 1, apply[1..]);
    }
  }

  // withHooks around the base mutator of position i.
  method WrapPresent(i: nat, hooks: seq<Option<Hook>>) returns (mut: Option<Mutator>)
    ensures mut.None? <==> AnyNone(hooks)
    ensures mut.Some? ==> mut.value == Chain(Values(hooks), i, 0)
  {
    var apply := seq(|hooks|, k requires 0 <= k < |hooks| => Application(i, k, hooks[k]));
    assert AnyNone(apply) <==> AnyNone(hooks) by {
      if k :| 0 <= k < |hooks| && hooks[k].None? {
        assert apply[k].None?;
      }
    }
    mut := WithHooks(apply, Innermost(i));
    if mut.Some? {
      ChainIsComposed(Values(hooks), i, 0, Values(apply));
    }
  }

  ghost function MutsOf(pool: seq<Mutation>): (r: seq<MutationState>)
    reads pool
    ensures |r| == |pool| && forall k :: 0 <= k < |pool| ==> r[k] == pool[k].Contents()
  {
    seq(|pool|, k requires 0 <= k < |pool| reads pool => pool[k].Contents())
  }

  ghost function StoreOf(arena: seq<Node>): (r: seq<NodeState>)
    reads arena
    ensures |r| == |arena| && forall k :: 0 <= k < |arena| ==> r[k] == arena[k].Contents()
  {
    seq(|arena|, k requires 0 <= k < |arena| reads arena => arena[k].Contents())
  }

  ghost function CurOf(builders: seq<CreateBuilder>): (r: seq<nat>)
    reads builders
    ensures |r| == |builders| && forall b :: 0 <= b < |builders| ==> r[b] == builders[b].mutation
  {
    seq(|builders|, b requires 0 <= b < |builders| reads builders => builders[b].mutation)
  }

  class SaveBuilder {
    const config: Config
    const pool: seq<Mutation>
    const builders: seq<CreateBuilder>
    // The nodes allocated so far, by handle.
    var arena: seq<Node>
    var trace: seq<Event>
    var specs: array<Option<Spec>>
    var nodes: array<Option<nat>>
    var mutators: array<Mutator>

    // A builder of builders: nothing has been made or called yet.
    constructor (c: Config, pool: seq<Mutation>, builders: seq<CreateBuilder>, arena: seq<Node>, trace: seq<Event>)
      requires Distinct(pool) && Distinct(builders) && Distinct(arena)
      requires |builders| == |c.hooks| && forall b :: 0 <= b < |builders| ==> builders[b].hooks == c.hooks[b]
      requires ValidStart(c, View(MutsOf(pool), StoreOf(arena), trace), CurOf(builders))
      ensures Startable()
      ensures config == c && this.pool == pool && this.builders == builders && this.arena == arena
        && this.trace == trace
    {
      config, this.pool, this.builders, this.arena, this.trace := c, pool, builders, arena, trace;
      specs, nodes, mutators := new Option<Spec>[0], new Option<nat>[0], new Mutator[0];
    }

    // The arena after a step: the nodes of before, then new ones.
    twostate predicate GrewFrom(before: seq<Node>)
      reads this
    {
      && before <= arena
      && forall k :: |before| <= k < |arena| ==> fresh(arena[k])
    }

    ghost function Muts(): (r: seq<MutationState>)
      reads this, pool
      ensures |r| == |pool| && forall k :: 0 <= k < |pool| ==> r[k] == pool[k].Contents()
    {
      MutsOf(pool)
    }

    ghost function Store(): (r: seq<NodeState>)
      reads this, arena
      ensures |r| == |arena| && forall k :: 0 <= k < |arena| ==> r[k] == arena[k].Contents()
    {
      StoreOf(arena)
    }

    ghost function Cur(): (r: seq<nat>)
      reads this, builders
      ensures |r| == |builders| && forall b :: 0 <= b < |builders| ==> r[b] == builders[b].mutation
    {
      CurOf(builders)
    }

    // What the builder's objects hold, as a state of Runtime.
    ghost function Abs(): State
      reads this, specs, nodes, pool, arena, builders
    {
      State(View(Muts(), Store(), trace), Cur(), specs[..], nodes[..])
    }

    // The objects behind distinct handles are distinct, and the builders as configured.
    ghost predicate Apart()
      reads this
    {
      && Distinct(pool) && Distinct(arena) && Distinct(builders)
      && |builders| == |config.hooks|
      && (forall b :: 0 <= b < |builders| ==> builders[b].hooks == config.hooks[b])
    }

    // So are the slices.
    ghost predicate Separate()
      reads this
    {
      && Apart()
      && (specs as object) != nodes && (specs as object) != mutators && (nodes as object) != mutators
    }

    ghost predicate Valid()
      reads this, specs, nodes, pool, arena, builders
    {
      Separate() && Wf(config, Abs())
    }

    // The mutators of the first k positions are built.
    ghost predicate Built(k: nat)
      reads this, mutators
    {
      && config.Valid() && mutators.Length == |config.who|
      && forall i :: 0 <= i < k && i < mutators.Length ==> mutators[i] == Chain(HooksAt(config, i), i, 0)
    }

    ghost predicate Ready()
      reads this, mutators
    {
      Built(mutators.Length)
    }

    // The part of the state hooks see, gathered object by object.
    method Visible() returns (v: View)
      requires Valid()
      ensures v == Abs().view
    {
      var muts, store := [], [];
      for k := 0 to |pool|
        invariant |muts| == k && forall j :: 0 <= j < k ==> muts[j] == pool[j].Contents()
      {
        muts := muts + [pool[k].Contents()];
      }
      for k := 0 to |arena|
        invariant |store| == k && forall j :: 0 <= j < k ==> store[j] == arena[j].Contents()
      {
        store := store + [arena[k].Contents()];
      }
      v := View(muts, store, trace);
      assert muts == Muts() && store == Store();
    }

    method LogEvent(e: Event)
      requires Valid()
      modifies this`trace
      ensures Valid() && Abs() == Log(old(Abs()), e)
    {
      trace := trace + [e];
      assert Muts() == old(Muts()) && Store() == old(Store()) && Cur() == old(Cur());
    }

    // One mutation's contents are replaced.
    method SetMutation(m: nat, s: MutationState)
      requires Valid() && m < |pool|
      requires s.id.NodeId? ==> s.id.node < |arena|
      modifies pool[m]
      ensures Valid()
      ensures Abs() == old(Abs()).(view := old(Abs()).view.(muts := old(Abs()).view.muts[m := s]))
    {
      pool[m].Assign(s);
      assert Muts() == old(Muts())[m := s] && Store() == old(Store()) && Cur() == old(Cur());
    }

    // One setter call by a hook.
    method EditOne(e: Edit)
      requires Valid()
      modifies pool
      ensures Valid() && Abs() == old(Abs()).(view := ApplyEdit(e, old(Abs()).view))
    {
      if e.m < |pool| {
        var was := pool[e.m].Contents();
        match e
        case SetField(_, f, x) => SetMutation(e.m, was.(fields := was.fields[f := x]));
        case ResetField(_, f) => SetMutation(e.m, was.(fields := was.fields - {f}));
        case SetId(_, id) => SetMutation(e.m, was.(id := OwnId(id)));
      }
    }

    method Edit(es: seq<Edit>)
      requires Valid()
      modifies pool
      ensures Valid() && Abs() == Edited(es, old(Abs()))
    {
      ghost var final := Edited(es, Abs());
      assert es[0..] == es;
      for k := 0 to |es|
        invariant Valid() && Edited(es[k..], Abs()) == final
      {
        assert es[k..][1..] == es[k + 1..];
        EditOne(es[k]);
      }
    }

    // Mutation.ID(), as createSpec() asks for it.
    method ReadSpecId(m: nat) returns (id: Option<Id>)
      requires Valid() && m < |pool|
      ensures id == SpecId(config.entity, Abs().view, m)
    {
      id := None;
      if !config.entity.idPolicy.AlwaysAssigned? {
        match pool[m].id
        case NoId =>
        case OwnId(v) => id := Some(v);
        case NodeId(n) => id := Some(arena[n].id);
      }
    }

    // A new node object, and its handle.
    method Allocate(start: NodeState) returns (n: nat)
      requires Valid()
      modifies this`arena
      ensures Valid() && GrewFrom(old(arena)) && n == |old(arena)|
      ensures Abs() == old(Abs()).(view := old(Abs()).view.(store := old(Abs()).view.store + [start]))
    {
      var node := new Node(start);
      n := |arena|;
      arena := arena + [node];
      assert Muts() == old(Muts()) && Store() == old(Store()) + [start] && Cur() == old(Cur());
    }

    // The assignments to builder.mutation, nodes[i] and specs[i].
    method Record(i: nat, m: nat, id: Option<Id>, fields: map<Field, Val>, n: nat)
      requires Valid() && i < |config.who| && m < |pool| && n < |arena|
      modifies this`trace, builders[config.who[i]], specs, nodes
      ensures Valid()
      ensures Abs() == State(
        old(Abs()).view.(trace := old(trace) + [Created(i, id, fields, n)]),
        old(Abs()).cur[config.who[i] := m],
        old(Abs()).specs[i := Some(MakeSpec(config.entity, id, fields))],
        old(Abs()).nodes[i := Some(n)])
    {
      ghost var s := Abs();
      builders[config.who[i]].mutation := m;
      trace := trace + [Created(i, id, fields, n)];
      nodes[i], specs[i] := Some(n), Some(MakeSpec(config.entity, id, fields));
      assert Muts() == s.view.muts && Store() == s.view.store && Cur() == s.cur[config.who[i] := m];
    }

    // `builder.mutation = mutation`, then createSpec() into the slices.
    method Create(i: nat, m: nat)
      requires Valid() && i < |config.who| && m < |pool|
      modifies this`arena, this`trace, builders[config.who[i]], specs, nodes
      ensures Valid() && GrewFrom(old(arena)) && (old(Ready()) ==> Ready())
      ensures Abs() == CreateAt(config, i, m, old(Abs()))
    {
      ghost var s := Abs();
      var id := ReadSpecId(m);
      var fields := pool[m].fields;
      var n := Allocate(MakeNode(config.entity, id, fields));
      Record(i, m, id, fields, n);
    }

    // The batch write, and the IDs it leaves in the specs.
    method WriteBatch() returns (err: Option<Error>)
      requires Valid()
      modifies this`trace, specs
      ensures Valid() && (err, Abs()) == WriteAll(config, old(Abs()))
    {
      ghost var s := Abs();
      var batch := specs[..];
      var reply := config.database(trace, batch);
      trace := trace + [Write(batch, reply)];
      match reply
      case Refused(constraint) =>
        err := Some(if constraint then ConstraintError else StoreError);
        assert Muts() == s.view.muts && Store() == s.view.store && Cur() == s.cur;
      case Stored(ids) =>
        err := None;
        StoreIds(ids);
        assert Muts() == s.view.muts && Store() == s.view.store && Cur() == s.cur;
        assert Abs() == WriteAll(config, s).1;
    }

    method StoreIds(ids: seq<Option<Id>>)
      modifies specs
      ensures specs[..] == AssignIds(old(specs[..]), ids)
    {
      var k := 0;
      while k < specs.Length
        invariant 0 <= k <= specs.Length
        invariant forall j :: 0 <= j < k ==> specs[j] == AssignIds(old(specs[..]), ids)[j]
        invariant forall j :: k <= j < specs.Length ==> specs[j] == old(specs[..])[j]
      {
        if k < |ids| && specs[k].Some? {
          specs[k] := Some(specs[k].value.(id := ids[k]));
        }
        k := k + 1;
      }
    }

    // The completion marks of position i, and the node it returns.
    method Finish(i: nat, m: nat) returns (o: Outcome)
      requires Valid() && i < |config.who| && m < |pool| && Abs().nodes[i].Some?
      modifies this`trace, pool[m], arena
      ensures Valid() && Abs() == Complete(config, i, m, old(Abs())) && o == Ok(NodeValue(old(Abs()).nodes[i].value))
    {
      ghost var s := Abs();
      assert s.nodes[i] == nodes[i] && s.specs[i] == specs[i];
      var n := nodes[i].value;
      var node := arena[n];
      var finalId := FinalId(config.entity.idPolicy, config.single, node.id, specs[i].value.id);
      pool[m].id, pool[m].done := NodeId(n), true;
      node.id := finalId;
      trace := trace + [Done(i, m)];
      assert Muts() == s.view.muts[m := s.view.muts[m].(id := NodeId(n), done := true)];
      assert Store() == s.view.store[n := s.view.store[n].(id := finalId)];
      assert Cur() == s.cur;
      assert Abs() == Complete(config, i, m, s);
      o := Ok(NodeValue(n));
    }

    // builder.defaults() for builder b.
    method Defaults(b: nat, sup: Supply)
      requires Valid() && b < |builders|
      modifies pool
      ensures Valid() && Abs() == DefaultsOn(config, sup, b, old(Abs()))
    {
      var mut := pool[builders[b].mutation];
      var id := if config.entity.idPolicy.BuilderUuid? && mut.id.NoId? then OwnId(sup.id) else mut.id;
      SetMutation(builders[b].mutation, MutationState(WithDefaults(config.entity.columns, sup, mut.fields), id,
        mut.done));
    }

    // The function literal at position i: refuse, check, adopt, create, go on to
    // the next position, and mark.
    method InvokeBase(i: nat, arg: Arg) returns (o: Outcome)
      requires Valid() && Ready() && i < |config.who|
      modifies this`arena, this`trace, specs, nodes, pool, arena, builders
      ensures Valid() && Ready() && GrewFrom(old(arena))
      ensures (o, Abs()) == Base(config, i, arg, old(Abs()))
      decreases |config.who| - i, 0, 0, 0
    {
      if arg.Foreign? || arg.m >= |pool| {
        LogEvent(Rejected(i));
        return Err(UnexpectedMutation);
      }
      ghost var s := Abs();
      var builder := builders[config.who[i]];
      var m := arg.m;
      if config.single {
        m := builder.mutation;
        SetMutation(m, pool[arg.m].Contents());
      }
      assert Abs() == Receive(config, i, arg.m, s);
      var missing := Missing(config.entity.columns, pool[builder.mutation].fields);
      if missing.Some? {
        LogEvent(Invalid(i, missing.value));
        return Err(MissingField(missing.value));
      }
      o := Proceed(i, m);
    }

    // What follows a successful check at position i.
    method Proceed(i: nat, m: nat) returns (o: Outcome)
      requires Valid() && Ready() && i < |config.who| && m < |pool|
      modifies this`arena, this`trace, specs, nodes, pool, arena, builders
      ensures Valid() && Ready() && GrewFrom(old(arena))
      ensures var (err, t) := Inner(config, i, CreateAt(config, i, m, old(Abs())));
        if err.Some? then o == Err(err.value) && Abs() == t
        else Abs() == Complete(config, i, m, t) && o == Ok(NodeValue(t.nodes[i].value))
      decreases |config.who| - i - 1, if i + 1 < |config.who| then |HooksAt(config, i + 1)| else 0, 4, 0
    {
      var err := CreateAndInvoke(i, m);
      if err.Some? {
        o := Err(err.value);
      } else {
        o := Finish(i, m);
      }
    }

    method CreateAndInvoke(i: nat, m: nat) returns (err: Option<Error>)
      requires Valid() && Ready() && i < |config.who| && m < |pool|
      modifies this`arena, this`trace, specs, nodes, pool, arena, builders
      ensures Valid() && Ready() && GrewFrom(old(arena))
      ensures (err, Abs()) == Inner(config, i, CreateAt(config, i, m, old(Abs())))
      decreases |config.who| - i - 1, if i + 1 < |config.who| then |HooksAt(config, i + 1)| else 0, 3, 0
    {
      Create(i, m);
      err := InvokeInner(i);
    }

    method InvokeInner(i: nat) returns (err: Option<Error>)
      requires Valid() && Ready() && i < |config.who|
      modifies this`arena, this`trace, specs, nodes, pool, arena, builders
      ensures Valid() && Ready() && GrewFrom(old(arena))
      ensures (err, Abs()) == Inner(config, i, old(Abs()))
      decreases |config.who| - i - 1, if i + 1 < |config.who| then |HooksAt(config, i + 1)| else 0, 2, 0
    {
      if i + 1 < mutators.Length {
        var o := Invoke(mutators[i + 1], Own(builders[config.who[i + 1]].mutation), i + 1, 0);
        err := if o.Err? then Some(o.error) else None;
      } else {
        err := WriteBatch();
      }
    }

    // mut.Mutate(ctx, arg), where `mut` has the hooks from h on around position i.
    method Invoke(mut: Mutator, arg: Arg, ghost i: nat, ghost h: nat) returns (o: Outcome)
      requires Valid() && Ready() && i < |config.who| && h <= |HooksAt(config, i)|
      requires mut == Chain(HooksAt(config, i), i, h)
      modifies this`arena, this`trace, specs, nodes, pool, arena, builders
      ensures Valid() && Ready() && GrewFrom(old(arena))
      ensures (o, Abs()) == Mutate(config, i, h, arg, old(Abs()))
      decreases |config.who| - i, |HooksAt(config, i)| - h, 1, 0
    {
      match mut
      case Innermost(pos) =>
        o := InvokeBase(pos, arg);
      case Hooked(pos, k, hook, next) =>
        LogEvent(Enter(pos, k));
        o := Begin(hook, next, arg, i, h);
        LogEvent(Exit(pos, k));
    }

    // A hook's body, from entry to return.
    method Begin(hook: Hook, next: Mutator, arg: Arg, ghost i: nat, ghost h: nat) returns (o: Outcome)
      requires Valid() && Ready() && i < |config.who| && h < |HooksAt(config, i)|
      requires hook == HooksAt(config, i)[h] && next == Chain(HooksAt(config, i), i, h + 1)
      modifies this`arena, this`trace, specs, nodes, pool, arena, builders
      ensures Valid() && Ready() && GrewFrom(old(arena))
      ensures (o, Abs()) == RunHook(config, i, h, arg, [], old(Abs()))
      decreases |config.who| - i, |HooksAt(config, i)| - h, 0
    {
      var view := Visible();
      o := Perform(hook, next, arg, [], view, i, h);
    }

    // One turn of a hook that sees `view`: it edits, then stops or calls `next`.
    method Turn(hook: Hook, next: Mutator, arg: Arg, seen: seq<Past>, view: View, ghost i: nat, ghost h: nat)
        returns (stop: bool, o: Outcome)
      requires Valid() && Ready() && i < |config.who| && h < |HooksAt(config, i)|
        && |seen| < Allowed(hook, arg, seen, view)
      requires hook == HooksAt(config, i)[h] && next == Chain(HooksAt(config, i), i, h + 1) && view == Abs().view
      modifies this`arena, this`trace, specs, nodes, pool, arena, builders
      ensures Valid() && Ready() && GrewFrom(old(arena))
      ensures RunHook(config, i, h, arg, seen, old(Abs()))
        == if stop then (o, Abs()) else RunHook(config, i, h, arg, seen + [Past(view, o)], Abs())
      decreases |config.who| - i, |HooksAt(config, i)| - h, 0, Allowed(hook, arg, seen, view) - |seen|, 0
    {
      match hook.step(arg, view, seen)
      case Stop(fin) =>
        Edit(fin.edits);
        stop, o := true, fin.result;
      case CallNext(edits, a) =>
        Edit(edits);
        o := Invoke(next, a, i, h + 1);
        stop := false;
    }

    // The end of a hook that has used up its calls.
    method Conclude(hook: Hook, arg: Arg, seen: seq<Past>, view: View, ghost i: nat, ghost h: nat) returns (o: Outcome)
      requires Valid() && i < |config.who| && h < |HooksAt(config, i)| && hook == HooksAt(config, i)[h]
      requires view == Abs().view && |seen| == Allowed(hook, arg, seen, view)
      modifies pool
      ensures Valid() && (o, Abs()) == RunHook(config, i, h, arg, seen, old(Abs()))
    {
      var fin := hook.last(arg, view, seen);
      Edit(fin.edits);
      o := fin.result;
    }

    // The rest of a hook's body, once its calls to `next` have returned `seen`.
    method Perform(hook: Hook, next: Mutator, arg: Arg, seen: seq<Past>, view: View, ghost i: nat, ghost h: nat)
        returns (o: Outcome)
      requires Valid() && Ready() && i < |config.who| && h < |HooksAt(config, i)|
      requires hook == HooksAt(config, i)[h] && next == Chain(HooksAt(config, i), i, h + 1)
      requires view == Abs().view && |seen| <= Allowed(hook, arg, seen, view)
      modifies this`arena, this`trace, specs, nodes, pool, arena, builders
      ensures Valid() && Ready() && GrewFrom(old(arena))
      ensures (o, Abs()) == RunHook(config, i, h, arg, seen, old(Abs()))
      decreases |config.who| - i, |HooksAt(config, i)| - h, 0, Allowed(hook, arg, seen, view) - |seen|, 1
    {
      if |seen| == Allowed(hook, arg, seen, view) {
        o := Conclude(hook, arg, seen, view, i, h);
        return;
      }
      var stop, r := Turn(hook, next, arg, seen, view, i, h);
      if stop {
        return r;
      }
      o := Resume(hook, next, arg, seen + [Past(view, r)], i, h);
    }

    // The same from a later state.
    method Resume(hook: Hook, next: Mutator, arg: Arg, seen: seq<Past>, ghost i: nat, ghost h: nat)
        returns (o: Outcome)
      requires Valid() && Ready() && i < |config.who| && h < |HooksAt(config, i)|
      requires hook == HooksAt(config, i)[h] && next == Chain(HooksAt(config, i), i, h + 1)
      requires 0 < |seen| <= hook.limit(arg, seen[0].view)
      modifies this`arena, this`trace, specs, nodes, pool, arena, builders
      ensures Valid() && Ready() && GrewFrom(old(arena))
      ensures (o, Abs()) == RunHook(config, i, h, arg, seen, old(Abs()))
      decreases |config.who| - i, |HooksAt(config, i)| - h, 0, hook.limit(arg, seen[0].view) - |seen|, 2
    {
      var view := Visible();
      o := Perform(hook, next, arg, seen, view, i, h);
    }

    // Wraps the base mutator of position i in its builder's hooks, last one first.
    method Wrap(i: nat, hooks: seq<Hook>) returns (mut: Mutator)
      ensures mut == Chain(hooks, i, 0)
    {
      mut := Innermost(i);
      var k := |hooks|;
      while k > 0
        invariant 0 <= k <= |hooks| && mut == Chain(hooks, i, k)
      {
        k := k - 1;
        mut := Hooked(i, k, hooks[k], mut);
      }
    }

    // What Save needs of its surroundings.
    ghost predicate Startable()
      reads this, pool, arena, builders
    {
      && Apart()
      && ValidStart(config, View(Muts(), Store(), trace), Cur())
    }

    // The three `make` calls.
    method MakeSlices()
      requires Startable()
      modifies this`specs, this`nodes, this`mutators
      ensures Valid() && fresh(specs) && fresh(nodes) && fresh(mutators) && mutators.Length == |config.who|
      ensures Abs() == Fresh(config, View(old(Muts()), old(Store()), trace), old(Cur()))
    {
      ghost var v, cur := View(Muts(), Store(), trace), Cur();
      specs, nodes, mutators := BlankSlices(|config.who|);
      assert specs[..] == Fresh(config, v, cur).specs && nodes[..] == Fresh(config, v, cur).nodes;
      assert Muts() == v.muts && Store() == v.store && Cur() == cur;
      FreshIsWf(config, v, cur);
    }

    // Position i of the loop in Save: defaults, then the mutator.
    method PreparePosition(i: nat, sup: Supply)
      requires Valid() && i < |config.who| && Built(i)
      modifies mutators, pool
      ensures Valid() && Abs() == DefaultsOn(config, sup, config.who[i], old(Abs()))
      ensures Built(i + 1)
    {
      Defaults(config.who[i], sup);
      ghost var s := Abs();
      var mut := Wrap(i, builders[config.who[i]].hooks);
      mutators[i] := mut;
      assert Muts() == s.view.muts && Store() == s.view.store && Cur() == s.cur;
    }

    // The loop in Save over all positions.
    method Prepare(sups: seq<Supply>)
      requires Valid() && mutators.Length == |sups| == |config.who|
      modifies mutators, pool
      ensures Valid() && Ready() && Abs() == AllDefaults(config, sups, 0, old(Abs()))
    {
      ghost var s, final := Abs(), AllDefaults(config, sups, 0, Abs());
      for i := 0 to mutators.Length
        invariant Valid() && Built(i)
        invariant AllDefaults(config, sups, i, Abs()) == final
      {
        DefaultsStep(config, sups, i, Abs());
        PreparePosition(i, sups[i]);
      }
    }

    // CreateBulk.Save.
    method Save(preset: Option<Error>, sups: seq<Supply>) returns (r: BulkResult)
      requires Startable() && |sups| == |config.who|
      modifies this, pool, arena, builders
      ensures r == BulkSave(config, preset, sups, View(old(Muts()), old(Store()), old(trace)), old(Cur())).0
      ensures preset.None? ==>
        Valid() && Abs() == BulkSave(config, preset, sups, View(old(Muts()), old(Store()), old(trace)), old(Cur())).1
      ensures preset.Some? ==>
        Muts() == old(Muts()) && Store() == old(Store()) && trace == old(trace) && Cur() == old(Cur())
    {
      if preset.Some? {
        return BulkFailed(preset.value);
      }
      MakeSlices();
      Prepare(sups);
      if mutators.Length > 0 {
        var o := Invoke(mutators[0], Own(builders[config.who[0]].mutation), 0, 0);
        if o.Err? {
          return BulkFailed(o.error);
        }
      }
      r := Saved(nodes[..]);
    }

    // Create.Save through withHooks, for a builder with these hooks. Its node and spec
    // are the one entry of each slice.
    method SaveOne(sup: Supply, hooks: seq<Option<Hook>>) returns (r: SingleResult)
      requires Startable() && config.single && HasHooks(hooks, HooksAt(config, 0))
      modifies this, pool, arena, builders
      ensures Valid()
      ensures AnyNone(hooks) ==>
        && r == SingleFailed(UninitializedHook)
        && Abs() == AllDefaults(config, [sup], 0,
          Fresh(config, View(old(Muts()), old(Store()), old(trace)), old(Cur())))
      ensures !AnyNone(hooks) ==>
        (r, Abs()) == SingleSave(config, sup, View(old(Muts()), old(Store()), old(trace)), old(Cur()))
    {
      MakeSlices();
      var wrapped := PrepareOne(sup, hooks);
      if !wrapped {
        return SingleFailed(UninitializedHook);
      }
      r := Execute(|hooks| == 0);
    }

    // defaults(), then the loop of withHooks; false if it met a nil hook.
    method PrepareOne(sup: Supply, hooks: seq<Option<Hook>>) returns (wrapped: bool)
      requires Valid() && config.single && mutators.Length == 1 && HasHooks(hooks, HooksAt(config, 0))
      modifies mutators, pool
      ensures Valid() && Abs() == AllDefaults(config, [sup], 0, old(Abs()))
      ensures wrapped <==> !AnyNone(hooks)
      ensures wrapped ==> Ready()
    {
      DefaultsStep(config, [sup], 0, Abs());
      Defaults(config.who[0], sup);
      var mut := WrapPresent(0, hooks);
      wrapped := mut.Some?;
      if wrapped {
        Install(mut.value);
      }
    }

    // The one mutator of a single save.
    method Install(mut: Mutator)
      requires Valid() && config.single && mutators.Length == 1 && mut == Chain(HooksAt(config, 0), 0, 0)
      modifies mutators
      ensures Valid() && Ready() && Abs() == old(Abs())
    {
      ghost var s := Abs();
      mutators[0] := mut;
      assert Muts() == s.view.muts && Store() == s.view.store && Cur() == s.cur;
    }

    // exec(ctx) itself without hooks, and the outermost mutator otherwise.
    method Execute(bare: bool) returns (r: SingleResult)
      requires Valid() && Ready() && config.single && (bare <==> HooksAt(config, 0) == [])
      modifies this`arena, this`trace, specs, nodes, pool, arena, builders
      ensures Valid()
      ensures var (o, t) := Mutate(config, 0, 0, Own(old(Abs()).cur[config.who[0]]), old(Abs()));
        Abs() == t && r == match o
          case Err(e) => SingleFailed(e)
          case Ok(NodeValue(n)) => SavedOne(n)
          case Ok(_) => SingleFailed(UnexpectedNode)
    {
      var arg := Own(builders[config.who[0]].mutation);
      var o: Outcome;
      if bare {
        o := InvokeBase(0, arg);
      } else {
        o := Invoke(mutators[0], arg, 0, 0);
      }
      match o
      case Err(e) => r := SingleFailed(e);
      case Ok(NodeValue(n)) => r := SavedOne(n);
      case Ok(_) => r := SingleFailed(UnexpectedNode);
    }
  }

  // Objects for a caller's mutations, nodes and builders.
  method MakePool(muts: seq<MutationState>) returns (pool: seq<Mutation>)
    ensures Distinct(pool) && fresh(pool) && MutsOf(pool) == muts
  {
    pool := [];
    for k := 0 to |muts|
      invariant Distinct(pool) && fresh(pool) && |pool| == k
      invariant forall j :: 0 <= j < k ==> pool[j].Contents() == muts[j]
    {
      var m := new Mutation(muts[k]);
      pool := pool + [m];
    }
  }

  method MakeArena(store: seq<NodeState>) returns (arena: seq<Node>)
    ensures Distinct(arena) && fresh(arena) && StoreOf(arena) == store
  {
    arena := [];
    for k := 0 to |store|
      invariant Distinct(arena) && fresh(arena) && |arena| == k
      invariant forall j :: 0 <= j < k ==> arena[j].Contents() == store[j]
    {
      var n := new Node(store[k]);
      arena := arena + [n];
    }
  }

  method MakeBuilders(cur: seq<nat>, hooks: seq<seq<Hook>>) returns (builders: seq<CreateBuilder>)
    requires |cur| == |hooks|
    ensures Distinct(builders) && fresh(builders) && CurOf(builders) == cur
    ensures forall b :: 0 <= b < |builders| ==> builders[b].hooks == hooks[b]
  {
    builders := [];
    for k := 0 to |cur|
      invariant Distinct(builders) && fresh(builders) && |builders| == k
      invariant forall j :: 0 <= j < k ==> builders[j].mutation == cur[j] && builders[j].hooks == hooks[j]
    {
      var b := new CreateBuilder(cur[k], hooks[k]);
      builders := builders + [b];
    }
  }

  method MakeSaveBuilder(c: Config, v: View, cur: seq<nat>) returns (b: SaveBuilder)
    requires ValidStart(c, v, cur)
    ensures fresh(b) && fresh(b.pool) && fresh(b.arena) && fresh(b.builders) && b.config == c && b.trace == v.trace
    ensures b.Startable() && b.Muts() == v.muts && b.Store() == v.store && b.Cur() == cur
  {
    var pool := MakePool(v.muts);
    var arena := MakeArena(v.store);
    var builders := MakeBuilders(cur, c.hooks);
    b := new SaveBuilder(c, pool, builders, arena, v.trace);
    assert b.Muts() == v.muts && b.Store() == v.store && b.Cur() == cur;
  }

  // Main result, on the heap: from any valid start, a bulk save carried out on objects
  // returns what BulkSave returns and leaves what it leaves.
  method SaveBulk(c: Config, preset: Option<Error>, sups: seq<Supply>, v: View, cur: seq<nat>)
      returns (r: BulkResult, b: SaveBuilder)
    requires ValidStart(c, v, cur) && |sups| == |c.who|
    ensures r == BulkSave(c, preset, sups, v, cur).0
    ensures preset.None? ==> b.Valid() && b.Abs() == BulkSave(c, preset, sups, v, cur).1
  {
    b := MakeSaveBuilder(c, v, cur);
    assert View(b.Muts(), b.Store(), b.trace) == v;
    r := b.Save(preset, sups);
  }

  // The same for a single save.
  method SaveSingle(c: Config, sup: Supply, hooks: seq<Option<Hook>>, v: View, cur: seq<nat>)
      returns (r: SingleResult, b: SaveBuilder)
    requires ValidStart(c, v, cur) && c.single && HasHooks(hooks, HooksAt(c, 0))
    ensures b.Valid()
    ensures !AnyNone(hooks) ==> (r, b.Abs()) == SingleSave(c, sup, v, cur)
    ensures AnyNone(hooks) ==>
      r == SingleFailed(UninitializedHook) && b.Abs() == AllDefaults(c, [sup], 0, Fresh(c, v, cur))
  {
    b := MakeSaveBuilder(c, v, cur);
    assert View(b.Muts(), b.Store(), b.trace) == v;
    r := b.SaveOne(sup, hooks);
  }
}
