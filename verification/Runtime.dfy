// The run of a create operation through its hooks, as a function on states.
//
// Go pointers to mutations and nodes are handles: indices into the pools `muts`
// and `store` of a View. A View is what a hook can see and touch.
module Runtime {
  import opened Wrappers
  import opened Schema

  // The `id *T` pointer of a mutation. After a save it points at a node's ID
  // field, so that later writes to the node show through it.
  datatype IdRef = NoId | OwnId(v: Id) | NodeId(node: nat)

  datatype MutationState = MutationState(fields: map<Field, Val>, id: IdRef, done: bool)

  datatype NodeState = NodeState(id: Id, fields: map<Field, Option<Val>>)

  datatype Spec = Spec(id: Option<Id>, fields: seq<(Field, Val)>)

  datatype Error =
    | BuilderError(code: int)
    | UnexpectedMutation
    | UninitializedHook
    | MissingField(name: Field)
    | ConstraintError
    | StoreError
    | UnexpectedNode
    | HookError(code: int)

  datatype Value = NodeValue(node: nat) | OtherValue(code: int)

  datatype Outcome = Ok(value: Value) | Err(error: Error)

  // A mutation handed to a mutator: one of this entity's, or another type's.
  datatype Arg = Own(m: nat) | Foreign

  datatype Event =
    | Enter(pos: nat, hook: nat)
    | Exit(pos: nat, hook: nat)
    | Rejected(pos: nat)
    | Invalid(pos: nat, name: Field)
    | Created(pos: nat, id: Option<Id>, fields: map<Field, Val>, node: nat)
    | Write(specs: seq<Option<Spec>>, reply: Reply)
    | Done(pos: nat, m: nat)

  // What the database answers to a batch: one ID for each spec, or a refusal.
  datatype Reply = Stored(ids: seq<Option<Id>>) | Refused(constraint: bool)

  datatype View = View(muts: seq<MutationState>, store: seq<NodeState>, trace: seq<Event>)

  // The mutation setters a hook may call.
  datatype Edit =
    | SetField(m: nat, name: Field, v: Val)
    | ResetField(m: nat, name: Field)
    | SetId(m: nat, id: Id)

  // A call of `next` that has returned: what the hook saw before it, and the outcome.
  datatype Past = Past(view: View, outcome: Outcome)

  // A hook is a strategy for the code around `next`. Given what it was passed, what
  // it sees, and all it has seen since it was entered, it edits mutations and then
  // calls `next` again or stops. All its calls happen before it returns, at most
  // `limit` of them; `last` is what it does once they are used up.
  datatype Finish = Finish(edits: seq<Edit>, result: Outcome)
  datatype Action = CallNext(edits: seq<Edit>, arg: Arg) | Stop(finish: Finish)
  datatype Hook = Hook(
    limit: (Arg, View) -> nat,
    step: (Arg, View, seq<Past>) -> Action,
    last: (Arg, View, seq<Past>) -> Finish)

  // The calls allowed to a hook that was passed `arg`, now sees v and remembers `seen`.
  function Allowed(hook: Hook, arg: Arg, seen: seq<Past>, v: View): nat {
    hook.limit(arg, if seen == [] then v else seen[0].view)
  }

  // `who[i]` is the builder at position i of the bulk, whose hooks are
  // `hooks[who[i]]`. A single Save is the case `single`, with one position.
  datatype Config = Config(
    entity: Entity,
    single: bool,
    who: seq<nat>,
    hooks: seq<seq<Hook>>,
    database: (seq<Event>, seq<Option<Spec>>) -> Reply)
  {
    ghost predicate Valid() {
      && (forall i :: 0 <= i < |who| ==> who[i] < |hooks|)
      && (single ==> |who| == 1)
    }
  }

  // `cur[b]` is the mutation builder b holds; `specs` and `nodes` are the slices of Save.
  datatype State = State(view: View, cur: seq<nat>, specs: seq<Option<Spec>>, nodes: seq<Option<nat>>)

  function HooksAt(c: Config, i: nat): seq<Hook>
    requires c.Valid() && i < |c.who|
  {
    c.hooks[c.who[i]]
  }

  ghost predicate ValidView(v: View) {
    forall m :: 0 <= m < |v.muts| && v.muts[m].id.NodeId? ==> v.muts[m].id.node < |v.store|
  }

  ghost predicate Wf(c: Config, s: State) {
    && c.Valid()
    && ValidView(s.view)
    && |s.cur| == |c.hooks|
    && (forall b :: 0 <= b < |s.cur| ==> s.cur[b] < |s.view.muts|)
    && |s.specs| == |s.nodes| == |c.who|
    && (forall i :: 0 <= i < |s.nodes| ==> (s.nodes[i].Some? <==> s.specs[i].Some?))
    && (forall i :: 0 <= i < |s.nodes| && s.nodes[i].Some? ==> s.nodes[i].value < |s.view.store|)
  }

  // What no step takes back.
  ghost predicate Extends(s: State, t: State) {
    && |t.view.muts| == |s.view.muts|
    && |s.view.store| <= |t.view.store|
    && s.view.trace <= t.view.trace
    && |t.nodes| == |s.nodes|
    && (forall i :: 0 <= i < |s.nodes| && s.nodes[i].Some? ==> t.nodes[i].Some?)
  }

  function Log(s: State, e: Event): State {
    s.(view := s.view.(trace := s.view.trace + [e]))
  }

  function ApplyEdit(e: Edit, v: View): View {
    if e.m >= |v.muts| then v
    else
      var was := v.muts[e.m];
      var now := match e
                  case SetField(_, f, x) => was.(fields := was.fields[f := x])
                  case ResetField(_, f) => was.(fields := was.fields - {f})
                  case SetId(_, id) => was.(id := OwnId(id));
      v.(muts := v.muts[e.m := now])
  }

  function ApplyEdits(es: seq<Edit>, v: View): (w: View)
    requires ValidView(v)
    ensures ValidView(w)
    ensures |w.muts| == |v.muts| && w.store == v.store && w.trace == v.trace
  {
    if es == [] then v else ApplyEdits(es[1..], ApplyEdit(es[0], v))
  }

  function Edited(es: seq<Edit>, s: State): State
    requires ValidView(s.view)
  {
    s.(view := ApplyEdits(es, s.view))
  }

  // Mutation.ID(): the pointer is followed, if there is one.
  function ReadId(v: View, m: nat): Option<Id>
    requires ValidView(v) && m < |v.muts|
  {
    match v.muts[m].id
    case NoId => None
    case OwnId(id) => Some(id)
    case NodeId(n) => Some(v.store[n].id)
  }

  // The ID part of createSpec(); PlatformSetting never reads the mutation's.
  function SpecId(e: Entity, v: View, m: nat): Option<Id>
    requires ValidView(v) && m < |v.muts|
  {
    if e.idPolicy.AlwaysAssigned? then None else ReadId(v, m)
  }

  function MakeNode(e: Entity, id: Option<Id>, fields: map<Field, Val>): NodeState {
    NodeState(if id.Some? then id.value else 0, NodeFields(e.columns, fields))
  }

  function MakeSpec(e: Entity, id: Option<Id>, fields: map<Field, Val>): Spec {
    Spec(id, SpecFields(e.columns, fields))
  }

  // `builder.mutation = mutation` and `nodes[i], specs[i] = builder.createSpec()`.
  function CreateAt(c: Config, i: nat, m: nat, s: State): (t: State)
    requires Wf(c, s) && i < |c.who| && m < |s.view.muts|
    ensures Wf(c, t) && Extends(s, t) && t.nodes[i].Some?
  {
    var id := SpecId(c.entity, s.view, m);
    var fields := s.view.muts[m].fields;
    var n := |s.view.store|;
    State(
      s.view.(store := s.view.store + [MakeNode(c.entity, id, fields)],
              trace := s.view.trace + [Created(i, id, fields, n)]),
      s.cur[c.who[i] := m],
      s.specs[i := Some(MakeSpec(c.entity, id, fields))],
      s.nodes[i := Some(n)])
  }

  function AssignIds(specs: seq<Option<Spec>>, ids: seq<Option<Id>>): (r: seq<Option<Spec>>)
    ensures |r| == |specs|
    ensures forall i :: 0 <= i < |specs| ==> (r[i].Some? <==> specs[i].Some?)
  {
    seq(|specs|, i requires 0 <= i < |specs| =>
      if specs[i].Some? && i < |ids| then Some(specs[i].value.(id := ids[i])) else specs[i])
  }

  // BatchCreate (CreateNode for a single save), with its error wrapped.
  function WriteAll(c: Config, s: State): (r: (Option<Error>, State))
    requires Wf(c, s)
    ensures Wf(c, r.1) && Extends(s, r.1)
  {
    var reply := c.database(s.view.trace, s.specs);
    var t := Log(s, Write(s.specs, reply));
    match reply
    case Stored(ids) => (None, t.(specs := AssignIds(s.specs, ids)))
    case Refused(constraint) => (Some(if constraint then ConstraintError else StoreError), t)
  }

  // The node's ID after the store has answered, for each policy and kind of save.
  function FinalId(policy: IdPolicy, single: bool, nodeId: Id, specId: Option<Id>): Id {
    if specId.None? then nodeId
    else match policy
      case BuilderUuid => if single then specId.value else nodeId
      case GivenOrAssigned => if single || nodeId == 0 then specId.value else nodeId
      case AlwaysAssigned => specId.value
  }

  // `mutation.id = &nodes[i].ID`, the write to nodes[i].ID, `mutation.done = true`.
  function Complete(c: Config, i: nat, m: nat, s: State): (t: State)
    requires Wf(c, s) && i < |c.who| && m < |s.view.muts| && s.nodes[i].Some?
    ensures Wf(c, t) && Extends(s, t)
  {
    var n := s.nodes[i].value;
    var node := s.view.store[n];
    s.(view := View(
      s.view.muts[m := s.view.muts[m].(id := NodeId(n), done := true)],
      s.view.store[n := node.(id := FinalId(c.entity.idPolicy, c.single, node.id, s.specs[i].value.id))],
      s.view.trace + [Done(i, m)]))
  }

  // The mutation the base mutator works on. A bulk save goes on with the object
  // it was passed; withHooks copies the contents of that object into the builder's.
  function Received(c: Config, i: nat, m: nat, s: State): nat
    requires Wf(c, s) && i < |c.who| && m < |s.view.muts|
  {
    if c.single then s.cur[c.who[i]] else m
  }

  function Receive(c: Config, i: nat, m: nat, s: State): (t: State)
    requires Wf(c, s) && i < |c.who| && m < |s.view.muts|
    ensures Wf(c, t) && Extends(s, t)
  {
    if c.single then s.(view := s.view.(muts := s.view.muts[s.cur[c.who[i]] := s.view.muts[m]])) else s
  }

  // The innermost mutator at position i.
  function Base(c: Config, i: nat, arg: Arg, s: State): (r: (Outcome, State))
    requires Wf(c, s) && i < |c.who|
    ensures Wf(c, r.1) && Extends(s, r.1)
    decreases |c.who| - i, 0, 0, 0
  {
    if arg.Foreign? || arg.m >= |s.view.muts| then (Err(UnexpectedMutation), Log(s, Rejected(i)))
    else
      var s0 := Receive(c, i, arg.m, s);
      var m := Received(c, i, arg.m, s);
      var missing := Missing(c.entity.columns, s0.view.muts[s0.cur[c.who[i]]].fields);
      if missing.Some? then (Err(MissingField(missing.value)), Log(s0, Invalid(i, missing.value)))
      else
        var s1 := CreateAt(c, i, m, s0);
        var (err, s2) := Inner(c, i, s1);
        if err.Some? then (Err(err.value), s2)
        else
          var s3 := Complete(c, i, m, s2);
          (Ok(NodeValue(s3.nodes[i].value)), s3)
  }

  // What the base mutator calls: the next builder's mutator, or the write.
  function Inner(c: Config, i: nat, s: State): (r: (Option<Error>, State))
    requires Wf(c, s) && i < |c.who|
    ensures Wf(c, r.1) && Extends(s, r.1)
    decreases |c.who| - i - 1, if i + 1 < |c.who| then |HooksAt(c, i + 1)| else 0, 2, 0
  {
    if i + 1 < |c.who| then
      var (o, t) := Mutate(c, i + 1, 0, Own(s.cur[c.who[i + 1]]), s);
      (if o.Err? then Some(o.error) else None, t)
    else WriteAll(c, s)
  }

  // The mutator at position i with the hooks from h on still around it.
  function Mutate(c: Config, i: nat, h: nat, arg: Arg, s: State): (r: (Outcome, State))
    requires Wf(c, s) && i < |c.who| && h <= |HooksAt(c, i)|
    ensures Wf(c, r.1) && Extends(s, r.1)
    decreases |c.who| - i, |HooksAt(c, i)| - h, 1, 0
  {
    if h == |HooksAt(c, i)| then Base(c, i, arg, s)
    else
      var (o, t) := RunHook(c, i, h, arg, [], Log(s, Enter(i, h)));
      (o, Log(t, Exit(i, h)))
  }

  // Hook h at position i, after the calls to `next` it remembers.
  function RunHook(c: Config, i: nat, h: nat, arg: Arg, seen: seq<Past>, s: State): (r: (Outcome, State))
    requires Wf(c, s) && i < |c.who| && h < |HooksAt(c, i)| && |seen| <= Allowed(HooksAt(c, i)[h], arg, seen, s.view)
    ensures Wf(c, r.1) && Extends(s, r.1)
    decreases |c.who| - i, |HooksAt(c, i)| - h, 0, Allowed(HooksAt(c, i)[h], arg, seen, s.view) - |seen|
  {
    var hook := HooksAt(c, i)[h];
    if |seen| == Allowed(hook, arg, seen, s.view) then
      var fin := hook.last(arg, s.view, seen);
      (fin.result, Edited(fin.edits, s))
    else
      match hook.step(arg, s.view, seen)
      case Stop(fin) => (fin.result, Edited(fin.edits, s))
      case CallNext(edits, a) =>
        var (o, t) := Mutate(c, i, h + 1, a, Edited(edits, s));
        RunHook(c, i, h, arg, seen + [Past(s.view, o)], t)
  }
}
