// The query builder as it works on the heap: a shared query context, appended
// slices, and the public calls. Every call is proved equal to its meaning in
// QuerySemantics.
module QueryBuilder {
  import opened Wrappers
  import opened Schema
  import opened Codec
  import opened Slices
  import opened QuerySemantics

  datatype Op = OpFirst | OpFirstID | OpOnly | OpOnlyID | OpAll | OpIDs | OpSelect | OpExist

  // ent.QueryContext; contexts refer to it by pointer.
  class QueryContext {
    var op: Option<Op>
    var limit: Option<nat>
    var offset: Option<nat>
    var unique: Option<bool>
    var fields: Slice<Field>

    constructor (fields: Slice<Field>)
      ensures op == None && limit == None && offset == None && unique == None && this.fields == fields
    {
      op, limit, offset, unique, this.fields := None, None, None, None, fields;
    }
  }

  // A call that configures a builder.
  datatype Step =
    | AddWhere(ps: seq<Predicate>)
    | AddOrder(terms: seq<OrderTerm>)
    | SetLimit(n: nat)
    | SetOffset(n: nat)
    | SetUnique(b: bool)
    | AddFields(fs: seq<Field>)

  function Configured(q: Query, s: Step): Query {
    match s
    case AddWhere(ps) => q.(predicates := q.predicates + ps)
    case AddOrder(terms) => q.(order := q.order + terms)
    case SetLimit(n) => q.(limit := Some(n))
    case SetOffset(n) => q.(offset := Some(n))
    case SetUnique(b) => q.(unique := Some(b))
    case AddFields(fs) => q.(fields := q.fields + fs)
  }

  // The label interceptors see: that of the query context attached to the Go
  // context `at`, or, if there is none, the label of the public call.
  ghost function Label(at: QueryContext?, call: Op): Option<Op>
    reads at
  {
    if at == null then Some(call) else at.op
  }

  class QueryBuilder {
    const path: Option<Path>
    const ctx: QueryContext
    var predicates: Slice<Predicate>
    var order: Slice<OrderTerm>
    // The intermediate query, once prepareQuery() has run it.
    var sql: Option<seq<Row>>
    // The labels the interceptors saw, one for each execution.
    var seen: seq<Option<Op>>

    ghost function Footprint(): set<object>
      reads this, ctx
    {
      {this, ctx, ctx.fields.cells, predicates.cells, order.cells}
    }

    ghost predicate Valid()
      reads this, ctx
    {
      && Proper(ctx.fields) && Proper(predicates) && Proper(order)
      && (ctx.fields.cells as object) != predicates.cells
      && (ctx.fields.cells as object) != order.cells
      && (predicates.cells as object) != order.cells
      && (path.None? ==> sql.None?)
    }

    ghost function Contents(): Query
      requires Valid()
      reads this, ctx, Footprint()
    {
      Query(ctx.limit, ctx.offset, ctx.unique, Elements(ctx.fields), Elements(predicates), Elements(order), path)
    }

    // client.Query().
    constructor (path: Option<Path>)
      ensures Valid() && fresh(Footprint()) && seen == []
      ensures Contents() == Query(None, None, None, [], [], [], path)
    {
      this.path := path;
      var noFields := new Field[0];
      ctx := new QueryContext(Slice(noFields, 0));
      var noPredicates, noTerms := new Predicate[0], new OrderTerm[0];
      predicates, order, sql, seen := Slice(noPredicates, 0), Slice(noTerms, 0), None, [];
    }

    // Clone().
    constructor Cloned(q: QueryBuilder)
      requires q.Valid()
      ensures Valid() && fresh(Footprint()) && Contents() == q.Contents()
    {
      path := q.path;
      var fields := Copy(q.ctx.fields);
      var context := new QueryContext(fields);
      context.op, context.limit, context.offset, context.unique := q.ctx.op, q.ctx.limit, q.ctx.offset, q.ctx.unique;
      ctx := context;
      var ps := Copy(q.predicates);
      var terms := Copy(q.order);
      predicates, order, sql, seen := ps, terms, q.sql, [];
    }

    method Where(ps: seq<Predicate>)
      requires Valid()
      modifies this`predicates, predicates.cells
      ensures Valid() && fresh(Footprint() - old(Footprint()))
      ensures Contents() == Configured(old(Contents()), AddWhere(ps))
    {
      predicates := Append(predicates, ps);
    }

    method Order(terms: seq<OrderTerm>)
      requires Valid()
      modifies this`order, order.cells
      ensures Valid() && fresh(Footprint() - old(Footprint()))
      ensures Contents() == Configured(old(Contents()), AddOrder(terms))
    {
      order := Append(order, terms);
    }

    method Limit(n: nat)
      requires Valid()
      modifies ctx`limit
      ensures Valid() && Footprint() == old(Footprint())
      ensures Contents() == Configured(old(Contents()), SetLimit(n))
    {
      ctx.limit := Some(n);
    }

    method Offset(n: nat)
      requires Valid()
      modifies ctx`offset
      ensures Valid() && Footprint() == old(Footprint())
      ensures Contents() == Configured(old(Contents()), SetOffset(n))
    {
      ctx.offset := Some(n);
    }

    method Unique(b: bool)
      requires Valid()
      modifies ctx`unique
      ensures Valid() && Footprint() == old(Footprint())
      ensures Contents() == Configured(old(Contents()), SetUnique(b))
    {
      ctx.unique := Some(b);
    }

    method Select(fs: seq<Field>)
      requires Valid()
      modifies ctx`fields, ctx.fields.cells
      ensures Valid() && fresh(Footprint() - old(Footprint()))
      ensures Contents() == Configured(old(Contents()), AddFields(fs))
    {
      ctx.fields := Append(ctx.fields, fs);
    }

    method Configure(s: Step)
      requires Valid()
      modifies Footprint()
      ensures Valid() && fresh(Footprint() - old(Footprint()))
      ensures Contents() == Configured(old(Contents()), s)
    {
      match s
      case AddWhere(ps) => Where(ps);
      case AddOrder(terms) => Order(terms);
      case SetLimit(n) => Limit(n);
      case SetOffset(n) => Offset(n);
      case SetUnique(b) => Unique(b);
      case AddFields(fs) => Select(fs);
    }

    // querySpec().
    method QuerySpec(e: Engine) returns (s: Spec)
      requires Valid()
      ensures s == QuerySemantics.QuerySpec(e, Contents())
    {
      var unique := path.Some?;
      if ctx.unique.Some? {
        unique := ctx.unique.value;
      }
      var columns := e.columns;
      var fields := ctx.fields;
      if fields.len > 0 {
        columns := [ID];
        ghost var all := Elements(fields);
        for i := 0 to fields.len
          invariant [ID] + NonId(all) == columns + NonId(all[i..])
        {
          assert all[i..][0] == fields.cells[i] && all[i..][1..] == all[i + 1..];
          if fields.cells[i] != ID {
            columns := columns + [fields.cells[i]];
          }
        }
        assert all[fields.len..] == [];
      }
      var limit, offset := 0, 0;
      if ctx.limit.Some? {
        limit := ctx.limit.value;
      }
      if ctx.offset.Some? {
        offset := ctx.offset.value;
      }
      s := Spec(columns, unique, predicates.cells[..predicates.len], order.cells[..order.len], limit, offset);
    }

    // sqlQuery().
    method SqlQuery(e: Engine) returns (s: Selector)
      requires Valid()
      ensures s == QuerySemantics.SqlQuery(e, Contents())
    {
      var columns := ctx.fields.cells[..ctx.fields.len];
      if |columns| == 0 {
        columns := e.columns;
      }
      s := Selector(columns, false, predicates.cells[..predicates.len], order.cells[..order.len], None, 0);
      if ctx.unique.Some? && ctx.unique.value {
        s := s.(distinct := true);
      }
      if ctx.offset.Some? {
        s := s.(offset := ctx.offset.value, limit := Some(MAX_INT32));
      }
      if ctx.limit.Some? {
        s := s.(limit := ctx.limit);
      }
    }

    // setContextOp().
    method SetContextOp(at: QueryContext?, op: Op) returns (now: QueryContext)
      requires Valid()
      modifies ctx`op
      ensures Valid() && Contents() == old(Contents()) && Footprint() == old(Footprint())
      ensures now.op == old(Label(at, op)) && now == (if at == null then ctx else at)
      ensures at != null ==> ctx.op == old(ctx.op)
    {
      if at == null {
        ctx.op := Some(op);
        now := ctx;
      } else {
        now := at;
      }
    }

    // prepareQuery(), after which the interceptors run with the label of `at`.
    method PrepareQuery(at: QueryContext, e: Engine) returns (err: Option<QueryError>)
      requires Valid()
      modifies this`sql, this`seen
      ensures Valid() && Contents() == old(Contents()) && Footprint() == old(Footprint())
      ensures match Prepare(e, Contents())
        case Failed(f) => err == Some(f) && seen == old(seen)
        case Rows'(base) =>
          err == None && seen == old(seen) + [at.op] && base == if sql.Some? then sql.value else e.table
    {
      ghost var all := Elements(ctx.fields);
      for i := 0 to ctx.fields.len
        invariant FirstInvalid(e, all) == FirstInvalid(e, all[i..])
      {
        var f := ctx.fields.cells[i];
        assert all[i..][0] == f && all[i..][1..] == all[i + 1..];
        if f !in e.columns {
          return Some(InvalidField(f));
        }
      }
      assert all[ctx.fields.len..] == [];
      if path.Some? {
        match path.value
        case PathFails => return Some(PathError);
        case Rows(rows) => sql := Some(rows);
      }
      seen := seen + [at.op];
      err := None;
    }

    method All(at: QueryContext?, e: Engine) returns (r: Answer<seq<Tuple>>)
      requires Valid()
      modifies this`sql, this`seen, ctx`op
      ensures Valid() && Contents() == old(Contents()) && Footprint() == old(Footprint())
      ensures r == QuerySemantics.All(e, Contents())
      ensures Seen(old(seen), Prepare(e, Contents()).Rows'?, old(Label(at, OpAll)))
    {
      var now := SetContextOp(at, OpAll);
      var err := PrepareQuery(now, e);
      if err.Some? {
        return Failed(err.value);
      }
      var s := QuerySpec(e);
      r := if e.fails then Failed(StoreFailed) else Rows'(RunSpec(e, s, if sql.Some? then sql.value else e.table));
    }

    // What an execution, or a failure before it, adds to the labels seen.
    ghost predicate Seen(before: seq<Option<Op>>, executed: bool, shown: Option<Op>)
      reads this
    {
      seen == if executed then before + [shown] else before
    }

    // Select(...).Scan into a list of IDs.
    method ScanIds(at: QueryContext?, e: Engine) returns (r: Answer<seq<Option<DbVal>>>)
      requires Valid()
      modifies this`sql, this`seen, ctx`op
      ensures Valid() && Contents() == old(Contents()) && Footprint() == old(Footprint())
      ensures r == QuerySemantics.ScanIds(e, Contents())
      ensures Seen(old(seen), Prepare(e, Contents()).Rows'?, old(Label(at, OpSelect)))
    {
      var now := SetContextOp(at, OpSelect);
      var err := PrepareQuery(now, e);
      if err.Some? {
        return Failed(err.value);
      }
      var s := SqlQuery(e);
      if e.fails {
        return Failed(StoreFailed);
      }
      if ctx.fields.len != 1 {
        return Failed(ScanFailed);
      }
      r := Rows'(Map(OneColumn, RunSelector(e, s, if sql.Some? then sql.value else e.table)));
    }

    method IDs(at: QueryContext?, e: Engine) returns (r: Answer<seq<Option<DbVal>>>)
      requires Valid()
      modifies this`sql, this`seen, ctx, ctx.fields.cells
      ensures Valid() && fresh(Footprint() - old(Footprint())) && Contents() == ForIds(old(Contents()))
      ensures r == QuerySemantics.IDs(e, old(Contents()))
      ensures Seen(old(seen), Prepare(e, Contents()).Rows'?, old(Label(at, OpIDs)))
    {
      var now := SelectId(at);
      r := ScanIds(now, e);
    }

    // What IDs() does to the builder.
    method SelectId(at: QueryContext?) returns (now: QueryContext)
      requires Valid()
      modifies ctx, ctx.fields.cells
      ensures Valid() && fresh(Footprint() - old(Footprint())) && Contents() == ForIds(old(Contents()))
      ensures now.op == old(Label(at, OpIDs))
    {
      if ctx.unique.None? && path.Some? {
        Unique(true);
      }
      now := SetContextOp(at, OpIDs);
      Select([ID]);
    }

    method First(at: QueryContext?, e: Engine) returns (r: Answer<Tuple>)
      requires Valid()
      modifies this`sql, this`seen, ctx
      ensures Valid() && Contents() == old(Contents()).(limit := Some(1))
      ensures r == QuerySemantics.First(e, old(Contents()))
      ensures Seen(old(seen), Prepare(e, Contents()).Rows'?, old(Label(at, OpFirst)))
    {
      Limit(1);
      var now := SetContextOp(at, OpFirst);
      var nodes := All(now, e);
      r := FirstOf(nodes);
    }

    method FirstID(at: QueryContext?, e: Engine) returns (r: Answer<Option<DbVal>>)
      requires Valid()
      modifies this`sql, this`seen, ctx, ctx.fields.cells
      ensures Valid() && Contents() == ForIds(old(Contents()).(limit := Some(1)))
      ensures r == QuerySemantics.FirstID(e, old(Contents()))
      ensures Seen(old(seen), Prepare(e, Contents()).Rows'?, old(Label(at, OpFirstID)))
    {
      Limit(1);
      var now := SetContextOp(at, OpFirstID);
      var ids := IDs(now, e);
      r := FirstOf(ids);
    }

    method Only(at: QueryContext?, e: Engine) returns (r: Answer<Tuple>)
      requires Valid()
      modifies this`sql, this`seen, ctx
      ensures Valid() && Contents() == old(Contents()).(limit := Some(2))
      ensures r == QuerySemantics.Only(e, old(Contents()))
      ensures Seen(old(seen), Prepare(e, Contents()).Rows'?, old(Label(at, OpOnly)))
    {
      Limit(2);
      var now := SetContextOp(at, OpOnly);
      var nodes := All(now, e);
      r := OnlyOf(nodes);
    }

    method OnlyID(at: QueryContext?, e: Engine) returns (r: Answer<Option<DbVal>>)
      requires Valid()
      modifies this`sql, this`seen, ctx, ctx.fields.cells
      ensures Valid() && Contents() == ForIds(old(Contents()).(limit := Some(2)))
      ensures r == QuerySemantics.OnlyID(e, old(Contents()))
      ensures Seen(old(seen), Prepare(e, Contents()).Rows'?, old(Label(at, OpOnlyID)))
    {
      Limit(2);
      var now := SetContextOp(at, OpOnlyID);
      var ids := IDs(now, e);
      r := OnlyOf(ids);
    }

    method Exist(at: QueryContext?, e: Engine) returns (r: Answer<bool>)
      requires Valid()
      modifies this`sql, this`seen, ctx, ctx.fields.cells
      ensures Valid() && Contents() == ForIds(old(Contents()).(limit := Some(1)))
      ensures r == QuerySemantics.Exist(e, old(Contents()))
      ensures Seen(old(seen), Prepare(e, Contents()).Rows'?, old(Label(at, OpExist)))
    {
      var now := SetContextOp(at, OpExist);
      var id := FirstID(now, e);
      match id
      case Rows'(_) => r := Rows'(true);
      case Failed(NotFound) => r := Rows'(false);
      case Failed(err) => r := Failed(err);
    }
  }

  // The steps of a sequence that were meant for one of two builders.
  function StepsFor(steps: seq<(bool, Step)>, clone: bool): seq<Step> {
    if steps == [] then []
    else
      var last := steps[|steps| - 1];
      StepsFor(steps[..|steps| - 1], clone) + (if last.0 == clone then [last.1] else [])
  }

  function ConfiguredAll(q: Query, steps: seq<Step>): Query {
    if steps == [] then q else Configured(ConfiguredAll(q, steps[..|steps| - 1]), steps[|steps| - 1])
  }

  // All predicates, order terms and fields that the steps add, in order.
  function PredicatesAdded(steps: seq<Step>): seq<Predicate> {
    if steps == [] then []
    else
      var n := |steps| - 1;
      PredicatesAdded(steps[..n]) + if steps[n].AddWhere? then steps[n].ps else []
  }

  function TermsAdded(steps: seq<Step>): seq<OrderTerm> {
    if steps == [] then []
    else
      var n := |steps| - 1;
      TermsAdded(steps[..n]) + if steps[n].AddOrder? then steps[n].terms else []
  }

  function FieldsAdded(steps: seq<Step>): seq<Field> {
    if steps == [] then []
    else
      var n := |steps| - 1;
      FieldsAdded(steps[..n]) + if steps[n].AddFields? then steps[n].fs else []
  }

  // The last setting among the steps, or what was there before them.
  function LastLimit(steps: seq<Step>, before: Option<nat>): Option<nat> {
    if steps == [] then before
    else if steps[|steps| - 1].SetLimit? then Some(steps[|steps| - 1].n) else LastLimit(steps[..|steps| - 1], before)
  }

  function LastOffset(steps: seq<Step>, before: Option<nat>): Option<nat> {
    if steps == [] then before
    else if steps[|steps| - 1].SetOffset? then Some(steps[|steps| - 1].n) else LastOffset(steps[..|steps| - 1], before)
  }

  function LastUnique(steps: seq<Step>, before: Option<bool>): Option<bool> {
    if steps == [] then before
    else if steps[|steps| - 1].SetUnique? then Some(steps[|steps| - 1].b) else LastUnique(steps[..|steps| - 1], before)
  }

  // Main result: what any configuring calls come to. Where, Order and Select add to what
  // is there; Limit, Offset and Unique replace it; and the traversal stays.
  lemma {:induction false} ConfiguredMeans(q: Query, steps: seq<Step>)
    ensures ConfiguredAll(q, steps) ==
      Query(LastLimit(steps, q.limit), LastOffset(steps, q.offset), LastUnique(steps, q.unique),
            q.fields + FieldsAdded(steps), q.predicates + PredicatesAdded(steps), q.order + TermsAdded(steps), q.path)
  {
    if steps != [] {
      ConfiguredMeans(q, steps[..|steps| - 1]);
    }
  }

  function ConfiguredIf(q: Query, taken: bool, s: Step): Query {
    if taken then Configured(q, s) else q
  }

  // One of the two builders after the first n steps.
  function AfterSteps(q: Query, steps: seq<(bool, Step)>, n: nat, clone: bool): Query
    requires n <= |steps|
  {
    if n == 0 then q
    else ConfiguredIf(AfterSteps(q, steps, n - 1, clone), steps[n - 1].0 == clone, steps[n - 1].1)
  }

  // It is as if it had received only its own steps.
  lemma {:induction false} OwnSteps(q: Query, steps: seq<(bool, Step)>, n: nat, clone: bool)
    requires n <= |steps|
    ensures AfterSteps(q, steps, n, clone) == ConfiguredAll(q, StepsFor(steps[..n], clone))
  {
    if n > 0 {
      OwnSteps(q, steps, n - 1, clone);
      assert steps[..n][..n - 1] == steps[..n - 1];
      var before, last := StepsFor(steps[..n - 1], clone), steps[n - 1].1;
      assert (before + [last])[..|before|] == before;
      assert before + [] == before;
    }
  }

  lemma OwnStepsAll(q: Query, steps: seq<(bool, Step)>, clone: bool)
    ensures AfterSteps(q, steps, |steps|, clone) == ConfiguredAll(q, StepsFor(steps, clone))
  {
    OwnSteps(q, steps, |steps|, clone);
    assert steps[..|steps|] == steps;
  }

  ghost predicate Within(q: QueryBuilder, region: set<object>)
    reads q, q.ctx
  {
    q.Valid() && q.Footprint() <= region
  }

  // A configuring call on a builder within S, beside one within T.
  method ConfigureBeside(q: QueryBuilder, other: QueryBuilder, step: Step, ghost S: set<object>, ghost T: set<object>)
      returns (ghost S': set<object>)
    requires Within(q, S) && Within(other, T) && S !! T
    modifies q.Footprint()
    ensures Within(q, S') && Within(other, T) && S <= S' && fresh(S' - S)
    ensures q.Contents() == Configured(old(q.Contents()), step) && other.Contents() == old(other.Contents())
  {
    q.Configure(step);
    S' := S + q.Footprint();
  }

  // The same for whichever of the two the call was meant for.
  method ConfigureEither(q: QueryBuilder, c: QueryBuilder, clone: bool, step: Step, ghost S: set<object>,
                         ghost T: set<object>)
      returns (ghost S': set<object>, ghost T': set<object>)
    requires Within(q, S) && Within(c, T) && S !! T
    modifies S, T
    ensures Within(q, S') && Within(c, T') && S <= S' && T <= T' && fresh(S' - S) && fresh(T' - T) && S' !! T'
    ensures q.Contents() == ConfiguredIf(old(q.Contents()), !clone, step)
    ensures c.Contents() == ConfiguredIf(old(c.Contents()), clone, step)
  {
    S', T' := S, T;
    if clone {
      T' := ConfigureBeside(c, q, step, T, S);
    } else {
      S' := ConfigureBeside(q, c, step, S, T);
    }
  }

  // The steps from k on, for one of the two.
  function StepsFrom(q: Query, steps: seq<(bool, Step)>, k: nat, clone: bool): Query
    requires k <= |steps|
    decreases |steps| - k
  {
    if k == |steps| then q
    else StepsFrom(ConfiguredIf(q, steps[k].0 == clone, steps[k].1), steps, k + 1, clone)
  }

  lemma {:induction false} StepsFromAfter(q: Query, steps: seq<(bool, Step)>, k: nat, clone: bool)
    requires k <= |steps|
    ensures StepsFrom(AfterSteps(q, steps, k, clone), steps, k, clone) == AfterSteps(q, steps, |steps|, clone)
    decreases |steps| - k
  {
    if k < |steps| {
      StepsFromAfter(q, steps, k + 1, clone);
    }
  }

  lemma StepsFromStart(q: Query, steps: seq<(bool, Step)>, clone: bool)
    ensures StepsFrom(q, steps, 0, clone) == ConfiguredAll(q, StepsFor(steps, clone))
  {
    StepsFromAfter(q, steps, 0, clone);
    OwnStepsAll(q, steps, clone);
  }

  // The configuring calls from k on, on two builders that share nothing.
  method ConfigureBoth(q: QueryBuilder, c: QueryBuilder, steps: seq<(bool, Step)>, k: nat, ghost S: set<object>,
                       ghost T: set<object>)
    requires Within(q, S) && Within(c, T) && S !! T && k <= |steps|
    modifies S, T
    ensures q.Valid() && c.Valid()
    ensures q.Contents() == StepsFrom(old(q.Contents()), steps, k, false)
    ensures c.Contents() == StepsFrom(old(c.Contents()), steps, k, true)
    decreases |steps| - k
  {
    if k < |steps| {
      ghost var S', T' := ConfigureEither(q, c, steps[k].0, steps[k].1, S, T);
      ConfigureBoth(q, c, steps, k + 1, S', T');
    }
  }

  // Main result: after Clone(), any interleaving of configuring calls on the two
  // builders leaves each as if it had received only its own calls.
  method CloneAndConfigure(q: QueryBuilder, steps: seq<(bool, Step)>) returns (c: QueryBuilder)
    requires q.Valid()
    modifies q.Footprint()
    ensures q.Valid() && c.Valid()
    ensures q.Contents() == ConfiguredAll(old(q.Contents()), StepsFor(steps, false))
    ensures c.Contents() == ConfiguredAll(old(q.Contents()), StepsFor(steps, true))
  {
    c := new QueryBuilder.Cloned(q);
    StepsFromStart(q.Contents(), steps, false);
    StepsFromStart(q.Contents(), steps, true);
    ConfigureBoth(q, c, steps, 0, q.Footprint(), c.Footprint());
  }
}
