// What a query means: the two statements a query builder is lowered to, and the
// rows each of them returns.
module QuerySemantics {
  import opened Wrappers
  import opened Schema
  import opened Codec

  // A row of the table, or of a traversal's intermediate result.
  datatype Row = Row(id: Id, values: map<Field, DbVal>)

  type Tuple = seq<Option<DbVal>>

  datatype Predicate = Predicate(holds: Row -> bool)
  datatype OrderTerm = OrderTerm(column: Field, descending: bool)

  // The database: its rows, the order it puts rows in, and whether it fails; and
  // whether the runner of query specs caps an offset without a limit, as sqlQuery() does.
  datatype Engine = Engine(
    table: seq<Row>,
    columns: seq<Field>,
    sort: (seq<OrderTerm>, seq<Row>) -> seq<Row>,
    fails: bool,
    capsOffset: bool)

  // The intermediate query of a traversal runs, or fails.
  datatype Path = Rows(rows: seq<Row>) | PathFails

  // A query builder's contents. `path` is the traversal it starts from, if any.
  datatype Query = Query(
    limit: Option<nat>,
    offset: Option<nat>,
    unique: Option<bool>,
    fields: seq<Field>,
    predicates: seq<Predicate>,
    order: seq<OrderTerm>,
    path: Option<Path>)

  const MAX_INT32: nat := 0x7FFF_FFFF

  // sqlgraph.QuerySpec as querySpec() fills it; a limit or offset of 0 is none.
  datatype Spec = Spec(
    columns: seq<Field>,
    unique: bool,
    predicates: seq<Predicate>,
    order: seq<OrderTerm>,
    limit: nat,
    offset: nat)

  // The SELECT statement sqlQuery() builds.
  datatype Selector = Selector(
    columns: seq<Field>,
    distinct: bool,
    predicates: seq<Predicate>,
    order: seq<OrderTerm>,
    limit: Option<nat>,
    offset: nat)

  function NonId(fields: seq<Field>): seq<Field> {
    if fields == [] then []
    else (if fields[0] == ID then [] else [fields[0]]) + NonId(fields[1..])
  }

  // querySpec(): all columns, or the ID and then the selected fields.
  function QuerySpec(e: Engine, q: Query): Spec {
    Spec(
      if q.fields == [] then e.columns else [ID] + NonId(q.fields),
      if q.unique.Some? then q.unique.value else q.path.Some?,
      q.predicates,
      q.order,
      if q.limit.Some? then q.limit.value else 0,
      if q.offset.Some? then q.offset.value else 0)
  }

  // sqlQuery(): the fields as selected; the limit is mandatory with an offset.
  function SqlQuery(e: Engine, q: Query): Selector {
    Selector(
      if q.fields == [] then e.columns else q.fields,
      q.unique == Some(true),
      q.predicates,
      q.order,
      if q.limit.Some? then q.limit else if q.offset.Some? then Some(MAX_INT32) else None,
      if q.offset.Some? then q.offset.value else 0)
  }

  function Filter(ps: seq<Predicate>, rows: seq<Row>): seq<Row> {
    if rows == [] then []
    else (if forall k :: 0 <= k < |ps| ==> ps[k].holds(rows[0]) then [rows[0]] else []) + Filter(ps, rows[1..])
  }

  function Project(columns: seq<Field>, row: Row): Tuple {
    seq(|columns|, k requires 0 <= k < |columns| =>
      if columns[k] == ID then Some(DbUuid(row.id))
      else if columns[k] in row.values then Some(row.values[columns[k]]) else None)
  }

  function Map<T, U>(f: T -> U, xs: seq<T>): (r: seq<U>)
    ensures |r| == |xs|
  {
    seq(|xs|, k requires 0 <= k < |xs| => f(xs[k]))
  }

  // DISTINCT: the first of equal elements stays.
  function Dedup<T(==)>(xs: seq<T>): seq<T> {
    if xs == [] then []
    else
      var d := Dedup(xs[..|xs| - 1]);
      if xs[|xs| - 1] in d then d else d + [xs[|xs| - 1]]
  }

  function Drop<T>(n: nat, xs: seq<T>): seq<T> {
    if n <= |xs| then xs[n..] else []
  }

  function Take<T>(limit: Option<nat>, xs: seq<T>): seq<T> {
    if limit.Some? && limit.value <= |xs| then xs[..limit.value] else xs
  }

  // The rows before projection.
  function Sorted(e: Engine, ps: seq<Predicate>, order: seq<OrderTerm>, base: seq<Row>): seq<Row> {
    e.sort(order, Filter(ps, base))
  }

  // Everything but the limit.
  function Body(e: Engine, columns: seq<Field>, distinct: bool, ps: seq<Predicate>, order: seq<OrderTerm>, offset: nat,
                base: seq<Row>): seq<Tuple> {
    var tuples := Map((r: Row) => Project(columns, r), Sorted(e, ps, order, base));
    Drop(offset, if distinct then Dedup(tuples) else tuples)
  }

  function SpecLimit(e: Engine, s: Spec): Option<nat> {
    if s.limit > 0 then Some(s.limit) else if e.capsOffset && s.offset > 0 then Some(MAX_INT32) else None
  }

  function RunSpec(e: Engine, s: Spec, base: seq<Row>): seq<Tuple> {
    Take(SpecLimit(e, s), Body(e, s.columns, s.unique, s.predicates, s.order, s.offset, base))
  }

  function RunSelector(e: Engine, s: Selector, base: seq<Row>): seq<Tuple> {
    Take(s.limit, Body(e, s.columns, s.distinct, s.predicates, s.order, s.offset, base))
  }

  datatype QueryError = InvalidField(name: Field) | PathError | StoreFailed | ScanFailed | NotFound | NotSingular

  datatype Answer<T> = Rows'(rows: T) | Failed(error: QueryError)

  function FirstInvalid(e: Engine, fields: seq<Field>): Option<Field> {
    if fields == [] then None
    else if fields[0] !in e.columns then Some(fields[0])
    else FirstInvalid(e, fields[1..])
  }

  // prepareQuery(): the rows to start from, or the first error.
  function Prepare(e: Engine, q: Query): Answer<seq<Row>> {
    var bad := FirstInvalid(e, q.fields);
    if bad.Some? then Failed(InvalidField(bad.value))
    else match q.path
      case None => Rows'(e.table)
      case Some(PathFails) => Failed(PathError)
      case Some(Rows(rows)) => Rows'(rows)
  }

  // All(): one node for each tuple.
  function All(e: Engine, q: Query): Answer<seq<Tuple>> {
    match Prepare(e, q)
    case Failed(err) => Failed(err)
    case Rows'(base) => if e.fails then Failed(StoreFailed) else Rows'(RunSpec(e, QuerySpec(e, q), base))
  }

  // The query IDs() runs: distinct on a traversal by default, and with the ID selected.
  function ForIds(q: Query): Query {
    q.(unique := if q.unique.None? && q.path.Some? then Some(true) else q.unique, fields := q.fields + [ID])
  }

  function OneColumn(t: Tuple): Option<DbVal> {
    if |t| == 1 then t[0] else None
  }

  // Select(...).Scan: the tuples of the selected fields.
  function Scan(e: Engine, q: Query): Answer<seq<Tuple>> {
    match Prepare(e, q)
    case Failed(err) => Failed(err)
    case Rows'(base) => if e.fails then Failed(StoreFailed) else Rows'(RunSelector(e, SqlQuery(e, q), base))
  }

  // Scan into a list of IDs, which needs exactly one column.
  function ScanIds(e: Engine, q: Query): Answer<seq<Option<DbVal>>> {
    match Scan(e, q)
    case Failed(err) => Failed(err)
    case Rows'(tuples) => if |q.fields| != 1 then Failed(ScanFailed) else Rows'(Map(OneColumn, tuples))
  }

  function IDs(e: Engine, q: Query): Answer<seq<Option<DbVal>>> {
    ScanIds(e, ForIds(q))
  }

  function FirstOf<T>(a: Answer<seq<T>>): Answer<T> {
    match a
    case Failed(err) => Failed(err)
    case Rows'(rows) => if |rows| == 0 then Failed(NotFound) else Rows'(rows[0])
  }

  function OnlyOf<T>(a: Answer<seq<T>>): Answer<T> {
    match a
    case Failed(err) => Failed(err)
    case Rows'(rows) =>
      if |rows| == 1 then Rows'(rows[0])
      else if |rows| == 0 then Failed(NotFound)
      else Failed(NotSingular)
  }

  // What All() would return if the query had no limit of its own.
  function Unlimited(e: Engine, q: Query, base: seq<Row>): seq<Tuple> {
    var s := QuerySpec(e, q);
    Body(e, s.columns, s.unique, s.predicates, s.order, s.offset, base)
  }

  // The effective limits of the two statements.
  function AllLimit(e: Engine, q: Query): Option<nat> {
    if q.limit.Some? && q.limit.value > 0 then q.limit
    else if e.capsOffset && q.offset.Some? && q.offset.value > 0 then Some(MAX_INT32) else None
  }

  function IdsLimit(q: Query): Option<nat> {
    if q.limit.Some? then q.limit else if q.offset.Some? then Some(MAX_INT32) else None
  }

  // All() under a positive limit.
  lemma LimitedAll(e: Engine, q: Query, n: nat)
    requires n > 0
    ensures All(e, q.(limit := Some(n))) == match Prepare(e, q)
      case Failed(err) => Failed(err)
      case Rows'(base) => if e.fails then Failed(StoreFailed) else Rows'(Take(Some(n), Unlimited(e, q, base)))
  {
    assert Prepare(e, q.(limit := Some(n))) == Prepare(e, q);
  }

  // Main result: truncating to one row, or to two, loses nothing. First() and Only()
  // are decided by the rows of the query with its own limit removed.
  function First(e: Engine, q: Query): (r: Answer<Tuple>)
    ensures match Prepare(e, q)
      case Failed(err) => r == Failed(err)
      case Rows'(base) =>
        var rows := Unlimited(e, q, base);
        r == if e.fails then Failed(StoreFailed) else if |rows| == 0 then Failed(NotFound) else Rows'(rows[0])
  {
    LimitedAll(e, q, 1);
    FirstOf(All(e, q.(limit := Some(1))))
  }

  function FirstID(e: Engine, q: Query): Answer<Option<DbVal>> {
    FirstOf(IDs(e, q.(limit := Some(1))))
  }

  function Only(e: Engine, q: Query): (r: Answer<Tuple>)
    ensures match Prepare(e, q)
      case Failed(err) => r == Failed(err)
      case Rows'(base) =>
        var rows := Unlimited(e, q, base);
        r == if e.fails then Failed(StoreFailed)
             else if |rows| == 1 then Rows'(rows[0]) else Failed(if |rows| == 0 then NotFound else NotSingular)
  {
    LimitedAll(e, q, 2);
    OnlyOf(All(e, q.(limit := Some(2))))
  }

  function OnlyID(e: Engine, q: Query): Answer<Option<DbVal>> {
    OnlyOf(IDs(e, q.(limit := Some(2))))
  }

  function Exist(e: Engine, q: Query): Answer<bool> {
    match FirstID(e, q)
    case Rows'(_) => Rows'(true)
    case Failed(NotFound) => Rows'(false)
    case Failed(err) => Failed(err)
  }

  // Rows with the same ID are the same row.
  ghost predicate Keyed(rows: seq<Row>) {
    forall r, s :: r in rows && s in rows && r.id == s.id ==> r == s
  }

  ghost predicate OnlyReorders(e: Engine) {
    forall terms, rows :: multiset(e.sort(terms, rows)) == multiset(rows)
  }

  // A sound database: sorting only reorders, the ID is a column and comes first,
  // and tables and traversals are keyed.
  ghost predicate SoundEngine(e: Engine, q: Query) {
    && OnlyReorders(e)
    && |e.columns| > 0 && e.columns[0] == ID
    && Keyed(e.table)
    && (q.path.Some? && q.path.value.Rows? ==> Keyed(q.path.value.rows))
  }

  // DISTINCT keeps every value once.
  lemma {:induction false} DedupMembers<T>(xs: seq<T>)
    ensures forall x :: x in Dedup(xs) <==> x in xs
    ensures forall j, k :: 0 <= j < k < |Dedup(xs)| ==> Dedup(xs)[j] != Dedup(xs)[k]
  {
    if xs != [] {
      var ys := xs[..|xs| - 1];
      DedupMembers(ys);
      assert xs == ys + [xs[|xs| - 1]];
    }
  }

  // Deduplication commutes with a map that keeps the elements apart.
  lemma {:induction false} DedupMap<T, U>(f: T -> U, xs: seq<T>)
    requires forall x, y :: x in xs && y in xs && f(x) == f(y) ==> x == y
    ensures Dedup(Map(f, xs)) == Map(f, Dedup(xs))
  {
    if xs != [] {
      var ys, last := xs[..|xs| - 1], xs[|xs| - 1];
      DedupMap(f, ys);
      DedupMembers(ys);
      assert Map(f, xs)[..|xs| - 1] == Map(f, ys);
      var d := Dedup(ys);
      if f(last) in Map(f, d) {
        var k :| 0 <= k < |d| && Map(f, d)[k] == f(last);
        assert d[k] in d;
      }
      if last in d {
        var k :| 0 <= k < |d| && d[k] == last;
        assert Map(f, d)[k] == f(last);
      }
      assert Map(f, d + [last]) == Map(f, d) + [f(last)];
    }
  }

  // WHERE keeps exactly the rows that satisfy all predicates.
  lemma {:induction false} FilterMembers(ps: seq<Predicate>, rows: seq<Row>)
    ensures forall r :: r in Filter(ps, rows) <==> r in rows && forall k :: 0 <= k < |ps| ==> ps[k].holds(r)
  {
    if rows != [] {
      FilterMembers(ps, rows[1..]);
    }
  }

  lemma SortedKeyed(e: Engine, q: Query, base: seq<Row>)
    requires SoundEngine(e, q) && Keyed(base)
    ensures Keyed(Sorted(e, q.predicates, q.order, base))
  {
    var filtered := Filter(q.predicates, base);
    var sorted := Sorted(e, q.predicates, q.order, base);
    FilterMembers(q.predicates, base);
    forall r | r in sorted ensures r in base {
      assert r in multiset(sorted);
      assert r in multiset(filtered);
    }
  }

  function IdOf(t: Tuple): Option<DbVal> {
    if |t| > 0 then t[0] else None
  }

  function Single(t: Tuple): Tuple {
    [IdOf(t)]
  }

  // Projecting to the ID is projecting to columns that start with it, then taking the first.
  lemma ProjectId(columns: seq<Field>, rows: seq<Row>)
    requires |columns| > 0 && columns[0] == ID
    ensures Map((r: Row) => Project([ID], r), rows) == Map(Single, Map((r: Row) => Project(columns, r), rows))
  {
    var ids, tuples := Map((r: Row) => Project([ID], r), rows), Map((r: Row) => Project(columns, r), rows);
    forall k | 0 <= k < |rows| ensures ids[k] == Map(Single, tuples)[k] {
      assert ids[k] == Project([ID], rows[k]) == [Some(DbUuid(rows[k].id))];
      assert tuples[k] == Project(columns, rows[k]) && tuples[k][0] == Some(DbUuid(rows[k].id));
      assert Map(Single, tuples)[k] == Single(tuples[k]) == [tuples[k][0]];
    }
  }

  // The two bodies of a query without selected fields.
  lemma BodiesAgree(e: Engine, columns: seq<Field>, distinct: bool, q: Query, offset: nat, base: seq<Row>)
    requires SoundEngine(e, q) && Keyed(base) && |columns| > 0 && columns[0] == ID
    ensures Body(e, [ID], distinct, q.predicates, q.order, offset, base)
         == Map(Single, Body(e, columns, distinct, q.predicates, q.order, offset, base))
  {
    var rows := Sorted(e, q.predicates, q.order, base);
    var tuples := Map((r: Row) => Project(columns, r), rows);
    SortedKeyed(e, q, base);
    ProjectId(columns, rows);
    forall x, y | x in tuples && y in tuples && Single(x) == Single(y) ensures x == y {
      var j :| 0 <= j < |rows| && tuples[j] == x;
      var k :| 0 <= k < |rows| && tuples[k] == y;
      assert x[0] == Some(DbUuid(rows[j].id)) && y[0] == Some(DbUuid(rows[k].id));
      assert Single(x)[0] == Single(y)[0];
      assert rows[j] in rows && rows[k] in rows;
    }
    DedupMap(Single, tuples);
  }

  // The ID column passes validation, so IDs() prepares as All() does.
  lemma IdsPrepare(e: Engine, q: Query)
    requires SoundEngine(e, q) && q.fields == []
    ensures Prepare(e, ForIds(q)) == Prepare(e, q)
    ensures ForIds(q).fields == [ID]
  {
    var ids := ForIds(q).fields;
    assert ids == [] + [ID] == [ID];
    assert ids[0] in e.columns && ids[1..] == [];
    assert FirstInvalid(e, ids) == FirstInvalid(e, ids[1..]) == None;
  }

  lemma SingleColumn(tuples: seq<Tuple>)
    ensures Map(OneColumn, Map(Single, tuples)) == Map(IdOf, tuples)
  {
    var singles := Map(Single, tuples);
    var ids, firsts := Map(OneColumn, singles), Map(IdOf, tuples);
    forall k | 0 <= k < |tuples| ensures ids[k] == firsts[k] {
      assert singles[k] == Single(tuples[k]);
      assert ids[k] == OneColumn(singles[k]) == IdOf(tuples[k]);
    }
  }

  lemma IdsIsTake(e: Engine, q: Query, base: seq<Row>)
    requires SoundEngine(e, q) && q.fields == [] && Prepare(e, q) == Rows'(base) && !e.fails
    ensures IDs(e, q) == Rows'(Map(IdOf, Take(IdsLimit(q), Unlimited(e, q, base))))
  {
    IdsPrepare(e, q);
    var body := Unlimited(e, q, base);
    var sel := SqlQuery(e, ForIds(q));
    BodiesAgree(e, e.columns, sel.distinct, q, sel.offset, base);
    assert RunSelector(e, sel, base) == Map(Single, Take(IdsLimit(q), body));
    SingleColumn(Take(IdsLimit(q), body));
    assert IDs(e, q) == Rows'(Map(OneColumn, RunSelector(e, sel, base)));
  }

  // Where the two lowerings differ: a limit of 0 is no limit for All() but an
  // empty result for IDs(), and an offset without limit caps IDs() at MaxInt32, which
  // differs unless the runner of query specs caps it too (it sees no offset of 0).
  predicate LimitsDiffer(e: Engine, q: Query, rows: nat) {
    || (q.limit == Some(0) && rows > 0)
    || (q.limit.None? && q.offset.Some? && rows > MAX_INT32 && !(e.capsOffset && q.offset.value > 0))
  }

  // Main result: for a query without selected fields, IDs() fails exactly as All()
  // does, and otherwise returns the IDs of All(), in the same order, if and only
  // if the limits do not differ. `Unlimited` counts the rows after the offset.
  lemma IdsAreIdsOfAll(e: Engine, q: Query)
    requires SoundEngine(e, q) && q.fields == []
    ensures forall err :: All(e, q) == Failed(err) <==> IDs(e, q) == Failed(err)
    ensures All(e, q).Rows'? ==>
      && Prepare(e, q).Rows'?
      && (IDs(e, q).rows == Map(IdOf, All(e, q).rows) <==> !LimitsDiffer(e, q, |Unlimited(e, q, Prepare(e, q).rows)|))
  {
    IdsPrepare(e, q);
    if Prepare(e, q).Rows'? && !e.fails {
      var base := Prepare(e, q).rows;
      IdsIsTake(e, q, base);
    }
  }

  // A table of one row.
  function OneRow(caps: bool): Engine {
    Engine([Row(7, map[])], [ID], (_, rows) => rows, false, caps)
  }

  // The input behind the difference: with Limit(0), All() returns the row of that
  // table, and IDs() returns nothing.
  lemma LimitZero(caps: bool)
    ensures var e := OneRow(caps);
      var q := Query(Some(0), None, None, [], [], [], None);
      && SoundEngine(e, q)
      && All(e, q) == Rows'([[Some(DbUuid(7))]])
      && IDs(e, q) == Rows'([])
  {
    var e := OneRow(caps);
    var q := Query(Some(0), None, None, [], [], [], None);
    var row := Row(7, map[]);
    assert Filter([], [row]) == [row] by {
      assert [row][1..] == [];
    }
    assert Sorted(e, [], [], e.table) == [row];
    var body := Unlimited(e, q, e.table);
    assert body == [Project([ID], row)];
    assert Project([ID], row) == [Some(DbUuid(7))];
    IdsIsTake(e, q, e.table);
  }

  // IDs() under a positive limit takes what All() takes.
  lemma LimitedIds(e: Engine, q: Query, n: nat)
    requires SoundEngine(e, q) && q.fields == [] && n > 0
    ensures var limited := q.(limit := Some(n));
      match Prepare(e, q)
      case Failed(err) => IDs(e, limited) == Failed(err)
      case Rows'(base) =>
        IDs(e, limited) == if e.fails then Failed(StoreFailed)
          else Rows'(Map(IdOf, Take(Some(n), Unlimited(e, q, base))))
  {
    var limited := q.(limit := Some(n));
    IdsPrepare(e, limited);
    assert Prepare(e, limited) == Prepare(e, q);
    if Prepare(e, q).Rows'? && !e.fails {
      IdsIsTake(e, limited, Prepare(e, q).rows);
    }
  }

  function IdAnswer(a: Answer<Tuple>): Answer<Option<DbVal>> {
    match a
    case Rows'(t) => Rows'(IdOf(t))
    case Failed(err) => Failed(err)
  }

  // Main result: the ID forms agree with Only() and First() ...
  lemma OnlyIdAgrees(e: Engine, q: Query)
    requires SoundEngine(e, q) && q.fields == []
    ensures OnlyID(e, q) == IdAnswer(Only(e, q))
  {
    LimitedIds(e, q, 2);
  }

  lemma FirstIdAgrees(e: Engine, q: Query)
    requires SoundEngine(e, q) && q.fields == []
    ensures FirstID(e, q) == IdAnswer(First(e, q))
  {
    LimitedIds(e, q, 1);
  }

  // ... and Exist() is true exactly when the query with its own limit removed has a row.
  lemma ExistIsExact(e: Engine, q: Query)
    requires SoundEngine(e, q) && q.fields == []
    ensures Prepare(e, q).Failed? ==> Exist(e, q) == Failed(Prepare(e, q).error)
    ensures Prepare(e, q).Rows'? && e.fails ==> Exist(e, q) == Failed(StoreFailed)
    ensures Prepare(e, q).Rows'? && !e.fails ==> Exist(e, q) == Rows'(|Unlimited(e, q, Prepare(e, q).rows)| > 0)
  {
    LimitedIds(e, q, 1);
  }

  // Main result: an ID form leaves the ID selected, so a second one on the same
  // builder selects it twice and fails to scan, wherever the first succeeded.
  lemma IdFormsSpendTheBuilder(e: Engine, q: Query)
    requires SoundEngine(e, q) && IDs(e, q).Rows'?
    ensures q.fields == []
    ensures IDs(e, ForIds(q)) == Failed(ScanFailed) && Exist(e, ForIds(q)) == Failed(ScanFailed)
  {
    var once, twice := ForIds(q), ForIds(ForIds(q));
    assert once.fields == [ID] && twice.fields == [ID, ID];
    assert ID in e.columns;
    assert twice.fields[1..] == [ID] && [ID][1..] == [];
    assert FirstInvalid(e, [ID]) == FirstInvalid(e, []);
    assert FirstInvalid(e, twice.fields) == FirstInvalid(e, [ID]);
    var again := ForIds(once.(limit := Some(1)));
    assert again.fields == twice.fields;
    assert Prepare(e, again).Rows'? && Prepare(e, twice).Rows'?;
  }
}
