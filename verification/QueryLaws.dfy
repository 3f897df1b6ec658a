// What the two kinds of execution of a query return, row by row, for any selection.
module QueryLaws {
  import opened Wrappers
  import opened Schema
  import opened Codec
  import opened QuerySemantics
  import opened ColumnSelection

  ghost predicate Satisfies(ps: seq<Predicate>, row: Row) {
    forall k :: 0 <= k < |ps| ==> ps[k].holds(row)
  }

  lemma {:induction false} FilterConcat(ps: seq<Predicate>, a: seq<Row>, b: seq<Row>)
    ensures Filter(ps, a + b) == Filter(ps, a) + Filter(ps, b)
  {
    if a == [] {
      assert a + b == b;
    } else {
      assert (a + b)[1..] == a[1..] + b;
      FilterConcat(ps, a[1..], b);
    }
  }

  // WHERE keeps the rows that satisfy all predicates, each where it was among them:
  // `at` picks their places from left to right.
  lemma {:induction false} FilterKeeps(ps: seq<Predicate>, rows: seq<Row>) returns (at: seq<nat>)
    ensures |at| == |Filter(ps, rows)|
    ensures forall k :: 0 <= k < |at| ==>
      at[k] < |rows| && Filter(ps, rows)[k] == rows[at[k]] && Satisfies(ps, rows[at[k]])
    ensures forall j, k :: 0 <= j < k < |at| ==> at[j] < at[k]
    ensures forall i :: 0 <= i < |rows| && Satisfies(ps, rows[i]) ==> i in at
  {
    if rows == [] {
      at := [];
    } else {
      var n := |rows| - 1;
      FilterConcat(ps, rows[..n], [rows[n]]);
      assert rows[..n] + [rows[n]] == rows;
      var before := FilterKeeps(ps, rows[..n]);
      at := before + if Satisfies(ps, rows[n]) then [n] else [];
      forall i | 0 <= i < |rows| && Satisfies(ps, rows[i]) ensures i in at {
        if i < n {
          assert rows[..n][i] == rows[i];
          assert i in before;
        } else {
          assert at[|before|] == n;
        }
      }
    }
  }

  // Where x is first in a list.
  function IndexOf<T(==)>(xs: seq<T>, x: T): (k: nat)
    requires x in xs
    ensures k < |xs| && xs[k] == x && forall j :: 0 <= j < k ==> xs[j] != x
  {
    if xs[0] == x then 0 else 1 + IndexOf(xs[1..], x)
  }

  lemma {:induction false} IndexGrows<T>(xs: seq<T>, y: T, x: T)
    requires x in xs
    ensures IndexOf(xs + [y], x) == IndexOf(xs, x)
  {
    if xs[0] != x {
      assert (xs + [y])[1..] == xs[1..] + [y];
      IndexGrows(xs[1..], y, x);
    }
  }

  lemma {:induction false} NewIsLast<T>(xs: seq<T>, y: T)
    requires y !in xs
    ensures IndexOf(xs + [y], y) == |xs|
  {
    if xs != [] {
      assert (xs + [y])[1..] == xs[1..] + [y];
      NewIsLast(xs[1..], y);
    }
  }

  // `once` has every value of a list once, in the order of their first occurrences.
  ghost predicate OnceEach<T(!new)>(xs: seq<T>, once: seq<T>) {
    && (forall x :: x in once <==> x in xs)
    && forall j, k :: 0 <= j < k < |once| ==> Precedes(xs, once[j], once[k])
  }

  ghost predicate Precedes<T>(xs: seq<T>, x: T, y: T) {
    x in xs && y in xs && IndexOf(xs, x) < IndexOf(xs, y)
  }

  lemma PrecedesGrows<T>(xs: seq<T>, x: T, y: T, z: T)
    requires Precedes(xs, x, y)
    ensures Precedes(xs + [z], x, y)
  {
    IndexGrows(xs, z, x);
    IndexGrows(xs, z, y);
  }

  lemma NewFollows<T>(xs: seq<T>, x: T, y: T)
    requires x in xs && y !in xs
    ensures Precedes(xs + [y], x, y)
  {
    IndexGrows(xs, y, x);
    NewIsLast(xs, y);
  }

  // DISTINCT does that.
  lemma {:induction false} DedupKeepsFirsts<T(!new)>(xs: seq<T>)
    ensures OnceEach(xs, Dedup(xs))
  {
    DedupMembers(xs);
    if xs != [] {
      var ys, y := xs[..|xs| - 1], xs[|xs| - 1];
      DedupKeepsFirsts(ys);
      assert xs == ys + [y];
      var before, d := Dedup(ys), Dedup(xs);
      forall j, k | 0 <= j < k < |d| ensures Precedes(xs, d[j], d[k]) {
        assert d[j] == before[j] && before[j] in before;
        if k < |before| {
          assert Precedes(ys, before[j], before[k]);
          PrecedesGrows(ys, before[j], before[k], y);
        } else {
          NewFollows(ys, before[j], y);
        }
      }
    }
  }

  // The rows that a query starts from: those of its traversal, or the table's.
  function StartRows(e: Engine, q: Query): seq<Row> {
    match q.path
    case Some(Rows(rows)) => rows
    case _ => e.table
  }

  // The query runs.
  ghost predicate Runs(e: Engine, q: Query) {
    !e.fails && q.path != Some(PathFails) && forall k :: 0 <= k < |q.fields| ==> q.fields[k] in e.columns
  }

  lemma RunsPrepared(e: Engine, q: Query)
    requires Runs(e, q)
    ensures Prepare(e, q) == Rows'(StartRows(e, q))
  {
    ValidFields(e, q.fields);
  }

  // Otherwise both kinds of execution fail alike: with the first invalid field, then
  // with the traversal's error, and only then with the database's.
  lemma FailsAlike(e: Engine, q: Query)
    requires !Runs(e, q)
    ensures All(e, q).Failed? && Scan(e, q) == All(e, q)
    ensures (exists k :: 0 <= k < |q.fields| && q.fields[k] !in e.columns) ==> exists k ::
      && 0 <= k < |q.fields| && q.fields[k] !in e.columns && All(e, q) == Failed(InvalidField(q.fields[k]))
      && forall j :: 0 <= j < k ==> q.fields[j] in e.columns
    ensures (forall k :: 0 <= k < |q.fields| ==> q.fields[k] in e.columns) ==>
      All(e, q) == Failed(if q.path == Some(PathFails) then PathError else StoreFailed)
  {
    if forall k :: 0 <= k < |q.fields| ==> q.fields[k] in e.columns {
      ValidFields(e, q.fields);
    } else {
      RefusesFirstInvalid(e, q.fields);
      var k :| 0 <= k < |q.fields| && q.fields[k] !in e.columns
        && QueryColumns(e, q.fields) == Refused(BadField(q.fields[k]))
        && forall j :: 0 <= j < k ==> q.fields[j] in e.columns;
      assert FirstInvalid(e, q.fields) == Some(q.fields[k]);
    }
  }

  // The tuples before offset and limit.
  function Tuples(e: Engine, q: Query, columns: seq<Field>, distinct: bool): seq<Tuple> {
    var tuples := Map((r: Row) => Project(columns, r), Sorted(e, q.predicates, q.order, StartRows(e, q)));
    if distinct then Dedup(tuples) else tuples
  }

  lemma Executed(e: Engine, q: Query)
    requires Runs(e, q)
    ensures var o := if q.offset.Some? then q.offset.value else 0;
      var spec, sel := QuerySpec(e, q), SqlQuery(e, q);
      && All(e, q) == Rows'(Take(SpecLimit(e, spec), Drop(o, Tuples(e, q, spec.columns, spec.unique))))
      && Scan(e, q) == Rows'(Take(sel.limit, Drop(o, Tuples(e, q, sel.columns, sel.distinct))))
  {
    RunsPrepared(e, q);
  }

  // A row's value in a column, NULL if it has none.
  function ValueIn(row: Row, f: Field): Option<DbVal> {
    if f == ID then Some(DbUuid(row.id)) else if f in row.values then Some(row.values[f]) else None
  }

  // The tuple lists the row's values in these columns.
  ghost predicate Lists(t: Tuple, row: Row, columns: seq<Field>) {
    |t| == |columns| && forall k :: 0 <= k < |t| ==> t[k] == ValueIn(row, columns[k])
  }

  // It lists the row's ID, and then its values in the fields at the places `at`.
  ghost predicate ListsId(t: Tuple, row: Row, fields: seq<Field>, at: seq<nat>)
    requires forall k :: 0 <= k < |at| ==> at[k] < |fields|
  {
    && |t| == 1 + |at| && t[0] == Some(DbUuid(row.id))
    && forall k :: 0 <= k < |at| ==> t[k + 1] == ValueIn(row, fields[at[k]])
  }

  // No limit, no offset, and no DISTINCT, be it only for being a traversal.
  ghost predicate Plain(q: Query) {
    q.limit.None? && q.offset.None? && (q.unique == Some(false) || (q.unique.None? && q.path.None?))
  }

  // Main result: for a plain query, whatever it selects, both kinds of execution return
  // one tuple for each row of the traversal or table that satisfies the predicates, in
  // the order of the database. All() lists the row's ID first and then the other
  // selected fields, or all columns; Scan() lists the fields as selected.
  lemma PlainQuery(e: Engine, q: Query) returns (rows: seq<Row>, at: seq<nat>)
    requires Runs(e, q) && Plain(q)
    ensures rows == e.sort(q.order, Filter(q.predicates, StartRows(e, q)))
    ensures forall k :: 0 <= k < |at| ==> at[k] < |q.fields|
    ensures forall j, k :: 0 <= j < k < |at| ==> at[j] < at[k]
    ensures forall i :: 0 <= i < |q.fields| ==> (i in at <==> q.fields[i] != ID)
    ensures All(e, q).Rows'? && |All(e, q).rows| == |rows|
    ensures forall k :: 0 <= k < |rows| ==>
      if q.fields == [] then Lists(All(e, q).rows[k], rows[k], e.columns)
      else ListsId(All(e, q).rows[k], rows[k], q.fields, at)
    ensures Scan(e, q).Rows'? && |Scan(e, q).rows| == |rows|
    ensures forall k :: 0 <= k < |rows| ==>
      Lists(Scan(e, q).rows[k], rows[k], if q.fields == [] then e.columns else q.fields)
  {
    Executed(e, q);
    rows := Sorted(e, q.predicates, q.order, StartRows(e, q));
    at := [];
    if q.fields != [] {
      at := SelectionShape(e, q.fields);
    }
    TuplesList(QuerySpec(e, q).columns, rows);
    TuplesList(SqlQuery(e, q).columns, rows);
  }

  lemma TuplesList(columns: seq<Field>, rows: seq<Row>)
    ensures var tuples := Map((r: Row) => Project(columns, r), rows);
      forall k :: 0 <= k < |rows| ==> Lists(tuples[k], rows[k], columns)
  {
    forall k | 0 <= k < |rows| ensures Lists(Map((r: Row) => Project(columns, r), rows)[k], rows[k], columns) {
      ProjectLists(columns, rows[k]);
    }
  }

  lemma ProjectLists(columns: seq<Field>, row: Row)
    ensures Lists(Project(columns, row), row, columns)
  {
  }

  // With DISTINCT, be it asked for or the default of a traversal, All() returns the
  // tuples of the same query without it, each once and in the order of first occurrence.
  lemma DistinctQuery(e: Engine, q: Query)
    requires Runs(e, q) && q.limit.None? && q.offset.None?
    requires q.unique == Some(true) || (q.unique.None? && q.path.Some?)
    ensures var plain := q.(unique := Some(false));
      All(e, q).Rows'? && All(e, plain).Rows'? && OnceEach(All(e, plain).rows, All(e, q).rows)
  {
    var tuples := Tuples(e, q, QuerySpec(e, q).columns, false);
    Executed(e, q);
    Executed(e, q.(unique := Some(false)));
    DedupKeepsFirsts(tuples);
    assert Take(None, Drop(0, tuples)) == tuples && Take(None, Drop(0, Dedup(tuples))) == Dedup(tuples);
  }

  // `page` is what is left of `all` after o entries, up to n of them if there is a limit.
  ghost predicate Page(all: seq<Tuple>, o: nat, n: Option<nat>, page: seq<Tuple>) {
    && (forall k :: 0 <= k < |page| ==> o + k < |all| && page[k] == all[o + k])
    && (n.Some? ==> |page| <= n.value)
    && (o + |page| >= |all| || (n.Some? && |page| == n.value))
  }

  lemma TakesPage(all: seq<Tuple>, o: nat, n: Option<nat>)
    ensures Page(Take(None, Drop(0, all)), o, n, Take(n, Drop(o, all)))
  {
  }

  // Main result: a limit and an offset cut a page out of what the query returns without
  // them. For All() a limit of 0 is none, and so is, for both, an absent one without an
  // offset.
  lemma AllPages(e: Engine, q: Query) returns (whole: seq<Tuple>)
    requires Runs(e, q)
    ensures All(e, q.(limit := None, offset := None)) == Rows'(whole)
    ensures var o := if q.offset.Some? then q.offset.value else 0;
      var n := if q.limit.Some? && q.limit != Some(0) then q.limit
        else if e.capsOffset && o > 0 then Some(0x7FFF_FFFF) else None;
      All(e, q).Rows'? && Page(whole, o, n, All(e, q).rows)
  {
    var spec := QuerySpec(e, q);
    var tuples := Tuples(e, q, spec.columns, spec.unique);
    Executed(e, q);
    Executed(e, q.(limit := None, offset := None));
    TakesPage(tuples, spec.offset, SpecLimit(e, spec));
    whole := Take(None, Drop(0, tuples));
  }

  // The same for Scan(), where an offset without a limit comes with one.
  lemma ScanPages(e: Engine, q: Query) returns (whole: seq<Tuple>)
    requires Runs(e, q)
    ensures Scan(e, q.(limit := None, offset := None)) == Rows'(whole)
    ensures var o := if q.offset.Some? then q.offset.value else 0;
      var n := if q.limit.Some? then q.limit else if q.offset.Some? then Some(0x7FFF_FFFF) else None;
      Scan(e, q).Rows'? && Page(whole, o, n, Scan(e, q).rows)
  {
    var sel := SqlQuery(e, q);
    var tuples := Tuples(e, q, sel.columns, sel.distinct);
    Executed(e, q);
    Executed(e, q.(limit := None, offset := None));
    TakesPage(tuples, sel.offset, sel.limit);
    whole := Take(None, Drop(0, tuples));
  }

  // The tuples of a query without limit are those of the plain one.
  lemma PlainTuples(e: Engine, q: Query)
    requires Runs(e, q) && q.limit.None? && q.offset.None?
    ensures var plain := q.(unique := Some(false));
      All(e, q).Rows'? && All(e, plain).Rows'? && forall t :: t in All(e, q).rows ==> t in All(e, plain).rows
  {
    if q.unique == Some(true) || (q.unique.None? && q.path.Some?) {
      DistinctQuery(e, q);
    } else {
      Executed(e, q);
      Executed(e, q.(unique := Some(false)));
    }
  }

  ghost predicate Matches(ps: seq<Predicate>, row: Row) {
    forall p :: 0 <= p < |ps| ==> ps[p].holds(row)
  }

  // The tuple t starts with the ID of a row that the query matches.
  ghost predicate OfMatchingRow(e: Engine, q: Query, t: Tuple) {
    exists row :: row in StartRows(e, q) && |t| > 0 && t[0] == Some(DbUuid(row.id)) && Matches(q.predicates, row)
  }

  // Main result: whatever is selected and however the rows are cut, every tuple that
  // All() returns starts with the ID of a row that the query matches.
  lemma TuplesStartWithIds(e: Engine, q: Query)
    requires Runs(e, q) && |e.columns| > 0 && e.columns[0] == ID
    requires OnlyReorders(e)
    ensures All(e, q).Rows'? ==> forall t :: t in All(e, q).rows ==> OfMatchingRow(e, q, t)
  {
    if All(e, q).Rows'? {
      var whole := AllPages(e, q);
      PlainTuples(e, q.(limit := None, offset := None));
      forall t | t in All(e, q).rows ensures OfMatchingRow(e, q, t) {
        assert t in whole;
        PlainStart(e, q.(limit := None, offset := None, unique := Some(false)), t);
      }
    }
  }

  lemma PlainStart(e: Engine, q: Query, t: Tuple)
    requires Runs(e, q) && Plain(q) && |e.columns| > 0 && e.columns[0] == ID
    requires OnlyReorders(e)
    requires All(e, q).Rows'? && t in All(e, q).rows
    ensures OfMatchingRow(e, q, t)
  {
    var rows, at := PlainQuery(e, q);
    var n :| 0 <= n < |All(e, q).rows| && All(e, q).rows[n] == t;
    FilterMembers(q.predicates, StartRows(e, q));
    assert rows[n] in multiset(rows);
    assert rows[n] in multiset(Filter(q.predicates, StartRows(e, q)));
  }
}
