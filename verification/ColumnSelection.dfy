// The columns an UpdateOne builder asks back, against those a query asks for.
module ColumnSelection {
  import opened Wrappers
  import opened Schema
  import opened QuerySemantics

  datatype UpdateError = MissingId | BadField(name: Field)

  datatype Chosen = Columns(columns: seq<Field>) | Refused(error: UpdateError)

  // A query's choice: prepareQuery() validates all fields before querySpec() runs.
  function QueryColumns(e: Engine, fields: seq<Field>): Chosen {
    var bad := FirstInvalid(e, fields);
    if bad.Some? then Refused(BadField(bad.value))
    else Columns(QuerySpec(e, Query(None, None, None, fields, [], [], None)).columns)
  }

  class UpdateOne {
    var id: Option<Id>
    var fields: seq<Field>

    constructor (id: Option<Id>)
      ensures this.id == id && fields == []
    {
      this.id, fields := id, [];
    }

    // Select replaces an earlier selection.
    method Select(field: Field, more: seq<Field>)
      modifies this`fields
      ensures fields == [field] + more
    {
      fields := [field] + more;
    }

    // The top of sqlSave(), which validates each field as it goes.
    method NodeColumns(e: Engine) returns (r: Chosen)
      ensures r == if id.None? then Refused(MissingId) else QueryColumns(e, fields)
    {
      if id.None? {
        return Refused(MissingId);
      }
      var columns := e.columns;
      if |fields| > 0 {
        columns := [ID];
        for i := 0 to |fields|
          invariant FirstInvalid(e, fields) == FirstInvalid(e, fields[i..])
          invariant [ID] + NonId(fields) == columns + NonId(fields[i..])
        {
          var f := fields[i];
          assert fields[i..][0] == f && fields[i..][1..] == fields[i + 1..];
          if f !in e.columns {
            return Refused(BadField(f));
          }
          if f != ID {
            columns := columns + [f];
          }
        }
        assert fields[|fields|..] == [];
      }
      r := Columns(columns);
    }
  }

  lemma {:induction false} NonIdConcat(a: seq<Field>, b: seq<Field>)
    ensures NonId(a + b) == NonId(a) + NonId(b)
  {
    if a == [] {
      assert a + b == b;
    } else {
      assert (a + b)[1..] == a[1..] + b;
      NonIdConcat(a[1..], b);
    }
  }

  lemma NonIdOne(f: Field)
    ensures NonId([f]) == if f == ID then [] else [f]
  {
  }

  // NonId() keeps exactly the places that are not the ID, from left to right.
  lemma {:induction false} NonIdShape(fields: seq<Field>) returns (at: seq<nat>)
    ensures |at| == |NonId(fields)|
    ensures forall k :: 0 <= k < |at| ==> at[k] < |fields| && fields[at[k]] != ID && NonId(fields)[k] == fields[at[k]]
    ensures forall j, k :: 0 <= j < k < |at| ==> at[j] < at[k]
    ensures forall i :: 0 <= i < |fields| && fields[i] != ID ==> i in at
  {
    if fields == [] {
      at := [];
    } else {
      var n := |fields| - 1;
      NonIdConcat(fields[..n], [fields[n]]);
      NonIdOne(fields[n]);
      assert fields[..n] + [fields[n]] == fields;
      var before := NonIdShape(fields[..n]);
      at := before + if fields[n] == ID then [] else [n];
      forall i | 0 <= i < |fields| && fields[i] != ID ensures i in at {
        if i < n {
          assert fields[..n][i] == fields[i];
          assert i in before;
        } else {
          assert at[|before|] == n;
        }
      }
    }
  }

  lemma {:induction false} ValidFields(e: Engine, fields: seq<Field>)
    requires forall i :: 0 <= i < |fields| ==> fields[i] in e.columns
    ensures FirstInvalid(e, fields).None?
  {
    if fields != [] {
      ValidFields(e, fields[1..]);
    }
  }

  // Main result: for any non-empty list of valid fields, both choose the ID first and
  // only there, and after it the other fields in request order with their repetitions:
  // `at` picks exactly the places that are not the ID, from left to right.
  lemma SelectionShape(e: Engine, fields: seq<Field>) returns (at: seq<nat>)
    requires fields != [] && forall i :: 0 <= i < |fields| ==> fields[i] in e.columns
    ensures QueryColumns(e, fields).Columns?
    ensures var columns := QueryColumns(e, fields).columns;
      && |columns| == 1 + |at| && columns[0] == ID
      && forall k :: 0 <= k < |at| ==> at[k] < |fields| && fields[at[k]] != ID && columns[k + 1] == fields[at[k]]
    ensures forall j, k :: 0 <= j < k < |at| ==> at[j] < at[k]
    ensures forall i :: 0 <= i < |fields| && fields[i] != ID ==> i in at
  {
    ValidFields(e, fields);
    at := NonIdShape(fields);
  }

  // A list is refused exactly when it holds an invalid column, and the first of
  // those is the one reported.
  lemma {:induction false} RefusesFirstInvalid(e: Engine, fields: seq<Field>)
    ensures QueryColumns(e, fields).Refused? <==> exists i :: 0 <= i < |fields| && fields[i] !in e.columns
    ensures QueryColumns(e, fields).Refused? ==> exists i ::
      && 0 <= i < |fields| && fields[i] !in e.columns && QueryColumns(e, fields) == Refused(BadField(fields[i]))
      && forall j :: 0 <= j < i ==> fields[j] in e.columns
  {
    if fields != [] && fields[0] in e.columns {
      var tail := fields[1..];
      RefusesFirstInvalid(e, tail);
      assert forall i :: 0 <= i < |tail| ==> tail[i] == fields[i + 1];
      assert forall i :: 1 <= i < |fields| ==> fields[i] == tail[i - 1];
      if QueryColumns(e, tail).Refused? {
        var i :| 0 <= i < |tail| && tail[i] !in e.columns && QueryColumns(e, tail) == Refused(BadField(tail[i]))
                 && forall j :: 0 <= j < i ==> tail[j] in e.columns;
        assert fields[i + 1] == tail[i];
        assert forall j :: 1 <= j < i + 1 ==> fields[j] == tail[j - 1];
      }
    } else if fields != [] {
      assert fields[0] !in e.columns;
    }
  }
}
