// Entities as the generated create builders see them: a list of columns, each
// with its Go type, its default and whether the builder insists on it.
module Schema {
  import opened Wrappers

  type Id = int

  // A column name of an entity's table: the ID, the column at a place in the
  // entity's column list (the entity modules name these), or a name outside it.
  datatype Field = ID | Col(place: nat) | Other(name: string)

  datatype Kind = KString | KInt | KBool | KTime | KUuid | KJsonMap | KJsonList

  // A Go field value. JSON fields are Go maps and slices, which may be nil.
  datatype Val =
    | Str(s: string)
    | Int(i: int)
    | Bool(b: bool)
    | Time(t: int)
    | Uuid(u: Id)
    | JMap(m: Option<map<string, string>>)
    | JList(l: Option<seq<string>>)

  predicate HasKind(v: Val, k: Kind) {
    match k
    case KString => v.Str?
    case KInt => v.Int?
    case KBool => v.Bool?
    case KTime => v.Time?
    case KUuid => v.Uuid?
    case KJsonMap => v.JMap?
    case KJsonList => v.JList?
  }

  function ZeroVal(k: Kind): Val {
    match k
    case KString => Str("")
    case KInt => Int(0)
    case KBool => Bool(false)
    case KTime => Time(0)
    case KUuid => Uuid(0)
    case KJsonMap => JMap(None)
    case KJsonList => JList(None)
  }

  datatype Default = NoDefault | Constant(v: Val) | Generated

  // `pointer` columns are Go pointers in the node, nil when unset.
  datatype Column = Column(name: Field, kind: Kind, pointer: bool, required: bool, default: Default)

  // How a node gets its ID: a UUID made by the builder, an int64 given by the
  // caller or by the database, or an int that is always the database's.
  datatype IdPolicy = BuilderUuid | GivenOrAssigned | AlwaysAssigned

  // `columns` leaves out the ID column.
  datatype Entity = Entity(idPolicy: IdPolicy, columns: seq<Column>)

  // The values that DefaultCreatedAt() and its like return for one builder.
  datatype Supply = Supply(values: Field -> Val, id: Id)

  function DefaultValue(col: Column, sup: Supply): Option<Val> {
    match col.default
    case NoDefault => None
    case Constant(v) => Some(v)
    case Generated => Some(sup.values(col.name))
  }

  // The fields of a mutation after the builder's defaults().
  function WithDefaults(cols: seq<Column>, sup: Supply, fields: map<Field, Val>): map<Field, Val> {
    if cols == [] then fields
    else
      var d := DefaultValue(cols[0], sup);
      var rest := if cols[0].name !in fields && d.Some? then fields[cols[0].name := d.value] else fields;
      WithDefaults(cols[1..], sup, rest)
  }

  // The first required field that is not set, as check() reports it.
  function Missing(cols: seq<Column>, fields: map<Field, Val>): Option<Field> {
    if cols == [] then None
    else if cols[0].required && cols[0].name !in fields then Some(cols[0].name)
    else Missing(cols[1..], fields)
  }

  // The fields createSpec() hands to the store: the set ones, in schema order.
  function SpecFields(cols: seq<Column>, fields: map<Field, Val>): seq<(Field, Val)> {
    if cols == [] then []
    else (if cols[0].name in fields then [(cols[0].name, fields[cols[0].name])] else [])
         + SpecFields(cols[1..], fields)
  }

  // What a Go node field holds: a value, or nothing when it is a nil pointer.
  function ZeroSlot(col: Column): Option<Val> {
    if col.pointer then None else Some(ZeroVal(col.kind))
  }

  ghost predicate DistinctNames(cols: seq<Column>) {
    forall j, k :: 0 <= j < k < |cols| ==> cols[j].name != cols[k].name
  }

  // The fields of the node createSpec() builds beside the spec.
  function NodeFields(cols: seq<Column>, fields: map<Field, Val>): map<Field, Option<Val>> {
    if cols == [] then map[]
    else NodeFields(cols[1..], fields)[cols[0].name := if cols[0].name in fields then Some(fields[cols[0].name])
                                                       else ZeroSlot(cols[0])]
  }

  // The columns that have a default.
  function Defaulted(cols: seq<Column>): set<Field> {
    if cols == [] then {}
    else (if cols[0].default.NoDefault? then {} else {cols[0].name}) + Defaulted(cols[1..])
  }

  // defaults() never overwrites a set field, and it sets exactly the unset
  // columns that have a default.
  lemma {:induction false} DefaultsFillOnlyGaps(cols: seq<Column>, sup: Supply, fields: map<Field, Val>)
    ensures WithDefaults(cols, sup, fields).Keys == fields.Keys + Defaulted(cols)
    ensures forall f :: f in fields ==> WithDefaults(cols, sup, fields)[f] == fields[f]
  {
    if cols != [] {
      var d := DefaultValue(cols[0], sup);
      var rest := if cols[0].name !in fields && d.Some? then fields[cols[0].name := d.value] else fields;
      DefaultsFillOnlyGaps(cols[1..], sup, rest);
    }
  }

  lemma {:induction false} DefaultedNames(cols: seq<Column>)
    ensures forall f :: f in Defaulted(cols) ==>
      exists k :: 0 <= k < |cols| && cols[k].name == f && !cols[k].default.NoDefault?
    ensures forall k :: 0 <= k < |cols| && !cols[k].default.NoDefault? ==> cols[k].name in Defaulted(cols)
  {
    if cols != [] {
      var tail := cols[1..];
      DefaultedNames(tail);
      assert forall k :: 0 <= k < |tail| ==> tail[k] == cols[k + 1];
      assert forall k :: 1 <= k < |cols| ==> cols[k] == tail[k - 1];
    }
  }

  // An unset column ends with its constant default, or with what its generating
  // function returned.
  lemma {:induction false} DefaultsAreTheColumns(cols: seq<Column>, sup: Supply, fields: map<Field, Val>, k: nat)
    requires DistinctNames(cols) && k < |cols| && cols[k].name !in fields
    ensures match cols[k].default
      case NoDefault => cols[k].name !in WithDefaults(cols, sup, fields)
      case Constant(v) =>
        cols[k].name in WithDefaults(cols, sup, fields) && WithDefaults(cols, sup, fields)[cols[k].name] == v
      case Generated =>
        && cols[k].name in WithDefaults(cols, sup, fields)
        && WithDefaults(cols, sup, fields)[cols[k].name] == sup.values(cols[k].name)
  {
    var tail := cols[1..];
    var d := DefaultValue(cols[0], sup);
    var rest := if cols[0].name !in fields && d.Some? then fields[cols[0].name := d.value] else fields;
    DefaultsFillOnlyGaps(tail, sup, rest);
    DefaultedNames(tail);
    assert forall j :: 0 <= j < |tail| ==> tail[j] == cols[j + 1];
    if k > 0 {
      DefaultsAreTheColumns(tail, sup, rest, k - 1);
    }
  }

  // When every defaulted column is already set, defaults() changes nothing.
  lemma {:induction false} DefaultsOnFull(cols: seq<Column>, sup: Supply, fields: map<Field, Val>)
    requires Defaulted(cols) <= fields.Keys
    ensures WithDefaults(cols, sup, fields) == fields
  {
    if cols != [] {
      DefaultsOnFull(cols[1..], sup, fields);
    }
  }

  // defaults() is idempotent, even when the second call would generate other values.
  lemma DefaultsIdempotent(cols: seq<Column>, sup: Supply, later: Supply, fields: map<Field, Val>)
    ensures WithDefaults(cols, later, WithDefaults(cols, sup, fields)) == WithDefaults(cols, sup, fields)
  {
    DefaultsFillOnlyGaps(cols, sup, fields);
    DefaultsOnFull(cols, later, WithDefaults(cols, sup, fields));
  }

  lemma {:induction false} SpecFieldsConcat(a: seq<Column>, b: seq<Column>, fields: map<Field, Val>)
    ensures SpecFields(a + b, fields) == SpecFields(a, fields) + SpecFields(b, fields)
  {
    if a == [] {
      assert a + b == b;
    } else {
      assert (a + b)[1..] == a[1..] + b;
      SpecFieldsConcat(a[1..], b, fields);
    }
  }

  // The fields of a spec are the set ones, each once and in the order of the columns:
  // `at` picks their places from left to right.
  lemma {:induction false} SpecFieldsInOrder(cols: seq<Column>, fields: map<Field, Val>) returns (at: seq<nat>)
    ensures |at| == |SpecFields(cols, fields)|
    ensures forall q :: 0 <= q < |at| ==>
      && at[q] < |cols| && cols[at[q]].name in fields
      && SpecFields(cols, fields)[q] == (cols[at[q]].name, fields[cols[at[q]].name])
    ensures forall q, r :: 0 <= q < r < |at| ==> at[q] < at[r]
    ensures forall k :: 0 <= k < |cols| && cols[k].name in fields ==> k in at
  {
    if cols == [] {
      at := [];
    } else {
      var n := |cols| - 1;
      SpecFieldsConcat(cols[..n], [cols[n]], fields);
      assert cols[..n] + [cols[n]] == cols;
      var before := SpecFieldsInOrder(cols[..n], fields);
      at := before + if cols[n].name in fields then [n] else [];
      forall k | 0 <= k < |cols| && cols[k].name in fields ensures k in at {
        if k < n {
          assert cols[..n][k] == cols[k];
          assert k in before;
        } else {
          assert at[|before|] == n;
        }
      }
    }
  }

  // A column of the node: the field as set, or the zero value of its Go type, nil for
  // pointers, maps and slices.
  lemma {:induction false} NodeFieldIs(cols: seq<Column>, fields: map<Field, Val>, k: nat)
    requires DistinctNames(cols) && k < |cols|
    ensures cols[k].name in NodeFields(cols, fields)
    ensures cols[k].name in fields ==> NodeFields(cols, fields)[cols[k].name] == Some(fields[cols[k].name])
    ensures cols[k].name !in fields && cols[k].pointer ==> NodeFields(cols, fields)[cols[k].name] == None
    ensures cols[k].name !in fields && !cols[k].pointer ==>
      match NodeFields(cols, fields)[cols[k].name]
      case None => false
      case Some(v) =>
        && HasKind(v, cols[k].kind)
        && v in {Str(""), Int(0), Bool(false), Time(0), Uuid(0), JMap(None), JList(None)}
  {
    if k > 0 {
      var tail := cols[1..];
      assert forall j :: 0 <= j < |tail| ==> tail[j] == cols[j + 1];
      NodeFieldIs(tail, fields, k - 1);
    }
  }

  // check() names the first required column that is not set.
  lemma {:induction false} MissingIsFirst(cols: seq<Column>, fields: map<Field, Val>)
    ensures Missing(cols, fields).None? <==> forall k :: 0 <= k < |cols| && cols[k].required ==> cols[k].name in fields
    ensures Missing(cols, fields).Some? ==> exists k ::
      && 0 <= k < |cols| && cols[k].required && cols[k].name !in fields && cols[k].name == Missing(cols, fields).value
      && forall j :: 0 <= j < k && cols[j].required ==> cols[j].name in fields
  {
    if cols != [] && !(cols[0].required && cols[0].name !in fields) {
      var tail := cols[1..];
      assert forall k :: 0 <= k < |tail| ==> tail[k] == cols[k + 1];
      assert forall k :: 1 <= k < |cols| ==> cols[k] == tail[k - 1];
      MissingIsFirst(tail, fields);
      if Missing(tail, fields).Some? {
        var k :| 0 <= k < |tail| && tail[k].required && tail[k].name !in fields
          && tail[k].name == Missing(tail, fields).value
                 && forall j :: 0 <= j < k && tail[j].required ==> tail[j].name in fields;
        assert cols[k + 1] == tail[k];
        assert forall j :: 1 <= j < k + 1 ==> cols[j] == tail[j - 1];
      }
    } else if cols != [] {
      assert cols[0].required && cols[0].name !in fields;
    }
  }

  // The required columns that defaults() does not fill, in schema order.
  function Demanded(cols: seq<Column>): seq<Field> {
    if cols == [] then []
    else (if cols[0].required && cols[0].default.NoDefault? then [cols[0].name] else []) + Demanded(cols[1..])
  }

  function FirstAbsent(names: seq<Field>, fields: map<Field, Val>): Option<Field> {
    if names == [] then None
    else if names[0] !in fields then Some(names[0])
    else FirstAbsent(names[1..], fields)
  }

  // Only the demanded columns decide check() once the defaulted ones are set.
  lemma {:induction false} MissingNeedsOnlyDemanded(cols: seq<Column>, fields: map<Field, Val>, full: map<Field, Val>)
    requires forall k :: 0 <= k < |cols| ==>
      (cols[k].name in full <==> cols[k].name in fields || !cols[k].default.NoDefault?)
    ensures Missing(cols, full) == FirstAbsent(Demanded(cols), fields)
  {
    if cols != [] {
      var tail := cols[1..];
      assert cols[0].name in full <==> cols[0].name in fields || !cols[0].default.NoDefault?;
      assert forall k :: 0 <= k < |tail| ==> tail[k] == cols[k + 1];
      MissingNeedsOnlyDemanded(tail, fields, full);
      if cols[0].required && cols[0].default.NoDefault? {
        assert Demanded(cols)[1..] == Demanded(tail);
      } else {
        assert Demanded(cols) == Demanded(tail);
      }
    }
  }

  // check() after defaults() fails exactly when a demanded field was not set
  // by the caller, and it names the first of them.
  lemma CheckAfterDefaults(cols: seq<Column>, sup: Supply, fields: map<Field, Val>)
    requires DistinctNames(cols)
    ensures Missing(cols, WithDefaults(cols, sup, fields)) == FirstAbsent(Demanded(cols), fields)
  {
    DefaultsFillOnlyGaps(cols, sup, fields);
    DefaultedNames(cols);
    MissingNeedsOnlyDemanded(cols, fields, WithDefaults(cols, sup, fields));
  }

  // The places `at`, in order, are those of the demanded columns.
  ghost predicate Places(cols: seq<Column>, at: seq<nat>) {
    && (forall q :: 0 <= q < |at| ==> at[q] < |cols|)
    && (forall q, r :: 0 <= q < r < |at| ==> at[q] < at[r])
    && (forall p :: 0 <= p < |cols| ==> (cols[p].required && cols[p].default.NoDefault? <==> p in at))
  }

  // j of them are before place i.
  ghost predicate Before(at: seq<nat>, i: nat, j: nat) {
    j <= |at| && (forall q :: 0 <= q < j ==> at[q] < i) && (forall q :: j <= q < |at| ==> at[q] >= i)
  }

  lemma NextPlace(cols: seq<Column>, at: seq<nat>, i: nat, j: nat)
    requires Places(cols, at) && Before(at, i, j)
    ensures i in at <==> j < |at| && at[j] == i
    ensures Before(at, i + 1, if i in at then j + 1 else j)
  {
  }

  // Demanded() from those places, for the columns from i on.
  lemma {:induction false} DemandedAt(cols: seq<Column>, at: seq<nat>, names: seq<Field>, i: nat, j: nat)
    requires Places(cols, at) && i <= |cols| && Before(at, i, j)
    requires |names| == |at| && forall q :: 0 <= q < |at| ==> names[q] == cols[at[q]].name
    ensures Demanded(cols[i..]) == names[j..]
    decreases |cols| - i
  {
    if i < |cols| {
      assert cols[i..][0] == cols[i] && cols[i..][1..] == cols[i + 1..];
      NextPlace(cols, at, i, j);
      if i in at {
        DemandedAt(cols, at, names, i + 1, j + 1);
        assert names[j..] == [names[j]] + names[j + 1..];
      } else {
        DemandedAt(cols, at, names, i + 1, j);
      }
    }
  }

  // Both together: check() after defaults(), in terms of those names.
  lemma CheckNamesDemanded(cols: seq<Column>, at: seq<nat>, names: seq<Field>, sup: Supply, fields: map<Field, Val>)
    requires DistinctNames(cols) && |names| == |at|
    requires forall q :: 0 <= q < |at| ==> at[q] < |cols| && names[q] == cols[at[q]].name
    requires forall q, r :: 0 <= q < r < |at| ==> at[q] < at[r]
    requires forall p :: 0 <= p < |cols| ==> (cols[p].required && cols[p].default.NoDefault? <==> p in at)
    ensures Missing(cols, WithDefaults(cols, sup, fields)) == FirstAbsent(names, fields)
  {
    DemandedAt(cols, at, names, 0, 0);
    assert cols[0..] == cols && names[0..] == names;
    CheckAfterDefaults(cols, sup, fields);
  }

  // The columns without their defaults.
  function Undefaulted(cols: seq<Column>): (r: seq<Column>)
    ensures |r| == |cols| && forall k :: 0 <= k < |cols| ==> r[k] == cols[k].(default := NoDefault)
  {
    seq(|cols|, k requires 0 <= k < |cols| => cols[k].(default := NoDefault))
  }

  lemma {:induction false} MissingIgnoresDefaults(cols: seq<Column>, bare: seq<Column>, fields: map<Field, Val>)
    requires |bare| == |cols| && forall k :: 0 <= k < |cols| ==> bare[k] == cols[k].(default := NoDefault)
    ensures Missing(bare, fields) == Missing(cols, fields) && Defaulted(bare) == {}
  {
    if cols != [] {
      MissingIgnoresDefaults(cols[1..], bare[1..], fields);
    }
  }

  // The places `at`, in order, are those of the required columns.
  ghost predicate RequiredPlaces(cols: seq<Column>, at: seq<nat>) {
    && (forall q :: 0 <= q < |at| ==> at[q] < |cols|)
    && (forall q, r :: 0 <= q < r < |at| ==> at[q] < at[r])
    && (forall p :: 0 <= p < |cols| ==> (cols[p].required <==> p in at))
  }

  // These are their names.
  ghost predicate NamesAt(cols: seq<Column>, at: seq<nat>, names: seq<Field>) {
    |names| == |at| && forall q :: 0 <= q < |at| ==> at[q] < |cols| && names[q] == cols[at[q]].name
  }

  // check() by itself, in terms of those names.
  lemma CheckNamesRequired(cols: seq<Column>, at: seq<nat>, names: seq<Field>, sup: Supply, fields: map<Field, Val>)
    requires DistinctNames(cols) && RequiredPlaces(cols, at) && NamesAt(cols, at, names)
    ensures Missing(cols, fields) == FirstAbsent(names, fields)
  {
    var bare := Undefaulted(cols);
    MissingIgnoresDefaults(cols, bare, fields);
    CheckNamesDemanded(bare, at, names, sup, fields);
    DefaultsOnFull(bare, sup, fields);
  }
}
