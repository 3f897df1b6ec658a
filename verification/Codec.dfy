// Loading a row: scanValues() allocates a destination for each column, the driver
// fills it, and assignValues() moves it into the node, column by column.
module Codec {
  import opened Wrappers
  import opened Schema
  import opened Runtime

  // JSON text, up to what the generated code can tell apart.
  datatype Json = Empty | Null | Object(m: map<string, string>) | Array(l: seq<string>) | Malformed

  // A value of a database column that is not NULL.
  datatype DbVal = DbStr(s: string) | DbInt(i: int) | DbBool(b: bool) | DbTime(t: int) | DbUuid(u: Id) | DbJson(j: Json)

  // The dynamic types of scan destinations.
  datatype CellType = TNullScanner | TBytes | TNullBool | TNullInt64 | TNullString | TNullTime | TUuid | TUnknown

  datatype Cell =
    | NullScanner(valid: bool, u: Id)
    | Bytes(j: Json)
    | NullBool(valid: bool, b: bool)
    | NullInt64(valid: bool, i: int)
    | NullString(valid: bool, s: string)
    | NullTime(valid: bool, t: int)
    | PlainUuid(u: Id)
    | UnknownCell(raw: Option<DbVal>)

  function TypeOf(c: Cell): CellType {
    match c
    case NullScanner(_, _) => TNullScanner
    case Bytes(_) => TBytes
    case NullBool(_, _) => TNullBool
    case NullInt64(_, _) => TNullInt64
    case NullString(_, _) => TNullString
    case NullTime(_, _) => TNullTime
    case PlainUuid(_) => TUuid
    case UnknownCell(_) => TUnknown
  }

  // The three switches of an entity's generated code: the destination scanValues()
  // allocates, the type assignValues() asserts (none by default), and whether the
  // JSON field behind a column is a Go map rather than a slice. `rejected` is what
  // json.Unmarshal leaves in a field when it fails on its text.
  datatype Table = Table(
    columns: seq<Column>,
    destination: Field -> Cell,
    asserted: Field -> CellType,
    jsonMap: Field -> bool,
    rejected: (Json, Option<Val>) -> Option<Val>)

  predicate IsColumn(t: Table, f: Field) {
    exists k :: 0 <= k < |t.columns| && t.columns[k].name == f
  }

  // The destination that fits a column's Go type.
  function Fitting(col: Column): Cell {
    match col.kind
    case KString => NullString(false, "")
    case KInt => NullInt64(false, 0)
    case KBool => NullBool(false, false)
    case KTime => NullTime(false, 0)
    case KUuid => if col.pointer then NullScanner(false, 0) else PlainUuid(0)
    case _ => Bytes(Empty)
  }

  // The switches agree with each other and with the columns.
  ghost predicate Consistent(t: Table) {
    && DistinctNames(t.columns)
    && (forall f :: t.destination(f).UnknownCell? ==> t.destination(f) == UnknownCell(None))
    && (forall f :: t.asserted(f) == TypeOf(t.destination(f)))
    && (forall f :: t.asserted(f).TUnknown? <==> f != ID && !IsColumn(t, f))
    && t.destination(ID) == PlainUuid(0) && !IsColumn(t, ID)
    && forall k :: 0 <= k < |t.columns| ==>
      && t.destination(t.columns[k].name) == Fitting(t.columns[k])
      && (t.jsonMap(t.columns[k].name) <==> t.columns[k].kind.KJsonMap?)
  }

  datatype LoadError = Mismatch | UnexpectedType(f: Field) | Unmarshal(f: Field)

  // A node being loaded, with the values of columns it has no field for.
  datatype Loaded = Loaded(node: NodeState, selected: map<Field, Cell>)

  datatype Step = Went(l: Loaded) | Stuck(error: LoadError, l: Loaded)

  // json.Unmarshal into a map field: the keys of an object are added to the map
  // that is there, and null makes it nil.
  function UnmarshalMap(j: Json, was: Option<map<string, string>>): Option<Option<map<string, string>>> {
    match j
    case Null => Some(None)
    case Object(m) => Some(Some((if was.Some? then was.value else map[]) + m))
    case _ => None
  }

  // json.Unmarshal into a slice field replaces it.
  function UnmarshalList(j: Json): Option<Option<seq<string>>> {
    match j
    case Null => Some(None)
    case Array(l) => Some(Some(l))
    case _ => None
  }

  function JsonTarget(isMap: bool, j: Json, was: Option<Val>): Option<Val> {
    if isMap then
      var r := UnmarshalMap(j, if was.Some? && was.value.JMap? then was.value.m else None);
      if r.None? then None else Some(JMap(r.value))
    else
      var r := UnmarshalList(j);
      if r.None? then None else Some(JList(r.value))
  }

  // The value a destination holds for its field, if it is not NULL.
  function Held(c: Cell): Option<Val> {
    match c
    case NullScanner(valid, u) => if valid then Some(Uuid(u)) else None
    case NullBool(valid, b) => if valid then Some(Bool(b)) else None
    case NullInt64(valid, i) => if valid then Some(Int(i)) else None
    case NullString(valid, s) => if valid then Some(Str(s)) else None
    case NullTime(valid, t) => if valid then Some(Time(t)) else None
    case PlainUuid(u) => Some(Uuid(u))
    case _ => None
  }

  // One turn of the loop in assignValues().
  function AssignOne(t: Table, f: Field, c: Cell, l: Loaded): Step {
    if t.asserted(f).TUnknown? then Went(l.(selected := l.selected[f := c]))
    else if TypeOf(c) != t.asserted(f) then Stuck(UnexpectedType(f), l)
    else if f == ID && c.PlainUuid? then Went(l.(node := l.node.(id := c.u)))
    else if c.Bytes? then
      if c.j.Empty? then Went(l)
      else
        var was := if f in l.node.fields then l.node.fields[f] else None;
        var v := JsonTarget(t.jsonMap(f), c.j, was);
        if v.None? then Stuck(Unmarshal(f), l.(node := l.node.(fields := l.node.fields[f := t.rejected(c.j, was)])))
        else Went(l.(node := l.node.(fields := l.node.fields[f := v])))
    else if Held(c).Some? then Went(l.(node := l.node.(fields := l.node.fields[f := Held(c)])))
    else Went(l)
  }

  function AssignFrom(t: Table, columns: seq<Field>, cells: seq<Cell>, i: nat, l: Loaded): Step
    requires i <= |columns| <= |cells|
    decreases |columns| - i
  {
    if i == |columns| then Went(l)
    else
      var r := AssignOne(t, columns[i], cells[i], l);
      if r.Stuck? then r else AssignFrom(t, columns, cells, i + 1, r.l)
  }

  function Assign(t: Table, columns: seq<Field>, cells: seq<Cell>, l: Loaded): Step {
    if |cells| < |columns| then Stuck(Mismatch, l) else AssignFrom(t, columns, cells, 0, l)
  }

  class Entity {
    const t: Table
    var id: Id
    var fields: map<Field, Option<Val>>
    var selectValues: map<Field, Cell>

    constructor (t: Table)
      ensures this.t == t && Contents() == Loaded(NodeState(0, map[]), map[])
    {
      this.t := t;
      id, fields, selectValues := 0, map[], map[];
    }

    function Contents(): Loaded
      reads this
    {
      Loaded(NodeState(id, fields), selectValues)
    }

    method ScanValues(columns: seq<Field>) returns (values: array<Cell>)
      ensures fresh(values) && values.Length == |columns|
      ensures forall i :: 0 <= i < |columns| ==> values[i] == t.destination(columns[i])
    {
      values := new Cell[|columns|](_ => UnknownCell(None));
      for i := 0 to |columns|
        invariant forall k :: 0 <= k < i ==> values[k] == t.destination(columns[k])
      {
        values[i] := t.destination(columns[i]);
      }
    }

    // On an error the fields assigned so far stay assigned; of the others only the one
    // whose JSON text was rejected may change.
    method AssignValues(columns: seq<Field>, values: array<Cell>) returns (err: Option<LoadError>)
      modifies this
      ensures match Assign(t, columns, values[..], old(Contents()))
        case Went(l) => err.None? && Contents() == l
        case Stuck(e, l) => err == Some(e) && Contents() == l
    {
      if values.Length < |columns| {
        return Some(Mismatch);
      }
      var i := 0;
      while i < |columns|
        invariant 0 <= i <= |columns|
        invariant AssignFrom(t, columns, values[..], i, Contents())
          == AssignFrom(t, columns, values[..], 0, old(Contents()))
      {
        var f, c := columns[i], values[i];
        assert values[..][i] == c;
        if t.asserted(f).TUnknown? {
          selectValues := selectValues[f := c];
        } else if TypeOf(c) != t.asserted(f) {
          return Some(UnexpectedType(f));
        } else if f == ID && c.PlainUuid? {
          id := c.u;
        } else if c.Bytes? {
          if !c.j.Empty? {
            var was := if f in fields then fields[f] else None;
            var v := JsonTarget(t.jsonMap(f), c.j, was);
            if v.None? {
              fields := fields[f := t.rejected(c.j, was)];
              return Some(Unmarshal(f));
            }
            fields := fields[f := v];
          }
        } else if Held(c).Some? {
          fields := fields[f := Held(c)];
        }
        i := i + 1;
      }
      err := None;
    }
  }

  // Whatever the driver scanned into the destinations of scanValues().
  ghost predicate ScannedFor(t: Table, columns: seq<Field>, cells: seq<Cell>) {
    |cells| == |columns| && forall i :: 0 <= i < |columns| ==> TypeOf(cells[i]) == TypeOf(t.destination(columns[i]))
  }

  // The JSON text, if it is that, fits the field: an object for a map, an array for a
  // slice, null for both; empty text is skipped.
  predicate Fits(t: Table, f: Field, c: Cell) {
    c.Bytes? ==> c.j.Empty? || c.j.Null? || (if t.jsonMap(f) then c.j.Object? else c.j.Array?)
  }

  // Main result: for every column list, with duplicates and unknown names, what
  // scanValues() allocated never makes assignValues() fail on a type or a count. It
  // fails exactly if some JSON text does not fit its field, and names the first.
  lemma {:induction false} NoTypeError(t: Table, columns: seq<Field>, cells: seq<Cell>, i: nat, l: Loaded)
    requires Consistent(t) && ScannedFor(t, columns, cells) && i <= |columns|
    ensures var r := AssignFrom(t, columns, cells, i, l);
      && (r.Stuck? <==> exists k :: i <= k < |columns| && !Fits(t, columns[k], cells[k]))
      && (r.Stuck? ==> exists k ::
            && i <= k < |columns| && !Fits(t, columns[k], cells[k]) && r.error == Unmarshal(columns[k])
            && forall j :: i <= j < k ==> Fits(t, columns[j], cells[j]))
    decreases |columns| - i
  {
    if i < |columns| {
      var r := AssignOne(t, columns[i], cells[i], l);
      StuckIffUnfit(t, columns[i], cells[i], l);
      if r.Went? {
        NoTypeError(t, columns, cells, i + 1, r.l);
      } else {
        assert !Fits(t, columns[i], cells[i]);
      }
    }
  }

  lemma StuckIffUnfit(t: Table, f: Field, c: Cell, l: Loaded)
    requires Consistent(t) && TypeOf(c) == TypeOf(t.destination(f))
    ensures AssignOne(t, f, c, l).Stuck? <==> !Fits(t, f, c)
    ensures AssignOne(t, f, c, l).Stuck? ==> AssignOne(t, f, c, l).error == Unmarshal(f)
  {
  }

  // Whatever the values are: a count too small is an error before anything is assigned,
  // and a value of another type than its column's is one when its turn comes.
  lemma CountsAndTypes(t: Table, columns: seq<Field>, cells: seq<Cell>, f: Field, c: Cell, l: Loaded)
    ensures |cells| < |columns| ==> Assign(t, columns, cells, l) == Stuck(Mismatch, l)
    ensures t.asserted(f) != TUnknown && TypeOf(c) != t.asserted(f) ==>
      AssignOne(t, f, c, l) == Stuck(UnexpectedType(f), l)
  {
  }

  // Where the loop stops, the columns before are assigned as without the rest, and of
  // the others only the one at fault may have changed: to what json.Unmarshal left.
  lemma {:induction false} StuckLeaves(t: Table, columns: seq<Field>, cells: seq<Cell>, i: nat, l: Loaded)
      returns (k: nat, before: Loaded)
    requires Consistent(t) && ScannedFor(t, columns, cells) && i <= |columns|
    requires AssignFrom(t, columns, cells, i, l).Stuck?
    ensures i <= k < |columns| && AssignFrom(t, columns[..k], cells, i, l) == Went(before)
    ensures cells[k].Bytes? && !Fits(t, columns[k], cells[k])
    ensures var was := if columns[k] in before.node.fields then before.node.fields[columns[k]] else None;
      AssignFrom(t, columns, cells, i, l) == Stuck(Unmarshal(columns[k]),
        before.(node := before.node.(fields := before.node.fields[columns[k] := t.rejected(cells[k].j, was)])))
    decreases |columns| - i
  {
    StuckIffUnfit(t, columns[i], cells[i], l);
    if Fits(t, columns[i], cells[i]) {
      k, before := StuckLeaves(t, columns, cells, i + 1, AssignOne(t, columns[i], cells[i], l).l);
      assert columns[..k][i] == columns[i];
    } else {
      k, before := i, l;
    }
  }

  // The destination holds something assignValues() will use.
  predicate Supplies(c: Cell) {
    Held(c).Some? || (c.Bytes? && !c.j.Empty?)
  }

  // What is in a field, if it has been assigned at all.
  function Slot(l: Loaded, f: Field): Option<Option<Val>> {
    if f in l.node.fields then Some(l.node.fields[f]) else None
  }

  // The field shows the destination's value: that value itself, or, for a JSON
  // object, a map that contains all of it.
  ghost predicate Shows(slot: Option<Option<Val>>, c: Cell) {
    && slot.Some? && slot.value.Some?
    && (Held(c).Some? ==> slot.value == Held(c))
    && (c.Bytes? ==> match c.j
         case Null => slot.value.value == JMap(None) || slot.value.value == JList(None)
         case Array(l) => slot.value.value == JList(Some(l))
         case Object(m) => slot.value.value.JMap? && slot.value.value.m.Some?
           && forall x :: x in m ==> x in slot.value.value.m.value && slot.value.value.m.value[x] == m[x]
         case _ => false)
  }

  // One turn changes only its own column's field, and only if a value is supplied.
  lemma TurnEffect(t: Table, f: Field, c: Cell, l: Loaded, g: Field)
    requires Consistent(t) && TypeOf(c) == TypeOf(t.destination(f)) && AssignOne(t, f, c, l).Went?
    ensures f != g || !Supplies(c) ==> Slot(AssignOne(t, f, c, l).l, g) == Slot(l, g)
    ensures f == g && IsColumn(t, g) && Supplies(c) ==> Shows(Slot(AssignOne(t, f, c, l).l, g), c)
    ensures AssignOne(t, f, c, l).l.node.id == if f == ID then c.u else l.node.id
  {
  }

  // A field no column supplies a value for is untouched, the ID included.
  lemma {:induction false} Untouched(t: Table, columns: seq<Field>, cells: seq<Cell>, i: nat, l: Loaded, f: Field)
    requires Consistent(t) && ScannedFor(t, columns, cells) && i <= |columns|
      && AssignFrom(t, columns, cells, i, l).Went?
    requires forall k :: i <= k < |columns| && columns[k] == f ==> !Supplies(cells[k])
    ensures Slot(AssignFrom(t, columns, cells, i, l).l, f) == Slot(l, f)
    ensures f == ID ==> AssignFrom(t, columns, cells, i, l).l.node.id == l.node.id
    decreases |columns| - i
  {
    if i < |columns| {
      TurnEffect(t, columns[i], cells[i], l, f);
      Untouched(t, columns, cells, i + 1, AssignOne(t, columns[i], cells[i], l).l, f);
    }
  }

  // Main result: a field, or the ID, ends with the last value supplied for it, whatever
  // comes before and between, duplicates included.
  lemma {:induction false} LastSupplyWins(t: Table, columns: seq<Field>, cells: seq<Cell>, i: nat, l: Loaded, k: nat)
    requires Consistent(t) && ScannedFor(t, columns, cells) && i <= k < |columns|
    requires AssignFrom(t, columns, cells, i, l).Went? && Supplies(cells[k])
    requires IsColumn(t, columns[k]) || columns[k] == ID
    requires forall n :: k < n < |columns| && columns[n] == columns[k] ==> !Supplies(cells[n])
    ensures IsColumn(t, columns[k]) ==> Shows(Slot(AssignFrom(t, columns, cells, i, l).l, columns[k]), cells[k])
    ensures columns[k] == ID ==> Held(cells[k]) == Some(Uuid(AssignFrom(t, columns, cells, i, l).l.node.id))
    decreases |columns| - i
  {
    var next := AssignOne(t, columns[i], cells[i], l).l;
    TurnEffect(t, columns[i], cells[i], l, columns[k]);
    if i < k {
      LastSupplyWins(t, columns, cells, i + 1, next, k);
    } else {
      Untouched(t, columns, cells, i + 1, next, columns[k]);
    }
  }

  // A JSON object is merged into the map that a column's field holds: its own keys get
  // its values, the others keep theirs. Into a nil map it comes as it is.
  lemma ObjectsMerge(t: Table, f: Field, m: map<string, string>, l: Loaded)
    requires Consistent(t) && IsColumn(t, f) && t.destination(f).Bytes? && t.jsonMap(f)
    ensures var was := if f in l.node.fields then l.node.fields[f] else None;
      var prior := if was.Some? && was.value.JMap? && was.value.m.Some? then was.value.m.value else map[];
      var r := AssignOne(t, f, Bytes(Object(m)), l);
      && r.Went? && f in r.l.node.fields && r.l.node.fields[f].Some? && r.l.node.fields[f].value.JMap?
      && r.l.node.fields[f].value.m.Some?
      && var now := r.l.node.fields[f].value.m.value;
      && now.Keys == prior.Keys + m.Keys
      && forall x :: x in now ==> now[x] == if x in m then m[x] else prior[x]
  {
  }

  predicate IsUnknown(t: Table, f: Field) {
    f != ID && !IsColumn(t, f)
  }

  // A turn for a name outside the table keeps the value there, and nothing else.
  lemma UnknownTurn(t: Table, f: Field, c: Cell, l: Loaded)
    requires Consistent(t) && TypeOf(c) == TypeOf(t.destination(f))
    ensures IsUnknown(t, f) ==> AssignOne(t, f, c, l) == Went(Loaded(l.node, l.selected[f := c]))
    ensures !IsUnknown(t, f) ==> AssignOne(t, f, c, l).l.selected == l.selected
  {
  }

  // Nothing is kept there for the ID, a column of the table, or a name not listed.
  lemma {:induction false} AsideUntouched(t: Table, columns: seq<Field>, cells: seq<Cell>, i: nat, l: Loaded, f: Field)
    requires Consistent(t) && ScannedFor(t, columns, cells) && i <= |columns|
    requires AssignFrom(t, columns, cells, i, l).Went?
    requires forall k :: i <= k < |columns| && columns[k] == f ==> !IsUnknown(t, f)
    ensures var now := AssignFrom(t, columns, cells, i, l).l.selected;
      (f in now <==> f in l.selected) && (f in now ==> now[f] == l.selected[f])
    decreases |columns| - i
  {
    if i < |columns| {
      UnknownTurn(t, columns[i], cells[i], l);
      AsideUntouched(t, columns, cells, i + 1, AssignOne(t, columns[i], cells[i], l).l, f);
    }
  }

  // Main result: each name outside the table ends, aside, with the last value scanned
  // for it.
  lemma {:induction false} LastIsKeptAside(t: Table, columns: seq<Field>, cells: seq<Cell>, i: nat, l: Loaded, k: nat)
    requires Consistent(t) && ScannedFor(t, columns, cells) && i <= k < |columns|
    requires AssignFrom(t, columns, cells, i, l).Went? && IsUnknown(t, columns[k])
    requires forall n :: k < n < |columns| ==> columns[n] != columns[k]
    ensures var now := AssignFrom(t, columns, cells, i, l).l.selected; columns[k] in now && now[columns[k]] == cells[k]
    decreases |columns| - i
  {
    var next := AssignOne(t, columns[i], cells[i], l).l;
    UnknownTurn(t, columns[i], cells[i], l);
    if i < k {
      LastIsKeptAside(t, columns, cells, i + 1, next, k);
    } else {
      AsideUntouched(t, columns, cells, i + 1, next, columns[k]);
    }
  }

  // What the driver does to a destination; a NULL leaves it as allocated.
  function Fill(c: Cell, v: Option<DbVal>): Option<Cell> {
    if c.UnknownCell? then Some(UnknownCell(v))
    else if v.None? then Some(c)
    else match (c, v.value)
      case (NullScanner(_, _), DbUuid(u)) => Some(NullScanner(true, u))
      case (Bytes(_), DbJson(j)) => Some(Bytes(j))
      case (NullBool(_, _), DbBool(b)) => Some(NullBool(true, b))
      case (NullInt64(_, _), DbInt(i)) => Some(NullInt64(true, i))
      case (NullString(_, _), DbStr(s)) => Some(NullString(true, s))
      case (NullTime(_, _), DbTime(t)) => Some(NullTime(true, t))
      case (PlainUuid(_), DbUuid(u)) => Some(PlainUuid(u))
      case _ => None
  }

  // How the store keeps a field value.
  function Encode(v: Val): DbVal {
    match v
    case Str(s) => DbStr(s)
    case Int(i) => DbInt(i)
    case Bool(b) => DbBool(b)
    case Time(t) => DbTime(t)
    case Uuid(u) => DbUuid(u)
    case JMap(m) => DbJson(if m.Some? then Object(m.value) else Null)
    case JList(l) => DbJson(if l.Some? then Array(l.value) else Null)
  }

  // The row stored for a spec: its ID and fields, NULL elsewhere.
  function StoredAt(fields: seq<(Field, Val)>, f: Field): Option<DbVal> {
    if fields == [] then None
    else if fields[0].0 == f then Some(Encode(fields[0].1))
    else StoredAt(fields[1..], f)
  }

  function RowOf(s: Spec, f: Field): Option<DbVal> {
    if f == ID then (if s.id.Some? then Some(DbUuid(s.id.value)) else None) else StoredAt(s.fields, f)
  }

  // A destination for the column, filled from the row.
  function Scanned(t: Table, s: Spec, f: Field): Option<Cell> {
    Fill(t.destination(f), RowOf(s, f))
  }

  // The values scanned for the columns, all of them without a driver error.
  function Cells(t: Table, columns: seq<Field>, s: Spec): Option<seq<Cell>> {
    if columns == [] then Some([])
    else
      var c := Scanned(t, s, columns[0]);
      var rest := Cells(t, columns[1..], s);
      if c.None? || rest.None? then None else Some([c.value] + rest.value)
  }

  // sqlAll for one row of a query for these columns, into a new node.
  function Load(t: Table, columns: seq<Field>, s: Spec): Option<Step> {
    var cells := Cells(t, columns, s);
    if cells.None? then None
    else Some(Assign(t, columns, cells.value, Loaded(NodeState(0, NodeFields(t.columns, map[])), map[])))
  }

  // The types of a mutation's fields are those of its setters.
  ghost predicate WellTyped(t: Table, fields: map<Field, Val>) {
    && (forall f :: f in fields ==> IsColumn(t, f))
    && forall k :: 0 <= k < |t.columns| && t.columns[k].name in fields ==>
      HasKind(fields[t.columns[k].name], t.columns[k].kind)
  }

  // What column k must end with.
  function Target(col: Column, fields: map<Field, Val>): Option<Val> {
    if col.name in fields then Some(fields[col.name]) else ZeroSlot(col)
  }

  // A column's destination, filled with the stored value, brings its field there.
  lemma SetFieldRoundTrip(t: Table, v: Val, k: nat, l: Loaded)
    requires Consistent(t) && k < |t.columns| && HasKind(v, t.columns[k].kind)
    requires var col := t.columns[k]; Slot(l, col.name) == Some(ZeroSlot(col)) || Slot(l, col.name) == Some(Some(v))
    ensures var col := t.columns[k];
      var c := Fill(t.destination(col.name), Some(Encode(v)));
      && c.Some? && TypeOf(c.value) == TypeOf(t.destination(col.name))
      && AssignOne(t, col.name, c.value, l).Went?
      && Slot(AssignOne(t, col.name, c.value, l).l, col.name) == Some(Some(v))
  {
    assert IsColumn(t, t.columns[k].name);
    JsonTwice(v);
  }

  // A NULL leaves it zero.
  lemma UnsetFieldRoundTrip(t: Table, k: nat, l: Loaded)
    requires Consistent(t) && k < |t.columns| && Slot(l, t.columns[k].name) == Some(ZeroSlot(t.columns[k]))
    ensures var col := t.columns[k];
      var c := Fill(t.destination(col.name), None);
      && c.Some? && TypeOf(c.value) == TypeOf(t.destination(col.name))
      && AssignOne(t, col.name, c.value, l).Went?
      && Slot(AssignOne(t, col.name, c.value, l).l, col.name) == Some(ZeroSlot(col))
  {
    assert IsColumn(t, t.columns[k].name);
  }

  // One column, filled from the stored row, brings its field to the target.
  lemma FieldRoundTrip(t: Table, fields: map<Field, Val>, s: Spec, k: nat, l: Loaded)
    requires Consistent(t) && WellTyped(t, fields) && k < |t.columns|
    requires var col := t.columns[k];
      && RowOf(s, col.name) == (if col.name in fields then Some(Encode(fields[col.name])) else None)
      && (Slot(l, col.name) == Some(ZeroSlot(col)) || Slot(l, col.name) == Some(Target(col, fields)))
    ensures var col := t.columns[k];
      var c := Scanned(t, s, col.name);
      && c.Some? && TypeOf(c.value) == TypeOf(t.destination(col.name))
      && AssignOne(t, col.name, c.value, l).Went?
      && Slot(AssignOne(t, col.name, c.value, l).l, col.name) == Some(Target(col, fields))
  {
    if t.columns[k].name in fields {
      SetFieldRoundTrip(t, fields[t.columns[k].name], k, l);
    } else {
      UnsetFieldRoundTrip(t, k, l);
    }
  }

  // Unmarshalling the same object into nil, or again, gives that object.
  lemma JsonTwice(v: Val)
    ensures v.JMap? && v.m.Some? ==> map[] + v.m.value == v.m.value && v.m.value + v.m.value == v.m.value
  {
  }

  // The ID and unknown columns do not disturb the fields.
  lemma OtherColumn(t: Table, s: Spec, f: Field, l: Loaded)
    requires Consistent(t) && !IsColumn(t, f)
    ensures var c := Scanned(t, s, f);
      && c.Some? && TypeOf(c.value) == TypeOf(t.destination(f))
      && AssignOne(t, f, c.value, l).Went?
      && AssignOne(t, f, c.value, l).l.node.fields == l.node.fields
      && (AssignOne(t, f, c.value, l).l.node.id
          == if f == ID then (if s.id.Some? then s.id.value else 0) else l.node.id)
  {
  }

  // The spec stores exactly these fields.
  ghost predicate Stores(t: Table, s: Spec, fields: map<Field, Val>) {
    forall f :: IsColumn(t, f) ==> RowOf(s, f) == if f in fields then Some(Encode(fields[f])) else None
  }

  // Column k's field is zero or already what it must be; if listed before position
  // i of the column list it is what it must be, if not listed at all it is zero.
  ghost predicate ColumnOnTrack(t: Table, fields: map<Field, Val>, columns: seq<Field>, i: nat, l: Loaded, k: nat)
    requires i <= |columns| && k < |t.columns|
  {
    var col := t.columns[k];
    var slot := Slot(l, col.name);
    && (slot == Some(ZeroSlot(col)) || slot == Some(Target(col, fields)))
    && (col.name in columns[..i] ==> slot == Some(Target(col, fields)))
    && (col.name !in columns ==> slot == Some(ZeroSlot(col)))
  }

  ghost predicate OnTrack(t: Table, fields: map<Field, Val>, columns: seq<Field>, i: nat, l: Loaded)
    requires i <= |columns|
  {
    && (forall f :: f in l.node.fields ==> IsColumn(t, f))
    && forall k :: 0 <= k < |t.columns| ==> ColumnOnTrack(t, fields, columns, i, l, k)
  }

  // A turn for another name keeps column k on track.
  lemma KeepsTrack(t: Table, fields: map<Field, Val>, columns: seq<Field>, i: nat, l: Loaded, next: Loaded, k: nat)
    requires i < |columns| && k < |t.columns| && ColumnOnTrack(t, fields, columns, i, l, k)
    requires columns[i] != t.columns[k].name && Slot(next, t.columns[k].name) == Slot(l, t.columns[k].name)
    ensures ColumnOnTrack(t, fields, columns, i + 1, next, k)
  {
    assert columns[..i + 1] == columns[..i] + [columns[i]];
  }

  // A turn of the loop for a column of the table.
  lemma OwnTurn(t: Table, fields: map<Field, Val>, s: Spec, columns: seq<Field>, i: nat, l: Loaded, k: nat)
    requires Consistent(t) && WellTyped(t, fields) && Stores(t, s, fields) && i < |columns|
      && OnTrack(t, fields, columns, i, l)
    requires k < |t.columns| && t.columns[k].name == columns[i]
    ensures Scanned(t, s, columns[i]).Some?
    ensures var r := AssignOne(t, columns[i], Scanned(t, s, columns[i]).value, l);
      r.Went? && OnTrack(t, fields, columns, i + 1, r.l) && r.l.node.id == l.node.id
  {
    var f := columns[i];
    assert IsColumn(t, f);
    assert ColumnOnTrack(t, fields, columns, i, l, k);
    FieldRoundTrip(t, fields, s, k, l);
    var c := Scanned(t, s, f).value;
    var r := AssignOne(t, f, c, l);
    var j := i + 1;
    forall n | 0 <= n < |t.columns| ensures ColumnOnTrack(t, fields, columns, j, r.l, n) {
      if n != k {
        TurnEffect(t, f, c, l, t.columns[n].name);
        KeepsTrack(t, fields, columns, i, l, r.l, n);
      }
    }
  }

  lemma ColumnTurn(t: Table, fields: map<Field, Val>, s: Spec, columns: seq<Field>, i: nat, l: Loaded)
    requires Consistent(t) && WellTyped(t, fields) && Stores(t, s, fields) && i < |columns|
      && OnTrack(t, fields, columns, i, l)
    ensures Scanned(t, s, columns[i]).Some?
    ensures var r := AssignOne(t, columns[i], Scanned(t, s, columns[i]).value, l);
      && r.Went? && OnTrack(t, fields, columns, i + 1, r.l)
      && r.l.node.id == if columns[i] == ID then (if s.id.Some? then s.id.value else 0) else l.node.id
  {
    if IsColumn(t, columns[i]) {
      var k :| 0 <= k < |t.columns| && t.columns[k].name == columns[i];
      OwnTurn(t, fields, s, columns, i, l, k);
    } else {
      OtherColumn(t, s, columns[i], l);
      var r := AssignOne(t, columns[i], Scanned(t, s, columns[i]).value, l);
      var j := i + 1;
      forall n | 0 <= n < |t.columns| ensures ColumnOnTrack(t, fields, columns, j, r.l, n) {
        KeepsTrack(t, fields, columns, i, l, r.l, n);
      }
    }
  }

  lemma {:induction false} LoadFrom(t: Table, fields: map<Field, Val>, s: Spec, columns: seq<Field>,
                 cells: seq<Cell>, i: nat, l: Loaded)
    requires Consistent(t) && WellTyped(t, fields) && Stores(t, s, fields)
    requires i <= |columns| == |cells| && OnTrack(t, fields, columns, i, l)
    requires forall k :: 0 <= k < |columns| ==> Some(cells[k]) == Scanned(t, s, columns[k])
    ensures AssignFrom(t, columns, cells, i, l).Went?
    ensures OnTrack(t, fields, columns, |columns|, AssignFrom(t, columns, cells, i, l).l)
    ensures AssignFrom(t, columns, cells, i, l).l.node.id
         == if ID !in columns[i..] then l.node.id else if s.id.Some? then s.id.value else 0
    decreases |columns| - i
  {
    if i < |columns| {
      ColumnTurn(t, fields, s, columns, i, l);
      LoadFrom(t, fields, s, columns, cells, i + 1, AssignOne(t, columns[i], cells[i], l).l);
      assert columns[i..] == [columns[i]] + columns[i + 1..];
    }
  }

  // The cells, filled one by one.
  lemma {:induction false} CellsAt(t: Table, columns: seq<Field>, s: Spec)
    requires forall i :: 0 <= i < |columns| ==> Scanned(t, s, columns[i]).Some?
    ensures Cells(t, columns, s).Some? && |Cells(t, columns, s).value| == |columns|
    ensures forall i :: 0 <= i < |columns| ==> Some(Cells(t, columns, s).value[i]) == Scanned(t, s, columns[i])
  {
    if columns != [] {
      CellsAt(t, columns[1..], s);
    }
  }

  lemma {:induction false} StoredSpecField(cols: seq<Column>, fields: map<Field, Val>, k: nat)
    requires DistinctNames(cols) && k < |cols|
    ensures StoredAt(SpecFields(cols, fields), cols[k].name)
         == if cols[k].name in fields then Some(Encode(fields[cols[k].name])) else None
  {
    var tail := cols[1..];
    var name := cols[0].name;
    assert forall j :: 0 <= j < |tail| ==> tail[j] == cols[j + 1];
    if name in fields {
      assert SpecFields(cols, fields) == [(name, fields[name])] + SpecFields(tail, fields);
      assert SpecFields(cols, fields)[1..] == SpecFields(tail, fields);
    } else {
      assert SpecFields(cols, fields) == SpecFields(tail, fields);
    }
    if k > 0 {
      StoredSpecField(tail, fields, k - 1);
    } else {
      StoredElsewhere(tail, fields, name);
    }
  }

  lemma {:induction false} StoredElsewhere(cols: seq<Column>, fields: map<Field, Val>, f: Field)
    requires forall j :: 0 <= j < |cols| ==> cols[j].name != f
    ensures StoredAt(SpecFields(cols, fields), f) == None
  {
    if cols != [] {
      var tail := cols[1..];
      assert forall j :: 0 <= j < |tail| ==> tail[j] == cols[j + 1];
      StoredElsewhere(tail, fields, f);
      var name := cols[0].name;
      if name in fields {
        assert SpecFields(cols, fields) == [(name, fields[name])] + SpecFields(tail, fields);
        assert SpecFields(cols, fields)[1..] == SpecFields(tail, fields);
      } else {
        assert SpecFields(cols, fields) == SpecFields(tail, fields);
      }
    }
  }

  lemma {:induction false} NodeField(cols: seq<Column>, fields: map<Field, Val>)
    requires DistinctNames(cols)
    ensures forall k :: 0 <= k < |cols| ==>
      cols[k].name in NodeFields(cols, fields) && NodeFields(cols, fields)[cols[k].name] == Target(cols[k], fields)
    ensures forall f :: f in NodeFields(cols, fields) ==> exists k :: 0 <= k < |cols| && cols[k].name == f
  {
    if cols != [] {
      var tail := cols[1..];
      NodeField(tail, fields);
      assert forall j :: 0 <= j < |tail| ==> tail[j] == cols[j + 1];
      forall k | 0 <= k < |cols|
        ensures cols[k].name in NodeFields(cols, fields)
          && NodeFields(cols, fields)[cols[k].name] == Target(cols[k], fields)
      {
        if k > 0 {
          assert tail[k - 1] == cols[k];
        }
      }
    }
  }

  lemma MakeStores(t: Table, id: Option<Id>, fields: map<Field, Val>)
    requires Consistent(t)
    ensures Stores(t, Spec(id, SpecFields(t.columns, fields)), fields)
  {
    forall f | IsColumn(t, f)
      ensures StoredAt(SpecFields(t.columns, fields), f) == if f in fields then Some(Encode(fields[f])) else None
    {
      var k :| 0 <= k < |t.columns| && t.columns[k].name == f;
      StoredSpecField(t.columns, fields, k);
    }
  }

  // Main result: for every column list, with duplicates and unknown names, loading
  // the row stored for a mutation gives each listed column the value createSpec()
  // put in its own node, leaves the others zero, and reads the ID if it is listed.
  lemma PartialRoundTrip(t: Table, id: Option<Id>, fields: map<Field, Val>, columns: seq<Field>)
    requires Consistent(t) && WellTyped(t, fields)
    ensures var r := Load(t, columns, Spec(id, SpecFields(t.columns, fields)));
      && r.Some? && r.value.Went?
      && OnTrack(t, fields, columns, |columns|, r.value.l)
      && r.value.l.node.id == if ID in columns && id.Some? then id.value else 0
  {
    var s := Spec(id, SpecFields(t.columns, fields));
    var l := Loaded(NodeState(0, NodeFields(t.columns, map[])), map[]);
    MakeStores(t, id, fields);
    NodeField(t.columns, map[]);
    assert OnTrack(t, fields, columns, 0, l);
    forall i | 0 <= i < |columns| ensures Scanned(t, s, columns[i]).Some? {
      ScanSucceeds(t, fields, s, columns[i]);
    }
    CellsAt(t, columns, s);
    LoadFrom(t, fields, s, columns, Cells(t, columns, s).value, 0, l);
    assert columns[0..] == columns;
  }

  lemma ScanSucceeds(t: Table, fields: map<Field, Val>, s: Spec, f: Field)
    requires Consistent(t) && WellTyped(t, fields) && Stores(t, s, fields)
    ensures Scanned(t, s, f).Some?
  {
    if IsColumn(t, f) {
      var k :| 0 <= k < |t.columns| && t.columns[k].name == f;
    } else {
      OtherColumn(t, s, f, Loaded(NodeState(0, map[]), map[]));
    }
  }

  // All columns of the table, ID first.
  function AllColumns(cols: seq<Column>): seq<Field> {
    [ID] + seq(|cols|, k requires 0 <= k < |cols| => cols[k].name)
  }

  // Main result: storing what createSpec() made and loading all its columns gives
  // the node createSpec() returned.
  lemma RoundTrip(t: Table, id: Id, fields: map<Field, Val>)
    requires Consistent(t) && WellTyped(t, fields)
    ensures var e := Schema.Entity(BuilderUuid, t.columns);
      var r := Load(t, AllColumns(t.columns), MakeSpec(e, Some(id), fields));
      r.Some? && r.value.Went? && r.value.l.node == MakeNode(e, Some(id), fields)
  {
    var columns := AllColumns(t.columns);
    PartialRoundTrip(t, Some(id), fields, columns);
    var l := Load(t, columns, Spec(Some(id), SpecFields(t.columns, fields))).value.l;
    assert columns[0] == ID;
    assert columns[..|columns|] == columns;
    forall k | 0 <= k < |t.columns|
      ensures t.columns[k].name in l.node.fields && l.node.fields[t.columns[k].name] == Target(t.columns[k], fields)
    {
      assert columns[k + 1] == t.columns[k].name;
      assert ColumnOnTrack(t, fields, columns, |columns|, l, k);
    }
    NodeField(t.columns, fields);
    SameFields(t, l.node.fields, NodeFields(t.columns, fields), fields);
  }

  // In that node a pointer field is nil exactly when the mutation left it unset.
  lemma PointerIsNilIffUnset(t: Table, fields: map<Field, Val>, k: nat)
    requires Consistent(t) && k < |t.columns| && t.columns[k].pointer
    ensures var f := t.columns[k].name;
      f in NodeFields(t.columns, fields) && (NodeFields(t.columns, fields)[f].None? <==> f !in fields)
  {
    NodeField(t.columns, fields);
  }

  // Two maps over the columns that hold the targets are equal.
  lemma SameFields(t: Table, a: map<Field, Option<Val>>, b: map<Field, Option<Val>>, fields: map<Field, Val>)
    requires forall f :: f in a || f in b ==> IsColumn(t, f)
    requires forall k :: 0 <= k < |t.columns| ==>
      t.columns[k].name in a && a[t.columns[k].name] == Target(t.columns[k], fields)
    requires forall k :: 0 <= k < |t.columns| ==>
      t.columns[k].name in b && b[t.columns[k].name] == Target(t.columns[k], fields)
    ensures a == b
  {
  }
}
