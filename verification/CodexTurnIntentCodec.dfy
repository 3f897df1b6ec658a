// The scanValues() and assignValues() switches of CodexTurnIntent.
module CodexTurnIntentCodec {
  import opened Wrappers
  import opened Schema
  import opened Runtime
  import opened CodexTurnIntent
  import opened Codec

  // The switch of scanValues().
  function Destination(f: Field): Cell {
    if f in {TARGET_INTENT_ID, WORK_ITEM_ID, DISCORD_CONVERSATION_ID, REPOSITORY_ID, WEBHOOK_DELIVERY_ID,
      TRIGGER_RULE_ID}
    then NullScanner(false, 0)
    else if f in {PREPARED_INPUT, SKILLS, ALLOWED_TOOLS, DANGEROUS_ACTIONS, TRIGGER_EVIDENCE, RESULT}
    then Bytes(Empty)
    else if f in {STEERABLE}
    then NullBool(false, false)
    else if f in {
      SEQUENCE_NO, PRIORITY, ATTEMPT_COUNT, MAX_ATTEMPTS, RESULT_DELIVERY_ATTEMPT_COUNT, REPLY_HOOK_BLOCK_COUNT,
      GITHUB_COMMENT_ID
    } then NullInt64(false, 0)
    else if f in {
      OPERATION, BEHAVIOR, RESOLVED_ACTION, SOURCE_TYPE, DISCORD_MESSAGE_ID, IDEMPOTENCY_KEY, STATUS, INSTRUCTION,
      ACTOR_LOGIN, ACTOR_PERMISSION, CODEX_SUBMISSION_ID, CONFIRMED_CODEX_TURN_ID, LAST_ERROR_CODE,
      LAST_ERROR_MESSAGE, RESULT_DELIVERY_STATUS, RESULT_DELIVERY_ERROR, RESULT_DELIVERY_TOKEN, REPLY_POLICY,
      REPLY_STATUS, REPLY_TOOL_CALL_ID, GITHUB_COMMENT_URL
    } then NullString(false, "")
    else if f in {
      AVAILABLE_AT, RESULT_DELIVERY_AVAILABLE_AT, DISPATCHED_AT, CONFIRMED_AT, FINISHED_AT, RESULT_DELIVERED_AT,
      CREATED_AT, UPDATED_AT
    } then NullTime(false, 0)
    else if f in {ID, CONTROL_ID, AGENT_PROFILE_ID}
    then PlainUuid(0)
    else UnknownCell(None)
  }

  // The type assertion in each case of assignValues(); it asserts none by default.
  function Asserted(f: Field): CellType {
    if f in {ID, CONTROL_ID, AGENT_PROFILE_ID} then TUuid
    else if f in {
      SEQUENCE_NO, PRIORITY, ATTEMPT_COUNT, MAX_ATTEMPTS, RESULT_DELIVERY_ATTEMPT_COUNT, REPLY_HOOK_BLOCK_COUNT
    } then TNullInt64
    else if f in {GITHUB_COMMENT_ID} then TNullInt64
    else if f in {
      OPERATION, SOURCE_TYPE, IDEMPOTENCY_KEY, STATUS, INSTRUCTION, ACTOR_LOGIN, ACTOR_PERMISSION,
      RESULT_DELIVERY_STATUS, REPLY_POLICY, REPLY_STATUS
    } then TNullString
    else if f in {
      BEHAVIOR, RESOLVED_ACTION, DISCORD_MESSAGE_ID, CODEX_SUBMISSION_ID, CONFIRMED_CODEX_TURN_ID, LAST_ERROR_CODE,
      LAST_ERROR_MESSAGE, RESULT_DELIVERY_ERROR, RESULT_DELIVERY_TOKEN, REPLY_TOOL_CALL_ID, GITHUB_COMMENT_URL
    } then TNullString
    else if f in {TARGET_INTENT_ID, WORK_ITEM_ID, DISCORD_CONVERSATION_ID, REPOSITORY_ID, WEBHOOK_DELIVERY_ID,
      TRIGGER_RULE_ID}
    then TNullScanner
    else if f in {PREPARED_INPUT, SKILLS, ALLOWED_TOOLS, DANGEROUS_ACTIONS, TRIGGER_EVIDENCE, RESULT} then TBytes
    else if f in {STEERABLE} then TNullBool
    else if f in {AVAILABLE_AT, CREATED_AT, UPDATED_AT} then TNullTime
    else if f in {
      RESULT_DELIVERY_AVAILABLE_AT, DISPATCHED_AT, CONFIRMED_AT, FINISHED_AT, RESULT_DELIVERED_AT
    } then TNullTime
    else TUnknown
  }

  predicate IsJsonMap(f: Field) {
    f in {PREPARED_INPUT, TRIGGER_EVIDENCE, RESULT}
  }

  function TableFor(cols: seq<Column>, rejected: (Json, Option<Val>) -> Option<Val>): Table {
    Table(cols, f => Destination(f), f => Asserted(f), f => IsJsonMap(f), rejected)
  }

  // The switches fit the Go type of every column.
  lemma SwitchesFit(k: nat)
    requires k < 51
    ensures Destination(Col(k)) == Fitting(ColumnAt(k))
    ensures IsJsonMap(Col(k)) <==> ColumnAt(k).kind.KJsonMap?
  {
  }

  // The cases of assignValues() that allocate a new value behind a pointer.
  predicate AssignsPointer(f: Field) {
    f in {
      BEHAVIOR, RESOLVED_ACTION, TARGET_INTENT_ID, WORK_ITEM_ID, DISCORD_CONVERSATION_ID, DISCORD_MESSAGE_ID,
      REPOSITORY_ID, WEBHOOK_DELIVERY_ID, TRIGGER_RULE_ID, CODEX_SUBMISSION_ID, CONFIRMED_CODEX_TURN_ID,
      LAST_ERROR_CODE, LAST_ERROR_MESSAGE, RESULT_DELIVERY_ERROR, RESULT_DELIVERY_TOKEN,
      RESULT_DELIVERY_AVAILABLE_AT, REPLY_TOOL_CALL_ID, GITHUB_COMMENT_ID, GITHUB_COMMENT_URL, DISPATCHED_AT,
      CONFIRMED_AT, FINISHED_AT, RESULT_DELIVERED_AT
    }
  }

  // They are those of the columns whose node field is a pointer.
  lemma PointersAgree(k: nat)
    requires k < 51
    ensures AssignsPointer(Col(k)) <==> ColumnAt(k).pointer
  {
  }

  // Main result: scanValues(), assignValues() and the columns of CodexTurnIntent
  // are consistent, so that all of Codec applies to it.
  lemma IntentIsConsistent(cols: seq<Column>, rejected: (Json, Option<Val>) -> Option<Val>)
    requires cols == COLUMNS
    ensures Consistent(TableFor(cols, rejected))
  {
    var t := TableFor(cols, rejected);
    NamesAreDistinct(cols);
    forall f
      ensures t.asserted(f) == TypeOf(t.destination(f))
      ensures t.destination(f).UnknownCell? ==> t.destination(f) == UnknownCell(None)
      ensures t.asserted(f).TUnknown? <==> f != ID && !IsColumn(t, f)
    {
      if f.Col? && f.place < 51 {
        assert cols[f.place].name == f;
      }
    }
    forall k | 0 <= k < |t.columns|
      ensures t.destination(t.columns[k].name) == Fitting(t.columns[k])
      ensures t.jsonMap(t.columns[k].name) <==> t.columns[k].kind.KJsonMap?
    {
      SwitchesFit(k);
    }
  }

  // A NULL leaves a nullable column's field alone, but not the plain UUIDs: their
  // destination always supplies a value, the zero UUID.
  lemma NullSupplies(f: Field)
    ensures Supplies(Destination(f)) <==> f in {ID, CONTROL_ID, AGENT_PROFILE_ID}
  {
  }

  lemma DefaultFits(k: nat)
    requires k < 51
    ensures ColumnAt(k).default.Constant? ==> HasKind(ColumnAt(k).default.v, ColumnAt(k).kind)
  {
  }

  // The generating functions return values of their columns' types.
  ghost predicate TypedSupply(cols: seq<Column>, sup: Supply) {
    forall k :: 0 <= k < |cols| ==> HasKind(sup.values(cols[k].name), cols[k].kind)
  }

  // defaults() keeps a mutation well-typed.
  lemma {:induction false} DefaultsWellTyped(t: Table, i: nat, sup: Supply, fields: map<Field, Val>)
    requires DistinctNames(t.columns) && i <= |t.columns| && WellTyped(t, fields) && TypedSupply(t.columns, sup)
    requires forall k :: 0 <= k < |t.columns| && t.columns[k].default.Constant? ==>
      HasKind(t.columns[k].default.v, t.columns[k].kind)
    ensures WellTyped(t, WithDefaults(t.columns[i..], sup, fields))
    decreases |t.columns| - i
  {
    if i < |t.columns| {
      var col := t.columns[i];
      assert t.columns[i..][0] == col && t.columns[i..][1..] == t.columns[i + 1..];
      var d := DefaultValue(col, sup);
      var rest := if col.name !in fields && d.Some? then fields[col.name := d.value] else fields;
      assert IsColumn(t, col.name);
      DefaultsWellTyped(t, i + 1, sup, rest);
    }
  }

  // Main result: for every CodexTurnIntent mutation, whatever fields the caller
  // set, storing what createSpec() makes after defaults() and loading all columns
  // gives back the node that createSpec() returned.
  lemma IntentRoundTrip(cols: seq<Column>, rejected: (Json, Option<Val>) -> Option<Val>,
                        sup: Supply, id: Id, fields: map<Field, Val>)
    requires cols == COLUMNS && WellTyped(TableFor(cols, rejected), fields) && TypedSupply(cols, sup)
    ensures var e := Schema.Entity(BuilderUuid, cols);
      var filled := WithDefaults(cols, sup, fields);
      var r := Load(TableFor(cols, rejected), AllColumns(cols), MakeSpec(e, Some(id), filled));
      r.Some? && r.value.Went? && r.value.l.node == MakeNode(e, Some(id), filled)
  {
    var t := TableFor(cols, rejected);
    IntentIsConsistent(cols, rejected);
    NamesAreDistinct(cols);
    forall k | 0 <= k < |cols| && cols[k].default.Constant? ensures HasKind(cols[k].default.v, cols[k].kind) {
      DefaultFits(k);
    }
    assert t.columns[0..] == cols;
    DefaultsWellTyped(t, 0, sup, fields);
    RoundTrip(t, id, WithDefaults(cols, sup, fields));
  }
}
