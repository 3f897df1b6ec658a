// The CodexTurnIntent entity.
module CodexTurnIntent {
  import opened Wrappers
  import opened Schema

  // The column names after the ID, in the order of codexturnintent.Columns.
  const CONTROL_ID := Col(0)
  const SEQUENCE_NO := Col(1)
  const OPERATION := Col(2)
  const BEHAVIOR := Col(3)
  const RESOLVED_ACTION := Col(4)
  const TARGET_INTENT_ID := Col(5)
  const SOURCE_TYPE := Col(6)
  const WORK_ITEM_ID := Col(7)
  const DISCORD_CONVERSATION_ID := Col(8)
  const DISCORD_MESSAGE_ID := Col(9)
  const REPOSITORY_ID := Col(10)
  const AGENT_PROFILE_ID := Col(11)
  const WEBHOOK_DELIVERY_ID := Col(12)
  const IDEMPOTENCY_KEY := Col(13)
  const STATUS := Col(14)
  const INSTRUCTION := Col(15)
  const PREPARED_INPUT := Col(16)
  const SKILLS := Col(17)
  const ALLOWED_TOOLS := Col(18)
  const DANGEROUS_ACTIONS := Col(19)
  const TRIGGER_RULE_ID := Col(20)
  const TRIGGER_EVIDENCE := Col(21)
  const ACTOR_LOGIN := Col(22)
  const ACTOR_PERMISSION := Col(23)
  const PRIORITY := Col(24)
  const STEERABLE := Col(25)
  const AVAILABLE_AT := Col(26)
  const ATTEMPT_COUNT := Col(27)
  const MAX_ATTEMPTS := Col(28)
  const CODEX_SUBMISSION_ID := Col(29)
  const CONFIRMED_CODEX_TURN_ID := Col(30)
  const LAST_ERROR_CODE := Col(31)
  const LAST_ERROR_MESSAGE := Col(32)
  const RESULT := Col(33)
  const RESULT_DELIVERY_STATUS := Col(34)
  const RESULT_DELIVERY_ATTEMPT_COUNT := Col(35)
  const RESULT_DELIVERY_ERROR := Col(36)
  const RESULT_DELIVERY_TOKEN := Col(37)
  const RESULT_DELIVERY_AVAILABLE_AT := Col(38)
  const REPLY_POLICY := Col(39)
  const REPLY_STATUS := Col(40)
  const REPLY_HOOK_BLOCK_COUNT := Col(41)
  const REPLY_TOOL_CALL_ID := Col(42)
  const GITHUB_COMMENT_ID := Col(43)
  const GITHUB_COMMENT_URL := Col(44)
  const DISPATCHED_AT := Col(45)
  const CONFIRMED_AT := Col(46)
  const FINISHED_AT := Col(47)
  const RESULT_DELIVERED_AT := Col(48)
  const CREATED_AT := Col(49)
  const UPDATED_AT := Col(50)

  // The Go type of a column's value.
  function KindOf(f: Field): Kind {
    if f in {
      CONTROL_ID, TARGET_INTENT_ID, WORK_ITEM_ID, DISCORD_CONVERSATION_ID, REPOSITORY_ID, AGENT_PROFILE_ID,
      WEBHOOK_DELIVERY_ID, TRIGGER_RULE_ID
    } then KUuid
    else if f in {
      SEQUENCE_NO, PRIORITY, ATTEMPT_COUNT, MAX_ATTEMPTS, RESULT_DELIVERY_ATTEMPT_COUNT,
      REPLY_HOOK_BLOCK_COUNT, GITHUB_COMMENT_ID
    } then KInt
    else if f in {
      STEERABLE
    } then KBool
    else if f in {
      AVAILABLE_AT, RESULT_DELIVERY_AVAILABLE_AT, DISPATCHED_AT, CONFIRMED_AT, FINISHED_AT,
      RESULT_DELIVERED_AT, CREATED_AT, UPDATED_AT
    } then KTime
    else if f in {
      PREPARED_INPUT, TRIGGER_EVIDENCE, RESULT
    } then KJsonMap
    else if f in {
      SKILLS, ALLOWED_TOOLS, DANGEROUS_ACTIONS
    } then KJsonList
    else KString
  }

  // The nillable columns, Go pointers in the node.
  predicate IsPointer(f: Field) {
    f in {
      BEHAVIOR, RESOLVED_ACTION, TARGET_INTENT_ID, WORK_ITEM_ID, DISCORD_CONVERSATION_ID, DISCORD_MESSAGE_ID,
      REPOSITORY_ID, WEBHOOK_DELIVERY_ID, TRIGGER_RULE_ID, CODEX_SUBMISSION_ID, CONFIRMED_CODEX_TURN_ID,
      LAST_ERROR_CODE, LAST_ERROR_MESSAGE, RESULT_DELIVERY_ERROR, RESULT_DELIVERY_TOKEN,
      RESULT_DELIVERY_AVAILABLE_AT, REPLY_TOOL_CALL_ID, GITHUB_COMMENT_ID, GITHUB_COMMENT_URL, DISPATCHED_AT,
      CONFIRMED_AT, FINISHED_AT, RESULT_DELIVERED_AT
    }
  }

  // The columns check() does not ask for.
  predicate IsOptional(f: Field) {
    IsPointer(f) || f in {PREPARED_INPUT, RESULT}
  }

  function DefaultOf(f: Field): Default {
    if f in {OPERATION} then Constant(Str("turn_input"))
    else if f in {STATUS} then Constant(Str("queued"))
    else if f in {SKILLS, ALLOWED_TOOLS, DANGEROUS_ACTIONS} then Constant(JList(Some([])))
    else if f in {TRIGGER_EVIDENCE} then Constant(JMap(Some(map[])))
    else if f in {ACTOR_LOGIN, ACTOR_PERMISSION} then Constant(Str(""))
    else if f in {PRIORITY} then Constant(Int(100))
    else if f in {STEERABLE} then Constant(Bool(true))
    else if f in {AVAILABLE_AT, CREATED_AT, UPDATED_AT} then Generated
    else if f in {ATTEMPT_COUNT, RESULT_DELIVERY_ATTEMPT_COUNT, REPLY_HOOK_BLOCK_COUNT} then Constant(Int(0))
    else if f in {MAX_ATTEMPTS} then Constant(Int(3))
    else if f in {RESULT_DELIVERY_STATUS, REPLY_STATUS} then Constant(Str("pending"))
    else if f in {REPLY_POLICY} then Constant(Str("silent"))
    else NoDefault
  }

  function ColumnAt(k: nat): Column {
    var f := Col(k);
    Column(f, KindOf(f), IsPointer(f), !IsOptional(f), DefaultOf(f))
  }

  const COLUMNS: seq<Column> := seq(51, k requires 0 <= k => ColumnAt(k))

  const ENTITY := Entity(BuilderUuid, COLUMNS)

  lemma NamesAreDistinct(cols: seq<Column>)
    requires cols == COLUMNS
    ensures DistinctNames(cols) && |cols| == 51
    ensures forall k :: 0 <= k < |cols| ==> cols[k] == ColumnAt(k)
  {
  }

  const DEMANDED: seq<Field> := [CONTROL_ID, SEQUENCE_NO, SOURCE_TYPE, AGENT_PROFILE_ID, IDEMPOTENCY_KEY, INSTRUCTION]

  // Main result: for every mutation, check() after defaults() fails exactly when
  // one of six fields was not set by the caller, and names the first of them.
  lemma CheckNamesFirstOfSix(cols: seq<Column>, sup: Supply, fields: map<Field, Val>)
    requires cols == COLUMNS
    ensures Missing(cols, WithDefaults(cols, sup, fields)) == FirstAbsent(DEMANDED, fields)
  {
    var at: seq<nat> := [0, 1, 6, 11, 13, 15];
    NamesAreDistinct(cols);
    forall p: nat | p < |cols|
      ensures cols[p].required && cols[p].default.NoDefault? <==> p in at
    {
    }
    CheckNamesDemanded(cols, at, DEMANDED, sup, fields);
  }

  // The values of codexturnintent.DefaultOperation and the other constant defaults.
  const CONSTANT_DEFAULTS: seq<(Field, Val)> := [
    (OPERATION, Str("turn_input")), (STATUS, Str("queued")), (SKILLS, JList(Some([]))),
    (ALLOWED_TOOLS, JList(Some([]))), (DANGEROUS_ACTIONS, JList(Some([]))), (TRIGGER_EVIDENCE, JMap(Some(map[]))),
    (ACTOR_LOGIN, Str("")), (ACTOR_PERMISSION, Str("")), (PRIORITY, Int(100)), (STEERABLE, Bool(true)),
    (ATTEMPT_COUNT, Int(0)), (MAX_ATTEMPTS, Int(3)), (RESULT_DELIVERY_STATUS, Str("pending")),
    (RESULT_DELIVERY_ATTEMPT_COUNT, Int(0)), (REPLY_POLICY, Str("silent")), (REPLY_STATUS, Str("pending")),
    (REPLY_HOOK_BLOCK_COUNT, Int(0))]

  // The columns that default to the time of the call.
  const GENERATED_DEFAULTS: seq<Field> := [AVAILABLE_AT, CREATED_AT, UPDATED_AT]

  lemma ConstantAt(q: nat)
    requires q < |CONSTANT_DEFAULTS|
    ensures var (f, v) := CONSTANT_DEFAULTS[q];
      f.Col? && f.place < 51 && ColumnAt(f.place) == Column(f, KindOf(f), IsPointer(f), !IsOptional(f), Constant(v))
  {
  }

  lemma DefaultListed(k: nat)
    requires k < 51
    ensures match ColumnAt(k).default
      case NoDefault => true
      case Constant(v) => (Col(k), v) in CONSTANT_DEFAULTS
      case Generated => Col(k) in GENERATED_DEFAULTS
  {
    var f := Col(k);
    if ColumnAt(k).default.Constant? {
      var q := if f == OPERATION then 0 else if f == STATUS then 1 else if f == SKILLS then 2
        else if f == ALLOWED_TOOLS then 3 else if f == DANGEROUS_ACTIONS then 4 else if f == TRIGGER_EVIDENCE then 5
        else if f == ACTOR_LOGIN then 6 else if f == ACTOR_PERMISSION then 7 else if f == PRIORITY then 8
        else if f == STEERABLE then 9 else if f == ATTEMPT_COUNT then 10 else if f == MAX_ATTEMPTS then 11
        else if f == RESULT_DELIVERY_STATUS then 12 else if f == RESULT_DELIVERY_ATTEMPT_COUNT then 13
        else if f == REPLY_POLICY then 14 else if f == REPLY_STATUS then 15 else 16;
      assert CONSTANT_DEFAULTS[q] == (f, ColumnAt(k).default.v);
    }
  }

  // Main result: what defaults() sets, by value. A field the caller left unset ends
  // with the value listed for it, or with what its generating function returned; every
  // other field stays as it was, set or not.
  lemma IntentDefaults(cols: seq<Column>, sup: Supply, fields: map<Field, Val>, f: Field)
    requires cols == COLUMNS && f !in fields
    ensures var filled := WithDefaults(cols, sup, fields);
      && (forall v :: (f, v) in CONSTANT_DEFAULTS ==> f in filled && filled[f] == v)
      && (f in GENERATED_DEFAULTS ==> f in filled && filled[f] == sup.values(f))
      && (f in filled ==> f in GENERATED_DEFAULTS || exists v :: (f, v) in CONSTANT_DEFAULTS)
  {
    var filled := WithDefaults(cols, sup, fields);
    NamesAreDistinct(cols);
    if f.Col? && f.place < 51 {
      assert cols[f.place] == ColumnAt(f.place);
      DefaultsAreTheColumns(cols, sup, fields, f.place);
      DefaultListed(f.place);
    } else {
      DefaultsFillOnlyGaps(cols, sup, fields);
      DefaultedNames(cols);
    }
    forall v | (f, v) in CONSTANT_DEFAULTS ensures f in filled && filled[f] == v {
      var q :| 0 <= q < |CONSTANT_DEFAULTS| && CONSTANT_DEFAULTS[q] == (f, v);
      ConstantAt(q);
    }
  }

  // What check() asks for, in order.
  function CheckedName(q: nat): Field {
    match q
    case 0 => CONTROL_ID
    case 1 => SEQUENCE_NO
    case 2 => OPERATION
    case 3 => SOURCE_TYPE
    case 4 => AGENT_PROFILE_ID
    case 5 => IDEMPOTENCY_KEY
    case 6 => STATUS
    case 7 => INSTRUCTION
    case 8 => SKILLS
    case 9 => ALLOWED_TOOLS
    case 10 => DANGEROUS_ACTIONS
    case 11 => TRIGGER_EVIDENCE
    case 12 => ACTOR_LOGIN
    case 13 => ACTOR_PERMISSION
    case 14 => PRIORITY
    case 15 => STEERABLE
    case 16 => AVAILABLE_AT
    case 17 => ATTEMPT_COUNT
    case 18 => MAX_ATTEMPTS
    case 19 => RESULT_DELIVERY_STATUS
    case 20 => RESULT_DELIVERY_ATTEMPT_COUNT
    case 21 => REPLY_POLICY
    case 22 => REPLY_STATUS
    case 23 => REPLY_HOOK_BLOCK_COUNT
    case 24 => CREATED_AT
    case _ => UPDATED_AT
  }

  const CHECKED: seq<Field> := seq(26, q requires 0 <= q < 26 => CheckedName(q))

  // Their places among the columns.
  function CheckedPlace(q: nat): nat {
    if q < 3 then q
    else if q == 3 then SOURCE_TYPE.place
    else if q == 4 then AGENT_PROFILE_ID.place
    else if q < 8 then IDEMPOTENCY_KEY.place + q - 5
    else if q < 11 then SKILLS.place + q - 8
    else if q < 19 then TRIGGER_EVIDENCE.place + q - 11
    else if q < 21 then RESULT_DELIVERY_STATUS.place + q - 19
    else if q < 24 then REPLY_POLICY.place + q - 21
    else CREATED_AT.place + q - 24
  }

  // Which of them a required column is.
  function CheckedIndex(p: nat): nat {
    if p < 3 then p
    else if p <= 6 then 3
    else if p <= 11 then 4
    else if p <= 15 then if p < 13 then 5 else 5 + p - 13
    else if p <= 19 then if p < 17 then 8 else 8 + p - 17
    else if p <= 28 then if p < 21 then 11 else 11 + p - 21
    else if p <= 35 then if p < 34 then 19 else 19 + p - 34
    else if p <= 41 then if p < 39 then 21 else 21 + p - 39
    else if p < 49 then 24 else 24 + p - 49
  }

  lemma PlaceOf(q: nat)
    requires q < 26
    ensures CheckedPlace(q) < 51 && CheckedName(q) == Col(CheckedPlace(q))
    ensures !IsOptional(Col(CheckedPlace(q)))
  {
  }

  lemma IndexOfRequired(p: nat)
    requires p < 51 && !IsOptional(Col(p))
    ensures CheckedIndex(p) < 26 && CheckedPlace(CheckedIndex(p)) == p
  {
  }

  // check() by itself, for instance after a hook has unset a field: it names the first
  // of these that is not set.
  lemma CheckNamesFirst(cols: seq<Column>, sup: Supply, fields: map<Field, Val>)
    requires cols == COLUMNS
    ensures Missing(cols, fields) == FirstAbsent(CHECKED, fields)
  {
    var at := seq(26, q requires 0 <= q < 26 => CheckedPlace(q));
    var names := CHECKED;
    NamesAreDistinct(cols);
    assert |names| == 26 && forall q :: 0 <= q < 26 ==> names[q] == CheckedName(q);
    forall q | 0 <= q < 26 ensures at[q] < 51 && names[q] == cols[at[q]].name && cols[at[q]].required {
      PlaceOf(q);
    }
    forall p: nat | p < |cols| && cols[p].required ensures p in at {
      IndexOfRequired(p);
      assert at[CheckedIndex(p)] == p;
    }
    CheckNamesRequired(cols, at, names, sup, fields);
  }
}
