// The two entities whose IDs the database may assign.
module AssignedIdEntities {
  import opened Wrappers
  import opened Schema

  const ADMINISTRATOR_ID := Col(0)
  const ACTION := Col(1)
  const RESOURCE_TYPE := Col(2)
  const RESOURCE_ID := Col(3)
  const REQUEST_ID := Col(4)
  const IP_ADDRESS := Col(5)
  const METADATA := Col(6)
  const CREATED_AT := Col(7)

  function AuditColumnAt(k: nat): Column {
    match k
    case 0 => Column(ADMINISTRATOR_ID, KUuid, true, false, NoDefault)
    case 1 => Column(ACTION, KString, false, true, NoDefault)
    case 2 => Column(RESOURCE_TYPE, KString, false, true, NoDefault)
    case 3 => Column(RESOURCE_ID, KString, true, false, NoDefault)
    case 4 => Column(REQUEST_ID, KString, true, false, NoDefault)
    case 5 => Column(IP_ADDRESS, KString, true, false, NoDefault)
    case 6 => Column(METADATA, KJsonMap, false, true, Constant(JMap(Some(map[]))))
    case _ => Column(CREATED_AT, KTime, false, true, Generated)
  }

  const SETTING_KEY := Col(0)
  const VALUE := Col(1)
  const VERSION := Col(2)
  const UPDATED_AT := Col(3)

  function SettingColumnAt(k: nat): Column {
    match k
    case 0 => Column(SETTING_KEY, KString, false, true, NoDefault)
    case 1 => Column(VALUE, KJsonMap, false, true, NoDefault)
    case 2 => Column(VERSION, KInt, false, true, Constant(Int(1)))
    case _ => Column(UPDATED_AT, KTime, false, true, Generated)
  }

  const AUDIT_COLUMNS: seq<Column> := seq(8, k requires 0 <= k => AuditColumnAt(k))
  const SETTING_COLUMNS: seq<Column> := seq(4, k requires 0 <= k => SettingColumnAt(k))

  const AUDIT_LOG := Entity(GivenOrAssigned, AUDIT_COLUMNS)
  const PLATFORM_SETTING := Entity(AlwaysAssigned, SETTING_COLUMNS)

  const AUDIT_DEMANDED: seq<Field> := [ACTION, RESOURCE_TYPE]
  const SETTING_DEMANDED: seq<Field> := [SETTING_KEY, VALUE]

  // What check() can still complain about once defaults() has run.
  lemma AuditLogDemands(sup: Supply, fields: map<Field, Val>)
    ensures Missing(AUDIT_COLUMNS, WithDefaults(AUDIT_COLUMNS, sup, fields)) == FirstAbsent(AUDIT_DEMANDED, fields)
  {
    var at: seq<nat> := [1, 2];
    forall p: nat | p < |AUDIT_COLUMNS|
      ensures AUDIT_COLUMNS[p].required && AUDIT_COLUMNS[p].default.NoDefault? <==> p in at
    {
      assert AUDIT_COLUMNS[p] == AuditColumnAt(p);
    }
    CheckNamesDemanded(AUDIT_COLUMNS, at, AUDIT_DEMANDED, sup, fields);
  }

  lemma PlatformSettingDemands(sup: Supply, fields: map<Field, Val>)
    ensures Missing(SETTING_COLUMNS, WithDefaults(SETTING_COLUMNS, sup, fields))
      == FirstAbsent(SETTING_DEMANDED, fields)
  {
    var at: seq<nat> := [0, 1];
    forall p: nat | p < |SETTING_COLUMNS|
      ensures SETTING_COLUMNS[p].required && SETTING_COLUMNS[p].default.NoDefault? <==> p in at
    {
      assert SETTING_COLUMNS[p] == SettingColumnAt(p);
    }
    CheckNamesDemanded(SETTING_COLUMNS, at, SETTING_DEMANDED, sup, fields);
  }

  lemma AuditDefaulted(cols: seq<Column>)
    requires cols == AUDIT_COLUMNS
    ensures Defaulted(cols) == {METADATA, CREATED_AT} && DistinctNames(cols)
    ensures cols[6] == AuditColumnAt(6) && cols[7] == AuditColumnAt(7)
  {
    assert |cols| == 8 && forall k :: 0 <= k < 8 ==> cols[k] == AuditColumnAt(k);
    DefaultedNames(cols);
    assert cols[6].name == METADATA && cols[7].name == CREATED_AT;
  }

  // What defaults() sets, by value.
  lemma AuditLogDefaults(sup: Supply, fields: map<Field, Val>)
    ensures var filled := WithDefaults(AUDIT_COLUMNS, sup, fields);
      && filled.Keys == fields.Keys + {METADATA, CREATED_AT}
      && (METADATA !in fields ==> filled[METADATA] == JMap(Some(map[])))
      && (CREATED_AT !in fields ==> filled[CREATED_AT] == sup.values(CREATED_AT))
  {
    DefaultsFillOnlyGaps(AUDIT_COLUMNS, sup, fields);
    AuditDefaulted(AUDIT_COLUMNS);
    if METADATA !in fields {
      DefaultsAreTheColumns(AUDIT_COLUMNS, sup, fields, 6);
    }
    if CREATED_AT !in fields {
      DefaultsAreTheColumns(AUDIT_COLUMNS, sup, fields, 7);
    }
  }

  lemma PlatformSettingDefaults(sup: Supply, fields: map<Field, Val>)
    ensures var filled := WithDefaults(SETTING_COLUMNS, sup, fields);
      && filled.Keys == fields.Keys + {VERSION, UPDATED_AT}
      && (VERSION !in fields ==> filled[VERSION] == Int(1))
      && (UPDATED_AT !in fields ==> filled[UPDATED_AT] == sup.values(UPDATED_AT))
  {
    assert forall k :: 0 <= k < |SETTING_COLUMNS| ==> SETTING_COLUMNS[k] == SettingColumnAt(k);
    DefaultsFillOnlyGaps(SETTING_COLUMNS, sup, fields);
    DefaultedNames(SETTING_COLUMNS);
    assert SETTING_COLUMNS[2].name == VERSION && SETTING_COLUMNS[3].name == UPDATED_AT;
    if VERSION !in fields {
      DefaultsAreTheColumns(SETTING_COLUMNS, sup, fields, 2);
    }
    if UPDATED_AT !in fields {
      DefaultsAreTheColumns(SETTING_COLUMNS, sup, fields, 3);
    }
  }
}
