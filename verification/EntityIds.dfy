// The IDs of the three entities after a successful bulk save with relaying hooks.
module EntityIds {
  import opened Wrappers
  import opened Schema
  import opened Runtime
  import opened Saves
  import opened SingleRefinement
  import opened Relaying
  import CodexTurnIntent
  import AssignedIdEntities

  // Every position has a node with an ID the database answered with.
  ghost predicate AllAssigned(c: Config, t: State)
    requires |t.nodes| == |t.specs| == |c.who|
  {
    forall j :: 0 <= j < |c.who| ==>
      && t.nodes[j].Some? && t.nodes[j].value < |t.view.store|
      && t.specs[j].Some? && t.specs[j].value.id == Some(t.view.store[t.nodes[j].value].id)
  }

  // Every ID that a mutation had when it was created from is its node's.
  ghost predicate GivenKept(c: Config, t: State)
    requires |t.nodes| == |c.who|
  {
    forall e :: e in t.view.trace && e.Created? && e.id.Some? ==>
      && e.pos < |c.who| && t.nodes[e.pos].Some? && t.nodes[e.pos].value < |t.view.store|
      && t.view.store[t.nodes[e.pos].value].id == e.id.value
  }

  lemma SavedIds(c: Config, sups: seq<Supply>, v: View, cur: seq<nat>)
    requires ValidStart(c, v, cur) && |sups| == |c.who| > 0 && v.trace == []
    requires AllRelay(c) && HonestIds(c) && !c.single
    ensures var (r, t) := BulkSave(c, None, sups, v, cur);
      r.Saved? ==> GivenKept(c, t) && (!c.entity.idPolicy.BuilderUuid? ==> AllAssigned(c, t))
  {
    IdsAfterSave(c, sups, v, cur);
    var (r, t) := BulkSave(c, None, sups, v, cur);
    if r.Saved? {
      if !c.entity.idPolicy.BuilderUuid? {
        forall j | 0 <= j < |c.who|
          ensures t.nodes[j].Some? && t.nodes[j].value < |t.view.store|
          ensures t.specs[j].Some? && t.specs[j].value.id == Some(t.view.store[t.nodes[j].value].id)
        {
          assert Settled(c, t, j, |v.store|);
        }
      }
      forall e | e in t.view.trace && e.Created? && e.id.Some?
        ensures e.pos < |c.who| && t.nodes[e.pos].Some? && t.nodes[e.pos].value < |t.view.store|
        ensures t.view.store[t.nodes[e.pos].value].id == e.id.value
      {
        var p :| 0 <= p < |t.view.trace| && t.view.trace[p] == e;
        assert IdKept(c, t, t.view.trace[p]);
        assert Settled(c, t, e.pos, |v.store|);
      }
    }
  }

  // CodexTurnIntent: a node has the UUID of the mutation it was created from.
  lemma CodexTurnIntentIds(c: Config, sups: seq<Supply>, v: View, cur: seq<nat>)
    requires c.entity == CodexTurnIntent.ENTITY
    requires ValidStart(c, v, cur) && |sups| == |c.who| > 0 && v.trace == []
    requires AllRelay(c) && HonestIds(c) && !c.single
    ensures var (r, t) := BulkSave(c, None, sups, v, cur); r.Saved? ==> GivenKept(c, t)
  {
    SavedIds(c, sups, v, cur);
  }

  // AuditLog: every node has an ID, the caller's where one was given.
  lemma AuditLogIds(c: Config, sups: seq<Supply>, v: View, cur: seq<nat>)
    requires c.entity == AssignedIdEntities.AUDIT_LOG
    requires ValidStart(c, v, cur) && |sups| == |c.who| > 0 && v.trace == []
    requires AllRelay(c) && HonestIds(c) && !c.single
    ensures var (r, t) := BulkSave(c, None, sups, v, cur); r.Saved? ==> AllAssigned(c, t) && GivenKept(c, t)
  {
    SavedIds(c, sups, v, cur);
  }

  // PlatformSetting: every node has the database's ID, whatever its mutation says.
  lemma PlatformSettingIds(c: Config, sups: seq<Supply>, v: View, cur: seq<nat>)
    requires c.entity == AssignedIdEntities.PLATFORM_SETTING
    requires ValidStart(c, v, cur) && |sups| == |c.who| > 0 && v.trace == []
    requires AllRelay(c) && HonestIds(c) && !c.single
    ensures var (r, t) := BulkSave(c, None, sups, v, cur); r.Saved? ==> AllAssigned(c, t)
  {
    SavedIds(c, sups, v, cur);
  }
}
