/**
 Why the purge theorem carries the condition "no row without an owner points into the closure":
 a legal database on which both checks pass although such a row exists.  `NOT in_delete_set` is
 NULL on that row, so the outside-reference check never counts it, and SET NULL rewrites it.
 */
module PurgeNullOwner {
  import opened Wrappers
  import opened Sql
  import opened PurgeClosure
  import opened PurgeWalks
  import opened PurgeTrails
  import opened PurgeOwnership
  import opened PurgeRun

  const SCHEDULE_LINK: ForeignKey := ForeignKey("workflows", "schedule_id", "schedules", "id", SetNull)
  const SCOPED: set<Table> := {"schedules", "workflows"}
  const SCHEMA: Schema := Schema(SCOPED, SCOPED, [SCHEDULE_LINK], map[])
  const SCHEDULE: Ref := Ref("schedules", 0)
  const ORPHAN: Ref := Ref("workflows", 0)
  const ROWS: Database := map[
    SCHEDULE := map["id" := "s", USER_ID := "default"],
    ORPHAN := map["schedule_id" := "s"]]

  lemma TheClosure()
    ensures Closure(SCHEMA, ROWS, "default") == {SCHEDULE}
  {
    CascadeSetIsLeast(SCHEMA, ROWS, {SCHEDULE});
    assert DirectRows(SCHEMA, ROWS, "default") == {SCHEDULE};
    assert ClosedUnderCascade(SCHEMA, ROWS, {SCHEDULE});
  }

  /** The only closure row is the tenant's own. */
  lemma NothingIsForeign()
    ensures TracedToTenant(SCHEMA, SCOPED, ROWS, "default", SCHEDULE)
    ensures !TracedElsewhere(SCHEMA, SCOPED, ROWS, "default", SCHEDULE)
  {
    OwnTrail(SCHEMA, SCOPED, ROWS, "default", SCHEDULE, [], true);
    OwnTrail(SCHEMA, SCOPED, ROWS, "default", SCHEDULE, [], false);
    forall via ensures !TracedVia(SCHEMA, SCOPED, ROWS, "default", SCHEDULE, [], false, via) {
      if via.Some? {
        assert !TracedVia(SCHEMA, SCOPED, ROWS, "default", SCHEDULE, [], false, Some(via.value));
      }
    }
  }

  lemma OrphanPointsIn()
    ensures Unseen(SCHEMA, ROWS, "default")
  {
    TheClosure();
    assert SCHEDULE_LINK in SCHEMA.foreignKeys && References(ROWS, SCHEDULE_LINK, ORPHAN, SCHEDULE);
    assert UnseenReferrer(SCHEMA, ROWS, "default", SCHEDULE_LINK, ORPHAN, SCHEDULE);
  }

  lemma TheChecksPass()
    ensures Safe(SCHEMA, SCOPED, ROWS, "default")
  {
    hide TracedToTenant, TracedElsewhere, LeadsToOwner;
    TheClosure();
    NothingIsForeign();
  }

  lemma SchemaIsSound()
    ensures LoadedSchema(SCHEMA) && LegalDatabase(SCHEMA, ROWS)
  {
    forall t, w | CascadeWalk(SCHEMA, t, w) ensures |w| == 0 {
      if |w| > 0 {
        TailCascade(SCHEMA, t, w);
        assert false;
      }
    }
    assert References(ROWS, SCHEDULE_LINK, ORPHAN, SCHEDULE);
  }

  lemma EveryTableIsOwned()
    ensures EveryTableHasOwner(SCHEMA, SCOPED)
  {
    forall t | t in ClosureTables(SCHEMA)
      ensures LeadsToOwner(SCHEMA, SCOPED, t, []) && !NineSteps(SCHEMA, SCOPED, t)
    {
      assert TenancyWalk(SCHEMA, SCOPED, t, []) && Avoids([], []);
      if w :| TenancyWalk(SCHEMA, SCOPED, t, w) && |w| == 9 {
        assert Avoids(w, []);
        TailTenancy(SCHEMA, SCOPED, t, [], w);
        assert false;
      }
    }
  }

  /** Both checks pass, every table has an ownership predicate, and yet a row points in unseen. */
  lemma ChecksMissNullOwner()
    ensures Cleared(SCHEMA, SCOPED, ROWS, "default") && Unseen(SCHEMA, ROWS, "default")
  {
    hide Safe, EveryTableHasOwner, Unseen;
    SchemaIsSound();
    TheChecksPass();
    EveryTableIsOwned();
    OrphanPointsIn();
  }

  /** The purge commits, but the foreign row comes out edited. */
  lemma PurgeRewritesTheRow()
    ensures DeleteRows(SCHEMA, ROWS, {SCHEDULE}) == Committed(map[ORPHAN := map[]])
  {
    TheClosure();
    assert DirectRows(SCHEMA, ROWS, "default") == {SCHEDULE};
    var gone := CascadeSet(SCHEMA, ROWS, {SCHEDULE});
    assert gone == {SCHEDULE};
    assert forall fk | fk in SCHEMA.foreignKeys :: fk == SCHEDULE_LINK;
    assert References(ROWS, SCHEDULE_LINK, ORPHAN, SCHEDULE) && SCHEDULE_LINK in SCHEMA.foreignKeys;
    assert PointsAtRemoved(SCHEMA, ROWS, gone, ORPHAN, "schedule_id", SetNull);
    assert Rewritten(SCHEMA, ROWS, gone, ORPHAN) == map[];
    var after := map c | c in ROWS.Keys - gone :: Rewritten(SCHEMA, ROWS, gone, c);
    assert after == map[ORPHAN := map[]];
  }
}
