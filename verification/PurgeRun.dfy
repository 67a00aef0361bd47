/**
 Counting, backing up and deleting a tenant, and the decision sequence of
 scripts/purge_residue_tenants.py.  `Connection` holds the rows; every statement the script
 issues is one method on it.
 */
module PurgeRun {
  import opened Sql
  import opened PurgePredicates
  import opened PurgeWalks
  import opened PurgeClosure
  import opened PurgeOwnership
  import opened PurgeOrder

  /** A flag that lowers the staleness bar below this is refused. */
  const DEFAULT_STALE_DAYS: int := 14

  // ------------------------------------------------------------ the rows a run works on

  ghost function ClosureIn(s: Schema, db: Database, tenant: Value, tables: set<Table>): set<Ref> {
    set r | r in Closure(s, db, tenant) && r.table in tables
  }

  /** Rows per table inside the cascade closure; tables with none are left out. */
  ghost function ClosureCounts(s: Schema, db: Database, tenant: Value, tables: set<Table>): map<Table, nat> {
    map t | t in tables && ClosureIn(s, db, tenant, {t}) != {} :: |ClosureIn(s, db, tenant, {t})|
  }

  /** The database once the closure rows of `done` are gone. */
  ghost function Remaining(s: Schema, db: Database, tenant: Value, done: set<Table>): Database {
    db - ClosureIn(s, db, tenant, done)
  }

  ghost predicate Unseen(s: Schema, db: Database, tenant: Value) {
    exists fk, c, p :: UnseenReferrer(s, db, tenant, fk, c, p)
  }

  /** From every closure table some walk leads to a `user_id`, and none is too long to follow. */
  ghost predicate EveryTableHasOwner(s: Schema, attributable: set<Table>) {
    forall t | t in ClosureTables(s) :: LeadsToOwner(s, attributable, t, []) && !NineSteps(s, attributable, t)
  }

  lemma HasOwner(s: Schema, attributable: set<Table>)
    ensures EveryTableHasOwner(s, attributable) <==>
            forall t | t in ClosureTables(s) :: OwnedByTenant(s, attributable, t, []).Present?
  {
    forall t | t in ClosureTables(s)
      ensures OwnedByTenant(s, attributable, t, []).Present? <==>
              LeadsToOwner(s, attributable, t, []) && !NineSteps(s, attributable, t)
    {
      OwnerIffWalk(s, attributable, t);
    }
  }

  ghost predicate LegalDatabase(s: Schema, db: Database) {
    RowsInTables(s, db) && ForeignKeysHold(s, db) && s.userScoped <= s.tables &&
    forall fk | fk in s.foreignKeys :: fk.child in s.tables
  }

  /** The state in which the script goes on to delete. */
  ghost predicate Cleared(s: Schema, attributable: set<Table>, db: Database, tenant: Value) {
    LoadedSchema(s) && LegalDatabase(s, db) && Safe(s, attributable, db, tenant) && EveryTableHasOwner(s, attributable)
  }

  // ------------------------------------------------------------ predicates survive the earlier deletes

  ghost predicate UsesOnly(p: Pred, fks: seq<ForeignKey>) {
    match p
    case OwnerIsTenant => true
    case OwnerIsNotTenant => true
    case ExistsParent(fk, inner) => fk in fks && UsesOnly(inner, fks)
    case AnyOf(terms) => forall t | t in terms :: UsesOnly(t, fks)
    case ButNot(kept, dropped) => UsesOnly(kept, fks) && UsesOnly(dropped, fks)
  }

  ghost predicate ParentsSurvive(s: Schema, db: Database, small: Database) {
    small.Keys <= db.Keys && (forall r | r in small :: small[r] == db[r]) &&
    forall fk, c, p | fk in s.foreignKeys && c in small && References(db, fk, c, p) :: p in small
  }

  /** A predicate that only looks at ancestors reads the same once rows without surviving children are gone. */
  lemma {:induction false} EvalIsStable(s: Schema, db: Database, small: Database, tenant: Value, p: Pred, r: Ref)
    requires ParentsSurvive(s, db, small) && r in small && UsesOnly(p, s.foreignKeys)
    ensures Eval(small, tenant, p, r) == Eval(db, tenant, p, r)
    decreases p
  {
    match p
    case OwnerIsTenant =>
    case OwnerIsNotTenant =>
    case ExistsParent(fk, inner) =>
      forall q | q in db && References(db, fk, r, q)
        ensures q in small && References(small, fk, r, q) && Eval(small, tenant, inner, q) == Eval(db, tenant, inner, q)
      {
        EvalIsStable(s, db, small, tenant, inner, q);
      }
    case AnyOf(terms) =>
      forall t | t in terms ensures Eval(small, tenant, t, r) == Eval(db, tenant, t, r) {
        EvalIsStable(s, db, small, tenant, t, r);
      }
    case ButNot(kept, dropped) =>
      EvalIsStable(s, db, small, tenant, kept, r);
      EvalIsStable(s, db, small, tenant, dropped, r);
  }

  lemma {:induction false} ElsewhereUsesOnly(s: Schema, attributable: set<Table>, table: Table, path: seq<Table>)
    requires AttributedElsewhere(s, attributable, table, path).Present?
    ensures UsesOnly(AttributedElsewhere(s, attributable, table, path).pred, s.foreignKeys)
    decreases Fuel(path)
  {
    if table !in s.userScoped {
      ElsewhereTermsAre(s, attributable, table, path, s.foreignKeys);
      forall t | t in ElsewhereTerms(s, attributable, table, path, s.foreignKeys).terms
        ensures UsesOnly(t, s.foreignKeys)
      {
        ElsewhereUsesOnly(s, attributable, t.fk.parent, path + [table]);
      }
    }
  }

  lemma {:induction false} OwnedUsesOnly(s: Schema, attributable: set<Table>, table: Table, path: seq<Table>)
    requires OwnedByTenant(s, attributable, table, path).Present?
    ensures UsesOnly(OwnedByTenant(s, attributable, table, path).pred, s.foreignKeys)
    decreases Fuel(path)
  {
    if table !in s.userScoped {
      OwnedTermsAre(s, attributable, table, path, s.foreignKeys);
      var terms := OwnedTerms(s, attributable, table, path, s.foreignKeys).terms;
      forall t | t in terms ensures UsesOnly(t, s.foreignKeys) {
        OwnedUsesOnly(s, attributable, t.fk.parent, path + [table]);
      }
      assert UsesOnly(AnyOf(terms), s.foreignKeys);
      if AttributedElsewhere(s, attributable, table, path).Present? {
        ElsewhereUsesOnly(s, attributable, table, path);
      }
    }
  }

  // ------------------------------------------------------------ one statement of delete_tenant

  /** Every closure table with a foreign key into a table of `done` is itself in `done`. */
  ghost predicate ChildrenDone(s: Schema, done: set<Table>) {
    forall fk | fk in s.foreignKeys && fk.parent in done && fk.child in ClosureTables(s) :: fk.child in done
  }

  lemma SurvivorsKeepTheirParents(s: Schema, attributable: set<Table>, db: Database, tenant: Value, done: set<Table>)
    requires Cleared(s, attributable, db, tenant) && !Unseen(s, db, tenant) && ChildrenDone(s, done)
    ensures ParentsSurvive(s, db, Remaining(s, db, tenant, done))
  {
    hide Safe, NineCascades, CascadesToOwner, EveryTableHasOwner;
    var small := Remaining(s, db, tenant, done);
    ClosureTablesAreComplete(s, db, tenant);
    forall fk, c, p | fk in s.foreignKeys && c in small && References(db, fk, c, p) ensures p in small {
      if p !in small {
        ReferrerOfClosureRow(s, attributable, db, tenant, fk, c, p);
        assert false;
      }
    }
  }

  /** The rows the statement for `table` names. */
  function Doomed(s: Schema, attributable: set<Table>, db: Database, tenant: Value, table: Table): set<Ref> {
    set r | r in db && r.table == table && Holds(db, tenant, OwnedByTenant(s, attributable, table, []), r)
  }

  /** The ownership predicate still sees its intact ancestors, so it names the table's whole closure. */
  lemma DoomedIsClosure(s: Schema, attributable: set<Table>, db: Database, tenant: Value, done: set<Table>,
                        table: Table)
    requires Cleared(s, attributable, db, tenant) && !Unseen(s, db, tenant) && ChildrenDone(s, done)
    requires table in ClosureTables(s) && table !in done
    ensures Doomed(s, attributable, Remaining(s, db, tenant, done), tenant, table) == ClosureIn(s, db, tenant, {table})
  {
    var small := Remaining(s, db, tenant, done);
    var owned := OwnedByTenant(s, attributable, table, []);
    SurvivorsKeepTheirParents(s, attributable, db, tenant, done);
    HasOwner(s, attributable);
    OwnedUsesOnly(s, attributable, table, []);
    OwnedIsClosure(s, attributable, db, tenant, table);
    forall r | r in db && r.table == table
      ensures r in Doomed(s, attributable, small, tenant, table) <==> r in Closure(s, db, tenant)
    {
      assert r in small;
      EvalIsStable(s, db, small, tenant, owned.pred, r);
    }
  }

  /** No cascade removes anything more, no RESTRICT fails and no SET NULL rewrites a row. */
  lemma StatementRemovesClosure(s: Schema, attributable: set<Table>, db: Database, tenant: Value, done: set<Table>,
                                table: Table)
    requires Cleared(s, attributable, db, tenant) && !Unseen(s, db, tenant) && ChildrenDone(s, done)
    requires table in ClosureTables(s) && table !in done && ChildrenDone(s, done + {table})
    requires ForeignKeysHold(s, Remaining(s, db, tenant, done))
    ensures DeleteRows(s, Remaining(s, db, tenant, done),
                       Doomed(s, attributable, Remaining(s, db, tenant, done), tenant, table))
      == Committed(Remaining(s, db, tenant, done + {table}))
  {
    hide Safe, NineCascades, CascadesToOwner, EveryTableHasOwner;
    var small := Remaining(s, db, tenant, done);
    var doomed := Doomed(s, attributable, small, tenant, table);
    DoomedIsClosure(s, attributable, db, tenant, done, table);
    ClosureTablesAreComplete(s, db, tenant);
    forall fk, c, p | fk in s.foreignKeys && References(small, fk, c, p) && p in doomed ensures c in doomed {
      assert References(db, fk, c, p);
      ReferrerOfClosureRow(s, attributable, db, tenant, fk, c, p);
      assert c.table in done + {table};
      assert c !in ClosureIn(s, db, tenant, done);
    }
    DeleteOfUnreferencedRows(s, small, doomed);
    assert small - doomed == Remaining(s, db, tenant, done + {table});
  }

  // ------------------------------------------------------------ the other direction

  lemma SurvivingParent(s: Schema, db: Database, gone: set<Ref>, fk: ForeignKey, c: Ref) returns (q: Ref)
    requires ForeignKeysHold(s, db - gone) && fk in s.foreignKeys && c in db && c !in gone
    requires c.table == fk.child && fk.childColumn in db[c]
    ensures References(db, fk, c, q) && q !in gone
  {
    var after := db - gone;
    q :| q in after && References(after, fk, c, q);
  }

  /** A purge that took exactly the closure and left a legal database had no unseen referrer. */
  lemma ExactPurgeHadNoUnseenReferrer(s: Schema, db: Database, tenant: Value)
    requires ReferencedColumnsUnique(s, db) && ForeignKeysHold(s, db - Closure(s, db, tenant))
    ensures !Unseen(s, db, tenant)
  {
    forall fk, c, p | UnseenReferrer(s, db, tenant, fk, c, p) ensures false {
      var q := SurvivingParent(s, db, Closure(s, db, tenant), fk, c);
      assert false;
    }
  }

  // ------------------------------------------------------------ counting and backup

  lemma ClosureInSplits(s: Schema, db: Database, tenant: Value, done: set<Table>, table: Table)
    requires table !in done
    ensures ClosureIn(s, db, tenant, done + {table}) ==
      ClosureIn(s, db, tenant, done) + ClosureIn(s, db, tenant, {table})
    ensures |ClosureIn(s, db, tenant, done + {table})| ==
            |ClosureIn(s, db, tenant, done)| + |ClosureIn(s, db, tenant, {table})|
  {
  }

  lemma InSetIsClosureIn(s: Schema, db: Database, tenant: Value, table: Table)
    requires LoadedSchema(s) && table in ClosureTables(s)
    ensures (set r | r in db && InSet(s, db, tenant, table, r)) == ClosureIn(s, db, tenant, {table})
  {
    forall r | r in db && r.table == table
      ensures InSet(s, db, tenant, table, r) <==> r in Closure(s, db, tenant)
    {
      InDeleteSetIsClosure(s, db, tenant, r);
    }
  }

  function Listed(tables: seq<Table>): set<Table> {
    set t | t in tables
  }

  predicate Distinct(tables: seq<Table>) {
    forall i, j | 0 <= i < j < |tables| :: tables[i] != tables[j]
  }

  lemma ListedGrows(tables: seq<Table>, i: nat)
    requires i < |tables| && Distinct(tables)
    ensures Listed(tables[..i + 1]) == Listed(tables[..i]) + {tables[i]} && tables[i] !in Listed(tables[..i])
  {
  }

  lemma WholeClosureIsListed(s: Schema, db: Database, tenant: Value)
    requires LoadedSchema(s) && RowsInTables(s, db)
    ensures ClosureIn(s, db, tenant, ClosureTables(s)) == Closure(s, db, tenant)
  {
    ClosureTablesAreComplete(s, db, tenant);
  }

  /** One more table: its count, if any, joins the counts. */
  lemma CountsGrow(s: Schema, db: Database, tenant: Value, done: set<Table>, table: Table)
    requires table !in done
    ensures ClosureCounts(s, db, tenant, done + {table}) ==
      if |ClosureIn(s, db, tenant, {table})| > 0
      then ClosureCounts(s, db, tenant, done)[table := |ClosureIn(s, db, tenant, {table})|]
      else ClosureCounts(s, db, tenant, done)
  {
  }

  /** The rows of one closure table, as the composed predicate selects them. */
  method SelectClosure(s: Schema, db: Database, tenant: Value, table: Table) returns (hits: set<Ref>)
    requires LoadedSchema(s) && table in ClosureTables(s)
    ensures hits == ClosureIn(s, db, tenant, {table}) && hits <= db.Keys
  {
    InSetIsClosureIn(s, db, tenant, table);
    hits := set r | r in db && InSet(s, db, tenant, table, r);
  }

  method CountClosure(s: Schema, db: Database, tenant: Value, tables: seq<Table>)
    returns (counts: map<Table, nat>, total: nat)
    requires LoadedSchema(s) && RowsInTables(s, db) && Listed(tables) == ClosureTables(s) && Distinct(tables)
    ensures counts == ClosureCounts(s, db, tenant, ClosureTables(s))
    ensures total == |Closure(s, db, tenant)|
  {
    hide LoadedSchema, ClosureTables, Closure;
    counts, total := map[], 0;
    for i := 0 to |tables|
      invariant counts == ClosureCounts(s, db, tenant, Listed(tables[..i]))
      invariant total == |ClosureIn(s, db, tenant, Listed(tables[..i]))|
    {
      var table := tables[i];
      ListedGrows(tables, i);
      assert table in Listed(tables);
      ClosureInSplits(s, db, tenant, Listed(tables[..i]), table);
      CountsGrow(s, db, tenant, Listed(tables[..i]), table);
      var hits := SelectClosure(s, db, tenant, table);
      if |hits| > 0 {
        counts := counts[table := |hits|];
      }
      total := total + |hits|;
    }
    assert tables[..|tables|] == tables;
    WholeClosureIsListed(s, db, tenant);
  }

  /** The rows a restore puts back. */
  ghost function ClosureRows(s: Schema, db: Database, tenant: Value, tables: set<Table>): Database {
    map r | r in ClosureIn(s, db, tenant, tables) && r in db :: db[r]
  }

  lemma BackupGrows(s: Schema, db: Database, tenant: Value, done: set<Table>, table: Table)
    requires ClosureIn(s, db, tenant, {table}) <= db.Keys
    ensures ClosureRows(s, db, tenant, done + {table}) ==
      ClosureRows(s, db, tenant, done) + map r | r in ClosureIn(s, db, tenant, {table}) :: db[r]
  {
  }

  /** Re-inserting the backup restores the original database. */
  lemma BackupRestores(s: Schema, db: Database, tenant: Value, backup: Database)
    requires backup == ClosureRows(s, db, tenant, ClosureTables(s)) && LoadedSchema(s) && RowsInTables(s, db)
    ensures backup.Keys == Closure(s, db, tenant) && |backup| == |Closure(s, db, tenant)|
    ensures (db - Closure(s, db, tenant)) + backup == db
  {
    WholeClosureIsListed(s, db, tenant);
    assert backup.Keys == Closure(s, db, tenant);
  }

  method DumpBackup(s: Schema, db: Database, tenant: Value, tables: seq<Table>) returns (backup: Database, written: nat)
    requires LoadedSchema(s) && RowsInTables(s, db) && Listed(tables) == ClosureTables(s) && Distinct(tables)
    ensures backup.Keys == Closure(s, db, tenant) && written == |backup|
    ensures (db - Closure(s, db, tenant)) + backup == db
  {
    hide LoadedSchema, ClosureTables, Closure;
    backup, written := map[], 0;
    for i := 0 to |tables|
      invariant backup == ClosureRows(s, db, tenant, Listed(tables[..i]))
      invariant written == |ClosureIn(s, db, tenant, Listed(tables[..i]))|
    {
      var table := tables[i];
      ListedGrows(tables, i);
      assert table in Listed(tables);
      ClosureInSplits(s, db, tenant, Listed(tables[..i]), table);
      var hits := SelectClosure(s, db, tenant, table);
      BackupGrows(s, db, tenant, Listed(tables[..i]), table);
      backup := backup + map r | r in hits :: db[r];
      written := written + |hits|;
    }
    assert tables[..|tables|] == tables;
    BackupRestores(s, db, tenant, backup);
    WholeClosureIsListed(s, db, tenant);
  }

  // ------------------------------------------------------------ the connection

  method CascadeRows(s: Schema, db: Database, doomed: set<Ref>) returns (gone: set<Ref>)
    requires doomed <= db.Keys
    ensures gone == CascadeSet(s, db, doomed)
  {
    CascadeSetIsLeast(s, db, doomed);
    gone := doomed;
    while exists c, p | c in db.Keys - gone && p in gone :: CascadesTo(s, db, p, c)
      invariant doomed <= gone <= CascadeSet(s, db, doomed)
      decreases db.Keys - gone
    {
      var c, p :| c in db.Keys - gone && p in gone && CascadesTo(s, db, p, c);
      CascadeSetStep(s, db, doomed, p, c);
      gone := gone + {c};
    }
    assert ClosedUnderCascade(s, db, gone);
  }

  datatype Request = Request(apply: bool, hasBackupPath: bool, backupExists: bool, staleDays: int)

  datatype Outcome =
    | RunRefused
    | NothingToDelete
    | Blocked(live: nat, blockers: seq<Blocker>)
    | DryRun(order: seq<Table>)
    | Purged(backup: Database, deleted: map<Table, nat>)

  datatype Verdict = Stop(outcome: Outcome) | Go(order: seq<Table>)

  datatype Deletion = NoOwnership | StatementFailed | Deleted(counts: map<Table, nat>)

  class Connection {
    const schema: Schema
    var rows: Database

    constructor (s: Schema, db: Database)
      ensures schema == s && rows == db
    {
      schema, rows := s, db;
    }

    /** One DELETE statement, with the referential actions it sets off. */
    method Execute(doomed: set<Ref>) returns (ok: bool)
      requires doomed <= rows.Keys
      modifies this
      ensures ok <==> DeleteRows(schema, old(rows), doomed).Committed?
      ensures rows == if ok then DeleteRows(schema, old(rows), doomed).after else old(rows)
    {
      var gone := CascadeRows(schema, rows, doomed);
      if BlockedByRestrict(schema, rows, gone) {
        return false;
      }
      var after := map c | c in rows.Keys - gone :: Rewritten(schema, rows, gone, c);
      ok := ForeignKeysHold(schema, after);
      if ok {
        rows := after;
      }
    }

    /**
     delete_tenant: children first, one explicit predicate each.  With both checks passed and no
     unseen referrer, exactly the closure goes, whatever the referential actions are.
     */
    method DeleteTenant(attributable: set<Table>, tenant: Value, ordered: seq<Table>) returns (result: Deletion)
      requires LoadedSchema(schema) && LegalDatabase(schema, rows)
      requires ChildrenFirst(schema, ClosureTables(schema), ordered)
      modifies this
      ensures ForeignKeysHold(schema, rows) && rows.Keys <= old(rows).Keys
      ensures EveryTableHasOwner(schema, attributable) ==> !result.NoOwnership?
      ensures result.Deleted? ==> EveryTableHasOwner(schema, attributable)
      ensures Cleared(schema, attributable, old(rows), tenant) && !Unseen(schema, old(rows), tenant) ==>
        rows == old(rows) - Closure(schema, old(rows), tenant) &&
        result == Deleted(ClosureCounts(schema, old(rows), tenant, ClosureTables(schema)))
      ensures Cleared(schema, attributable, old(rows), tenant) && ReferencedColumnsUnique(schema, old(rows)) ==>
        (result.Deleted? && rows == old(rows) - Closure(schema, old(rows), tenant) <==>
          !Unseen(schema, old(rows), tenant))
    {
      hide Unseen, Remaining, ClosureCounts, ForeignKeysHold, LoadedSchema, DeleteRows, Doomed, Safe,
           EveryTableHasOwner, OwnedByTenant, ReferencedColumnsUnique;
      var counts: map<Table, nat> := map[];
      HasOwner(schema, attributable);
      ghost var safe := Cleared(schema, attributable, rows, tenant) && !Unseen(schema, rows, tenant);
      StartIsExact(rows, tenant, ordered);
      for i := 0 to |ordered|
        invariant ForeignKeysHold(schema, rows) && rows.Keys <= old(rows).Keys
        invariant forall j | 0 <= j < i :: OwnedByTenant(schema, attributable, ordered[j], []).Present?
        invariant safe ==> rows == Remaining(schema, old(rows), tenant, Listed(ordered[..i])) &&
                           counts == ClosureCounts(schema, old(rows), tenant, Listed(ordered[..i]))
      {
        var table := ordered[i];
        assert table in ordered && table in ClosureTables(schema);
        if !OwnedByTenant(schema, attributable, table, []).Present? {
          return NoOwnership;
        }
        if safe {
          StepIsExact(attributable, old(rows), tenant, ordered, i);
        }
        var ok, n := DeleteTable(attributable, tenant, table);
        if !ok {
          return StatementFailed;
        }
        if n > 0 {
          counts := counts[table := n];
        }
      }
      assert ordered[..|ordered|] == ordered && Listed(ordered) == ClosureTables(schema);
      DeletionIsExact(old(rows), tenant, rows);
      return Deleted(counts);
    }

    lemma StartIsExact(db: Database, tenant: Value, ordered: seq<Table>)
      ensures Remaining(schema, db, tenant, Listed(ordered[..0])) == db
      ensures ClosureCounts(schema, db, tenant, Listed(ordered[..0])) == map[]
    {
    }

    lemma DeletionIsExact(db: Database, tenant: Value, after: Database)
      requires LoadedSchema(schema) && LegalDatabase(schema, db) && ForeignKeysHold(schema, after)
      ensures Remaining(schema, db, tenant, ClosureTables(schema)) == db - Closure(schema, db, tenant)
      ensures ReferencedColumnsUnique(schema, db) && after == db - Closure(schema, db, tenant) ==>
        !Unseen(schema, db, tenant)
    {
      WholeClosureIsListed(schema, db, tenant);
      if ReferencedColumnsUnique(schema, db) && after == db - Closure(schema, db, tenant) {
        ExactPurgeHadNoUnseenReferrer(schema, db, tenant);
      }
    }

    method DeleteTable(attributable: set<Table>, tenant: Value, table: Table) returns (ok: bool, count: nat)
      requires ForeignKeysHold(schema, rows)
      modifies this
      ensures ok <==> DeleteRows(schema, old(rows), Doomed(schema, attributable, old(rows), tenant, table)).Committed?
      ensures rows ==
        if ok then DeleteRows(schema, old(rows), Doomed(schema, attributable, old(rows), tenant, table)).after
        else old(rows)
      ensures count == |Doomed(schema, attributable, old(rows), tenant, table)|
      ensures ForeignKeysHold(schema, rows) && rows.Keys <= old(rows).Keys
    {
      var doomed := Doomed(schema, attributable, rows, tenant, table);
      count := |doomed|;
      ok := Execute(doomed);
    }

    lemma StepIsExact(attributable: set<Table>, db: Database, tenant: Value, ordered: seq<Table>, i: nat)
      requires Cleared(schema, attributable, db, tenant) && !Unseen(schema, db, tenant)
      requires ChildrenFirst(schema, ClosureTables(schema), ordered) && i < |ordered|
      requires ForeignKeysHold(schema, Remaining(schema, db, tenant, Listed(ordered[..i])))
      ensures
        var before, after := Listed(ordered[..i]), Listed(ordered[..i + 1]);
        var doomed := Doomed(schema, attributable, Remaining(schema, db, tenant, before), tenant, ordered[i]);
        DeleteRows(schema, Remaining(schema, db, tenant, before), doomed)
          == Committed(Remaining(schema, db, tenant, after)) &&
        ClosureCounts(schema, db, tenant, after) ==
          if |doomed| > 0 then ClosureCounts(schema, db, tenant, before)[ordered[i] := |doomed|]
          else ClosureCounts(schema, db, tenant, before)
    {
      var done, table := Listed(ordered[..i]), ordered[i];
      ListedGrows(ordered, i);
      OrderIsChildrenDone(ordered, i);
      OrderIsChildrenDone(ordered, i + 1);
      StatementRemovesClosure(schema, attributable, db, tenant, done, table);
      DoomedIsClosure(schema, attributable, db, tenant, done, table);
      CountsGrow(schema, db, tenant, done, table);
    }

    lemma OrderIsChildrenDone(ordered: seq<Table>, i: nat)
      requires ChildrenFirst(schema, ClosureTables(schema), ordered) && i <= |ordered|
      ensures ChildrenDone(schema, Listed(ordered[..i]))
    {
    }

    /** Nothing in the request, the tenant or the schema stands in the way of looking. */
    ghost predicate MayLook(residue: set<Value>, tenant: Value, request: Request) {
      tenant in residue && (request.apply ==> request.hasBackupPath) && request.staleDays >= 14 &&
      !(request.hasBackupPath && request.backupExists) && LoadedSchema(schema)
    }

    /** The look found rows to delete, and each of them could be attributed. */
    ghost predicate Examined(residue: set<Value>, attributable: set<Table>, tenant: Value, request: Request)
      reads this
    {
      MayLook(residue, tenant, request) && Closure(schema, rows, tenant) != {} && CanAttribute(schema, attributable)
    }

    /** Nobody lives there and nothing speaks against it: the script prints an order, and writes if told to. */
    ghost predicate Deletable(residue: set<Value>, attributable: set<Table>, tenant: Value, request: Request, live: nat)
      reads this
    {
      Examined(residue, attributable, tenant, request) && live == 0 && Safe(schema, attributable, rows, tenant) &&
      !Cyclic(schema, ClosureTables(schema))
    }

    /** Everything up to the first write: refuse, report, or go on with an order. */
    method Examine(residue: set<Value>, attributable: set<Table>, tenant: Value, request: Request, live: nat)
        returns (verdict: Verdict)
      requires LegalDatabase(schema, rows)
      ensures verdict == Stop(NothingToDelete) <==>
        MayLook(residue, tenant, request) && Closure(schema, rows, tenant) == {}
      ensures (exists bs :: verdict == Stop(Blocked(live, bs))) <==>
        Examined(residue, attributable, tenant, request) && (live > 0 || !Safe(schema, attributable, rows, tenant))
      ensures verdict.Stop? && verdict.outcome.Blocked? ==>
        verdict.outcome.live == live &&
        forall b :: b in verdict.outcome.blockers <==> IsReason(schema, attributable, rows, tenant, b)
      ensures (exists order :: verdict == Stop(DryRun(order))) <==>
        Deletable(residue, attributable, tenant, request, live) && !request.apply
      ensures verdict.Stop? && verdict.outcome.DryRun? ==>
        ChildrenFirst(schema, ClosureTables(schema), verdict.outcome.order)
      ensures verdict.Stop? ==> !verdict.outcome.Purged?
      ensures verdict.Go? <==> Deletable(residue, attributable, tenant, request, live) && request.apply
      ensures verdict.Go? ==> ChildrenFirst(schema, ClosureTables(schema), verdict.order)
    {
      if tenant !in residue || (request.apply && !request.hasBackupPath) || request.staleDays < DEFAULT_STALE_DAYS ||
         (request.hasBackupPath && request.backupExists)
      {
        return Stop(RunRefused);
      }
      NotRefusedIffShallow(schema);
      if !NoSelfCascade(schema) || !NotRefused(schema) {
        return Stop(RunRefused);
      }
      verdict := Report(attributable, tenant, request.apply, live);
    }

    /** From the counts to the delete order. */
    method Report(attributable: set<Table>, tenant: Value, apply: bool, live: nat) returns (verdict: Verdict)
      requires LoadedSchema(schema) && LegalDatabase(schema, rows)
      ensures verdict == Stop(NothingToDelete) <==> Closure(schema, rows, tenant) == {}
      ensures (exists bs :: verdict == Stop(Blocked(live, bs))) <==>
        Closure(schema, rows, tenant) != {} && CanAttribute(schema, attributable) &&
        (live > 0 || !Safe(schema, attributable, rows, tenant))
      ensures verdict.Stop? && verdict.outcome.Blocked? ==>
        verdict.outcome.live == live &&
        forall b :: b in verdict.outcome.blockers <==> IsReason(schema, attributable, rows, tenant, b)
      ensures (exists order :: verdict == Stop(DryRun(order))) || verdict.Go? <==>
        Closure(schema, rows, tenant) != {} && CanAttribute(schema, attributable) && live == 0 &&
        Safe(schema, attributable, rows, tenant) && !Cyclic(schema, ClosureTables(schema))
      ensures verdict.Stop? && verdict.outcome.DryRun? ==>
        !apply && ChildrenFirst(schema, ClosureTables(schema), verdict.outcome.order)
      ensures verdict.Go? ==> apply && ChildrenFirst(schema, ClosureTables(schema), verdict.order)
      ensures verdict.Stop? ==> !verdict.outcome.Purged?
    {
      hide LoadedSchema, ForeignKeysHold, Safe, IsReason, CanAttribute, ClosureTables, ChildrenFirst, Cyclic;
      var tables := SortTables(map t | t in ClosureTables(schema) :: 0);
      assert Listed(tables) == ClosureTables(schema);
      var closure, total := CountClosure(schema, rows, tenant, tables);
      if total == 0 {
        return Stop(NothingToDelete);
      }
      var pass, blockers := RunChecks(attributable, tenant, tables);
      if !pass {
        return Stop(RunRefused);
      }
      if live > 0 || blockers != [] {
        return Stop(Blocked(live, blockers));
      }
      var order, _ := DeleteOrder(schema, ClosureTables(schema));
      if order.Cycle? {
        return Stop(RunRefused);
      }
      return if apply then Go(order.tables) else Stop(DryRun(order.tables));
    }

    /** Both safety checks: they report every reason against deleting, and nothing else. */
    method RunChecks(attributable: set<Table>, tenant: Value, tables: seq<Table>)
      returns (built: bool, blockers: seq<Blocker>)
      requires LoadedSchema(schema) && LegalDatabase(schema, rows)
      requires forall t :: t in tables <==> t in ClosureTables(schema)
      ensures built <==> CanAttribute(schema, attributable)
      ensures built ==> forall b :: b in blockers <==> IsReason(schema, attributable, rows, tenant, b)
      ensures built ==> (blockers == [] <==> Safe(schema, attributable, rows, tenant))
    {
      hide Safe, IsReason, CanAttribute, ClosureTables, LoadedSchema;
      var blast := FindCascadeBlast(schema, attributable, rows, tenant, tables);
      if blast.CheckRefused? {
        return false, [];
      }
      var outside := FindBlockingReferences(schema, attributable, rows, tenant, tables);
      built, blockers := true, blast.found + outside;
      SafeIffNoReason(schema, attributable, rows, tenant);
      assert blockers != [] ==> blockers[0] in blockers;
    }

    /**
     The decision sequence.  `live` counts what check_liveness found; a refusal after the first
     write rolls the transaction back.
     */
    method Run(residue: set<Value>, attributable: set<Table>, tenant: Value, request: Request, live: nat)
        returns (outcome: Outcome)
      requires LegalDatabase(schema, rows) && ReferencedColumnsUnique(schema, rows)
      modifies this
      ensures !outcome.Purged? ==> rows == old(rows)
      // What each answer means.
      ensures outcome.NothingToDelete? <==>
        MayLook(residue, tenant, request) && Closure(schema, old(rows), tenant) == {}
      ensures outcome.Blocked? <==>
        old(Examined(residue, attributable, tenant, request)) &&
        (live > 0 || !Safe(schema, attributable, old(rows), tenant))
      ensures outcome.Blocked? ==>
        outcome.live == live &&
        forall b :: b in outcome.blockers <==> IsReason(schema, attributable, old(rows), tenant, b)
      ensures outcome.DryRun? <==> old(Deletable(residue, attributable, tenant, request, live)) && !request.apply
      ensures outcome.DryRun? ==> ChildrenFirst(schema, ClosureTables(schema), outcome.order)
      ensures outcome.Purged? ==> old(Deletable(residue, attributable, tenant, request, live)) && request.apply
      // What a purge left behind, and what its backup holds.
      ensures outcome.Purged? ==> ForeignKeysHold(schema, rows) && Closure(schema, rows, tenant) == {}
      ensures outcome.Purged? ==> outcome.backup.Keys == Closure(schema, old(rows), tenant)
      ensures outcome.Purged? ==> (old(rows) - Closure(schema, old(rows), tenant)) + outcome.backup == old(rows)
      // It took exactly the closure unless a row without an owner pointed in unseen.
      ensures outcome.Purged? ==>
        (rows == old(rows) - Closure(schema, old(rows), tenant) <==> !Unseen(schema, old(rows), tenant))
      ensures outcome.Purged? && !Unseen(schema, old(rows), tenant) ==>
        outcome.deleted == ClosureCounts(schema, old(rows), tenant, ClosureTables(schema))
      // A cleared tenant is purged: no later step refuses.
      ensures old(Deletable(residue, attributable, tenant, request, live)) && request.apply &&
              EveryTableHasOwner(schema, attributable) && !Unseen(schema, old(rows), tenant)
              ==> outcome.Purged?
    {
      var verdict := Examine(residue, attributable, tenant, request, live);
      if verdict.Stop? {
        return verdict.outcome;
      }
      outcome := Purge(attributable, tenant, verdict.order);
    }

    /** The writing half of a run: back up, delete, demand an empty closure, or roll back. */
    method Purge(attributable: set<Table>, tenant: Value, order: seq<Table>) returns (outcome: Outcome)
      requires LoadedSchema(schema) && LegalDatabase(schema, rows) && ReferencedColumnsUnique(schema, rows)
      requires Safe(schema, attributable, rows, tenant)
      requires ChildrenFirst(schema, ClosureTables(schema), order)
      modifies this
      ensures outcome.Purged? || (outcome == RunRefused && rows == old(rows))
      ensures outcome.Purged? ==> ForeignKeysHold(schema, rows) && Closure(schema, rows, tenant) == {}
      ensures outcome.Purged? ==> outcome.backup.Keys == Closure(schema, old(rows), tenant)
      ensures outcome.Purged? ==> (old(rows) - Closure(schema, old(rows), tenant)) + outcome.backup == old(rows)
      ensures outcome.Purged? ==>
        (rows == old(rows) - Closure(schema, old(rows), tenant) <==> !Unseen(schema, old(rows), tenant))
      ensures outcome.Purged? && !Unseen(schema, old(rows), tenant) ==>
        outcome.deleted == ClosureCounts(schema, old(rows), tenant, ClosureTables(schema))
      ensures EveryTableHasOwner(schema, attributable) && !Unseen(schema, old(rows), tenant) ==> outcome.Purged?
    {
      ClosureIsEmptyAfterwards(schema, rows, tenant);
      assert Listed(order) == ClosureTables(schema);
      var closure, total := CountClosure(schema, rows, tenant, order);
      var backup, written := DumpBackup(schema, rows, tenant, order);
      if written != total {
        return RunRefused;
      }
      var snapshot := rows;
      var deletion := DeleteTenant(attributable, tenant, order);
      if deletion.Deleted? {
        var remaining, left := CountClosure(schema, rows, tenant, order);
        if left == 0 {
          return Purged(backup, deletion.counts);
        }
      }
      rows := snapshot;
      return RunRefused;
    }
  }
}
