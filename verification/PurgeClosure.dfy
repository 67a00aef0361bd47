/**
 in_delete_set against the cascade closure: on every schema the script does not refuse, the
 composed predicate is true of exactly the rows a DELETE of the tenant's rows would remove.
 */
module PurgeClosure {
  import opened Sql
  import opened PurgePredicates
  import opened PurgeWalks

  /** load_schema refuses a self-referential CASCADE. */
  predicate NoSelfCascade(s: Schema) {
    forall fk | fk in s.foreignKeys :: fk.child == fk.parent ==> !fk.Cascades()
  }

  /** The tenant's own rows, named by `user_id`. */
  function DirectRows(s: Schema, db: Database, tenant: Value): set<Ref> {
    set r | r in db && r.table in s.userScoped && OwnedBy(db, r, tenant)
  }

  ghost function Closure(s: Schema, db: Database, tenant: Value): set<Ref> {
    CascadeSet(s, db, DirectRows(s, db, tenant))
  }

  predicate Holds(db: Database, tenant: Value, built: Built, r: Ref)
    requires r in db
  {
    built.Present? && Eval(db, tenant, built.pred, r) == Yes
  }

  lemma OwnRowHolds(s: Schema, db: Database, tenant: Value, r: Ref, path: seq<Table>)
    requires r in DirectRows(s, db, tenant) && !InDeleteSet(s, r.table, path).Refused?
    ensures Holds(db, tenant, InDeleteSet(s, r.table, path), r)
  {
    assert OwnerIsTenant in InDeleteSet(s, r.table, path).pred.terms;
    assert Eval(db, tenant, OwnerIsTenant, r) == Yes;
  }

  lemma ChildRowHolds(s: Schema, db: Database, tenant: Value, fk: ForeignKey, r: Ref, p: Ref, path: seq<Table>)
    requires fk in s.foreignKeys && fk.Cascades() && fk.parent != fk.child && References(db, fk, r, p)
    requires !InDeleteSet(s, r.table, path).Refused?
    requires Holds(db, tenant, InDeleteSet(s, p.table, path + [r.table]), p)
    ensures Holds(db, tenant, InDeleteSet(s, r.table, path), r)
  {
    CascadeTermsAre(s, r.table, path, s.foreignKeys);
    var term := ExistsParent(fk, InDeleteSet(s, p.table, path + [r.table]).pred);
    assert term in CascadeTerms(s, r.table, path, s.foreignKeys).terms;
    assert term in InDeleteSet(s, r.table, path).pred.terms;
    assert Eval(db, tenant, term, r) == Yes;
  }

  lemma ParentIsNotRefused(s: Schema, fk: ForeignKey, path: seq<Table>)
    requires fk in s.foreignKeys && fk.Cascades() && fk.parent != fk.child && !InDeleteSet(s, fk.child, path).Refused?
    ensures !InDeleteSet(s, fk.parent, path + [fk.child]).Refused?
  {
    CascadeTermsAre(s, fk.child, path, s.foreignKeys);
  }

  /** Closure rows sit only in tables whose predicate exists, and the predicate is true of them. */
  lemma {:induction false} ClosureRowIsInDeleteSet(
    s: Schema, db: Database, tenant: Value, r: Ref, n: nat, path: seq<Table>)
    requires NoSelfCascade(s) && ReachedIn(s, db, DirectRows(s, db, tenant), r, n)
    requires !InDeleteSet(s, r.table, path).Refused?
    ensures Holds(db, tenant, InDeleteSet(s, r.table, path), r)
    decreases n
  {
    hide InDeleteSet, Holds, DirectRows;
    if n == 0 {
      OwnRowHolds(s, db, tenant, r, path);
    } else {
      var p :| p in db && CascadesTo(s, db, p, r) && ReachedIn(s, db, DirectRows(s, db, tenant), p, n - 1);
      var fk :| fk in s.foreignKeys && fk.Cascades() && References(db, fk, r, p);
      ParentIsNotRefused(s, fk, path);
      ClosureRowIsInDeleteSet(s, db, tenant, p, n - 1, path + [r.table]);
      ChildRowHolds(s, db, tenant, fk, r, p, path);
    }
  }

  /** Where the predicate is true, the row is in the closure. */
  lemma {:induction false} InDeleteSetIsClosureRow(
    s: Schema, db: Database, tenant: Value, r: Ref, path: seq<Table>)
    requires r in db && Holds(db, tenant, InDeleteSet(s, r.table, path), r)
    ensures r in Closure(s, db, tenant)
    decreases Fuel(path)
  {
    var table := r.table;
    CascadeTermsAre(s, table, path, s.foreignKeys);
    var terms := InDeleteSet(s, table, path).pred.terms;
    var t :| t in terms && Eval(db, tenant, t, r) == Yes;
    if t == OwnerIsTenant && table in s.userScoped {
      assert ReachedIn(s, db, DirectRows(s, db, tenant), r, 0);
    } else {
      var q :| q in db && References(db, t.fk, r, q) && Eval(db, tenant, t.inner, q) == Yes;
      InDeleteSetIsClosureRow(s, db, tenant, q, path + [table]);
      assert CascadesTo(s, db, q, r);
      CascadeSetStep(s, db, DirectRows(s, db, tenant), q, r);
    }
  }

  /** in_delete_set is exactly the cascade closure, on every table with no nine cascades in a row. */
  lemma InDeleteSetIsClosure(s: Schema, db: Database, tenant: Value, r: Ref)
    requires NoSelfCascade(s) && r in db && !NineCascades(s, r.table)
    ensures Holds(db, tenant, InDeleteSet(s, r.table, []), r) <==> r in Closure(s, db, tenant)
  {
    RefusedIffNineCascades(s, r.table);
    if r in Closure(s, db, tenant) {
      var n: nat :| ReachedIn(s, db, DirectRows(s, db, tenant), r, n);
      ClosureRowIsInDeleteSet(s, db, tenant, r, n, []);
    } else if Holds(db, tenant, InDeleteSet(s, r.table, []), r) {
      InDeleteSetIsClosureRow(s, db, tenant, r, []);
    }
  }

  predicate NotRefused(s: Schema) {
    forall t | t in s.tables :: !InDeleteSet(s, t, []).Refused?
  }

  /** No table starts nine cascades in a row. */
  ghost predicate Shallow(s: Schema) {
    forall t | t in s.tables :: !NineCascades(s, t)
  }

  lemma NotRefusedIffShallow(s: Schema)
    ensures NotRefused(s) <==> Shallow(s)
  {
    forall t | t in s.tables ensures InDeleteSet(s, t, []).Refused? <==> NineCascades(s, t) {
      RefusedIffNineCascades(s, t);
    }
  }

  /** Every table holding at least one row a delete of this tenant could touch. */
  function ClosureTables(s: Schema): set<Table> {
    set t | t in s.tables && InDeleteSet(s, t, []).Present?
  }

  /** The closure's tables are those from which cascades lead to a `user_id`, and no closure row is elsewhere. */
  lemma ClosureTablesAreComplete(s: Schema, db: Database, tenant: Value)
    requires NoSelfCascade(s) && Shallow(s) && RowsInTables(s, db) && s.userScoped <= s.tables
    ensures forall t :: t in ClosureTables(s) <==> t in s.tables && CascadesToOwner(s, t)
    ensures forall r | r in Closure(s, db, tenant) :: r.table in ClosureTables(s)
    ensures s.userScoped <= ClosureTables(s)
  {
    forall t | t in s.tables ensures t in ClosureTables(s) <==> CascadesToOwner(s, t) {
      PresentIffCascadesToOwner(s, t);
    }
    forall r | r in Closure(s, db, tenant) ensures r.table in ClosureTables(s) {
      InDeleteSetIsClosure(s, db, tenant, r);
    }
    forall t | t in s.userScoped ensures CascadesToOwner(s, t) {
      assert CascadeWalk(s, t, []);
    }
  }

  /** The predicate is NULL exactly on rows with no owner that no cascade reaches. */
  lemma UnknownMeansNoOwner(s: Schema, db: Database, tenant: Value, r: Ref)
    requires NoSelfCascade(s) && r in db && InDeleteSet(s, r.table, []).Present?
    ensures Eval(db, tenant, InDeleteSet(s, r.table, []).pred, r) == Unknown <==>
            r !in Closure(s, db, tenant) && r.table in s.userScoped && USER_ID !in db[r]
  {
    hide NineCascades, Closure;
    CascadeTermsAre(s, r.table, [], s.foreignKeys);
    RefusedIffNineCascades(s, r.table);
    InDeleteSetIsClosure(s, db, tenant, r);
    var terms := InDeleteSet(s, r.table, []).pred.terms;
    if r.table in s.userScoped {
      assert OwnerIsTenant in terms;
    }
    assert forall t | t in terms :: t == OwnerIsTenant || Eval(db, tenant, t, r) != Unknown;
  }

  // ------------------------------------------------------------ smaller databases

  /** Removing rows never brings a row into the closure. */
  lemma {:induction false} ReachedInLarger(s: Schema, small: Database, db: Database, tenant: Value, r: Ref, n: nat)
    requires small.Keys <= db.Keys && forall q | q in small :: small[q] == db[q]
    requires ReachedIn(s, small, DirectRows(s, small, tenant), r, n)
    ensures ReachedIn(s, db, DirectRows(s, db, tenant), r, n)
    decreases n
  {
    hide CascadesTo;
    if n == 0 {
    } else {
      var p :| p in small && CascadesTo(s, small, p, r) && ReachedIn(s, small, DirectRows(s, small, tenant), p, n - 1);
      ReachedInLarger(s, small, db, tenant, p, n - 1);
      CascadeInLarger(s, small, db, p, r);
    }
  }

  lemma CascadeInLarger(s: Schema, small: Database, db: Database, p: Ref, r: Ref)
    requires small.Keys <= db.Keys && forall q | q in small :: small[q] == db[q]
    requires CascadesTo(s, small, p, r)
    ensures CascadesTo(s, db, p, r)
  {
    var fk :| fk in s.foreignKeys && fk.Cascades() && References(small, fk, r, p);
    assert References(db, fk, r, p);
  }

  /** After its closure is gone a tenant has no closure left: the after-count is zero. */
  lemma ClosureIsEmptyAfterwards(s: Schema, db: Database, tenant: Value)
    ensures Closure(s, db - Closure(s, db, tenant), tenant) == {}
  {
    var small := db - Closure(s, db, tenant);
    forall r | r in Closure(s, small, tenant) ensures false {
      var n: nat :| ReachedIn(s, small, DirectRows(s, small, tenant), r, n);
      ReachedInLarger(s, small, db, tenant, r, n);
    }
  }
}
