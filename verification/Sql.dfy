/**
 The database the repair scripts run against: tables of rows, single-column foreign keys
 with a referential action each, three-valued logic, and the effect of one DELETE statement
 (section "Foreign Keys" of the PostgreSQL manual).  Restricting actions are checked at the
 end of the statement, which is what the purge script relies on.
 */
module Sql {

  /** SQL truth values; a WHERE clause keeps a row only on `Yes`. */
  datatype Tri = Yes | No | Unknown

  function Not(t: Tri): Tri {
    match t
    case Yes => No
    case No => Yes
    case Unknown => Unknown
  }

  function And(a: Tri, b: Tri): Tri {
    if a == No || b == No then No
    else if a == Yes && b == Yes then Yes
    else Unknown
  }

  type Table = string
  type Column = string
  type Value = string

  /** A column that is absent from the map is NULL. */
  type Row = map<Column, Value>

  datatype Ref = Ref(table: Table, id: nat)

  type Database = map<Ref, Row>

  datatype Action = NoAction | Restrict | Cascade | SetNull | SetDefault

  datatype ForeignKey = ForeignKey(
    child: Table, childColumn: Column, parent: Table, parentColumn: Column, onDelete: Action)
  {
    predicate Cascades() { onDelete == Cascade }
  }

  datatype Schema = Schema(
    tables: set<Table>,
    userScoped: set<Table>,
    foreignKeys: seq<ForeignKey>,
    defaults: map<(Table, Column), Value>)

  const USER_ID: Column := "user_id"

  /** Child row `c` names parent row `p` through `fk`. */
  predicate References(db: Database, fk: ForeignKey, c: Ref, p: Ref) {
    && c in db && p in db && c.table == fk.child && p.table == fk.parent
    && fk.childColumn in db[c] && fk.parentColumn in db[p]
    && db[c][fk.childColumn] == db[p][fk.parentColumn]
  }

  predicate CascadesTo(s: Schema, db: Database, p: Ref, c: Ref) {
    exists fk | fk in s.foreignKeys :: fk.Cascades() && References(db, fk, c, p)
  }

  /** What a legal database satisfies: every non-NULL reference has its parent, and a referenced column is unique. */
  predicate ForeignKeysHold(s: Schema, db: Database) {
    forall fk, c | fk in s.foreignKeys && c in db ::
      c.table == fk.child && fk.childColumn in db[c] ==> exists p :: p in db && References(db, fk, c, p)
  }

  ghost predicate ReferencedColumnsUnique(s: Schema, db: Database) {
    forall fk, c, p, q | fk in s.foreignKeys && References(db, fk, c, p) && References(db, fk, c, q) :: p == q
  }

  ghost predicate RowsInTables(s: Schema, db: Database) {
    forall r | r in db :: r.table in s.tables
  }

  // ------------------------------------------------------------ one DELETE statement

  /** `r` is removed when `seeds` are: by name (`n == 0`) or `n` cascades further down. */
  ghost predicate ReachedIn(s: Schema, db: Database, seeds: set<Ref>, r: Ref, n: nat)
    decreases n
  {
    r in db &&
    if n == 0 then r in seeds
    else exists p :: p in db && CascadesTo(s, db, p, r) && ReachedIn(s, db, seeds, p, n - 1)
  }

  /** Everything a DELETE of `seeds` removes, the cascaded rows included. */
  ghost function CascadeSet(s: Schema, db: Database, seeds: set<Ref>): set<Ref> {
    set r | r in db && exists n: nat :: ReachedIn(s, db, seeds, r, n)
  }

  ghost predicate ClosedUnderCascade(s: Schema, db: Database, rows: set<Ref>) {
    forall p, c | p in rows && p in db && c in db && CascadesTo(s, db, p, c) :: c in rows
  }

  lemma CascadeSetStep(s: Schema, db: Database, seeds: set<Ref>, p: Ref, c: Ref)
    requires p in CascadeSet(s, db, seeds) && c in db && CascadesTo(s, db, p, c)
    ensures c in CascadeSet(s, db, seeds)
  {
    var n: nat :| ReachedIn(s, db, seeds, p, n);
    assert ReachedIn(s, db, seeds, c, n + 1);
  }

  lemma {:induction false} ReachedStaysInside(s: Schema, db: Database, seeds: set<Ref>, r: Ref, n: nat, rows: set<Ref>)
    requires seeds <= rows && ClosedUnderCascade(s, db, rows) && ReachedIn(s, db, seeds, r, n)
    ensures r in rows
    decreases n
  {
    if n == 0 {
    } else {
      var p :| p in db && CascadesTo(s, db, p, r) && ReachedIn(s, db, seeds, p, n - 1);
      ReachedStaysInside(s, db, seeds, p, n - 1, rows);
    }
  }

  /** The cascade set is the least set that holds the seeds and is closed under cascading children. */
  lemma CascadeSetIsLeast(s: Schema, db: Database, seeds: set<Ref>)
    requires seeds <= db.Keys
    ensures seeds <= CascadeSet(s, db, seeds) <= db.Keys
    ensures ClosedUnderCascade(s, db, CascadeSet(s, db, seeds))
    ensures forall rows :: seeds <= rows && ClosedUnderCascade(s, db, rows) ==> CascadeSet(s, db, seeds) <= rows
  {
    forall r | r in seeds ensures r in CascadeSet(s, db, seeds) {
      assert ReachedIn(s, db, seeds, r, 0);
    }
    forall p, c | p in CascadeSet(s, db, seeds) && p in db && c in db && CascadesTo(s, db, p, c)
      ensures c in CascadeSet(s, db, seeds)
    {
      CascadeSetStep(s, db, seeds, p, c);
    }
    forall rows, r | seeds <= rows && ClosedUnderCascade(s, db, rows) && r in CascadeSet(s, db, seeds)
      ensures r in rows
    {
      var n: nat :| ReachedIn(s, db, seeds, r, n);
      ReachedStaysInside(s, db, seeds, r, n, rows);
    }
  }

  /** `c` points at a removed row through `col`, by a foreign key with action `action`. */
  predicate PointsAtRemoved(s: Schema, db: Database, gone: set<Ref>, c: Ref, col: Column, action: Action) {
    exists fk, p | fk in s.foreignKeys && p in gone ::
      fk.onDelete == action && fk.childColumn == col && References(db, fk, c, p)
  }

  /** A surviving row after the SET NULL and SET DEFAULT actions. */
  function Rewritten(s: Schema, db: Database, gone: set<Ref>, c: Ref): Row
    requires c in db
  {
    map col | col in db[c] &&
              !PointsAtRemoved(s, db, gone, c, col, SetNull) &&
              (PointsAtRemoved(s, db, gone, c, col, SetDefault) ==> (c.table, col) in s.defaults)
      :: if PointsAtRemoved(s, db, gone, c, col, SetDefault) then s.defaults[(c.table, col)] else db[c][col]
  }

  predicate BlockedByRestrict(s: Schema, db: Database, gone: set<Ref>) {
    exists fk, c, p | fk in s.foreignKeys && c in db.Keys - gone && p in gone ::
      fk.onDelete in {NoAction, Restrict} && References(db, fk, c, p)
  }

  datatype StatementResult = Aborted | Committed(after: Database)

  /** One DELETE statement: cascade, check, rewrite, and never commit a dangling reference. */
  ghost function DeleteRows(s: Schema, db: Database, doomed: set<Ref>): StatementResult {
    var gone := CascadeSet(s, db, doomed);
    if BlockedByRestrict(s, db, gone) then Aborted
    else
      var after := map c | c in db.Keys - gone :: Rewritten(s, db, gone, c);
      if ForeignKeysHold(s, after) then Committed(after) else Aborted
  }

  /** A DELETE whose rows nobody outside them names removes those rows and changes nothing else. */
  lemma DeleteOfUnreferencedRows(s: Schema, db: Database, doomed: set<Ref>)
    requires doomed <= db.Keys && ForeignKeysHold(s, db)
    requires forall fk, c, p | fk in s.foreignKeys && References(db, fk, c, p) && p in doomed :: c in doomed
    ensures DeleteRows(s, db, doomed) == Committed(db - doomed)
  {
    CascadeSetIsLeast(s, db, doomed);
    assert ClosedUnderCascade(s, db, doomed);
    var gone := CascadeSet(s, db, doomed);
    assert gone == doomed;
    forall c | c in db.Keys - gone ensures Rewritten(s, db, gone, c) == db[c] {
      assert forall col, action :: !PointsAtRemoved(s, db, gone, c, col, action);
    }
    var after := map c | c in db.Keys - gone :: Rewritten(s, db, gone, c);
    assert after == db - doomed;
    forall fk, c | fk in s.foreignKeys && c in after && c.table == fk.child && fk.childColumn in after[c]
      ensures exists p :: References(after, fk, c, p)
    {
      var p :| References(db, fk, c, p);
      assert References(after, fk, c, p);
    }
  }
}
