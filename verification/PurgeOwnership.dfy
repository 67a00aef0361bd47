/**
 The two safety checks of scripts/purge_residue_tenants.py.  Each blocker they report is a statement
 about rows, and without blockers "inside the cascade closure" and "owned by the tenant" are the same
 rows, although the first walks CASCADE edges only and the second walks every edge.
 */
module PurgeOwnership {
  import opened Wrappers
  import opened Sql
  import opened PurgePredicates
  import opened PurgeWalks
  import opened PurgeClosure
  import opened PurgeTrails

  datatype Blocker =
    | CascadeBlast(table: Table, via: Option<ForeignKey>, rows: nat)  // `None`: via the table's own user_id
    | Unattributable(table: Table, rows: nat)
    | OutsideReference(fk: ForeignKey, rows: nat)

  /** A check either refuses the schema (an exception in the script) or returns its blockers. */
  datatype Checked = CheckRefused | Blockers(found: seq<Blocker>)

  /** What load_schema demands of the catalog: no table cascades into itself, and no chain of cascades is nine long. */
  ghost predicate LoadedSchema(s: Schema) {
    (forall fk | fk in s.foreignKeys && fk.onDelete == Cascade :: fk.child != fk.parent) &&
    Shallow(s) && s.userScoped <= s.tables
  }

  // ------------------------------------------------------------ the rows a blocker is about

  /** Closure rows of `table` that a trail along `via` leads away from the tenant. */
  ghost function BlastRows(s: Schema, attributable: set<Table>, db: Database, tenant: Value, table: Table,
                           via: Option<ForeignKey>): set<Ref>
  {
    set r | r in Closure(s, db, tenant) && r.table == table && TracedVia(s, attributable, db, tenant, r, [], false, via)
  }

  /** Closure rows of `table` with no trail at all, although the table has a way to an owner. */
  ghost function NobodysRows(s: Schema, attributable: set<Table>, db: Database, tenant: Value, table: Table): set<Ref> {
    set r | r in Closure(s, db, tenant) && r.table == table && LeadsToOwner(s, attributable, table, []) &&
            !TracedToTenant(s, attributable, db, tenant, r) && !TracedElsewhere(s, attributable, db, tenant, r)
  }

  predicate IsOwnerless(s: Schema, db: Database, r: Ref) {
    r in db && r.table in s.userScoped && USER_ID !in db[r]
  }

  /** `c` names a closure row from outside the closure; rows with a NULL owner escape the check's NOT. */
  ghost predicate NamesFromOutside(s: Schema, db: Database, tenant: Value, fk: ForeignKey, c: Ref, p: Ref) {
    References(db, fk, c, p) && p in Closure(s, db, tenant) && c !in Closure(s, db, tenant) && !IsOwnerless(s, db, c)
  }

  ghost function OutsidePairs(s: Schema, db: Database, tenant: Value, fk: ForeignKey): set<(Ref, Ref)> {
    set c, p | c in db && p in db && NamesFromOutside(s, db, tenant, fk, c, p) :: (c, p)
  }

  /** The blocker states a fact: that many rows, more than none, and a foreign key the script watches. */
  ghost predicate IsReason(s: Schema, attributable: set<Table>, db: Database, tenant: Value, b: Blocker) {
    b.rows > 0 &&
    match b
    case CascadeBlast(table, via, rows) => rows == |BlastRows(s, attributable, db, tenant, table, via)|
    case Unattributable(table, rows) => rows == |NobodysRows(s, attributable, db, tenant, table)|
    case OutsideReference(fk, rows) =>
      fk in s.foreignKeys && fk.onDelete != Cascade && rows == |OutsidePairs(s, db, tenant, fk)|
  }

  /** No closure row is anybody else's, each is the tenant's where it can be told, and nobody outside names one. */
  ghost predicate Safe(s: Schema, attributable: set<Table>, db: Database, tenant: Value) {
    (forall r | r in Closure(s, db, tenant) ::
      !TracedElsewhere(s, attributable, db, tenant, r) &&
      (LeadsToOwner(s, attributable, r.table, []) ==> TracedToTenant(s, attributable, db, tenant, r))) &&
    (forall fk, c, p | fk in s.foreignKeys && fk.onDelete != Cascade :: !NamesFromOutside(s, db, tenant, fk, c, p))
  }

  lemma ReasonAgainstRow(s: Schema, attributable: set<Table>, db: Database, tenant: Value, r: Ref)
    requires r in Closure(s, db, tenant)
    requires TracedElsewhere(s, attributable, db, tenant, r) ||
             (LeadsToOwner(s, attributable, r.table, []) && !TracedToTenant(s, attributable, db, tenant, r))
    ensures exists b :: IsReason(s, attributable, db, tenant, b)
  {
    if TracedElsewhere(s, attributable, db, tenant, r) {
      var via :| TracedVia(s, attributable, db, tenant, r, [], false, via);
      var rows := BlastRows(s, attributable, db, tenant, r.table, via);
      assert r in rows;
      assert IsReason(s, attributable, db, tenant, CascadeBlast(r.table, via, |rows|));
    } else {
      var rows := NobodysRows(s, attributable, db, tenant, r.table);
      assert r in rows;
      assert IsReason(s, attributable, db, tenant, Unattributable(r.table, |rows|));
    }
  }

  lemma ReasonSaysUnsafe(s: Schema, attributable: set<Table>, db: Database, tenant: Value, b: Blocker)
    requires IsReason(s, attributable, db, tenant, b)
    ensures !Safe(s, attributable, db, tenant)
  {
    match b
    case CascadeBlast(table, via, _) =>
      var r :| r in BlastRows(s, attributable, db, tenant, table, via);
      assert TracedElsewhere(s, attributable, db, tenant, r);
    case Unattributable(table, _) =>
      var r :| r in NobodysRows(s, attributable, db, tenant, table);
    case OutsideReference(fk, _) =>
      var pair :| pair in OutsidePairs(s, db, tenant, fk);
      assert NamesFromOutside(s, db, tenant, fk, pair.0, pair.1);
  }

  /** The state is safe exactly when there is nothing to report. */
  lemma SafeIffNoReason(s: Schema, attributable: set<Table>, db: Database, tenant: Value)
    ensures Safe(s, attributable, db, tenant) <==> forall b :: !IsReason(s, attributable, db, tenant, b)
  {
    forall b | IsReason(s, attributable, db, tenant, b) ensures !Safe(s, attributable, db, tenant) {
      ReasonSaysUnsafe(s, attributable, db, tenant, b);
    }
    if forall b :: !IsReason(s, attributable, db, tenant, b) {
      forall r | r in Closure(s, db, tenant)
        ensures !TracedElsewhere(s, attributable, db, tenant, r)
        ensures LeadsToOwner(s, attributable, r.table, []) ==> TracedToTenant(s, attributable, db, tenant, r)
      {
        if TracedElsewhere(s, attributable, db, tenant, r) ||
           (LeadsToOwner(s, attributable, r.table, []) && !TracedToTenant(s, attributable, db, tenant, r))
        {
          ReasonAgainstRow(s, attributable, db, tenant, r);
        }
      }
      forall fk, c, p | fk in s.foreignKeys && fk.onDelete != Cascade
        ensures !NamesFromOutside(s, db, tenant, fk, c, p)
      {
        if NamesFromOutside(s, db, tenant, fk, c, p) {
          var pairs := OutsidePairs(s, db, tenant, fk);
          assert (c, p) in pairs;
          assert IsReason(s, attributable, db, tenant, OutsideReference(fk, |pairs|));
        }
      }
    }
  }

  // ------------------------------------------------------------ find_cascade_blast

  predicate InSet(s: Schema, db: Database, tenant: Value, table: Table, r: Ref) {
    r in db && r.table == table && Holds(db, tenant, InDeleteSet(s, table, []), r)
  }

  /** Where a source of attribution_sources leads, the label the script prints with its count. */
  function Label(source: Pred): Option<ForeignKey> {
    if source.ExistsParent? then Some(source.fk) else None
  }

  /** The rows one source counts are those with a trail along its label. */
  lemma SourceCounts(s: Schema, attributable: set<Table>, db: Database, tenant: Value, table: Table, source: Pred)
    requires LoadedSchema(s) && table in ClosureTables(s)
    requires AttributionSources(s, attributable, table, []).Terms?
    requires source in AttributionSources(s, attributable, table, []).terms
    ensures (set r | r in db && InSet(s, db, tenant, table, r) && Eval(db, tenant, source, r) == Yes)
      == BlastRows(s, attributable, db, tenant, table, Label(source))
  {
    forall r | r in db && r.table == table
      ensures InSet(s, db, tenant, table, r) <==> r in Closure(s, db, tenant)
      ensures Eval(db, tenant, source, r) == Yes <==>
              TracedVia(s, attributable, db, tenant, r, [], false, Label(source))
    {
      InDeleteSetIsClosure(s, db, tenant, r);
      if table in s.userScoped {
        OwnTrail(s, attributable, db, tenant, r, [], false);
      } else {
        SourceMeans(s, attributable, db, tenant, r, [], source);
      }
    }
  }

  /** No trail leads away along anything but a listed source. */
  lemma BlastHasSource(s: Schema, attributable: set<Table>, db: Database, tenant: Value, table: Table,
                       via: Option<ForeignKey>)
    requires AttributionSources(s, attributable, table, []).Terms?
    requires BlastRows(s, attributable, db, tenant, table, via) != {}
    ensures exists source :: source in AttributionSources(s, attributable, table, []).terms && Label(source) == via
  {
    var r :| r in BlastRows(s, attributable, db, tenant, table, via);
    if table in s.userScoped {
      OwnTrail(s, attributable, db, tenant, r, [], false);
      assert OwnerIsNotTenant in AttributionSources(s, attributable, table, []).terms;
    } else {
      var q := TailTrail(s, attributable, db, tenant, r, [], false, via);
      ElsewhereTermsAre(s, attributable, table, [], s.foreignKeys);
      ElsewhereMeans(s, attributable, db, tenant, q, [] + [table]);
      var source := ExistsParent(via.value, AttributedElsewhere(s, attributable, q.table, [] + [table]).pred);
      assert source in AttributionSources(s, attributable, table, []).terms;
    }
  }

  ghost predicate HasLabel(sources: seq<Pred>, via: Option<ForeignKey>) {
    exists source :: source in sources && Label(source) == via
  }

  lemma OneMoreLabel(sources: seq<Pred>, i: nat, via: Option<ForeignKey>)
    requires i < |sources|
    ensures HasLabel(sources[..i + 1], via) <==> HasLabel(sources[..i], via) || via == Label(sources[i])
  {
    assert sources[..i + 1] == sources[..i] + [sources[i]];
    assert sources[i] in sources[..i + 1];
  }

  method CountSources(s: Schema, attributable: set<Table>, db: Database, tenant: Value, table: Table,
                      sources: seq<Pred>)
      returns (found: seq<Blocker>)
    requires LoadedSchema(s) && table in ClosureTables(s)
    requires AttributionSources(s, attributable, table, []) == Terms(sources)
    ensures forall b :: b in found <==>
      b.CascadeBlast? && b.table == table && IsReason(s, attributable, db, tenant, b)
  {
    hide Eval, InSet, BlastRows, LoadedSchema, ClosureTables, AttributionSources, Label, HasLabel;
    found := [];
    NoLabels();
    for i := 0 to |sources|
      invariant forall b :: b in found <==>
        b.CascadeBlast? && b.table == table && HasLabel(sources[..i], b.via) &&
        IsReason(s, attributable, db, tenant, b)
    {
      var hit := set r | r in db && InSet(s, db, tenant, table, r) && Eval(db, tenant, sources[i], r) == Yes;
      SourceCounts(s, attributable, db, tenant, table, sources[i]);
      assert hit == BlastRows(s, attributable, db, tenant, table, Label(sources[i]));
      forall via ensures HasLabel(sources[..i + 1], via) <==> HasLabel(sources[..i], via) || via == Label(sources[i]) {
        OneMoreLabel(sources, i, via);
      }
      if |hit| > 0 {
        found := found + [CascadeBlast(table, Label(sources[i]), |hit|)];
      }
    }
    assert sources[..|sources|] == sources;
    AllLabelled(s, attributable, db, tenant, table, sources);
  }

  lemma NoLabels()
    ensures forall via :: !HasLabel([], via)
  {
  }

  lemma AllLabelled(s: Schema, attributable: set<Table>, db: Database, tenant: Value, table: Table, sources: seq<Pred>)
    requires AttributionSources(s, attributable, table, []) == Terms(sources)
    ensures forall b: Blocker | b.CascadeBlast? && b.table == table && IsReason(s, attributable, db, tenant, b) ::
      HasLabel(sources, b.via)
  {
    forall b: Blocker | b.CascadeBlast? && b.table == table && IsReason(s, attributable, db, tenant, b)
      ensures HasLabel(sources, b.via)
    {
      BlastHasSource(s, attributable, db, tenant, table, b.via);
    }
  }

  predicate BelongsToNobody(s: Schema, db: Database, tenant: Value, table: Table, owned: Built, elsewhere: Built,
                            r: Ref) {
    InSet(s, db, tenant, table, r) && owned.Present? && elsewhere.Present? &&
    Not(Eval(db, tenant, owned.pred, r)) == Yes && Not(Eval(db, tenant, elsewhere.pred, r)) == Yes
  }

  /** NOT owned AND NOT elsewhere, in three-valued logic, is "no trail at all". */
  lemma NobodyMeans(s: Schema, attributable: set<Table>, db: Database, tenant: Value, table: Table)
    requires LoadedSchema(s) && table in ClosureTables(s) && !NineSteps(s, attributable, table)
    ensures (set r | r in db && BelongsToNobody(s, db, tenant, table, OwnedByTenant(s, attributable, table, []),
                                                AttributedElsewhere(s, attributable, table, []), r))
      == NobodysRows(s, attributable, db, tenant, table)
  {
    OwnerIffWalk(s, attributable, table);
    AttributionRefusedIffNineSteps(s, attributable, table);
    forall r | r in db && r.table == table
      ensures BelongsToNobody(s, db, tenant, table, OwnedByTenant(s, attributable, table, []),
                              AttributedElsewhere(s, attributable, table, []), r) <==>
              r in NobodysRows(s, attributable, db, tenant, table)
    {
      InDeleteSetIsClosure(s, db, tenant, r);
      ElsewhereMeans(s, attributable, db, tenant, r, []);
      OwnedMeans(s, attributable, db, tenant, r, []);
      if LeadsToOwner(s, attributable, table, []) && !TracedElsewhere(s, attributable, db, tenant, r) {
        OwnedIsKnownUnlessForeign(s, attributable, db, tenant, r);
      }
    }
  }

  /** Ownership is NULL only where attribution elsewhere is true. */
  lemma OwnedIsKnownUnlessForeign(s: Schema, attributable: set<Table>, db: Database, tenant: Value, r: Ref)
    requires r in db && OwnedByTenant(s, attributable, r.table, []).Present?
    requires !AttributedElsewhere(s, attributable, r.table, []).Refused?
    requires !TracedElsewhere(s, attributable, db, tenant, r)
    ensures Eval(db, tenant, OwnedByTenant(s, attributable, r.table, []).pred, r) != Unknown
  {
    if r.table in s.userScoped {
      OwnTrail(s, attributable, db, tenant, r, [], false);
    } else {
      OwnedTermsAre(s, attributable, r.table, [], s.foreignKeys);
      var mine := AnyOf(OwnedTerms(s, attributable, r.table, [], s.foreignKeys).terms);
      assert Eval(db, tenant, mine, r) != Unknown;
      ElsewhereMeans(s, attributable, db, tenant, r, []);
    }
  }

  /** Every closure table's attribution predicates can be built. */
  ghost predicate CanAttribute(s: Schema, attributable: set<Table>) {
    forall t | t in ClosureTables(s) :: !NineSteps(s, attributable, t)
  }

  method FindCascadeBlast(s: Schema, attributable: set<Table>, db: Database, tenant: Value, tables: seq<Table>)
      returns (result: Checked)
    requires LoadedSchema(s) && RowsInTables(s, db) && forall t :: t in tables <==> t in ClosureTables(s)
    ensures result.CheckRefused? <==> !CanAttribute(s, attributable)
    ensures result.Blockers? ==>
      forall b :: b in result.found <==> !b.OutsideReference? && IsReason(s, attributable, db, tenant, b)
  {
    hide IsReason, NineSteps, LoadedSchema, ClosureTables, RowsInTables;
    var found: seq<Blocker> := [];
    for i := 0 to |tables|
      invariant forall b :: b in found <==>
        !b.OutsideReference? && b.table in tables[..i] && IsReason(s, attributable, db, tenant, b)
      invariant forall t | t in tables[..i] :: !NineSteps(s, attributable, t)
    {
      assert tables[i] in tables;
      var refused, blasts := BlastOf(s, attributable, db, tenant, tables[i]);
      if refused {
        return CheckRefused;
      }
      found := found + blasts;
      assert tables[..i + 1] == tables[..i] + [tables[i]];
    }
    assert tables[..|tables|] == tables;
    ReasonsAreInClosureTables(s, attributable, db, tenant);
    return Blockers(found);
  }

  lemma ReasonsAreInClosureTables(s: Schema, attributable: set<Table>, db: Database, tenant: Value)
    requires LoadedSchema(s) && RowsInTables(s, db)
    ensures forall b | IsReason(s, attributable, db, tenant, b) :: !b.OutsideReference? ==> b.table in ClosureTables(s)
  {
    ClosureTablesAreComplete(s, db, tenant);
    forall b | IsReason(s, attributable, db, tenant, b) && !b.OutsideReference? ensures b.table in ClosureTables(s) {
      var r :| r in (if b.CascadeBlast? then BlastRows(s, attributable, db, tenant, b.table, b.via)
                     else NobodysRows(s, attributable, db, tenant, b.table));
    }
  }

  /** One table of the check. */
  method BlastOf(s: Schema, attributable: set<Table>, db: Database, tenant: Value, table: Table)
    returns (refused: bool, found: seq<Blocker>)
    requires LoadedSchema(s) && table in ClosureTables(s)
    ensures refused <==> NineSteps(s, attributable, table)
    ensures !refused ==> forall b :: b in found <==>
      !b.OutsideReference? && b.table == table && IsReason(s, attributable, db, tenant, b)
  {
    hide AttributionSources, OwnedByTenant, InDeleteSet, LoadedSchema, ClosureTables, BelongsToNobody, BlastRows,
         NobodysRows;
    AttributionRefusedIffNineSteps(s, attributable, table);
    var sources := AttributionSources(s, attributable, table, []);
    var owned := OwnedByTenant(s, attributable, table, []);
    if sources.TermsRefused? || owned.Refused? {
      return true, [];
    }
    refused := false;
    found := CountSources(s, attributable, db, tenant, table, sources.terms);
    var elsewhere := Disjunction(sources);
    var nobody := set r | r in db && BelongsToNobody(s, db, tenant, table, owned, elsewhere, r);
    NobodyMeans(s, attributable, db, tenant, table);
    if |nobody| > 0 {
      found := found + [Unattributable(table, |nobody|)];
    }
  }

  // ------------------------------------------------------------ find_blocking_references

  predicate IsOutside(s: Schema, db: Database, tenant: Value, r: Ref)
    requires r in db
  {
    var inSet := InDeleteSet(s, r.table, []);
    inSet.Present? ==> Not(Eval(db, tenant, inSet.pred, r)) == Yes
  }

  predicate PointsIn(s: Schema, db: Database, tenant: Value, fk: ForeignKey, c: Ref, p: Ref) {
    References(db, fk, c, p) && InSet(s, db, tenant, fk.parent, p) && IsOutside(s, db, tenant, c)
  }

  /** The pairs the query counts are the references from outside. */
  lemma PointsInMeans(s: Schema, db: Database, tenant: Value, fk: ForeignKey)
    requires LoadedSchema(s) && RowsInTables(s, db)
    ensures (set c, p | c in db && p in db && PointsIn(s, db, tenant, fk, c, p) :: (c, p))
      == OutsidePairs(s, db, tenant, fk)
  {
    forall c, p | References(db, fk, c, p)
      ensures PointsIn(s, db, tenant, fk, c, p) <==> NamesFromOutside(s, db, tenant, fk, c, p)
    {
      InDeleteSetIsClosure(s, db, tenant, p);
      InDeleteSetIsClosure(s, db, tenant, c);
      ClosureTablesAreComplete(s, db, tenant);
      if InDeleteSet(s, c.table, []).Present? {
        UnknownMeansNoOwner(s, db, tenant, c);
      }
    }
  }

  lemma WatchedParents(s: Schema, db: Database, tenant: Value, fk: ForeignKey)
    requires LoadedSchema(s) && RowsInTables(s, db) && OutsidePairs(s, db, tenant, fk) != {}
    ensures fk.parent in ClosureTables(s)
  {
    ClosureTablesAreComplete(s, db, tenant);
    var pair :| pair in OutsidePairs(s, db, tenant, fk);
  }

  /** One blocker per watched foreign key with a pair; the builder cannot refuse here any more. */
  method FindBlockingReferences(s: Schema, attributable: set<Table>, db: Database, tenant: Value, tables: seq<Table>)
      returns (found: seq<Blocker>)
    requires LoadedSchema(s) && RowsInTables(s, db) && forall t :: t in tables <==> t in ClosureTables(s)
    ensures forall b: Blocker :: b in found <==> b.OutsideReference? && IsReason(s, attributable, db, tenant, b)
  {
    hide LoadedSchema, ClosureTables, RowsInTables, PointsIn, OutsidePairs;
    found := [];
    for i := 0 to |s.foreignKeys|
      invariant forall b :: b in found <==>
        b.OutsideReference? && b.fk in s.foreignKeys[..i] && IsReason(s, attributable, db, tenant, b)
    {
      var fk := s.foreignKeys[i];
      assert s.foreignKeys[..i + 1] == s.foreignKeys[..i] + [fk];
      if OutsidePairs(s, db, tenant, fk) != {} {
        WatchedParents(s, db, tenant, fk);
      }
      if !fk.Cascades() && fk.parent in tables {
        var pairs := set c, p | c in db && p in db && PointsIn(s, db, tenant, fk, c, p) :: (c, p);
        PointsInMeans(s, db, tenant, fk);
        if |pairs| > 0 {
          found := found + [OutsideReference(fk, |pairs|)];
        }
      }
    }
    assert s.foreignKeys[..|s.foreignKeys|] == s.foreignKeys;
  }

  // ------------------------------------------------------------ what passing both checks means

  /** First half: a closure row is owned, because the first check found no other reading of it. */
  lemma ClosureRowIsOwned(s: Schema, attributable: set<Table>, db: Database, tenant: Value, r: Ref)
    requires Safe(s, attributable, db, tenant)
    requires r in Closure(s, db, tenant) && OwnedByTenant(s, attributable, r.table, []).Present?
    ensures Holds(db, tenant, OwnedByTenant(s, attributable, r.table, []), r)
    ensures !Holds(db, tenant, AttributedElsewhere(s, attributable, r.table, []), r)
  {
    OwnerIffWalk(s, attributable, r.table);
    ElsewhereMeans(s, attributable, db, tenant, r, []);
    OwnedMeans(s, attributable, db, tenant, r, []);
  }

  /** `c` is outside the closure, names a row inside it, and has no owner: the rows `NOT in_delete_set` cannot see. */
  ghost predicate UnseenReferrer(s: Schema, db: Database, tenant: Value, fk: ForeignKey, c: Ref, p: Ref) {
    fk in s.foreignKeys && !fk.Cascades() && References(db, fk, c, p) &&
    p in Closure(s, db, tenant) && c !in Closure(s, db, tenant) && IsOwnerless(s, db, c)
  }

  /** Once both checks pass, whatever names a closure row is in the closure or is an unseen referrer. */
  lemma ReferrerOfClosureRow(s: Schema, attributable: set<Table>, db: Database, tenant: Value, fk: ForeignKey, c: Ref,
                             p: Ref)
    requires Safe(s, attributable, db, tenant)
    requires fk in s.foreignKeys && References(db, fk, c, p) && p in Closure(s, db, tenant)
    ensures c in Closure(s, db, tenant) || UnseenReferrer(s, db, tenant, fk, c, p)
  {
    if fk.Cascades() {
      assert CascadesTo(s, db, p, c);
      CascadeSetStep(s, db, DirectRows(s, db, tenant), p, c);
    } else {
      assert !NamesFromOutside(s, db, tenant, fk, c, p);
    }
  }

  /** Second half, along every trail: a row traced to the tenant is in the closure, as nothing outside points in. */
  lemma {:induction false} TracedRowIsInClosure(
    s: Schema, attributable: set<Table>, db: Database, tenant: Value, r: Ref, path: seq<Table>)
    requires Safe(s, attributable, db, tenant) && r in db
    requires !OwnedByTenant(s, attributable, r.table, path).Refused?
    requires Traced(s, attributable, db, tenant, r, path, true)
    ensures r in Closure(s, db, tenant)
    decreases Fuel(path)
  {
    if r.table in s.userScoped {
      OwnTrail(s, attributable, db, tenant, r, path, true);
      assert ReachedIn(s, db, DirectRows(s, db, tenant), r, 0);
    } else {
      var via :| TracedVia(s, attributable, db, tenant, r, path, true, via);
      var p := TailTrail(s, attributable, db, tenant, r, path, true, via);
      OwnedTermsAre(s, attributable, r.table, path, s.foreignKeys);
      TracedRowIsInClosure(s, attributable, db, tenant, p, path + [r.table]);
      ReferrerOfClosureRow(s, attributable, db, tenant, via.value, r, p);
    }
  }

  /** Rows deleted and rows backed up coincide: ownership and closure name the same rows of a closure table. */
  lemma OwnedIsClosure(s: Schema, attributable: set<Table>, db: Database, tenant: Value, table: Table)
    requires Safe(s, attributable, db, tenant) && OwnedByTenant(s, attributable, table, []).Present?
    ensures forall r | r in db && r.table == table ::
      Holds(db, tenant, OwnedByTenant(s, attributable, table, []), r) <==> r in Closure(s, db, tenant)
  {
    forall r | r in db && r.table == table
      ensures Holds(db, tenant, OwnedByTenant(s, attributable, table, []), r) <==> r in Closure(s, db, tenant)
    {
      if r in Closure(s, db, tenant) {
        ClosureRowIsOwned(s, attributable, db, tenant, r);
      } else if Holds(db, tenant, OwnedByTenant(s, attributable, table, []), r) {
        OwnerIffWalk(s, attributable, table);
        OwnedMeans(s, attributable, db, tenant, r, []);
        TracedRowIsInClosure(s, attributable, db, tenant, r, []);
      }
    }
  }
}
