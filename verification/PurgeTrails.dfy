/**
 What the attribution predicates of scripts/purge_residue_tenants.py say of a row: trails of rows, each
 naming the next through a foreign key, and whose row they end at.
 */
module PurgeTrails {
  import opened Wrappers
  import opened Sql
  import opened PurgePredicates
  import opened PurgeClosure
  import opened PurgeWalks

  /** Rows along a tenancy walk from `r`, each naming the next, the last one in a table with a `user_id`. */
  ghost predicate Trail(s: Schema, attributable: set<Table>, db: Database, r: Ref, w: seq<ForeignKey>,
                        trail: seq<Ref>)
  {
    TenancyWalk(s, attributable, r.table, w) && |trail| == |w| + 1 && trail[0] == r &&
    (forall i | 0 <= i < |w| :: References(db, w[i], trail[i], trail[i + 1])) &&
    trail[|w|] in db && trail[|w|].table in s.userScoped
  }

  function First(w: seq<ForeignKey>): Option<ForeignKey> {
    if w == [] then None else Some(w[0])
  }

  /** A trail off `path` ends at a row of the tenant (`mine`) or at one that is not. */
  ghost predicate EndsAt(s: Schema, attributable: set<Table>, db: Database, tenant: Value, r: Ref, path: seq<Table>,
                         mine: bool, w: seq<ForeignKey>, trail: seq<Ref>)
  {
    Trail(s, attributable, db, r, w, trail) && Avoids(w, path) && (OwnedBy(db, trail[|w|], tenant) <==> mine)
  }

  /** Some trail whose first foreign key is `via` ends at a row of the tenant, or at one that is not. */
  ghost predicate TracedVia(s: Schema, attributable: set<Table>, db: Database, tenant: Value, r: Ref, path: seq<Table>,
                            mine: bool, via: Option<ForeignKey>)
  {
    exists w, trail :: EndsAt(s, attributable, db, tenant, r, path, mine, w, trail) && First(w) == via
  }

  ghost predicate Traced(s: Schema, attributable: set<Table>, db: Database, tenant: Value, r: Ref, path: seq<Table>,
                         mine: bool)
  {
    exists via :: TracedVia(s, attributable, db, tenant, r, path, mine, via)
  }

  /** Some foreign-key path traces `r` to a row of the tenant. */
  ghost predicate TracedToTenant(s: Schema, attributable: set<Table>, db: Database, tenant: Value, r: Ref) {
    Traced(s, attributable, db, tenant, r, [], true)
  }

  /** Some foreign-key path traces `r` to a row of anybody else, or of nobody. */
  ghost predicate TracedElsewhere(s: Schema, attributable: set<Table>, db: Database, tenant: Value, r: Ref) {
    Traced(s, attributable, db, tenant, r, [], false)
  }

  lemma OwnTrail(s: Schema, attributable: set<Table>, db: Database, tenant: Value, r: Ref, path: seq<Table>,
                 mine: bool)
    requires r in db && r.table in s.userScoped
    ensures TracedVia(s, attributable, db, tenant, r, path, mine, None) <==> (OwnedBy(db, r, tenant) <==> mine)
    ensures forall fk :: !TracedVia(s, attributable, db, tenant, r, path, mine, Some(fk))
  {
    forall w, trail | EndsAt(s, attributable, db, tenant, r, path, mine, w, trail) ensures w == [] && trail == [r] {
      if w != [] {
        TailTenancy(s, attributable, r.table, path, w);
        assert false;
      }
    }
    if OwnedBy(db, r, tenant) <==> mine {
      assert Trail(s, attributable, db, r, [], [r]);
      assert EndsAt(s, attributable, db, tenant, r, path, mine, [], [r]);
    }
  }

  lemma LongerTrail(s: Schema, attributable: set<Table>, db: Database, r: Ref, fk: ForeignKey, q: Ref,
                    w: seq<ForeignKey>, trail: seq<Ref>)
    requires Trail(s, attributable, db, q, w, trail) && References(db, fk, r, q)
    requires TenancyWalk(s, attributable, r.table, [fk] + w)
    ensures Trail(s, attributable, db, r, [fk] + w, [r] + trail)
  {
    hide TenancyWalk;
    forall i | 0 <= i < |w| + 1 ensures References(db, ([fk] + w)[i], ([r] + trail)[i], ([r] + trail)[i + 1]) {
      if i > 0 {
        assert References(db, w[i - 1], trail[i - 1], trail[i]);
      }
    }
  }

  lemma ConsTrail(s: Schema, attributable: set<Table>, db: Database, tenant: Value, r: Ref, path: seq<Table>,
                  mine: bool, fk: ForeignKey, q: Ref)
    requires fk in s.foreignKeys && r.table !in s.userScoped && Follows(attributable, fk, r.table, path)
    requires References(db, fk, r, q) && Traced(s, attributable, db, tenant, q, path + [r.table], mine)
    ensures TracedVia(s, attributable, db, tenant, r, path, mine, Some(fk))
  {
    hide TenancyWalk, Avoids;
    assert fk.child == r.table;
    var via :| TracedVia(s, attributable, db, tenant, q, path + [r.table], mine, via);
    var w, trail :| EndsAt(s, attributable, db, tenant, q, path + [r.table], mine, w, trail) && First(w) == via;
    ConsTenancy(s, attributable, fk, path, w);
    LongerTrail(s, attributable, db, r, fk, q, w, trail);
    assert EndsAt(s, attributable, db, tenant, r, path, mine, [fk] + w, [r] + trail);
  }

  lemma TailTrail(s: Schema, attributable: set<Table>, db: Database, tenant: Value, r: Ref, path: seq<Table>,
                  mine: bool, via: Option<ForeignKey>)
      returns (q: Ref)
    requires r in db && r.table !in s.userScoped && TracedVia(s, attributable, db, tenant, r, path, mine, via)
    ensures via.Some? && via.value in s.foreignKeys && Follows(attributable, via.value, r.table, path)
    ensures References(db, via.value, r, q) && Traced(s, attributable, db, tenant, q, path + [r.table], mine)
  {
    var w, trail :| EndsAt(s, attributable, db, tenant, r, path, mine, w, trail) && First(w) == via;
    TailTenancy(s, attributable, r.table, path, w);
    q := trail[1];
    assert References(db, w[0], trail[0], trail[1]);
    assert Trail(s, attributable, db, q, w[1..], trail[1..]);
    assert EndsAt(s, attributable, db, tenant, q, path + [r.table], mine, w[1..], trail[1..]);
    assert TracedVia(s, attributable, db, tenant, q, path + [r.table], mine, First(w[1..]));
  }

  /** An EXISTS term over an edge that is followed, given what the inner predicate says of the parents. */
  lemma {:induction false} EdgeMeans(s: Schema, attributable: set<Table>, db: Database, tenant: Value, r: Ref,
                                     path: seq<Table>, mine: bool, fk: ForeignKey)
    requires r in db && r.table !in s.userScoped && fk in s.foreignKeys && Follows(attributable, fk, r.table, path)
    ensures TracedVia(s, attributable, db, tenant, r, path, mine, Some(fk)) <==>
            exists q :: References(db, fk, r, q) && Traced(s, attributable, db, tenant, q, path + [r.table], mine)
  {
    if TracedVia(s, attributable, db, tenant, r, path, mine, Some(fk)) {
      var q := TailTrail(s, attributable, db, tenant, r, path, mine, Some(fk));
    }
    if q :| References(db, fk, r, q) && Traced(s, attributable, db, tenant, q, path + [r.table], mine) {
      ConsTrail(s, attributable, db, tenant, r, path, mine, fk, q);
    }
  }

  /** attributed_elsewhere is two-valued and true of exactly the rows some trail leads away from the tenant. */
  lemma {:induction false} ElsewhereMeans(s: Schema, attributable: set<Table>, db: Database, tenant: Value, r: Ref,
                                          path: seq<Table>)
    requires r in db && !AttributedElsewhere(s, attributable, r.table, path).Refused?
    ensures Holds(db, tenant, AttributedElsewhere(s, attributable, r.table, path), r) <==>
            Traced(s, attributable, db, tenant, r, path, false)
    ensures AttributedElsewhere(s, attributable, r.table, path).Present? ==>
            Eval(db, tenant, AttributedElsewhere(s, attributable, r.table, path).pred, r) != Unknown
    decreases Fuel(path)
  {
    var terms := AttributionSources(s, attributable, r.table, path).terms;
    if r.table in s.userScoped {
      OwnTrail(s, attributable, db, tenant, r, path, false);
      assert terms == [OwnerIsNotTenant];
      assert OwnerIsNotTenant in terms;
    } else {
      ElsewhereTermsAre(s, attributable, r.table, path, s.foreignKeys);
      forall t | t in terms
        ensures Eval(db, tenant, t, r) == Yes <==> TracedVia(s, attributable, db, tenant, r, path, false, Some(t.fk))
      {
        SourceMeans(s, attributable, db, tenant, r, path, t);
      }
      if Traced(s, attributable, db, tenant, r, path, false) {
        var via :| TracedVia(s, attributable, db, tenant, r, path, false, via);
        var q := TailTrail(s, attributable, db, tenant, r, path, false, via);
        ElsewhereMeans(s, attributable, db, tenant, q, path + [r.table]);
        var t := ExistsParent(via.value, AttributedElsewhere(s, attributable, q.table, path + [r.table]).pred);
        assert t in terms && Eval(db, tenant, t, r) == Yes;
      }
    }
  }

  /** One source of attribution_sources: it is true of the rows with a trail that starts along its foreign key. */
  lemma {:induction false} SourceMeans(s: Schema, attributable: set<Table>, db: Database, tenant: Value, r: Ref,
                                       path: seq<Table>, t: Pred)
    requires r in db && r.table !in s.userScoped && AttributionSources(s, attributable, r.table, path).Terms?
    requires t in AttributionSources(s, attributable, r.table, path).terms
    ensures t.ExistsParent?
    ensures Eval(db, tenant, t, r) == Yes <==> TracedVia(s, attributable, db, tenant, r, path, false, Some(t.fk))
    decreases Fuel(path), 0
  {
    ElsewhereTermsAre(s, attributable, r.table, path, s.foreignKeys);
    forall q | References(db, t.fk, r, q)
      ensures Eval(db, tenant, t.inner, q) == Yes <==>
              Traced(s, attributable, db, tenant, q, path + [r.table], false)
    {
      ElsewhereMeans(s, attributable, db, tenant, q, path + [r.table]);
    }
    EdgeMeans(s, attributable, db, tenant, r, path, false, t.fk);
  }

  /** owned_by_tenant is true of exactly the rows traced to the tenant along some trail and along none elsewhere. */
  lemma {:induction false} OwnedMeans(s: Schema, attributable: set<Table>, db: Database, tenant: Value, r: Ref,
                                      path: seq<Table>)
    requires r in db && !OwnedByTenant(s, attributable, r.table, path).Refused?
    requires !AttributedElsewhere(s, attributable, r.table, path).Refused?
    ensures Holds(db, tenant, OwnedByTenant(s, attributable, r.table, path), r) <==>
            Traced(s, attributable, db, tenant, r, path, true) && !Traced(s, attributable, db, tenant, r, path, false)
    decreases Fuel(path)
  {
    if r.table in s.userScoped {
      OwnTrail(s, attributable, db, tenant, r, path, true);
      OwnTrail(s, attributable, db, tenant, r, path, false);
    } else {
      ElsewhereMeans(s, attributable, db, tenant, r, path);
      OwnedTermsAre(s, attributable, r.table, path, s.foreignKeys);
      ElsewhereTermsAre(s, attributable, r.table, path, s.foreignKeys);
      if !Traced(s, attributable, db, tenant, r, path, false) {
        SomeOwnedTerm(s, attributable, db, tenant, r, path);
      }
      OwnedIsTermAndNotElsewhere(s, attributable, db, tenant, r, path);
    }
  }

  lemma OwnedIsTermAndNotElsewhere(s: Schema, attributable: set<Table>, db: Database, tenant: Value, r: Ref,
                                   path: seq<Table>)
    requires r in db && r.table !in s.userScoped && !OwnedByTenant(s, attributable, r.table, path).Refused?
    requires !AttributedElsewhere(s, attributable, r.table, path).Refused?
    ensures Holds(db, tenant, OwnedByTenant(s, attributable, r.table, path), r) <==>
            ((exists t :: t in OwnedTerms(s, attributable, r.table, path, s.foreignKeys).terms &&
                          Eval(db, tenant, t, r) == Yes) &&
             !Holds(db, tenant, AttributedElsewhere(s, attributable, r.table, path), r))
  {
    ElsewhereMeans(s, attributable, db, tenant, r, path);
    var terms := OwnedTerms(s, attributable, r.table, path, s.foreignKeys).terms;
    assert Eval(db, tenant, AnyOf(terms), r) == Yes <==> exists t :: t in terms && Eval(db, tenant, t, r) == Yes;
  }

  lemma {:induction false} SomeOwnedTerm(s: Schema, attributable: set<Table>, db: Database, tenant: Value, r: Ref,
                                         path: seq<Table>)
    requires r in db && r.table !in s.userScoped && !OwnedByTenant(s, attributable, r.table, path).Refused?
    requires !AttributedElsewhere(s, attributable, r.table, path).Refused?
    requires !Traced(s, attributable, db, tenant, r, path, false)
    ensures (exists t :: t in OwnedTerms(s, attributable, r.table, path, s.foreignKeys).terms &&
                         Eval(db, tenant, t, r) == Yes) <==>
            Traced(s, attributable, db, tenant, r, path, true)
    decreases Fuel(path), 0
  {
    OwnedTermsAre(s, attributable, r.table, path, s.foreignKeys);
    ElsewhereTermsAre(s, attributable, r.table, path, s.foreignKeys);
    var terms := OwnedTerms(s, attributable, r.table, path, s.foreignKeys).terms;
    if t :| t in terms && Eval(db, tenant, t, r) == Yes {
      var q :| q in db && References(db, t.fk, r, q) && Eval(db, tenant, t.inner, q) == Yes;
      OwnedMeans(s, attributable, db, tenant, q, path + [r.table]);
      ConsTrail(s, attributable, db, tenant, r, path, true, t.fk, q);
    }
    if Traced(s, attributable, db, tenant, r, path, true) {
      var via :| TracedVia(s, attributable, db, tenant, r, path, true, via);
      var q := TailTrail(s, attributable, db, tenant, r, path, true, via);
      if Traced(s, attributable, db, tenant, q, path + [r.table], false) {
        ConsTrail(s, attributable, db, tenant, r, path, false, via.value, q);
        assert false;
      }
      OwnedMeans(s, attributable, db, tenant, q, path + [r.table]);
      var t := ExistsParent(via.value, OwnedByTenant(s, attributable, q.table, path + [r.table]).pred);
      assert t in terms && Eval(db, tenant, t, r) == Yes;
    }
  }
}
