/**
 When the predicate builders of scripts/purge_residue_tenants.py refuse and when they build something,
 told without the recursion that does it: by walks over the foreign keys of the schema.
 */
module PurgeWalks {
  import opened Sql
  import opened PurgePredicates

  /** Where a walk that sets out from `from` is after `i` steps. */
  function Stop(from: Table, w: seq<ForeignKey>, i: nat): Table
    requires i <= |w|
  {
    if i == 0 then from else w[i - 1].parent
  }

  function End(from: Table, w: seq<ForeignKey>): Table {
    Stop(from, w, |w|)
  }

  // ------------------------------------------------------------ walks along CASCADE

  predicate CascadeStep(s: Schema, from: Table, w: seq<ForeignKey>, i: nat)
    requires i < |w|
  {
    w[i] in s.foreignKeys && w[i].onDelete == Cascade && w[i].parent != w[i].child && w[i].child == Stop(from, w, i)
  }

  /** Foreign keys that cascade, each from one table to another, every one starting where the last ended. */
  ghost predicate CascadeWalk(s: Schema, from: Table, w: seq<ForeignKey>) {
    forall i: nat | i < |w| :: CascadeStep(s, from, w, i)
  }

  ghost predicate CascadesFor(s: Schema, from: Table, n: nat) {
    exists w :: CascadeWalk(s, from, w) && |w| == n
  }

  /** A chain of cascades too long to be shown complete. */
  ghost predicate NineCascades(s: Schema, from: Table) {
    CascadesFor(s, from, 9)
  }

  ghost predicate CascadesToOwner(s: Schema, from: Table) {
    exists w :: CascadeWalk(s, from, w) && End(from, w) in s.userScoped
  }

  lemma ConsCascade(s: Schema, fk: ForeignKey, w: seq<ForeignKey>)
    requires fk in s.foreignKeys && fk.Cascades() && fk.parent != fk.child && CascadeWalk(s, fk.parent, w)
    ensures CascadeWalk(s, fk.child, [fk] + w) && End(fk.child, [fk] + w) == End(fk.parent, w)
  {
    forall i: nat | i < 1 + |w| ensures CascadeStep(s, fk.child, [fk] + w, i) {
      assert i > 0 ==> CascadeStep(s, fk.parent, w, i - 1);
    }
  }

  lemma SuffixCascades(s: Schema, from: Table, w: seq<ForeignKey>, n: nat)
    requires CascadeWalk(s, from, w) && n <= |w|
    ensures CascadeWalk(s, Stop(from, w, n), w[n..]) && End(Stop(from, w, n), w[n..]) == End(from, w)
  {
    forall i: nat | i < |w| - n ensures CascadeStep(s, Stop(from, w, n), w[n..], i) {
      assert CascadeStep(s, from, w, n + i);
    }
  }

  lemma TailCascade(s: Schema, from: Table, w: seq<ForeignKey>)
    requires CascadeWalk(s, from, w) && w != []
    ensures w[0] in s.foreignKeys && w[0].Cascades() && w[0].parent != w[0].child && w[0].child == from
    ensures CascadeWalk(s, w[0].parent, w[1..]) && End(w[0].parent, w[1..]) == End(from, w)
  {
    assert CascadeStep(s, from, w, 0);
    SuffixCascades(s, from, w, 1);
  }

  lemma JoinCascades(s: Schema, from: Table, v: seq<ForeignKey>, w: seq<ForeignKey>)
    requires CascadeWalk(s, from, v) && CascadeWalk(s, End(from, v), w)
    ensures CascadeWalk(s, from, v + w) && End(from, v + w) == End(End(from, v), w)
  {
    forall i: nat | i < |v| + |w| ensures CascadeStep(s, from, v + w, i) {
      if i < |v| {
        assert CascadeStep(s, from, v, i);
      } else {
        assert CascadeStep(s, End(from, v), w, i - |v|);
      }
    }
  }

  lemma PrefixCascades(s: Schema, from: Table, w: seq<ForeignKey>, n: nat)
    requires CascadeWalk(s, from, w) && n <= |w|
    ensures CascadeWalk(s, from, w[..n])
  {
    forall i: nat | i < n ensures CascadeStep(s, from, w[..n], i) {
      assert CascadeStep(s, from, w, i);
    }
  }

  /** Going round a closed walk gives walks of every length. */
  lemma {:induction false} RoundAndRound(s: Schema, at: Table, round: seq<ForeignKey>, n: nat)
    requires CascadeWalk(s, at, round) && round != [] && End(at, round) == at
    ensures CascadesFor(s, at, n)
    decreases n
  {
    if n <= |round| {
      PrefixCascades(s, at, round, n);
    } else {
      RoundAndRound(s, at, round, n - |round|);
      var w :| CascadeWalk(s, at, w) && |w| == n - |round|;
      JoinCascades(s, at, round, w);
      assert |round + w| == n;
    }
  }

  // ------------------------------------------------------------ when in_delete_set refuses

  lemma {:induction false} RefusedTermsHaveCause(s: Schema, table: Table, path: seq<Table>, fks: seq<ForeignKey>)
      returns (fk: ForeignKey)
    requires |path| <= MAX_DEPTH && CascadeTerms(s, table, path, fks).TermsRefused?
    ensures fk in fks && fk.Cascades() && fk.child == table && fk.parent != table
    ensures fk.parent in path || InDeleteSet(s, fk.parent, path + [table]).Refused?
    decreases |fks|
  {
    fk := fks[0];
    if fk.child != table || !fk.Cascades() || fk.parent == table ||
       (fk.parent !in path && !InDeleteSet(s, fk.parent, path + [table]).Refused?)
    {
      fk := RefusedTermsHaveCause(s, table, path, fks[1..]);
    }
  }

  /** `way` is the walk that led from `start` to `table` through the tables of `path`. */
  ghost predicate LedHere(s: Schema, start: Table, way: seq<ForeignKey>, table: Table, path: seq<Table>) {
    CascadeWalk(s, start, way) && End(start, way) == table && |way| == |path| &&
    forall i | 0 <= i < |path| :: path[i] == way[i].child
  }

  lemma LedOneFurther(s: Schema, start: Table, way: seq<ForeignKey>, fk: ForeignKey, path: seq<Table>)
    requires LedHere(s, start, way, fk.child, path) && fk in s.foreignKeys && fk.Cascades() && fk.parent != fk.child
    ensures LedHere(s, start, way + [fk], fk.parent, path + [fk.child])
  {
    hide CascadeWalk;
    assert CascadeWalk(s, fk.child, [fk]) by {
      OneCascade(s, fk);
    }
    JoinCascades(s, start, way, [fk]);
  }

  lemma OneCascade(s: Schema, fk: ForeignKey)
    requires fk in s.foreignKeys && fk.Cascades() && fk.parent != fk.child
    ensures CascadeWalk(s, fk.child, [fk])
  {
  }

  /** A foreign key back into the path closes a walk, which can be followed for ever. */
  lemma BackIntoThePath(s: Schema, start: Table, way: seq<ForeignKey>, fk: ForeignKey, path: seq<Table>, n: nat)
    requires LedHere(s, start, way, fk.child, path) && fk in s.foreignKeys && fk.Cascades() && fk.parent != fk.child
    requires fk.parent in path
    ensures CascadesFor(s, fk.child, n)
  {
    var i :| 0 <= i < |path| && path[i] == fk.parent;
    assert CascadeStep(s, start, way, i);
    SuffixCascades(s, start, way, i);
    ConsCascade(s, fk, way[i..]);
    RoundAndRound(s, fk.child, [fk] + way[i..], n);
  }

  lemma {:induction false} RefusalHasWalk(s: Schema, start: Table, way: seq<ForeignKey>, table: Table,
                                          path: seq<Table>)
    requires LedHere(s, start, way, table, path) && |path| <= 9 && InDeleteSet(s, table, path).Refused?
    ensures CascadesFor(s, table, 9 - |path|)
    decreases 9 - |path|
  {
    if |path| == 9 {
      assert CascadeWalk(s, table, []);
    } else {
      var fk := RefusedTermsHaveCause(s, table, path, s.foreignKeys);
      if fk.parent in path {
        BackIntoThePath(s, start, way, fk, path, 9 - |path|);
      } else {
        LedOneFurther(s, start, way, fk, path);
        RefusalHasWalk(s, start, way + [fk], fk.parent, path + [table]);
        var w :| CascadeWalk(s, fk.parent, w) && |w| == 9 - |path| - 1;
        ConsCascade(s, fk, w);
      }
    }
  }

  lemma {:induction false} WalkIsRefused(s: Schema, table: Table, path: seq<Table>, w: seq<ForeignKey>)
    requires CascadeWalk(s, table, w) && |path| + |w| == 9
    ensures InDeleteSet(s, table, path).Refused?
    decreases |w|
  {
    if w != [] {
      TailCascade(s, table, w);
      WalkIsRefused(s, w[0].parent, path + [table], w[1..]);
      if CascadeTerms(s, table, path, s.foreignKeys).Terms? {
        CascadeTermsAre(s, table, path, s.foreignKeys);
      }
    }
  }

  /** in_delete_set refuses a table exactly when nine cascades in a row start at it; a cycle gives nine as well. */
  lemma RefusedIffNineCascades(s: Schema, table: Table)
    ensures InDeleteSet(s, table, []).Refused? <==> NineCascades(s, table)
  {
    if InDeleteSet(s, table, []).Refused? {
      assert LedHere(s, table, [], table, []);
      RefusalHasWalk(s, table, [], table, []);
    }
    if NineCascades(s, table) {
      var w :| CascadeWalk(s, table, w) && |w| == 9;
      WalkIsRefused(s, table, [], w);
    }
  }

  // ------------------------------------------------------------ which tables the closure has

  lemma {:induction false} PresentHasWalk(s: Schema, table: Table, path: seq<Table>)
    requires InDeleteSet(s, table, path).Present?
    ensures CascadesToOwner(s, table)
    decreases Fuel(path)
  {
    if table in s.userScoped {
      assert CascadeWalk(s, table, []);
    } else {
      CascadeTermsAre(s, table, path, s.foreignKeys);
      var t := CascadeTerms(s, table, path, s.foreignKeys).terms[0];
      assert t in CascadeTerms(s, table, path, s.foreignKeys).terms;
      PresentHasWalk(s, t.fk.parent, path + [table]);
      var w :| CascadeWalk(s, t.fk.parent, w) && End(t.fk.parent, w) in s.userScoped;
      ConsCascade(s, t.fk, w);
    }
  }

  lemma {:induction false} WalkIsPresent(s: Schema, table: Table, path: seq<Table>, w: seq<ForeignKey>)
    requires CascadeWalk(s, table, w) && End(table, w) in s.userScoped && !InDeleteSet(s, table, path).Refused?
    ensures InDeleteSet(s, table, path).Present?
    decreases |w|
  {
    if w != [] {
      TailCascade(s, table, w);
      CascadeTermsAre(s, table, path, s.foreignKeys);
      WalkIsPresent(s, w[0].parent, path + [table], w[1..]);
    }
  }

  /** Unless refused, a table gets a predicate exactly when cascades lead from it to a `user_id`. */
  lemma PresentIffCascadesToOwner(s: Schema, table: Table)
    requires !NineCascades(s, table)
    ensures InDeleteSet(s, table, []).Present? <==> CascadesToOwner(s, table)
  {
    RefusedIffNineCascades(s, table);
    if InDeleteSet(s, table, []).Present? {
      PresentHasWalk(s, table, []);
    }
    if w :| CascadeWalk(s, table, w) && End(table, w) in s.userScoped {
      WalkIsPresent(s, table, [], w);
    }
  }

  // ------------------------------------------------------------ walks towards an owner

  predicate TenancyStep(s: Schema, attributable: set<Table>, from: Table, w: seq<ForeignKey>, i: nat)
    requires i < |w|
  {
    w[i] in s.foreignKeys && w[i].child !in s.userScoped && w[i].parent in attributable &&
    w[i].child == Stop(from, w, i)
  }

  /**
   Foreign keys of any kind from table to table, out of tables without a `user_id` into
   attributable ones, never back to a table the walk has been to.
   */
  ghost predicate TenancyWalk(s: Schema, attributable: set<Table>, from: Table, w: seq<ForeignKey>) {
    (forall i: nat | i < |w| :: TenancyStep(s, attributable, from, w, i)) &&
    (forall i, j | 0 <= j <= i < |w| :: w[i].parent != w[j].child)
  }

  predicate Avoids(w: seq<ForeignKey>, path: seq<Table>) {
    forall i | 0 <= i < |w| :: w[i].parent !in path
  }

  ghost predicate NineSteps(s: Schema, attributable: set<Table>, from: Table) {
    exists w :: TenancyWalk(s, attributable, from, w) && |w| == 9
  }

  ghost predicate LeadsToOwner(s: Schema, attributable: set<Table>, from: Table, path: seq<Table>) {
    exists w :: TenancyWalk(s, attributable, from, w) && Avoids(w, path) && End(from, w) in s.userScoped
  }

  lemma ConsTenancy(s: Schema, attributable: set<Table>, fk: ForeignKey, path: seq<Table>, w: seq<ForeignKey>)
    requires fk in s.foreignKeys && fk.child !in s.userScoped && Follows(attributable, fk, fk.child, path)
    requires TenancyWalk(s, attributable, fk.parent, w) && Avoids(w, path + [fk.child])
    ensures TenancyWalk(s, attributable, fk.child, [fk] + w) && Avoids([fk] + w, path)
    ensures End(fk.child, [fk] + w) == End(fk.parent, w)
  {
    forall i: nat | i < 1 + |w| ensures TenancyStep(s, attributable, fk.child, [fk] + w, i) {
      assert i > 0 ==> TenancyStep(s, attributable, fk.parent, w, i - 1);
    }
    forall i | 0 <= i < |w| ensures w[i].parent !in path && w[i].parent != fk.child {
      assert w[i].parent !in path + [fk.child];
    }
  }

  lemma TailTenancy(s: Schema, attributable: set<Table>, from: Table, path: seq<Table>, w: seq<ForeignKey>)
    requires TenancyWalk(s, attributable, from, w) && Avoids(w, path) && w != []
    ensures w[0] in s.foreignKeys && Follows(attributable, w[0], from, path) && from !in s.userScoped
    ensures TenancyWalk(s, attributable, w[0].parent, w[1..]) && Avoids(w[1..], path + [from])
    ensures End(w[0].parent, w[1..]) == End(from, w)
  {
    assert TenancyStep(s, attributable, from, w, 0);
    forall i: nat | i < |w| - 1 ensures TenancyStep(s, attributable, w[0].parent, w[1..], i) {
      assert TenancyStep(s, attributable, from, w, i + 1);
    }
  }

  // ------------------------------------------------------------ when attribution refuses

  ghost predicate StepsLeft(s: Schema, attributable: set<Table>, from: Table, path: seq<Table>) {
    exists w :: TenancyWalk(s, attributable, from, w) && Avoids(w, path) && |path| + |w| == 9
  }

  lemma OneStepLess(s: Schema, attributable: set<Table>, fk: ForeignKey, path: seq<Table>)
    requires fk in s.foreignKeys && fk.child !in s.userScoped && Follows(attributable, fk, fk.child, path)
    requires StepsLeft(s, attributable, fk.parent, path + [fk.child])
    ensures StepsLeft(s, attributable, fk.child, path)
  {
    var w :| TenancyWalk(s, attributable, fk.parent, w) && Avoids(w, path + [fk.child]) && |path| + 1 + |w| == 9;
    ConsTenancy(s, attributable, fk, path, w);
    assert |path| + |[fk] + w| == 9;
  }

  lemma {:induction false} ElsewhereRefusalHasCause(s: Schema, attributable: set<Table>, table: Table,
                                                    path: seq<Table>, fks: seq<ForeignKey>)
      returns (fk: ForeignKey)
    requires |path| <= MAX_DEPTH && ElsewhereTerms(s, attributable, table, path, fks).TermsRefused?
    ensures fk in fks && Follows(attributable, fk, table, path)
    ensures AttributionSources(s, attributable, fk.parent, path + [table]).TermsRefused?
    decreases |fks|
  {
    fk := fks[0];
    if !Follows(attributable, fk, table, path) ||
       AttributionSources(s, attributable, fk.parent, path + [table]).Terms?
    {
      fk := ElsewhereRefusalHasCause(s, attributable, table, path, fks[1..]);
    }
  }

  lemma {:induction false} OwnedRefusalHasCause(s: Schema, attributable: set<Table>, table: Table,
                                                path: seq<Table>, fks: seq<ForeignKey>)
      returns (fk: ForeignKey)
    requires |path| <= MAX_DEPTH && OwnedTerms(s, attributable, table, path, fks).TermsRefused?
    ensures fk in fks && Follows(attributable, fk, table, path)
    ensures OwnedByTenant(s, attributable, fk.parent, path + [table]).Refused?
    decreases |fks|
  {
    fk := fks[0];
    if !Follows(attributable, fk, table, path) || !OwnedByTenant(s, attributable, fk.parent, path + [table]).Refused? {
      fk := OwnedRefusalHasCause(s, attributable, table, path, fks[1..]);
    }
  }

  lemma {:induction false} ElsewhereRefusalHasWalk(s: Schema, attributable: set<Table>, table: Table, path: seq<Table>)
    requires |path| <= 9 && AttributionSources(s, attributable, table, path).TermsRefused?
    ensures StepsLeft(s, attributable, table, path)
    decreases 9 - |path|
  {
    if |path| == 9 {
      assert TenancyWalk(s, attributable, table, []) && Avoids([], path);
    } else {
      var fk := ElsewhereRefusalHasCause(s, attributable, table, path, s.foreignKeys);
      ElsewhereRefusalHasWalk(s, attributable, fk.parent, path + [table]);
      OneStepLess(s, attributable, fk, path);
    }
  }

  lemma {:induction false} OwnedRefusalHasWalk(s: Schema, attributable: set<Table>, table: Table, path: seq<Table>)
    requires |path| <= 9 && OwnedByTenant(s, attributable, table, path).Refused?
    ensures StepsLeft(s, attributable, table, path)
    decreases 9 - |path|
  {
    if |path| == 9 {
      assert TenancyWalk(s, attributable, table, []) && Avoids([], path);
    } else if OwnedTerms(s, attributable, table, path, s.foreignKeys).TermsRefused? {
      var fk := OwnedRefusalHasCause(s, attributable, table, path, s.foreignKeys);
      OwnedRefusalHasWalk(s, attributable, fk.parent, path + [table]);
      OneStepLess(s, attributable, fk, path);
    } else {
      ElsewhereRefusalHasWalk(s, attributable, table, path);
    }
  }

  lemma {:induction false} StepsAreRefused(s: Schema, attributable: set<Table>, table: Table, path: seq<Table>,
                                           w: seq<ForeignKey>)
    requires TenancyWalk(s, attributable, table, w) && Avoids(w, path) && |path| + |w| == 9
    ensures AttributionSources(s, attributable, table, path).TermsRefused?
    ensures OwnedByTenant(s, attributable, table, path).Refused?
    decreases |w|
  {
    if w != [] {
      TailTenancy(s, attributable, table, path, w);
      StepsAreRefused(s, attributable, w[0].parent, path + [table], w[1..]);
      if ElsewhereTerms(s, attributable, table, path, s.foreignKeys).Terms? {
        ElsewhereTermsAre(s, attributable, table, path, s.foreignKeys);
      }
      if OwnedTerms(s, attributable, table, path, s.foreignKeys).Terms? {
        OwnedTermsAre(s, attributable, table, path, s.foreignKeys);
      }
    }
  }

  /** Each attribution predicate refuses a table exactly when nine steps towards an owner start at it. */
  lemma AttributionRefusedIffNineSteps(s: Schema, attributable: set<Table>, table: Table)
    ensures AttributionSources(s, attributable, table, []).TermsRefused? <==> NineSteps(s, attributable, table)
    ensures OwnedByTenant(s, attributable, table, []).Refused? <==> NineSteps(s, attributable, table)
  {
    if AttributionSources(s, attributable, table, []).TermsRefused? {
      ElsewhereRefusalHasWalk(s, attributable, table, []);
    }
    if OwnedByTenant(s, attributable, table, []).Refused? {
      OwnedRefusalHasWalk(s, attributable, table, []);
    }
    if w :| TenancyWalk(s, attributable, table, w) && |w| == 9 {
      assert Avoids(w, []);
      StepsAreRefused(s, attributable, table, [], w);
    }
  }

  // ------------------------------------------------------------ which tables have an owner

  /** Ownership and attribution elsewhere follow the same edges, so one exists when the other does. */
  lemma {:induction false} OwnedExistsWithElsewhere(s: Schema, attributable: set<Table>, table: Table, path: seq<Table>)
    requires !OwnedByTenant(s, attributable, table, path).Refused?
    requires !AttributedElsewhere(s, attributable, table, path).Refused?
    ensures OwnedByTenant(s, attributable, table, path).Present? <==>
            AttributedElsewhere(s, attributable, table, path).Present?
    decreases Fuel(path)
  {
    if table !in s.userScoped {
      OwnedTermsAre(s, attributable, table, path, s.foreignKeys);
      ElsewhereTermsAre(s, attributable, table, path, s.foreignKeys);
      forall fk | fk in s.foreignKeys && Follows(attributable, fk, table, path)
        ensures OwnedByTenant(s, attributable, fk.parent, path + [table]).Present? <==>
                AttributedElsewhere(s, attributable, fk.parent, path + [table]).Present?
      {
        OwnedExistsWithElsewhere(s, attributable, fk.parent, path + [table]);
      }
      var mine := OwnedTerms(s, attributable, table, path, s.foreignKeys).terms;
      var theirs := ElsewhereTerms(s, attributable, table, path, s.foreignKeys).terms;
      if mine != [] {
        assert mine[0] in mine;
        assert ExistsParent(mine[0].fk,
                            AttributedElsewhere(s, attributable, mine[0].fk.parent, path + [table]).pred) in theirs;
      }
      if theirs != [] {
        assert theirs[0] in theirs;
        assert ExistsParent(theirs[0].fk,
                            OwnedByTenant(s, attributable, theirs[0].fk.parent, path + [table]).pred) in mine;
      }
    }
  }

  lemma {:induction false} OwnerHasWalk(s: Schema, attributable: set<Table>, table: Table, path: seq<Table>)
    requires AttributedElsewhere(s, attributable, table, path).Present?
    ensures LeadsToOwner(s, attributable, table, path)
    decreases Fuel(path)
  {
    if table in s.userScoped {
      assert TenancyWalk(s, attributable, table, []) && Avoids([], path);
    } else {
      ElsewhereTermsAre(s, attributable, table, path, s.foreignKeys);
      var t := AttributionSources(s, attributable, table, path).terms[0];
      assert t in AttributionSources(s, attributable, table, path).terms;
      OwnerHasWalk(s, attributable, t.fk.parent, path + [table]);
      var w :| TenancyWalk(s, attributable, t.fk.parent, w) && Avoids(w, path + [table]) &&
               End(t.fk.parent, w) in s.userScoped;
      ConsTenancy(s, attributable, t.fk, path, w);
    }
  }

  lemma {:induction false} WalkHasOwner(s: Schema, attributable: set<Table>, table: Table, path: seq<Table>,
                                        w: seq<ForeignKey>)
    requires TenancyWalk(s, attributable, table, w) && Avoids(w, path) && End(table, w) in s.userScoped
    requires !AttributedElsewhere(s, attributable, table, path).Refused?
    ensures AttributedElsewhere(s, attributable, table, path).Present?
    decreases |w|
  {
    if w != [] {
      TailTenancy(s, attributable, table, path, w);
      ElsewhereTermsAre(s, attributable, table, path, s.foreignKeys);
      WalkHasOwner(s, attributable, w[0].parent, path + [table], w[1..]);
    }
  }

  /** A table gets an ownership predicate exactly when it is not refused and some walk reaches a `user_id`. */
  lemma OwnerIffWalk(s: Schema, attributable: set<Table>, table: Table)
    ensures OwnedByTenant(s, attributable, table, []).Present? <==>
            !NineSteps(s, attributable, table) && LeadsToOwner(s, attributable, table, [])
    ensures AttributedElsewhere(s, attributable, table, []).Present? <==>
            !NineSteps(s, attributable, table) && LeadsToOwner(s, attributable, table, [])
  {
    AttributionRefusedIffNineSteps(s, attributable, table);
    if !NineSteps(s, attributable, table) {
      OwnedExistsWithElsewhere(s, attributable, table, []);
      if AttributedElsewhere(s, attributable, table, []).Present? {
        OwnerHasWalk(s, attributable, table, []);
      }
      if w :| TenancyWalk(s, attributable, table, w) && Avoids(w, []) && End(table, w) in s.userScoped {
        WalkHasOwner(s, attributable, table, [], w);
      }
    }
  }
}
