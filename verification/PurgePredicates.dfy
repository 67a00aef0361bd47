/**
 The row predicates of scripts/purge_residue_tenants.py.  The script composes SQL text by
 recursion over the foreign-key graph; here the text is a syntax tree, `Pred`, with the same
 recursion building it and an evaluator giving it SQL's three-valued meaning.
 */
module PurgePredicates {
  import opened Sql

  /** Chains longer than this are refused. */
  const MAX_DEPTH: nat := 8

  datatype Pred =
    | OwnerIsTenant                              // a.user_id = tenant
    | OwnerIsNotTenant                           // a.user_id IS DISTINCT FROM tenant
    | ExistsParent(fk: ForeignKey, inner: Pred)  // EXISTS (SELECT 1 FROM parent WHERE ... AND inner)
    | AnyOf(terms: seq<Pred>)                    // t1 OR t2 OR ...
    | ButNot(kept: Pred, dropped: Pred)          // kept AND NOT dropped

  /** The truth value of a composed predicate on row `r`. */
  predicate OwnedBy(db: Database, r: Ref, tenant: Value) {
    r in db && USER_ID in db[r] && db[r][USER_ID] == tenant
  }

  function Eval(db: Database, tenant: Value, p: Pred, r: Ref): Tri
    requires r in db
    decreases p
  {
    match p
    case OwnerIsTenant =>
      if USER_ID !in db[r] then Unknown else if OwnedBy(db, r, tenant) then Yes else No
    case OwnerIsNotTenant =>
      if OwnedBy(db, r, tenant) then No else Yes
    case ExistsParent(fk, inner) =>
      if exists q | q in db :: References(db, fk, r, q) && Eval(db, tenant, inner, q) == Yes then Yes else No
    case AnyOf(terms) =>
      if exists t | t in terms :: Eval(db, tenant, t, r) == Yes then Yes
      else if exists t | t in terms :: Eval(db, tenant, t, r) == Unknown then Unknown
      else No
    case ButNot(kept, dropped) =>
      And(Eval(db, tenant, kept, r), Not(Eval(db, tenant, dropped, r)))
  }

  /** What a builder returns: a refusal, no predicate at all (Python's None), or a predicate. */
  datatype Built = Refused | Absent | Present(pred: Pred)

  datatype Terms = TermsRefused | Terms(terms: seq<Pred>)

  function Disjunction(ts: Terms): Built {
    match ts
    case TermsRefused => Refused
    case Terms(terms) => if terms == [] then Absent else Present(AnyOf(terms))
  }

  function Prepend(t: Built, fk: ForeignKey, rest: Terms): Terms {
    match t
    case Refused => TermsRefused
    case Absent => rest
    case Present(q) => if rest.TermsRefused? then rest else Terms([ExistsParent(fk, q)] + rest.terms)
  }

  function Fuel(path: seq<Table>): nat {
    if |path| <= MAX_DEPTH then MAX_DEPTH + 1 - |path| else 0
  }

  // ------------------------------------------------------------ in_delete_set

  /** Rows a delete of this tenant would remove, directly or by cascade. */
  function InDeleteSet(s: Schema, table: Table, path: seq<Table>): Built
    decreases Fuel(path), |s.foreignKeys| + 1
  {
    if |path| > MAX_DEPTH then Refused
    else
      var fromParents := CascadeTerms(s, table, path, s.foreignKeys);
      if fromParents.TermsRefused? then Refused
      else Disjunction(Terms((if table in s.userScoped then [OwnerIsTenant] else []) + fromParents.terms))
  }

  function CascadeTerms(s: Schema, table: Table, path: seq<Table>, fks: seq<ForeignKey>): Terms
    requires |path| <= MAX_DEPTH
    decreases Fuel(path), |fks|
  {
    if fks == [] then Terms([])
    else
      var fk := fks[0];
      if fk.child != table || !fk.Cascades() || fk.parent == table then CascadeTerms(s, table, path, fks[1..])
      else if fk.parent in path then TermsRefused
      else Prepend(InDeleteSet(s, fk.parent, path + [table]), fk, CascadeTerms(s, table, path, fks[1..]))
  }

  // ------------------------------------------------------------ attribution

  /**
   `attributable` holds the tables for which is_attributable answers True in this run; the memo
   keeps that answer fixed for the whole run (see PurgeAttributable).
   */
  predicate Follows(attributable: set<Table>, fk: ForeignKey, table: Table, path: seq<Table>) {
    fk.child == table && fk.parent != table && fk.parent !in path && fk.parent in attributable
  }

  /** Each separate way a row can be shown to belong elsewhere. */
  function AttributionSources(s: Schema, attributable: set<Table>, table: Table, path: seq<Table>): Terms
    decreases Fuel(path), |s.foreignKeys| + 1
  {
    if |path| > MAX_DEPTH then TermsRefused
    else if table in s.userScoped then Terms([OwnerIsNotTenant])
    else ElsewhereTerms(s, attributable, table, path, s.foreignKeys)
  }

  function ElsewhereTerms(s: Schema, attributable: set<Table>, table: Table, path: seq<Table>,
                          fks: seq<ForeignKey>): Terms
    requires |path| <= MAX_DEPTH
    decreases Fuel(path), |fks|
  {
    if fks == [] then Terms([])
    else
      var rest := ElsewhereTerms(s, attributable, table, path, fks[1..]);
      if !Follows(attributable, fks[0], table, path) then rest
      else Prepend(Disjunction(AttributionSources(s, attributable, fks[0].parent, path + [table])), fks[0], rest)
  }

  /** Rows belonging to a tenant that is not the target. */
  function AttributedElsewhere(s: Schema, attributable: set<Table>, table: Table, path: seq<Table>): Built {
    Disjunction(AttributionSources(s, attributable, table, path))
  }

  /** Rows belonging to the target tenant and to no other. */
  function OwnedByTenant(s: Schema, attributable: set<Table>, table: Table, path: seq<Table>): Built
    decreases Fuel(path), |s.foreignKeys| + 1
  {
    if |path| > MAX_DEPTH then Refused
    else if table in s.userScoped then Present(OwnerIsTenant)
    else
      match Disjunction(OwnedTerms(s, attributable, table, path, s.foreignKeys))
      case Refused => Refused
      case Absent => Absent
      case Present(owned) =>
        match AttributedElsewhere(s, attributable, table, path)
        case Refused => Refused
        case Absent => Present(owned)
        case Present(foreign) => Present(ButNot(owned, foreign))
  }

  function OwnedTerms(s: Schema, attributable: set<Table>, table: Table, path: seq<Table>, fks: seq<ForeignKey>): Terms
    requires |path| <= MAX_DEPTH
    decreases Fuel(path), |fks|
  {
    if fks == [] then Terms([])
    else
      var rest := OwnedTerms(s, attributable, table, path, fks[1..]);
      if !Follows(attributable, fks[0], table, path) then rest
      else Prepend(OwnedByTenant(s, attributable, fks[0].parent, path + [table]), fks[0], rest)
  }

  // ------------------------------------------------------------ what the built terms are

  lemma {:induction false} CascadeTermsAre(s: Schema, table: Table, path: seq<Table>, fks: seq<ForeignKey>)
    requires |path| <= MAX_DEPTH && CascadeTerms(s, table, path, fks).Terms?
    ensures forall t | t in CascadeTerms(s, table, path, fks).terms ::
      t.ExistsParent? && t.fk in fks && t.fk.Cascades() && t.fk.child == table && t.fk.parent != table &&
      InDeleteSet(s, t.fk.parent, path + [table]) == Present(t.inner)
    ensures forall fk | fk in fks && fk.Cascades() && fk.child == table && fk.parent != table ::
      !InDeleteSet(s, fk.parent, path + [table]).Refused? &&
      (InDeleteSet(s, fk.parent, path + [table]).Present? ==>
        ExistsParent(fk, InDeleteSet(s, fk.parent, path + [table]).pred) in CascadeTerms(s, table, path, fks).terms)
    decreases |fks|
  {
    if fks == [] {
    } else {
      CascadeTermsAre(s, table, path, fks[1..]);
    }
  }

  lemma {:induction false} ElsewhereTermsAre(s: Schema, attributable: set<Table>, table: Table, path: seq<Table>,
                                             fks: seq<ForeignKey>)
    requires |path| <= MAX_DEPTH && ElsewhereTerms(s, attributable, table, path, fks).Terms?
    ensures forall t | t in ElsewhereTerms(s, attributable, table, path, fks).terms ::
      t.ExistsParent? && t.fk in fks && Follows(attributable, t.fk, table, path) &&
      AttributedElsewhere(s, attributable, t.fk.parent, path + [table]) == Present(t.inner)
    ensures forall fk | fk in fks && Follows(attributable, fk, table, path) ::
      !AttributedElsewhere(s, attributable, fk.parent, path + [table]).Refused? &&
      (AttributedElsewhere(s, attributable, fk.parent, path + [table]).Present? ==>
        ExistsParent(fk, AttributedElsewhere(s, attributable, fk.parent, path + [table]).pred)
          in ElsewhereTerms(s, attributable, table, path, fks).terms)
    decreases |fks|
  {
    if fks == [] {
    } else {
      ElsewhereTermsAre(s, attributable, table, path, fks[1..]);
    }
  }

  lemma {:induction false} OwnedTermsAre(s: Schema, attributable: set<Table>, table: Table, path: seq<Table>,
                                         fks: seq<ForeignKey>)
    requires |path| <= MAX_DEPTH && OwnedTerms(s, attributable, table, path, fks).Terms?
    ensures forall t | t in OwnedTerms(s, attributable, table, path, fks).terms ::
      t.ExistsParent? && t.fk in fks && Follows(attributable, t.fk, table, path) &&
      OwnedByTenant(s, attributable, t.fk.parent, path + [table]) == Present(t.inner)
    ensures forall fk | fk in fks && Follows(attributable, fk, table, path) ::
      !OwnedByTenant(s, attributable, fk.parent, path + [table]).Refused? &&
      (OwnedByTenant(s, attributable, fk.parent, path + [table]).Present? ==>
        ExistsParent(fk, OwnedByTenant(s, attributable, fk.parent, path + [table]).pred)
          in OwnedTerms(s, attributable, table, path, fks).terms)
    decreases |fks|
  {
    if fks == [] {
    } else {
      OwnedTermsAre(s, attributable, table, path, fks[1..]);
    }
  }
}
