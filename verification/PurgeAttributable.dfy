/**
 is_attributable of scripts/purge_residue_tenants.py: "can a row of this table be traced to some
 tenant at all?", answered by a walk over the foreign keys with a memo that survives between calls.
 */
module PurgeAttributable {
  import opened Sql
  import opened PurgePredicates

  /** A row of `t` can be traced to an owner in at most `n` foreign-key steps. */
  ghost predicate TracedIn(s: Schema, t: Table, n: nat)
    decreases n
  {
    t in s.userScoped ||
    (n > 0 && exists fk | fk in s.foreignKeys :: fk.child == t && fk.parent != t && TracedIn(s, fk.parent, n - 1))
  }

  ghost predicate Traceable(s: Schema, t: Table) {
    exists n: nat :: TracedIn(s, t, n)
  }

  /** No cycle of foreign keys runs through tables without a `user_id`, as `rank` witnesses. */
  ghost predicate Ranked(s: Schema, rank: Table -> nat) {
    forall fk | fk in s.foreignKeys && fk.child !in s.userScoped && fk.parent != fk.child ::
      rank(fk.parent) < rank(fk.child)
  }

  function Parents(s: Schema): set<Table> {
    set fk | fk in s.foreignKeys :: fk.parent
  }

  function Names(path: seq<Table>): set<Table> {
    set t | t in path
  }

  lemma StepIsTraceable(s: Schema, fk: ForeignKey)
    requires fk in s.foreignKeys && fk.parent != fk.child && Traceable(s, fk.parent)
    ensures Traceable(s, fk.child)
  {
    var n: nat :| TracedIn(s, fk.parent, n);
    assert TracedIn(s, fk.child, n + 1);
  }

  class Attribution {
    const schema: Schema
    var memo: map<Table, bool>

    constructor (s: Schema)
      ensures schema == s && memo == map[]
    {
      schema := s;
      memo := map[];
    }

    /** A remembered True is always right. */
    ghost predicate Sound()
      reads this
    {
      forall t | t in memo && memo[t] :: Traceable(schema, t)
    }

    /** Every remembered answer is right. */
    ghost predicate Exact()
      reads this
    {
      forall t | t in memo :: memo[t] <==> Traceable(schema, t)
    }

    /** The graph has no derived cycles, and the path so far goes down in rank. */
    ghost predicate Descends(rank: Table -> nat, path: seq<Table>, table: Table) {
      Ranked(schema, rank) && forall t | t in path :: rank(t) > rank(table)
    }

    /** No answer is forgotten or revised. */
    ghost predicate Extends(before: map<Table, bool>, after: map<Table, bool>) {
      forall t | t in before :: t in after && after[t] == before[t]
    }

    lemma ExtendsItself(m: map<Table, bool>)
      ensures Extends(m, m)
    {
    }

    lemma ExtendsTwice(a: map<Table, bool>, b: map<Table, bool>, c: map<Table, bool>)
      ensures Extends(a, b) && Extends(b, c) ==> Extends(a, c)
    {
    }

    /**
     Answers are remembered and never revised.  A True is right on every graph; on a graph without
     derived cycles every answer is exact.
     */
    method IsAttributable(table: Table, path: seq<Table>, ghost rank: Table -> nat) returns (result: bool)
      requires Sound()
      modifies this
      ensures Sound() && (result ==> Traceable(schema, table)) && Extends(old(memo), memo)
      ensures path == [] && table !in schema.userScoped ==> table in memo && memo[table] == result
      ensures Descends(rank, path, table) && old(Exact()) ==> Exact() && (result <==> Traceable(schema, table))
      decreases |Parents(schema) - Names(path)|, if table in Parents(schema) then 0 else 1, 1
    {
      if table in schema.userScoped {
        assert TracedIn(schema, table, 0);
        return true;
      }
      if table in memo {
        return memo[table];
      }
      if table in path {
        return false;
      }
      result := AnyParent(table, path, rank);
      memo := memo[table := result];
    }

    method AnyParent(table: Table, path: seq<Table>, ghost rank: Table -> nat) returns (result: bool)
      requires Sound() && table !in schema.userScoped && table !in path
      modifies this
      ensures Sound() && (result ==> Traceable(schema, table)) && Extends(old(memo), memo)
      ensures Descends(rank, path, table) && old(Exact()) ==> Exact() && (result <==> Traceable(schema, table))
      decreases |Parents(schema) - Names(path)|, if table in Parents(schema) then 0 else 1, 0
    {
      hide TracedIn, Parents, Names, Traceable, Descends, Extends, Sound, Exact, StepsTo;
      MeasureDecreases(table, path);
      ghost var descending := Descends(rank, path, table) && Exact();
      ExtendsItself(memo);
      for i := 0 to |schema.foreignKeys|
        invariant Sound() && Extends(old(memo), memo)
        invariant descending ==> Exact() && forall j | 0 <= j < i :: !StepsTo(schema.foreignKeys[j], table)
      {
        var fk := schema.foreignKeys[i];
        StepsOnlyThroughParents(fk, table);
        if fk.child == table && fk.parent != table {
          ParentsAreListed(fk);
          StepDescends(rank, fk, path);
          ghost var before := memo;
          result := IsAttributable(fk.parent, path + [table], rank);
          ExtendsTwice(old(memo), before, memo);
          if result {
            StepIsTraceable(schema, fk);
            return;
          }
        }
      }
      if descending {
        NoStepNoTrace(table);
      }
      return false;
    }

    lemma StepsOnlyThroughParents(fk: ForeignKey, table: Table)
      ensures StepsTo(fk, table) <==> fk.child == table && fk.parent != table && Traceable(schema, fk.parent)
    {
    }

    ghost predicate StepsTo(fk: ForeignKey, table: Table) {
      fk.child == table && fk.parent != table && Traceable(schema, fk.parent)
    }

    lemma StepDescends(rank: Table -> nat, fk: ForeignKey, path: seq<Table>)
      requires fk in schema.foreignKeys && fk.child !in schema.userScoped && fk.parent != fk.child
      ensures Descends(rank, path, fk.child) ==> Descends(rank, path + [fk.child], fk.parent)
    {
    }

    lemma ParentsAreListed(fk: ForeignKey)
      requires fk in schema.foreignKeys
      ensures fk.parent in Parents(schema)
    {
    }

    lemma MeasureDecreases(table: Table, path: seq<Table>)
      requires table !in path
      ensures |Parents(schema) - Names(path + [table])| <= |Parents(schema) - Names(path)|
      ensures table in Parents(schema) ==>
        |Parents(schema) - Names(path + [table])| < |Parents(schema) - Names(path)|
    {
      var left, all := Parents(schema) - Names(path + [table]), Parents(schema) - Names(path);
      if table in Parents(schema) {
        assert all == left + {table} && table !in left;
      } else {
        assert all == left;
      }
    }

    lemma NoStepNoTrace(table: Table)
      requires table !in schema.userScoped
      requires forall j | 0 <= j < |schema.foreignKeys| :: !StepsTo(schema.foreignKeys[j], table)
      ensures !Traceable(schema, table)
    {
      forall n: nat ensures !TracedIn(schema, table, n) {
        if fk :| n > 0 && fk in schema.foreignKeys && fk.child == table && fk.parent != table &&
                 TracedIn(schema, fk.parent, n - 1)
        {
          assert StepsTo(fk, table);
          assert false;
        }
      }
    }
  }

  // ------------------------------------------------------------ closure tables always have an owner

  lemma {:induction false} DeleteTableIsTraceable(s: Schema, table: Table, path: seq<Table>)
    requires InDeleteSet(s, table, path).Present?
    ensures Traceable(s, table)
    decreases Fuel(path)
  {
    if table in s.userScoped {
      assert TracedIn(s, table, 0);
    } else {
      CascadeTermsAre(s, table, path, s.foreignKeys);
      var t := CascadeTerms(s, table, path, s.foreignKeys).terms[0];
      assert t in CascadeTerms(s, table, path, s.foreignKeys).terms;
      DeleteTableIsTraceable(s, t.fk.parent, path + [table]);
      StepIsTraceable(s, t.fk);
    }
  }

  /** With exact attribution the "no ownership predicate" refusal never fires on a closure table. */
  lemma {:induction false} DeleteTableHasOwner(s: Schema, attributable: set<Table>, table: Table, path: seq<Table>)
    requires InDeleteSet(s, table, path).Present?
    requires forall t | Traceable(s, t) :: t in attributable
    ensures !OwnedByTenant(s, attributable, table, path).Absent?
    decreases Fuel(path)
  {
    if table !in s.userScoped && OwnedTerms(s, attributable, table, path, s.foreignKeys).Terms? {
      CascadeTermsAre(s, table, path, s.foreignKeys);
      OwnedTermsAre(s, attributable, table, path, s.foreignKeys);
      var t := CascadeTerms(s, table, path, s.foreignKeys).terms[0];
      assert t in CascadeTerms(s, table, path, s.foreignKeys).terms;
      CascadeStaysOffPath(s, table, path, s.foreignKeys, t.fk);
      DeleteTableIsTraceable(s, t.fk.parent, path + [table]);
      DeleteTableHasOwner(s, attributable, t.fk.parent, path + [table]);
      assert ExistsParent(t.fk, OwnedByTenant(s, attributable, t.fk.parent, path + [table]).pred)
        in OwnedTerms(s, attributable, table, path, s.foreignKeys).terms;
    }
  }

  lemma {:induction false} CascadeStaysOffPath(s: Schema, table: Table, path: seq<Table>, fks: seq<ForeignKey>,
                                               fk: ForeignKey)
    requires |path| <= MAX_DEPTH && CascadeTerms(s, table, path, fks).Terms?
    requires fk in fks && fk.Cascades() && fk.child == table && fk.parent != table
    ensures fk.parent !in path
    decreases |fks|
  {
    if fk != fks[0] {
      CascadeStaysOffPath(s, table, path, fks[1..], fk);
    }
  }
}
