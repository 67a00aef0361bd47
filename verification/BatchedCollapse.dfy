/**
 The batched duplicate deletes of alembic/versions/040_plays_nulls_not_distinct.py and
 alembic/versions/044_track_mappings_supersession.py: delete up to a batch of rows that have a
 keeper with a lower id, until a round deletes none.  Which rows a LIMIT picks is arbitrary.
 */
module BatchedCollapse {
  import opened Wrappers
  import opened Ids

  const BATCH_SIZE: nat := 10_000

  datatype Key =
    | PlayKey(user: string, subject: string, service: string, playedAt: int)  // track_plays, connector_plays
    | LiveKey(owner: string, connectorTrack: Id, connector: string)           // track_mappings

  /** A row's key columns and its nullable `ms_played`; a mapping has no such column. */
  datatype Row = Row(key: Key, msPlayed: Option<int>)

  type Rows = map<Id, Row>

  /** `keeper` is an exact duplicate of `doomed`, both without `ms_played`, and has the lower id. */
  predicate Keeps(rows: Rows, keeper: Id, doomed: Id) {
    keeper in rows && doomed in rows && rows[doomed].msPlayed.None? && rows[keeper] == rows[doomed] &&
      keeper.n < doomed.n
  }

  predicate IsDoomed(rows: Rows, d: Id) {
    exists k | k in rows :: Keeps(rows, k, d)
  }

  function Doomed(rows: Rows): set<Id> {
    set d | d in rows && IsDoomed(rows, d)
  }

  /** The lowest id of every group of duplicates, and every row that has `ms_played`. */
  function Kept(rows: Rows): Rows {
    rows - Doomed(rows)
  }

  /** Every doomed row has a keeper that is not doomed itself. */
  lemma GroupHasKeeper(rows: Rows, d: Id) returns (k: Id)
    requires IsDoomed(rows, d)
    ensures Keeps(rows, k, d) && !IsDoomed(rows, k)
  {
    var keepers := set x | x in rows && Keeps(rows, x, d);
    var better :| better in rows && Keeps(rows, better, d);
    assert better in keepers;
    k := Least(keepers);
  }

  /** A partial collapse: only doomed rows are gone. */
  ghost predicate Collapsing(rows0: Rows, rows: Rows) {
    (forall x | x in rows :: x in rows0 && rows[x] == rows0[x]) &&
    (forall x | x in rows0 && !IsDoomed(rows0, x) :: x in rows)
  }

  /** Whatever the batch, even when it takes a row's keeper too, the lowest row of each group stays. */
  lemma BatchKeepsCollapsing(rows0: Rows, rows: Rows, batch: set<Id>)
    requires Collapsing(rows0, rows) && batch <= Doomed(rows)
    ensures Collapsing(rows0, rows - batch)
  {
  }

  /** A doomed row that is still there is still doomed: its lowest keeper has not gone. */
  lemma KeeperIsStillThere(rows0: Rows, rows: Rows, x: Id)
    requires Collapsing(rows0, rows) && x in rows && IsDoomed(rows0, x)
    ensures x in Doomed(rows)
  {
    var k := GroupHasKeeper(rows0, x);
    assert Keeps(rows, k, x);
  }

  /** With nothing left to delete, exactly the keepers are left. */
  lemma CollapseEnds(rows0: Rows, rows: Rows)
    requires Collapsing(rows0, rows) && Doomed(rows) == {}
    ensures rows == Kept(rows0)
  {
    forall x | x in rows ensures !IsDoomed(rows0, x) {
      if IsDoomed(rows0, x) {
        KeeperIsStillThere(rows0, rows, x);
      }
    }
    assert rows.Keys == Kept(rows0).Keys;
  }

  /** No two keepers without `ms_played` share a key, and each group of the start keeps one. */
  lemma KeptIsOnePerKey(rows: Rows)
    ensures forall a, b | a in Kept(rows) && b in Kept(rows) && rows[a] == rows[b] && rows[a].msPlayed.None? :: a == b
    ensures forall d | d in rows :: exists k :: k in Kept(rows) && rows[k] == rows[d] && k.n <= d.n
  {
    forall a, b | a in Kept(rows) && b in Kept(rows) && rows[a] == rows[b] && rows[a].msPlayed.None? ensures a == b {
      assert !Keeps(rows, a, b) && !Keeps(rows, b, a);
    }
    forall d | d in rows ensures exists k :: k in Kept(rows) && rows[k] == rows[d] && k.n <= d.n {
      if IsDoomed(rows, d) {
        var k := GroupHasKeeper(rows, d);
      } else {
        assert d in Kept(rows);
      }
    }
  }

  ghost predicate IsLowerTwin(before: Rows, after: Rows, k: Id, d: Id) {
    k in after && d in before && k.n < d.n && after[k] == before[d]
  }

  /**
   In columns: only rows without `ms_played` go, each for an equal row with a lower id, and no two equal
   ones stay.
   */
  ghost predicate LowestStay(before: Rows, after: Rows) {
    (forall x | x in after :: x in before && after[x] == before[x]) &&
    (forall d | d in before && d !in after ::
      before[d].msPlayed == None && exists k :: IsLowerTwin(before, after, k, d)) &&
    (forall a, b | a in after && b in after && after[a].msPlayed == None && after[b].msPlayed == None &&
      after[a].key == after[b].key :: a == b)
  }

  lemma GoneHasTwin(rows: Rows, d: Id)
    requires d in rows && d !in Kept(rows)
    ensures rows[d].msPlayed == None && exists k :: IsLowerTwin(rows, Kept(rows), k, d)
  {
    var k := GroupHasKeeper(rows, d);
    assert IsLowerTwin(rows, Kept(rows), k, d);
  }

  lemma KeptHaveNoTwin(rows: Rows, a: Id, b: Id)
    requires a in Kept(rows) && b in Kept(rows)
    requires rows[a].msPlayed == None && rows[b].msPlayed == None && rows[a].key == rows[b].key
    ensures a == b
  {
    assert rows[a] == rows[b];
    assert !Keeps(rows, a, b) && !Keeps(rows, b, a);
  }

  lemma KeptAreLowest(rows: Rows)
    ensures LowestStay(rows, Kept(rows))
  {
    assert forall x | x in Kept(rows) :: x in rows && Kept(rows)[x] == rows[x];
    hide Kept, IsLowerTwin;
    var after := Kept(rows);
    forall d | d in rows && d !in after
      ensures rows[d].msPlayed == None && exists k :: IsLowerTwin(rows, after, k, d)
    {
      GoneHasTwin(rows, d);
    }
    forall a, b | a in after && b in after && after[a].msPlayed == None && after[b].msPlayed == None &&
      after[a].key == after[b].key
      ensures a == b
    {
      KeptHaveNoTwin(rows, a, b);
    }
  }

  // ------------------------------------------------------------ LIMIT

  predicate IsBatch(all: set<Id>, batch: set<Id>) {
    batch <= all && |batch| == if |all| < BATCH_SIZE then |all| else BATCH_SIZE
  }

  lemma {:induction false} SubsetOfSize(all: set<Id>, n: nat) returns (part: set<Id>)
    requires n <= |all|
    ensures part <= all && |part| == n
    decreases |all| - n
  {
    if n == |all| {
      part := all;
    } else {
      part := SubsetOfSize(all, n + 1);
      var x :| x in part;
      part := part - {x};
    }
  }

  /** Some rows of `all`, as many as the limit allows. */
  method PickBatch(all: set<Id>) returns (batch: set<Id>)
    ensures IsBatch(all, batch) && (batch == {} <==> all == {})
  {
    ghost var part := SubsetOfSize(all, if |all| < BATCH_SIZE then |all| else BATCH_SIZE);
    assert IsBatch(all, part);
    batch :| batch <= all && IsBatch(all, batch);
  }

  // ------------------------------------------------------------ 040: play rows with NULL ms_played

  /** The old constraint: NULLs are distinct, so it only binds rows with a value. */
  ghost predicate UniqueNullsDistinct(rows: Rows) {
    forall a, b | a in rows && b in rows && rows[a] == rows[b] && rows[a].msPlayed.Some? :: a == b
  }

  /** The rebuilt constraint: NULL equals NULL. */
  ghost predicate UniqueNullsNotDistinct(rows: Rows) {
    forall a, b | a in rows && b in rows && rows[a] == rows[b] :: a == b
  }

  /** The rebuild succeeds on the collapsed table. */
  lemma RebuildSucceeds(rows: Rows)
    requires UniqueNullsDistinct(rows)
    ensures UniqueNullsNotDistinct(Kept(rows))
  {
  }

  /** Before the collapse it succeeds exactly when there is nothing to collapse. */
  lemma RebuildNeedsCollapse(rows: Rows)
    requires UniqueNullsDistinct(rows)
    ensures UniqueNullsNotDistinct(rows) <==> Doomed(rows) == {}
  {
    if Doomed(rows) == {} {
      assert Kept(rows) == rows;
      RebuildSucceeds(rows);
    } else {
      var d :| d in Doomed(rows);
      var k :| k in rows && Keeps(rows, k, d);
      assert rows[k] == rows[d] && k != d;
    }
  }

  lemma FewerRows(rows: Rows, gone: set<Id>)
    requires gone <= rows.Keys
    ensures |(rows - gone).Keys| == |rows.Keys| - |gone|
  {
  }

  class KeyedTable {
    var rows: Rows

    constructor (rows: Rows)
      ensures this.rows == rows
    {
      this.rows := rows;
    }

    /** One batched DELETE; returns its rowcount. */
    method DeleteBatch(ghost rows0: Rows) returns (deleted: nat)
      requires Collapsing(rows0, rows)
      modifies this
      ensures Collapsing(rows0, rows)
      ensures |rows.Keys| == |old(rows).Keys| - deleted
      ensures deleted == 0 ==> Doomed(rows) == {}
    {
      var batch := PickBatch(Doomed(rows));
      BatchKeepsCollapsing(rows0, rows, batch);
      FewerRows(rows, batch);
      assert batch == {} ==> rows - batch == rows;
      rows := rows - batch;
      deleted := |batch|;
    }

    /** For every choice of batches, exactly the lowest id of every NULL-ms group stays. */
    method CollapseDuplicates() returns (total: nat)
      modifies this
      ensures rows == Kept(old(rows)) && LowestStay(old(rows), rows)
      ensures total == |old(rows).Keys| - |rows.Keys|
      ensures UniqueNullsDistinct(old(rows)) ==> UniqueNullsNotDistinct(rows)
    {
      total := 0;
      while true
        invariant Collapsing(old(rows), rows) && total == |old(rows).Keys| - |rows.Keys|
        decreases |rows.Keys|
      {
        var deleted := DeleteBatch(old(rows));
        total := total + deleted;
        if deleted == 0 {
          CollapseEnds(old(rows), rows);
          KeptAreLowest(old(rows));
          if UniqueNullsDistinct(old(rows)) {
            RebuildSucceeds(old(rows));
          }
          return;
        }
      }
    }
  }
}
