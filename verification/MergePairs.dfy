/**
 Merge mode of scripts/reown_cross_tenant_tracks.py, up to the call of the merge service: the loser's
 mappings that the user already holds on the winner are retired into them, the rest change owner.
 */
module MergePairs {
  import opened Wrappers
  import opened Ids
  import opened Tenancy
  import opened Reown

  /** A planned pair; `owner` is the loser's owner as the plan read it. */
  datatype Pair = Pair(user: string, winner: Id, loser: Id, owner: string)

  /** On the locked rows: the winner is the user's, the loser somebody else's. */
  ghost predicate IsStillValid(rows: Rows, p: Pair) {
    && p.winner in rows && rows[p.winner].content.Track? && rows[p.winner].user == p.user
    && p.loser in rows && rows[p.loser].content.Track? && rows[p.loser].user != p.user
  }

  method AssertPairStillValid(rows: Rows, p: Pair) returns (ok: bool)
    ensures ok <==> IsStillValid(rows, p)
  {
    var owners := map x | x in {p.winner, p.loser} && x in rows && rows[x].content.Track? :: rows[x].user;
    if p.winner !in owners || owners[p.winner] != p.user {
      return false;
    }
    return p.loser in owners && owners[p.loser] != p.user;
  }

  // ------------------------------------------------------------ the refusals about these tables

  predicate IsOnLoser(rows: Rows, p: Pair, x: Id) {
    x in rows && rows[x].content.Mapping? && rows[x].content.track == p.loser
  }

  /** left_third_tenant_companions: a mapping or metric of neither end of the pair. */
  ghost predicate HasThirdTenant(rows: Rows, p: Pair) {
    exists x | x in rows :: (rows[x].content.Mapping? || rows[x].content.Metric?) && rows[x].content.track == p.loser
      && rows[x].user != p.user && rows[x].user != p.owner
  }

  /** The user's own live mapping of the same connector track, on some track other than the winner. */
  ghost predicate ClaimsElsewhere(rows: Rows, p: Pair, lm: Id, mine: Id) {
    IsOnLoser(rows, p, lm) && IsLive(rows[lm].content) &&
    mine in rows && rows[mine].user == p.user && IsLive(rows[mine].content) && rows[mine].content.track != p.winner &&
    rows[mine].content.connectorTrack == rows[lm].content.connectorTrack &&
    rows[mine].content.connector == rows[lm].content.connector
  }

  /** clash_mapping_claimed_elsewhere.  `lm` is not limited to the loser's owner. */
  ghost predicate IsClaimedElsewhere(rows: Rows, p: Pair) {
    exists lm, mine :: ClaimsElsewhere(rows, p, lm, mine)
  }

  /** unsafe_match_reviews and unsafe_resolution_negatives: rows the loser's delete would take along. */
  ghost predicate WouldCascade(rows: Rows, p: Pair) {
    exists x | x in rows :: (rows[x].content.Review? && rows[x].content.track == p.loser)
                         || (rows[x].content.Negative? && rows[x].content.candidate == Some(p.loser))
  }

  /** assert_nothing_will_cascade counts both tables on the loser. */
  method AssertNothingWillCascade(rows: Rows, p: Pair) returns (ok: bool)
    ensures ok <==> !WouldCascade(rows, p)
  {
    var reviews := set x | x in rows && rows[x].content.Review? && rows[x].content.track == p.loser;
    var negatives := set x | x in rows && rows[x].content.Negative? && rows[x].content.candidate == Some(p.loser);
    ok := reviews == {} && negatives == {};
    assert forall x | x in rows :: x !in reviews && x !in negatives ==>
      !(rows[x].content.Review? && rows[x].content.track == p.loser) &&
      !(rows[x].content.Negative? && rows[x].content.candidate == Some(p.loser));
  }

  ghost predicate IsRefused(rows: Rows, p: Pair) {
    HasThirdTenant(rows, p) || IsClaimedElsewhere(rows, p) || WouldCascade(rows, p)
  }

  /** A live mapping the user holds on the loser itself is its own clash. */
  lemma OwnMappingOnLoserRefuses(rows: Rows, p: Pair, x: Id)
    requires p.winner != p.loser && IsOnLoser(rows, p, x) && rows[x].user == p.user && IsLive(rows[x].content)
    ensures IsClaimedElsewhere(rows, p)
  {
    assert ClaimsElsewhere(rows, p, x, x);
  }

  // ------------------------------------------------------------ the conflating UPDATE

  /** The user's live mappings on the winner that name the same connector track as `x`. */
  function Successors(rows: Rows, p: Pair, x: Id): set<Id>
    requires x in rows && rows[x].content.Mapping?
  {
    set w | w in rows && rows[w].user == p.user && IsLive(rows[w].content) && rows[w].content.track == p.winner
      && rows[w].content.connectorTrack == rows[x].content.connectorTrack
      && rows[w].content.connector == rows[x].content.connector
  }

  /** DISTINCT ON (connector track, connector) ... ORDER BY is_primary DESC, id. */
  function Successor(rows: Rows, p: Pair, x: Id): (w: Id)
    requires x in rows && rows[x].content.Mapping? && Successors(rows, p, x) != {}
    ensures w in Successors(rows, p, x)
  {
    var all := Successors(rows, p, x);
    var primaries := set w | w in all && rows[w].content.Mapping? && rows[w].content.primary;
    if primaries != {} then Least(primaries) else Least(all)
  }

  /** The rows the conflating UPDATE selects. */
  function Conflatable(rows: Rows, p: Pair): set<Id> {
    set x | x in rows && IsOnLoser(rows, p, x) && rows[x].user == p.owner && IsLive(rows[x].content)
      && Successors(rows, p, x) != {}
  }

  function Retired(rows: Rows, p: Pair, now: int, x: Id): Row
    requires x in Conflatable(rows, p)
  {
    Row(p.user, rows[x].content.(supersededAt := Some(now), reason := Some("conflation"),
                                 supersededBy := Some(Successor(rows, p, x)), primary := false))
  }

  /** The table once the rows in `part` have been written. */
  function Conflated(rows: Rows, p: Pair, now: int, part: set<Id>): Rows
    requires part <= Conflatable(rows, p)
  {
    map x | x in rows :: if x in part then Retired(rows, p, now, x) else rows[x]
  }

  /** A retired row leaves both partial indexes, so no order of row writes can collide. */
  lemma ConflatingKeepsUnique(rows: Rows, p: Pair, now: int, part: set<Id>)
    requires Unique(rows) && Coherent(rows) && part <= Conflatable(rows, p)
    ensures Unique(Conflated(rows, p, now, part)) && Coherent(Conflated(rows, p, now, part))
  {
    var after := Conflated(rows, p, now, part);
    forall a, b ensures !Collide(after, a, b) {
      if Collide(after, a, b) {
        KeptRowsCollidedBefore(rows, p, now, part, a, b);
      }
    }
    forall x | x in after ensures IsCoherent(after[x].content) {
      assert IsCoherent(rows[x].content);
    }
  }

  lemma KeptRowsCollidedBefore(rows: Rows, p: Pair, now: int, part: set<Id>, a: Id, b: Id)
    requires part <= Conflatable(rows, p) && Collide(Conflated(rows, p, now, part), a, b)
    ensures Collide(rows, a, b)
  {
  }

  datatype Edge = Edge(predecessor: Id, successor: Id, user: string, connector: string)

  function EdgeOf(rows: Rows, p: Pair, x: Id): Edge
    requires x in Conflatable(rows, p)
  {
    Edge(x, Successor(rows, p, x), p.user, rows[x].content.connector)
  }

  // ------------------------------------------------------------ what the recorded edges say, in columns

  /** A mapping of `user` on `track` that nothing has superseded. */
  ghost predicate LiveClaim(rows: Rows, x: Id, user: string, track: Id) {
    x in rows && rows[x].user == user && rows[x].content.Mapping? && rows[x].content.supersededAt.None? &&
    rows[x].content.track == track
  }

  ghost predicate ClaimTheSame(rows: Rows, x: Id, w: Id) {
    x in rows && w in rows && rows[x].content.Mapping? && rows[w].content.Mapping? &&
    rows[x].content.connectorTrack == rows[w].content.connectorTrack &&
    rows[x].content.connector == rows[w].content.connector
  }

  /** The edge leads from a claim on the loser, retired now, to the user's own claim on the winner, which stays. */
  ghost predicate Records(before: Rows, after: Rows, p: Pair, now: int, e: Edge) {
    LiveClaim(before, e.predecessor, p.owner, p.loser) && LiveClaim(before, e.successor, p.user, p.winner) &&
    ClaimTheSame(before, e.predecessor, e.successor) &&
    e.user == p.user && e.connector == before[e.predecessor].content.connector &&
    e.predecessor in after && e.successor in after && after[e.successor] == before[e.successor] &&
    after[e.predecessor] == Row(p.user, before[e.predecessor].content.(
      supersededAt := Some(now), reason := Some("conflation"), supersededBy := Some(e.successor), primary := false))
  }

  ghost predicate HasEdge(edges: set<Edge>, x: Id) {
    exists e | e in edges :: e.predecessor == x
  }

  /** One edge for each claim on the loser that the user also makes on the winner, and for no other row. */
  ghost predicate EdgesRecord(before: Rows, after: Rows, p: Pair, now: int, edges: set<Edge>) {
    (forall e | e in edges :: Records(before, after, p, now, e)) &&
    (forall e, f | e in edges && f in edges && e.predecessor == f.predecessor :: e == f) &&
    (forall x, w | LiveClaim(before, x, p.owner, p.loser) && LiveClaim(before, w, p.user, p.winner) &&
      ClaimTheSame(before, x, w) :: HasEdge(edges, x))
  }

  /** Rows without an edge keep their content; those of `tables` about the loser change hands. */
  ghost predicate RestChangesHands(before: Rows, after: Rows, p: Pair, edges: set<Edge>, tables: set<Table>) {
    after.Keys == before.Keys &&
    forall x | x in before && !HasEdge(edges, x) ::
      after[x].content == before[x].content &&
      after[x].user ==
        if before[x].user == p.owner && ((before[x].content.Mapping? && Mappings in tables) ||
                                         (before[x].content.Metric? && Metrics in tables)) &&
           before[x].content.track == p.loser
        then p.user else before[x].user
  }

  lemma EdgeIffConflatable(rows: Rows, p: Pair, x: Id)
    ensures HasEdge(Edges(rows, p, Conflatable(rows, p)), x) <==> x in Conflatable(rows, p)
  {
    if x in Conflatable(rows, p) {
      assert EdgeOf(rows, p, x) in Edges(rows, p, Conflatable(rows, p));
    }
  }

  /** A row keeps what the conflating UPDATE gave it for as long as it keeps its content and its owner. */
  lemma EdgesAreRecorded(rows: Rows, p: Pair, now: int, after: Rows)
    requires p.owner != p.user && after.Keys == rows.Keys
    requires forall x | x in rows && rows[x].content.Mapping? &&
      (x in Conflatable(rows, p) || rows[x].user == p.user) ::
      after[x] == Conflated(rows, p, now, Conflatable(rows, p))[x]
    ensures EdgesRecord(rows, after, p, now, Edges(rows, p, Conflatable(rows, p)))
  {
    var all := Conflatable(rows, p);
    forall e | e in Edges(rows, p, all) ensures Records(rows, after, p, now, e) && e == EdgeOf(rows, p, e.predecessor) {
      var x :| x in all && EdgeOf(rows, p, x) == e;
      assert e.successor in Successors(rows, p, x);
    }
    forall x, w | LiveClaim(rows, x, p.owner, p.loser) && LiveClaim(rows, w, p.user, p.winner) &&
      ClaimTheSame(rows, x, w)
      ensures HasEdge(Edges(rows, p, all), x)
    {
      assert w in Successors(rows, p, x);
      EdgeIffConflatable(rows, p, x);
    }
  }

  lemma RestIsConflated(rows: Rows, p: Pair, now: int)
    ensures RestChangesHands(rows, Conflated(rows, p, now, Conflatable(rows, p)), p,
                             Edges(rows, p, Conflatable(rows, p)), {})
  {
    forall x ensures HasEdge(Edges(rows, p, Conflatable(rows, p)), x) <==> x in Conflatable(rows, p) {
      EdgeIffConflatable(rows, p, x);
    }
  }

  /** One row write that the indexes accept. */
  method Write(db: Store, x: Id, row: Row)
    requires x in db.rows && Unique(db.rows) && Unique(db.rows[x := row])
    modifies db
    ensures db.rows == old(db.rows)[x := row]
  {
    db.rows := db.rows[x := row];
  }

  /** The conflating UPDATE, row by row in any order, on the successors of the statement's snapshot. */
  method Conflate(db: Store, p: Pair, now: int) returns (edges: set<Edge>)
    requires Unique(db.rows) && Coherent(db.rows) && p.owner != p.user
    modifies db
    ensures db.rows == Conflated(old(db.rows), p, now, Conflatable(old(db.rows), p))
    ensures edges == Edges(old(db.rows), p, Conflatable(old(db.rows), p))
    ensures Unique(db.rows) && Coherent(db.rows)
    ensures EdgesRecord(old(db.rows), db.rows, p, now, edges)
    ensures RestChangesHands(old(db.rows), db.rows, p, edges, {})
  {
    var before := db.rows;
    var all := Conflatable(before, p);
    var todo := all;
    edges := {};
    assert db.rows == Conflated(before, p, now, all - todo);
    hide *;
    NoEdges(before, p);
    while todo != {}
      invariant todo <= all == Conflatable(before, p) && Unique(db.rows)
      invariant db.rows == Conflated(before, p, now, all - todo)
      invariant edges == Edges(before, p, all - todo)
    {
      var x :| x in todo;
      ConflateStep(before, p, now, todo, x);
      Write(db, x, Retired(before, p, now, x));
      edges := edges + {EdgeOf(before, p, x)};
      todo := todo - {x};
    }
    assert all - todo == all;
    ConflatingKeepsUnique(before, p, now, all);
    ConflatedKeys(before, p, now);
    EdgesAreRecorded(before, p, now, db.rows);
    RestIsConflated(before, p, now);
  }

  lemma ConflatedKeys(rows: Rows, p: Pair, now: int)
    ensures Conflated(rows, p, now, Conflatable(rows, p)).Keys == rows.Keys
  {
  }

  function Edges(rows: Rows, p: Pair, part: set<Id>): set<Edge>
    requires part <= Conflatable(rows, p)
  {
    set x | x in part :: EdgeOf(rows, p, x)
  }

  lemma NoEdges(rows: Rows, p: Pair)
    ensures Edges(rows, p, Conflatable(rows, p) - Conflatable(rows, p)) == {}
  {
  }

  lemma ConflateStep(rows: Rows, p: Pair, now: int, todo: set<Id>, x: Id)
    requires Unique(rows) && Coherent(rows) && todo <= Conflatable(rows, p) && x in todo
    ensures var all := Conflatable(rows, p);
      var so := Conflated(rows, p, now, all - todo);
      && x in so && so[x := Retired(rows, p, now, x)] == Conflated(rows, p, now, all - (todo - {x}))
      && Unique(so[x := Retired(rows, p, now, x)])
      && Edges(rows, p, all - (todo - {x})) == Edges(rows, p, all - todo) + {EdgeOf(rows, p, x)}
  {
    hide Unique, Coherent;
    var all := Conflatable(rows, p);
    assert all - (todo - {x}) == (all - todo) + {x};
    var so, next := Conflated(rows, p, now, all - todo), Conflated(rows, p, now, all - (todo - {x}));
    assert so[x := Retired(rows, p, now, x)] == next;
    ConflatingKeepsUnique(rows, p, now, all - (todo - {x}));
  }

  // ------------------------------------------------------------ then the plain re-own

  /** After the conflation the loser's remaining rows fit under the user, if the pair was not refused. */
  lemma RestFits(rows: Rows, p: Pair, now: int)
    requires Unique(rows) && Coherent(rows) && IsStillValid(rows, p) && p.winner != p.loser && p.owner != p.user
    requires !IsClaimedElsewhere(rows, p)
    ensures var mid := Conflated(rows, p, now, Conflatable(rows, p));
      Unique(Moved(mid, Matching(mid, Mappings, p.owner, {p.loser}), p.user))
  {
    hide Unique;
    var mid := Conflated(rows, p, now, Conflatable(rows, p));
    var rest := Matching(mid, Mappings, p.owner, {p.loser});
    ConflatingKeepsUnique(rows, p, now, Conflatable(rows, p));
    forall x, y | x in rest ensures !Blocks(mid, p.user, x, y) {
      if Blocks(mid, p.user, x, y) {
        BlockerIsClaim(rows, p, now, x, y);
      }
    }
    assert NothingBlocks(mid, rest, p.user);
    FitsIffNothingBlocks(mid, rest, p.owner, p.user);
  }

  lemma BlockerIsClaim(rows: Rows, p: Pair, now: int, x: Id, y: Id)
    requires IsStillValid(rows, p) && p.winner != p.loser && p.owner != p.user
    requires var mid := Conflated(rows, p, now, Conflatable(rows, p));
      x in Matching(mid, Mappings, p.owner, {p.loser}) && Blocks(mid, p.user, x, y)
    ensures IsClaimedElsewhere(rows, p)
  {
    var mid := Conflated(rows, p, now, Conflatable(rows, p));
    var c, d := mid[x].content, mid[y].content;
    ShareEntryIsShareKey(c, d);
    assert x !in Conflatable(rows, p) && mid[x] == rows[x] && mid[y] == rows[y];
    assert IsLive(c) && IsLive(d) && IsOnLoser(rows, p, x) && rows[y].user == p.user;
    if d.connectorTrack == c.connectorTrack {
      assert y !in Successors(rows, p, x) && d.track != p.winner;
      assert ClaimsElsewhere(rows, p, x, y);
    } else {
      OwnMappingOnLoserRefuses(rows, p, y);
    }
  }

  /** The state in which the merge service is called. */
  function HandedOver(rows: Rows, p: Pair, now: int): Rows {
    var mid := Conflated(rows, p, now, Conflatable(rows, p));
    var owned := Moved(mid, Matching(mid, Mappings, p.owner, {p.loser}), p.user);
    Moved(owned, Matching(owned, Metrics, p.owner, {p.loser}), p.user)
  }

  /** Nothing on the loser is left to its old owner, nor to anyone but the user. */
  lemma NothingForeignRemains(rows: Rows, p: Pair, now: int, x: Id)
    requires IsStillValid(rows, p) && !HasThirdTenant(rows, p) && x in rows
    ensures var after := HandedOver(rows, p, now);
      && x in after
      && ((after[x].content.Mapping? || after[x].content.Metric?) && after[x].content.track == p.loser ==>
        after[x].user == p.user)
  {
  }

  /** `y` is a live mapping of the user that says what `c` says. */
  ghost predicate Speaks(rows: Rows, p: Pair, c: Content, y: Id) {
    c.Mapping? && y in rows && rows[y].user == p.user && IsLive(rows[y].content) &&
    rows[y].content.connectorTrack == c.connectorTrack && rows[y].content.connector == c.connector
  }

  /**
   No identity is lost: every live claim the loser's owner made is afterwards a live claim of the
   user, either the same row or the user's own row on the winner, into which it was retired.
   */
  lemma EveryClaimSurvives(rows: Rows, p: Pair, now: int, x: Id)
    requires IsStillValid(rows, p) && IsOnLoser(rows, p, x) && rows[x].user == p.owner && IsLive(rows[x].content)
    ensures var after := HandedOver(rows, p, now);
      x in after && after[x].content.Mapping? &&
      if x in Conflatable(rows, p)
      then after[x].content.supersededBy.Some? && Speaks(after, p, rows[x].content, after[x].content.supersededBy.value)
           && after[after[x].content.supersededBy.value] == rows[after[x].content.supersededBy.value]
      else Speaks(after, p, rows[x].content, x) && after[x].content == rows[x].content
  {
  }

  /** Only the loser's mappings and metrics change. */
  lemma NothingElseChanges(rows: Rows, p: Pair, now: int, x: Id)
    requires x in rows && x !in Matching(rows, Mappings, p.owner, {p.loser}) &&
      x !in Matching(rows, Metrics, p.owner, {p.loser})
    ensures var after := HandedOver(rows, p, now); x in after && after[x] == rows[x]
  {
  }

  lemma HandedOverKeeps(rows: Rows, p: Pair, now: int)
    requires p.owner != p.user
    ensures var after := HandedOver(rows, p, now);
      after.Keys == rows.Keys &&
      forall x | x in rows && rows[x].content.Mapping? && (x in Conflatable(rows, p) || rows[x].user == p.user) ::
        after[x] == Conflated(rows, p, now, Conflatable(rows, p))[x]
  {
    hide Successors, IsOnLoser, Successor;
  }

  lemma RestIsHandedOver(rows: Rows, p: Pair, now: int)
    requires p.owner != p.user
    ensures var edges := Edges(rows, p, Conflatable(rows, p));
      RestChangesHands(rows, HandedOver(rows, p, now), p, edges, {Mappings, Metrics})
  {
    hide Edges, Retired, HasEdge;
    forall x ensures HasEdge(Edges(rows, p, Conflatable(rows, p)), x) <==> x in Conflatable(rows, p) {
      EdgeIffConflatable(rows, p, x);
    }
  }

  lemma HandedOverInColumns(rows: Rows, p: Pair, now: int)
    requires p.owner != p.user
    ensures var after, edges := HandedOver(rows, p, now), Edges(rows, p, Conflatable(rows, p));
      EdgesRecord(rows, after, p, now, edges) && RestChangesHands(rows, after, p, edges, {Mappings, Metrics})
  {
    hide *;
    HandedOverKeeps(rows, p, now);
    EdgesAreRecorded(rows, p, now, HandedOver(rows, p, now));
    RestIsHandedOver(rows, p, now);
  }

  /** The rows the second and third UPDATE count. */
  lemma CountsInColumns(rows: Rows, p: Pair, now: int)
    requires p.owner != p.user
    ensures var mid, edges := Conflated(rows, p, now, Conflatable(rows, p)), Edges(rows, p, Conflatable(rows, p));
      Matching(mid, Mappings, p.owner, {p.loser}) == OnLoser(rows, p, Mappings, edges) &&
      Matching(Moved(mid, Matching(mid, Mappings, p.owner, {p.loser}), p.user), Metrics, p.owner, {p.loser})
        == OnLoser(rows, p, Metrics, edges)
  {
    forall x ensures HasEdge(Edges(rows, p, Conflatable(rows, p)), x) <==> x in Conflatable(rows, p) {
      EdgeIffConflatable(rows, p, x);
    }
  }

  /** The loser owner's rows of a table about the loser, those with an edge apart. */
  ghost function OnLoser(rows: Rows, p: Pair, table: Table, edges: set<Edge>): set<Id> {
    set x | x in rows && rows[x].user == p.owner && !HasEdge(edges, x) &&
            ((table == Mappings && rows[x].content.Mapping? && rows[x].content.track == p.loser) ||
             (table == Metrics && rows[x].content.Metric? && rows[x].content.track == p.loser))
  }

  datatype Outcome = Ready(edges: set<Edge>, mappings: nat, metrics: nat) | Stopped

  /** merge_pair up to the merge service, as one transaction: a refused step undoes everything. */
  method MergePair(db: Store, p: Pair, now: int) returns (outcome: Outcome)
    requires Unique(db.rows) && Coherent(db.rows) && p.winner != p.loser && p.owner != p.user
    modifies db
    ensures outcome.Ready? <==>
      IsStillValid(old(db.rows), p) && !WouldCascade(old(db.rows), p) && Unique(HandedOver(old(db.rows), p, now))
    ensures IsStillValid(old(db.rows), p) && !IsRefused(old(db.rows), p) ==> outcome.Ready?
    ensures db.rows == if outcome.Ready? then HandedOver(old(db.rows), p, now) else old(db.rows)
    ensures Unique(db.rows)
    // The same in columns.
    ensures outcome.Ready? ==> EdgesRecord(old(db.rows), db.rows, p, now, outcome.edges)
    ensures outcome.Ready? ==> RestChangesHands(old(db.rows), db.rows, p, outcome.edges, {Mappings, Metrics})
    ensures outcome.Ready? ==> outcome.mappings == |OnLoser(old(db.rows), p, Mappings, outcome.edges)|
    ensures outcome.Ready? ==> outcome.metrics == |OnLoser(old(db.rows), p, Metrics, outcome.edges)|
  {
    var before := db.rows;
    var valid := AssertPairStillValid(before, p);
    if !valid {
      return Stopped;
    }
    hide *;
    var edges := Conflate(db, p, now);
    ReownFits(before, p, now);
    IsHandedOver(before, p, now);
    FitsAsAWhole(before, p, now);
    CountsInColumns(before, p, now);
    var ok, mappings := UpdateUser(db, Mappings, p.owner, p.user, {p.loser});
    if !ok {
      db.rows := before;
      return Stopped;
    }
    MetricsFit(db.rows, p);
    var fits, metrics := UpdateUser(db, Metrics, p.owner, p.user, {p.loser});
    CascadeIsUnchanged(before, p, now);
    var safe := AssertNothingWillCascade(db.rows, p);
    if !safe {
      db.rows := before;
      return Stopped;
    }
    HandedOverInColumns(before, p, now);
    return Ready(edges, mappings, metrics);
  }

  lemma MetricsCollideWithNothing(rows: Rows, metrics: set<Id>, user: string, a: Id, b: Id)
    requires forall x | x in metrics :: x in rows && rows[x].content.Metric?
    ensures Collide(rows, a, b) <==> Collide(Moved(rows, metrics, user), a, b)
  {
    if a in rows && b in rows {
      ShareEntryIsShareKey(rows[a].content, rows[b].content);
    }
  }

  /** Metrics have no keys, so the first re-own decides whether the whole hand-over fits. */
  lemma FitsAsAWhole(rows: Rows, p: Pair, now: int)
    requires Unique(rows) && Coherent(rows) && p.owner != p.user
    ensures var mid := Conflated(rows, p, now, Conflatable(rows, p));
      Unique(HandedOver(rows, p, now)) <==>
      Unique(Moved(mid, Matching(mid, Mappings, p.owner, {p.loser}), p.user))
  {
    hide Collide, Conflated, Conflatable, Moved, Coherent;
    var mid := Conflated(rows, p, now, Conflatable(rows, p));
    var owned := Moved(mid, Matching(mid, Mappings, p.owner, {p.loser}), p.user);
    var metrics := Matching(owned, Metrics, p.owner, {p.loser});
    forall a, b ensures Collide(owned, a, b) <==> Collide(HandedOver(rows, p, now), a, b) {
      MetricsCollideWithNothing(owned, metrics, p.user, a, b);
    }
  }

  /** What a refusal of the pair says of the first re-own. */
  lemma ReownFits(rows: Rows, p: Pair, now: int)
    requires Unique(rows) && Coherent(rows) && IsStillValid(rows, p) && p.winner != p.loser && p.owner != p.user
    ensures var mid := Conflated(rows, p, now, Conflatable(rows, p));
      !IsRefused(rows, p) ==> Unique(Moved(mid, Matching(mid, Mappings, p.owner, {p.loser}), p.user))
  {
    hide Unique, HasThirdTenant, WouldCascade;
    if !IsRefused(rows, p) {
      RestFits(rows, p, now);
    }
  }

  /** Metrics carry no key with a user in it. */
  lemma MetricsFit(rows: Rows, p: Pair)
    requires Unique(rows) && p.owner != p.user
    ensures Unique(Moved(rows, Matching(rows, Metrics, p.owner, {p.loser}), p.user))
  {
    var metrics := Matching(rows, Metrics, p.owner, {p.loser});
    forall x, y | x in metrics ensures !Blocks(rows, p.user, x, y) {
      if Blocks(rows, p.user, x, y) {
        ShareEntryIsShareKey(rows[x].content, rows[y].content);
      }
    }
    assert NothingBlocks(rows, metrics, p.user);
    FitsIffNothingBlocks(rows, metrics, p.owner, p.user);
  }

  lemma IsHandedOver(rows: Rows, p: Pair, now: int)
    ensures var mid := Conflated(rows, p, now, Conflatable(rows, p));
      var owned := Moved(mid, Matching(mid, Mappings, p.owner, {p.loser}), p.user);
      HandedOver(rows, p, now) == Moved(owned, Matching(owned, Metrics, p.owner, {p.loser}), p.user)
  {
  }

  /** The guard in the transaction counts what the plan counted: those tables are not touched before it. */
  lemma CascadeIsUnchanged(rows: Rows, p: Pair, now: int)
    ensures WouldCascade(HandedOver(rows, p, now), p) <==> WouldCascade(rows, p)
    ensures WouldCascade(rows, p) ==> IsRefused(rows, p)
  {
    var after := HandedOver(rows, p, now);
    assert after.Keys == rows.Keys;
    forall x | x in rows
      ensures after[x].content.Review? || after[x].content.Negative? ==> after[x].content == rows[x].content
    {
    }
    forall x | x in rows
      ensures rows[x].content.Review? || rows[x].content.Negative? ==> after[x].content == rows[x].content
    {
    }
  }
}
