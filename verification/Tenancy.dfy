/**
 Tenant-scoped rows and their unique indexes, as scripts/reown_cross_tenant_tracks.py changes them.
 Every index of these tables is scoped to the row's user_id, so a row occupies a set of keys in its
 user's space, and moving it to another user is legal when those keys are free there.
 */
module Tenancy {
  import opened Wrappers
  import opened Ids

  datatype Content =
    | Track(isrc: Option<string>, titleNormalized: Option<string>, artistNormalized: Option<string>)
    | Mapping(track: Id, connector: string, connectorTrack: Id, primary: bool,
              supersededAt: Option<int>, reason: Option<string>, supersededBy: Option<Id>)
    | Metric(track: Id, connector: string, metric: string)
    | Review(track: Id, connector: string, connectorTrack: Id)
    | Negative(rejectedPair: bool, connector: string, connectorTrack: Id, candidate: Option<Id>)

  datatype Row = Row(user: string, content: Content)

  type Rows = map<Id, Row>

  datatype Table = Tracks | Mappings | Metrics | Reviews | Negatives

  function TableOf(c: Content): Table {
    match c
    case Track(_, _, _) => Tracks
    case Mapping(_, _, _, _, _, _, _) => Mappings
    case Metric(_, _, _) => Metrics
    case Review(_, _, _) => Reviews
    case Negative(_, _, _, _) => Negatives
  }

  /** The column each UPDATE selects by: the track a row is, or is about. */
  function TrackOf(id: Id, c: Content): Option<Id> {
    match c
    case Track(_, _, _) => Some(id)
    case Mapping(track, _, _, _, _, _, _) => Some(track)
    case Metric(track, _, _) => Some(track)
    case Review(track, _, _) => Some(track)
    case Negative(_, _, _, candidate) => candidate
  }

  /** One entry of one user-scoped unique index. */
  datatype Key =
    | Isrc(isrc: string)
    | LiveConnector(connectorTrack: Id, connector: string)
    | PrimaryMapping(track: Id, connector: string)
    | ReviewOf(track: Id, connector: string, connectorTrack: Id)
    | RejectedPair(connectorTrack: Id, candidate: Id)
    | NoMatch(connectorTrack: Id, connector: string)

  predicate IsLive(c: Content) {
    c.Mapping? && c.supersededAt.None?
  }

  /** The index entries of a row; NULL columns and retired mappings have none. */
  predicate Occupies(c: Content, k: Key) {
    match k
    case Isrc(isrc) => c.Track? && c.isrc == Some(isrc)
    case LiveConnector(ct, connector) => IsLive(c) && c.connectorTrack == ct && c.connector == connector
    case PrimaryMapping(track, connector) => IsLive(c) && c.primary && c.track == track && c.connector == connector
    case ReviewOf(track, connector, ct) =>
      c.Review? && c.track == track && c.connector == connector && c.connectorTrack == ct
    case RejectedPair(ct, candidate) =>
      c.Negative? && c.rejectedPair && c.connectorTrack == ct && c.candidate == Some(candidate)
    case NoMatch(ct, connector) => c.Negative? && !c.rejectedPair && c.connectorTrack == ct && c.connector == connector
  }

  ghost predicate ShareKey(c: Content, d: Content) {
    exists k :: Occupies(c, k) && Occupies(d, k)
  }

  ghost predicate Collide(rows: Rows, a: Id, b: Id) {
    a in rows && b in rows && a != b && rows[a].user == rows[b].user && ShareKey(rows[a].content, rows[b].content)
  }

  /** Every unique index holds. */
  ghost predicate Unique(rows: Rows) {
    forall a, b {:trigger Collide(rows, a, b)} :: !Collide(rows, a, b)
  }

  /** The CHECK constraints: a negative names a candidate exactly when it rejects one, and the three
      supersession columns move together. */
  ghost predicate Coherent(rows: Rows) {
    forall x | x in rows :: IsCoherent(rows[x].content)
  }

  predicate IsCoherent(c: Content) {
    match c
    case Negative(rejectedPair, _, _, candidate) => rejectedPair <==> candidate.Some?
    case Mapping(_, _, _, _, at, reason, successor) =>
      (at.None? && successor.None? && reason.None?) || (at.Some? && reason.Some?)
    case _ => true
  }

  // ------------------------------------------------------------ moving rows to another user

  function Moved(rows: Rows, ids: set<Id>, user: string): Rows {
    map x | x in rows :: if x in ids then rows[x].(user := user) else rows[x]
  }

  lemma MovedTwice(rows: Rows, a: set<Id>, b: set<Id>, user: string)
    ensures Moved(Moved(rows, a, user), b, user) == Moved(rows, a + b, user)
  {
  }

  lemma MovedOne(rows: Rows, ids: set<Id>, x: Id, user: string)
    requires x in rows
    ensures var now := Moved(rows, ids, user); now[x := now[x].(user := user)] == Moved(rows, ids + {x}, user)
  {
  }

  /** Two rows that were both on the old side, or both on the new one, already collided before. */
  lemma CollidedBefore(rows: Rows, ids: set<Id>, user: string, a: Id, b: Id)
    requires Collide(Moved(rows, ids, user), a, b)
    requires (a !in ids && b !in ids) || (a in ids && b in ids && rows[a].user == rows[b].user)
    ensures Collide(rows, a, b)
  {
  }

  /** A collision that appears on the way never goes away: moved rows are all on one side by then. */
  lemma PartFits(rows: Rows, part: set<Id>, all: set<Id>, user: string)
    requires Unique(rows) && part <= all && Unique(Moved(rows, all, user))
    ensures Unique(Moved(rows, part, user))
  {
    forall a, b ensures !Collide(Moved(rows, part, user), a, b) {
      if Collide(Moved(rows, part, user), a, b) {
        if a in part || b in part {
          assert Collide(Moved(rows, all, user), a, b);
        } else {
          CollidedBefore(rows, part, user, a, b);
        }
      }
    }
  }

  /** Whether the new user holds a row in the way of one of `ids`. */
  ghost predicate Blocks(rows: Rows, user: string, x: Id, y: Id) {
    x in rows && y in rows && rows[y].user == user && ShareKey(rows[x].content, rows[y].content)
  }

  ghost predicate NothingBlocks(rows: Rows, ids: set<Id>, user: string) {
    forall x, y {:trigger Blocks(rows, user, x, y)} | x in ids :: !Blocks(rows, user, x, y)
  }

  ghost predicate AllOwned(rows: Rows, ids: set<Id>, owner: string) {
    forall x | x in ids :: x in rows && rows[x].user == owner
  }

  /** Moving any rows of one owner is legal exactly when the new user holds none of their keys. */
  lemma FitsIffNothingBlocks(rows: Rows, ids: set<Id>, owner: string, user: string)
    requires Unique(rows) && AllOwned(rows, ids, owner) && owner != user
    ensures Unique(Moved(rows, ids, user)) <==> NothingBlocks(rows, ids, user)
  {
    var after := Moved(rows, ids, user);
    if NothingBlocks(rows, ids, user) {
      forall a, b ensures !Collide(after, a, b) {
        if Collide(after, a, b) {
          NoCollisionWhenUnblocked(rows, ids, owner, user, a, b);
        }
      }
    } else {
      var x, y :| x in ids && Blocks(rows, user, x, y);
      assert Collide(after, x, y);
    }
  }

  lemma NoCollisionWhenUnblocked(rows: Rows, ids: set<Id>, owner: string, user: string, a: Id, b: Id)
    requires Unique(rows) && AllOwned(rows, ids, owner) && owner != user && NothingBlocks(rows, ids, user)
    ensures !Collide(Moved(rows, ids, user), a, b)
  {
    if Collide(Moved(rows, ids, user), a, b) {
      if a in ids && b !in ids {
        assert Blocks(rows, user, a, b);
      } else if b in ids && a !in ids {
        assert Blocks(rows, user, b, a);
      } else {
        CollidedBefore(rows, ids, user, a, b);
      }
    }
  }

  // ------------------------------------------------------------ statements

  /** WHERE user_id = :owner AND <track column> IN (:ids), on one table. */
  function Matching(rows: Rows, table: Table, owner: string, trackIds: set<Id>): set<Id> {
    set x | x in rows && rows[x].user == owner && TableOf(rows[x].content) == table && IsAbout(rows, x, trackIds)
  }

  predicate IsAbout(rows: Rows, x: Id, trackIds: set<Id>)
    requires x in rows
  {
    TrackOf(x, rows[x].content).Some? && TrackOf(x, rows[x].content).value in trackIds
  }

  /** Everything that travels with a set of tracks. */
  function Travelling(rows: Rows, owner: string, trackIds: set<Id>): set<Id> {
    set x | x in rows && rows[x].user == owner && IsAbout(rows, x, trackIds)
  }

  /** What an UPDATE finds once some rows have left the owner. */
  lemma MatchingAfterMove(rows: Rows, moved: set<Id>, user: string, table: Table, owner: string, trackIds: set<Id>)
    requires owner != user
    ensures Matching(Moved(rows, moved, user), table, owner, trackIds) == Matching(rows, table, owner, trackIds) - moved
  {
  }

  /** The index probe for one row: is each of its keys free under `user`? */
  ghost predicate Admits(rows: Rows, x: Id, user: string)
    requires x in rows
  {
    Unique(rows[x := rows[x].(user := user)])
  }

  class Store {
    var rows: Rows

    constructor (rows: Rows)
      ensures this.rows == rows
    {
      this.rows := rows;
    }

    /** The write of one row: the unique indexes accept it or the statement fails. */
    method SetUser(x: Id, user: string) returns (ok: bool)
      requires x in rows && Unique(rows)
      modifies this
      ensures ok <==> Unique(old(rows)[x := old(rows)[x].(user := user)])
      ensures rows == if ok then old(rows)[x := old(rows)[x].(user := user)] else old(rows)
    {
      ok := IsFree(x, user);
      if ok {
        rows := rows[x := rows[x].(user := user)];
      }
    }

    /** Probes the indexes for the keys row `x` would have under `user`. */
    method IsFree(x: Id, user: string) returns (free: bool)
      requires x in rows && Unique(rows)
      ensures free <==> Admits(rows, x, user)
    {
      var todo := rows.Keys;
      free := true;
      while todo != {}
        invariant todo <= rows.Keys
        invariant free ==> forall y | y in rows.Keys - todo :: !InTheWay(rows, x, y, user)
        invariant !free ==> exists y :: InTheWay(rows, x, y, user)
      {
        var y :| y in todo;
        todo := todo - {y};
        ShareEntryIsShareKey(rows[x].content, rows[y].content);
        if rows[y].user == user && y != x && ShareEntry(rows[x].content, rows[y].content) {
          assert InTheWay(rows, x, y, user);
          free := false;
        }
      }
      FreeIffAdmits(rows, x, user);
    }
  }

  ghost predicate InTheWay(rows: Rows, x: Id, y: Id, user: string)
    requires x in rows
  {
    y in rows && y != x && rows[y].user == user && ShareKey(rows[x].content, rows[y].content)
  }

  lemma FreeIffAdmits(rows: Rows, x: Id, user: string)
    requires x in rows && Unique(rows)
    ensures (exists y :: InTheWay(rows, x, y, user)) <==> !Admits(rows, x, user)
  {
    var after := rows[x := rows[x].(user := user)];
    if y :| InTheWay(rows, x, y, user) {
      assert Collide(after, x, y);
    }
    if a, b :| Collide(after, a, b) {
      if a == x {
        assert InTheWay(rows, x, b, user);
      } else if b == x {
        assert InTheWay(rows, x, a, user);
      } else {
        assert Collide(rows, a, b) || Collide(after, a, b) == Collide(rows, a, b);
      }
    }
  }

  /** Two rows have an index entry in common, column by column. */
  predicate ShareEntry(c: Content, d: Content) {
    match c
    case Track(isrc, _, _) => d.Track? && isrc.Some? && d.isrc == isrc
    case Mapping(track, connector, ct, primary, _, _, _) =>
      IsLive(c) && IsLive(d) && d.connector == connector &&
      (d.connectorTrack == ct || (primary && d.primary && d.track == track))
    case Metric(_, _, _) => false
    case Review(track, connector, ct) =>
      d.Review? && d.track == track && d.connector == connector && d.connectorTrack == ct
    case Negative(rejectedPair, connector, ct, candidate) =>
      d.Negative? && d.rejectedPair == rejectedPair && d.connectorTrack == ct &&
      (if rejectedPair then candidate.Some? && d.candidate == candidate else d.connector == connector)
  }

  lemma ShareEntryIsShareKey(c: Content, d: Content)
    ensures ShareEntry(c, d) <==> ShareKey(c, d)
  {
    if ShareEntry(c, d) {
      var k := match c
        case Track(isrc, _, _) => Isrc(isrc.value)
        case Mapping(track, connector, ct, _, _, _, _) =>
          if d.connectorTrack == ct then LiveConnector(ct, connector) else PrimaryMapping(track, connector)
        case Metric(_, _, _) => Isrc("")
        case Review(track, connector, ct) => ReviewOf(track, connector, ct)
        case Negative(rejectedPair, connector, ct, candidate) =>
          if rejectedPair then RejectedPair(ct, candidate.value) else NoMatch(ct, connector);
      assert Occupies(c, k) && Occupies(d, k);
    }
  }
}
