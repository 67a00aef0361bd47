/**
 Re-own mode of scripts/reown_cross_tenant_tracks.py: tracks another tenant owns, and the identity
 rows about them, move to the user whose plays depend on them.  The script refuses a track when one
 of six clash queries finds a row; everything else is moved without looking again.
 */
module Reown {
  import opened Wrappers
  import opened Ids
  import opened Tenancy

  // ------------------------------------------------------------ the clash queries

  datatype Reason = SameIsrc | SameNormalized | SameLiveMapping | SamePrimary | SameReview | SameNegative

  /** The two foreign-track columns that need the track's own row. */
  predicate OwnsTrackLike(rows: Rows, user: string, f: Id, o: Id, byIsrc: bool)
    requires f in rows
  {
    var t := rows[f].content;
    o in rows && rows[o].user == user && rows[o].content.Track? && t.Track? &&
    if byIsrc then t.isrc.Some? && rows[o].content.isrc == t.isrc
    else t.titleNormalized.Some? && t.artistNormalized.Some? &&
         rows[o].content.titleNormalized == t.titleNormalized && rows[o].content.artistNormalized == t.artistNormalized
  }

  /** A pair of companion rows joined as the clash query for `r` joins them. */
  predicate Joined(rows: Rows, user: string, f: Id, mine: Id, theirs: Id, r: Reason)
    requires f in rows
  {
    mine in rows && theirs in rows && rows[mine].user == user && rows[theirs].user == rows[f].user &&
    var m, t := rows[mine].content, rows[theirs].content;
    match r
    case SameLiveMapping =>
      IsLive(m) && IsLive(t) && t.track == f && t.connectorTrack == m.connectorTrack && t.connector == m.connector
    case SamePrimary =>
      IsLive(m) && IsLive(t) && m.primary && t.primary && m.track == f && t.track == f && t.connector == m.connector
    case SameReview =>
      m.Review? && t.Review? && m.track == f && t.track == f && t.connector == m.connector &&
      t.connectorTrack == m.connectorTrack
    case SameNegative =>
      m.Negative? && t.Negative? && m.rejectedPair && t.rejectedPair && m.candidate == Some(f) &&
      t.candidate == Some(f) && t.connectorTrack == m.connectorTrack
    case _ => false
  }

  /** A clash column of the discovery row is not NULL. */
  ghost predicate Clashes(rows: Rows, user: string, f: Id, r: Reason)
    requires f in rows
  {
    match r
    case SameIsrc => exists o :: OwnsTrackLike(rows, user, f, o, true)
    case SameNormalized => exists o :: OwnsTrackLike(rows, user, f, o, false)
    case _ => exists mine, theirs :: Joined(rows, user, f, mine, theirs, r)
  }

  /** blockers_for: a track is refused when any column is set. */
  ghost predicate IsBlocked(rows: Rows, user: string, f: Id)
    requires f in rows
  {
    exists r :: Clashes(rows, user, f, r)
  }

  /** Every reason but the normalization-equal one stands for a unique index. */
  ghost predicate HasKeyClash(rows: Rows, user: string, f: Id)
    requires f in rows
  {
    exists r :: r != SameNormalized && Clashes(rows, user, f, r)
  }

  /** The user already owns a track with the same ISRC. */
  ghost predicate SharesIsrc(rows: Rows, user: string, f: Id, o: Id) {
    f in rows && o in rows && rows[o].user == user && rows[f].content.Track? && rows[o].content.Track? &&
    rows[f].content.isrc != None && rows[o].content.isrc == rows[f].content.isrc
  }

  /** The user already owns a track with the same normalized title and artist, both known. */
  ghost predicate SharesNames(rows: Rows, user: string, f: Id, o: Id) {
    f in rows && o in rows && rows[o].user == user && rows[f].content.Track? && rows[o].content.Track? &&
    rows[f].content.titleNormalized != None && rows[f].content.artistNormalized != None &&
    rows[o].content.titleNormalized == rows[f].content.titleNormalized &&
    rows[o].content.artistNormalized == rows[f].content.artistNormalized
  }

  /** blockers_for, over the clash columns of the discovery row. */
  method BlockersFor(rows: Rows, user: string, f: Id) returns (reasons: set<Reason>)
    requires f in rows && rows[f].content.Track?
    ensures forall r :: r in reasons <==> Clashes(rows, user, f, r)
    ensures reasons != {} <==> IsBlocked(rows, user, f)
    ensures SameIsrc in reasons <==> exists o :: SharesIsrc(rows, user, f, o)
    ensures SameNormalized in reasons <==> exists o :: SharesNames(rows, user, f, o)
  {
    reasons := {};
    var todo := [SameIsrc, SameNormalized, SameLiveMapping, SamePrimary, SameReview, SameNegative];
    for i := 0 to |todo|
      invariant forall r :: r in reasons <==> r in todo[..i] && Clashes(rows, user, f, r)
    {
      var found := match todo[i]
        case SameIsrc => exists o | o in rows :: OwnsTrackLike(rows, user, f, o, true)
        case SameNormalized => exists o | o in rows :: OwnsTrackLike(rows, user, f, o, false)
        case _ => exists mine, theirs | mine in rows && theirs in rows :: Joined(rows, user, f, mine, theirs, todo[i]);
      if found {
        reasons := reasons + {todo[i]};
      }
      assert todo[..i + 1] == todo[..i] + [todo[i]];
    }
    EveryReasonIsListed(todo);
    ClashByColumns(rows, user, f);
  }

  lemma EveryReasonIsListed(todo: seq<Reason>)
    requires todo == [SameIsrc, SameNormalized, SameLiveMapping, SamePrimary, SameReview, SameNegative]
    ensures forall r: Reason :: r in todo[..|todo|]
  {
    assert todo[..|todo|] == todo;
    forall r: Reason ensures r in todo {
      match r
      case SameIsrc => assert todo[0] == r;
      case SameNormalized => assert todo[1] == r;
      case SameLiveMapping => assert todo[2] == r;
      case SamePrimary => assert todo[3] == r;
      case SameReview => assert todo[4] == r;
      case SameNegative => assert todo[5] == r;
    }
  }

  lemma ClashByColumns(rows: Rows, user: string, f: Id)
    requires f in rows && rows[f].content.Track?
    ensures Clashes(rows, user, f, SameIsrc) <==> exists o :: SharesIsrc(rows, user, f, o)
    ensures Clashes(rows, user, f, SameNormalized) <==> exists o :: SharesNames(rows, user, f, o)
  {
    forall o
      ensures SharesIsrc(rows, user, f, o) <==> OwnsTrackLike(rows, user, f, o, true)
      ensures SharesNames(rows, user, f, o) <==> OwnsTrackLike(rows, user, f, o, false)
    {
    }
  }

  /** A track is blocked by a constraint clash, or by a namesake that no constraint would catch. */
  lemma BlockedIff(rows: Rows, user: string, f: Id)
    requires f in rows && rows[f].content.Track?
    ensures IsBlocked(rows, user, f) <==>
            HasKeyClash(rows, user, f) || exists o :: SharesNames(rows, user, f, o)
  {
    ClashByColumns(rows, user, f);
  }

  ghost predicate AreTracksOf(rows: Rows, owner: string, ids: set<Id>) {
    forall f | f in ids :: f in rows && rows[f].user == owner && rows[f].content.Track?
  }

  /** A row in the way of a travelling row is what one of the clash queries looks for. */
  lemma BlockIsClash(rows: Rows, user: string, owner: string, ids: set<Id>, x: Id, y: Id)
    requires Coherent(rows) && AreTracksOf(rows, owner, ids) && owner != user
    requires x in Travelling(rows, owner, ids) && Blocks(rows, user, x, y)
    ensures exists f | f in ids :: HasKeyClash(rows, user, f)
  {
    var c, d := rows[x].content, rows[y].content;
    var f := TrackOf(x, c).value;
    var k :| Occupies(c, k) && Occupies(d, k);
    var r := match k
      case Isrc(_) => SameIsrc
      case LiveConnector(_, _) => SameLiveMapping
      case PrimaryMapping(_, _) => SamePrimary
      case ReviewOf(_, _, _) => SameReview
      case _ => SameNegative;
    if k.Isrc? {
      assert OwnsTrackLike(rows, user, f, y, true);
    } else {
      assert IsCoherent(c);
      assert Joined(rows, user, f, y, x, r);
    }
    assert Clashes(rows, user, f, r);
  }

  lemma ClashIsBlock(rows: Rows, user: string, owner: string, ids: set<Id>, f: Id)
    requires AreTracksOf(rows, owner, ids) && f in ids && HasKeyClash(rows, user, f)
    ensures !NothingBlocks(rows, Travelling(rows, owner, ids), user)
  {
    var r :| r != SameNormalized && Clashes(rows, user, f, r);
    if r == SameIsrc {
      var o :| OwnsTrackLike(rows, user, f, o, true);
      SharedKey(rows[f].content, rows[o].content, Isrc(rows[f].content.isrc.value));
      assert f in Travelling(rows, owner, ids) && Blocks(rows, user, f, o);
    } else {
      var mine, theirs :| Joined(rows, user, f, mine, theirs, r);
      var m := rows[mine].content;
      var k := match r
        case SameLiveMapping => LiveConnector(m.connectorTrack, m.connector)
        case SamePrimary => PrimaryMapping(f, m.connector)
        case SameReview => ReviewOf(f, m.connector, m.connectorTrack)
        case SameNegative => RejectedPair(m.connectorTrack, f)
        case _ => Isrc("");
      SharedKey(rows[theirs].content, m, k);
      assert theirs in Travelling(rows, owner, ids) && Blocks(rows, user, theirs, mine);
    }
  }

  lemma SharedKey(c: Content, d: Content, k: Key)
    requires Occupies(c, k) && Occupies(d, k)
    ensures ShareKey(c, d)
  {
  }

  /**
   The refusals are complete and none is idle: the tracks of one owner can be moved with everything
   that travels, after every single UPDATE of every row, exactly when no constraint clash is set.
   */
  lemma RefusalsAreExact(rows: Rows, user: string, owner: string, ids: set<Id>)
    requires Unique(rows) && Coherent(rows) && AreTracksOf(rows, owner, ids) && owner != user
    ensures (forall f | f in ids :: !HasKeyClash(rows, user, f))
       <==> forall part | part <= Travelling(rows, owner, ids) :: Unique(Moved(rows, part, user))
  {
    var all := Travelling(rows, owner, ids);
    FitsIffNothingBlocks(rows, all, owner, user);
    if Unique(Moved(rows, all, user)) {
      forall part | part <= all ensures Unique(Moved(rows, part, user)) {
        PartFits(rows, part, all, user);
      }
    }
    if x, y :| x in all && Blocks(rows, user, x, y) {
      BlockIsClash(rows, user, owner, ids, x, y);
    }
    if f :| f in ids && HasKeyClash(rows, user, f) {
      ClashIsBlock(rows, user, owner, ids, f);
    }
  }

  // ------------------------------------------------------------ the statements

  /** UPDATE one table SET user_id = :user: row by row, in any order, failing at the first taken key. */
  method UpdateUser(db: Store, table: Table, owner: string, user: string, trackIds: set<Id>)
    returns (ok: bool, count: nat)
    requires owner != user && Unique(db.rows)
    modifies db
    ensures ok <==> Unique(Moved(old(db.rows), Matching(old(db.rows), table, owner, trackIds), user))
    ensures ok ==> db.rows == Moved(old(db.rows), Matching(old(db.rows), table, owner, trackIds), user)
    ensures ok ==> count == |Matching(old(db.rows), table, owner, trackIds)|
  {
    ghost var before := db.rows;
    var all := Matching(db.rows, table, owner, trackIds);
    var todo := all;
    ok, count := true, 0;
    assert db.rows == Moved(before, all - todo, user);
    assert all <= before.Keys;
    hide *;
    while todo != {}
      invariant todo <= all && db.rows == Moved(before, all - todo, user) && Unique(db.rows)
      invariant count == |all - todo|
    {
      var x :| x in todo;
      UpdateStep(before, all, todo, x, user);
      ok := db.SetUser(x, user);
      if !ok {
        return;
      }
      todo := todo - {x};
      count := count + 1;
    }
    assert all - todo == all;
  }

  lemma UpdateStep(rows: Rows, all: set<Id>, todo: set<Id>, x: Id, user: string)
    requires Unique(rows) && todo <= all <= rows.Keys && x in todo
    ensures var now := Moved(rows, all - todo, user);
      && x in now && now[x := now[x].(user := user)] == Moved(rows, all - (todo - {x}), user)
      && (Unique(Moved(rows, all, user)) ==> Unique(Moved(rows, all - (todo - {x}), user)))
      && |all - (todo - {x})| == |all - todo| + 1
  {
    hide Unique;
    MovedOne(rows, all - todo, x, user);
    assert all - (todo - {x}) == (all - todo) + {x};
    if Unique(Moved(rows, all, user)) {
      PartFits(rows, all - (todo - {x}), all, user);
    }
  }

  /** In columns: the owner's tracks `ids`, and the owner's rows that name one of them. */
  ghost predicate GoesAlong(rows: Rows, owner: string, ids: set<Id>, x: Id) {
    x in rows && rows[x].user == owner &&
    match rows[x].content
    case Track(_, _, _) => x in ids
    case Mapping(track, _, _, _, _, _, _) => track in ids
    case Metric(track, _, _) => track in ids
    case Review(track, _, _) => track in ids
    case Negative(_, _, _, candidate) => candidate != None && candidate.value in ids
  }

  ghost predicate IsIn(table: Table, c: Content) {
    (table == Tracks && c.Track?) || (table == Mappings && c.Mapping?) || (table == Metrics && c.Metric?) ||
    (table == Reviews && c.Review?) || (table == Negatives && c.Negative?)
  }

  ghost function GoingFrom(rows: Rows, table: Table, owner: string, ids: set<Id>): set<Id> {
    set x | x in rows && GoesAlong(rows, owner, ids, x) && IsIn(table, rows[x].content)
  }

  lemma TravellingMeans(rows: Rows, owner: string, ids: set<Id>)
    ensures forall x :: x in Travelling(rows, owner, ids) <==> GoesAlong(rows, owner, ids, x)
    ensures forall t :: Matching(rows, t, owner, ids) == GoingFrom(rows, t, owner, ids)
  {
    forall x ensures x in Travelling(rows, owner, ids) <==> GoesAlong(rows, owner, ids, x) {
    }
    forall t ensures Matching(rows, t, owner, ids) == GoingFrom(rows, t, owner, ids) {
      forall x | x in rows ensures TableOf(rows[x].content) == t <==> IsIn(t, rows[x].content) {
      }
    }
  }

  const TABLES: seq<Table> := [Tracks, Mappings, Metrics, Reviews, Negatives]

  function InTables(rows: Rows, ids: set<Id>, tables: seq<Table>): set<Id> {
    set x | x in ids && x in rows && TableOf(rows[x].content) in tables
  }

  /** One batch of track ids: the tracks, then each companion table. */
  method ReownBatch(db: Store, user: string, owner: string, ids: set<Id>) returns (ok: bool, counts: map<Table, nat>)
    requires owner != user && Unique(db.rows)
    modifies db
    ensures ok <==> Unique(Moved(old(db.rows), Travelling(old(db.rows), owner, ids), user))
    ensures ok ==> db.rows == Moved(old(db.rows), Travelling(old(db.rows), owner, ids), user)
    ensures ok ==> forall t :: t in counts && counts[t] == |Matching(old(db.rows), t, owner, ids)|
  {
    ghost var before := db.rows;
    counts := map[];
    var j := 0;
    ok := true;
    assert Moved(before, Batch(before, owner, ids, 0), user) == before;
    hide *;
    while j < |TABLES|
      invariant j <= |TABLES| && db.rows == Moved(before, Batch(before, owner, ids, j), user) && Unique(db.rows)
      invariant forall t | t in TABLES[..j] :: t in counts && counts[t] == |Matching(before, t, owner, ids)|
    {
      NextTable(before, owner, user, ids, j);
      var count;
      ok, count := UpdateUser(db, TABLES[j], owner, user, ids);
      if !ok {
        return;
      }
      counts := counts[TABLES[j] := count];
      assert TABLES[..j + 1] == TABLES[..j] + [TABLES[j]];
      j := j + 1;
    }
    AllTables(before, owner, ids);
  }

  /** What has moved once the first j tables of a batch are done. */
  function Batch(rows: Rows, owner: string, ids: set<Id>, j: nat): set<Id>
    requires j <= |TABLES|
  {
    InTables(rows, Travelling(rows, owner, ids), TABLES[..j])
  }

  lemma NextTable(rows: Rows, owner: string, user: string, ids: set<Id>, j: nat)
    requires j < |TABLES| && owner != user && Unique(rows)
    ensures var now := Moved(rows, Batch(rows, owner, ids, j), user);
      && Matching(now, TABLES[j], owner, ids) == Matching(rows, TABLES[j], owner, ids)
      && Moved(now, Matching(now, TABLES[j], owner, ids), user) == Moved(rows, Batch(rows, owner, ids, j + 1), user)
    ensures Unique(Moved(rows, Travelling(rows, owner, ids), user)) ==>
      Unique(Moved(rows, Batch(rows, owner, ids, j + 1), user))
  {
    hide Unique;
    var done, next := Batch(rows, owner, ids, j), Matching(rows, TABLES[j], owner, ids);
    MatchingAfterMove(rows, done, user, TABLES[j], owner, ids);
    assert TABLES[..j + 1] == TABLES[..j] + [TABLES[j]];
    assert TABLES[j] !in TABLES[..j];
    assert next - done == next;
    MovedTwice(rows, done, next, user);
    assert done + next == Batch(rows, owner, ids, j + 1);
    if Unique(Moved(rows, Travelling(rows, owner, ids), user)) {
      PartFits(rows, Batch(rows, owner, ids, j + 1), Travelling(rows, owner, ids), user);
    }
  }

  lemma AllTables(rows: Rows, owner: string, ids: set<Id>)
    ensures Batch(rows, owner, ids, |TABLES|) == Travelling(rows, owner, ids)
    ensures forall t: Table :: t in TABLES[..|TABLES|]
  {
    assert TABLES[..|TABLES|] == TABLES;
    forall t: Table ensures t in TABLES {
      match t
      case Tracks => assert TABLES[0] == t;
      case Mappings => assert TABLES[1] == t;
      case Metrics => assert TABLES[2] == t;
      case Reviews => assert TABLES[3] == t;
      case Negatives => assert TABLES[4] == t;
    }
  }

  // ------------------------------------------------------------ one owner, then all of them

  const BATCH_SIZE: nat := 1_000

  function IdSet(ids: seq<Id>): set<Id> {
    set x | x in ids
  }

  /** Once some tracks have moved, what another batch finds is what it would have found at the start. */
  lemma NextBatch(rows: Rows, owner: string, user: string, done: set<Id>, ids: set<Id>, whole: set<Id>)
    requires owner != user && Unique(rows) && done + ids <= whole
    ensures var now := Moved(rows, Travelling(rows, owner, done), user);
      && Moved(now, Travelling(now, owner, ids), user) == Moved(rows, Travelling(rows, owner, done + ids), user)
      && (forall t ::
            |Matching(rows, t, owner, done)| + |Matching(now, t, owner, ids)| == |Matching(rows, t, owner, done + ids)|)
    ensures Unique(Moved(rows, Travelling(rows, owner, whole), user)) ==>
              Unique(Moved(rows, Travelling(rows, owner, done + ids), user))
  {
    hide Unique, Moved, Travelling, Matching;
    NextBatchMoves(rows, owner, user, done, ids);
    forall t
      ensures var now := Moved(rows, Travelling(rows, owner, done), user);
        |Matching(rows, t, owner, done)| + |Matching(now, t, owner, ids)| == |Matching(rows, t, owner, done + ids)|
    {
      NextBatchCounts(rows, owner, user, done, ids, t);
    }
    if Unique(Moved(rows, Travelling(rows, owner, whole), user)) {
      TravellingGrows(rows, owner, done + ids, whole);
      PartFits(rows, Travelling(rows, owner, done + ids), Travelling(rows, owner, whole), user);
    }
  }

  lemma TravellingGrows(rows: Rows, owner: string, ids: set<Id>, whole: set<Id>)
    requires ids <= whole
    ensures Travelling(rows, owner, ids) <= Travelling(rows, owner, whole)
  {
  }

  lemma NextBatchMoves(rows: Rows, owner: string, user: string, done: set<Id>, ids: set<Id>)
    requires owner != user
    ensures var now := Moved(rows, Travelling(rows, owner, done), user);
      Moved(now, Travelling(now, owner, ids), user) == Moved(rows, Travelling(rows, owner, done + ids), user)
  {
    hide Moved;
    var moved := Travelling(rows, owner, done);
    TravellingAfterMove(rows, moved, owner, user, ids);
    MovedTwice(rows, moved, Travelling(rows, owner, ids) - moved, user);
    assert moved + (Travelling(rows, owner, ids) - moved) == Travelling(rows, owner, done + ids);
  }

  lemma NextBatchCounts(rows: Rows, owner: string, user: string, done: set<Id>, ids: set<Id>, t: Table)
    requires owner != user
    ensures var now := Moved(rows, Travelling(rows, owner, done), user);
      |Matching(rows, t, owner, done)| + |Matching(now, t, owner, ids)| == |Matching(rows, t, owner, done + ids)|
  {
    hide Moved, Matching, Travelling;
    MatchingAfterMove(rows, Travelling(rows, owner, done), user, t, owner, ids);
    MatchingSplits(rows, owner, done, ids, t);
  }

  /** The rows of a table about more tracks: those about the first ones, and the rest. */
  lemma MatchingSplits(rows: Rows, owner: string, done: set<Id>, ids: set<Id>, t: Table)
    ensures var rest := Matching(rows, t, owner, ids) - Travelling(rows, owner, done);
      |Matching(rows, t, owner, done)| + |rest| == |Matching(rows, t, owner, done + ids)|
  {
    var first, rest := Matching(rows, t, owner, done), Matching(rows, t, owner, ids) - Travelling(rows, owner, done);
    assert first !! rest;
    assert first + rest == Matching(rows, t, owner, done + ids);
  }

  lemma TravellingAfterMove(rows: Rows, moved: set<Id>, owner: string, user: string, ids: set<Id>)
    requires owner != user
    ensures Travelling(Moved(rows, moved, user), owner, ids) == Travelling(rows, owner, ids) - moved
  {
  }

  /**
   reown: one transaction.  It commits exactly when everything that travels can move, and then all of
   it has moved and nothing else has changed; otherwise the transaction is rolled back.
   */
  method ReownTracks(db: Store, user: string, owner: string, trackIds: seq<Id>)
    returns (ok: bool, counts: map<Table, nat>)
    requires owner != user && Unique(db.rows)
    modifies db
    ensures ok <==> Unique(Moved(old(db.rows), Travelling(old(db.rows), owner, IdSet(trackIds)), user))
    ensures db.rows ==
      if ok then Moved(old(db.rows), Travelling(old(db.rows), owner, IdSet(trackIds)), user) else old(db.rows)
    ensures ok ==> forall t :: t in counts && counts[t] == |GoingFrom(old(db.rows), t, owner, IdSet(trackIds))|
    ensures ok ==> AllGone(old(db.rows), db.rows, owner, IdSet(trackIds), user)
  {
    var before := db.rows;

    ok, counts := true, map[Tracks := 0, Mappings := 0, Metrics := 0, Reviews := 0, Negatives := 0];
    var i := 0;
    NothingDone(before, owner, user);
    AllCounted(counts);
    assert trackIds[..0] == [];
    hide *;
    while i < |trackIds|
      invariant i <= |trackIds| && Unique(db.rows)
      invariant db.rows == Moved(before, Travelling(before, owner, IdSet(trackIds[..i])), user)
      invariant forall t :: t in counts && counts[t] == |Matching(before, t, owner, IdSet(trackIds[..i]))|
    {
      var next := if i + BATCH_SIZE < |trackIds| then i + BATCH_SIZE else |trackIds|;
      var batch := IdSet(trackIds[i..next]);
      NextSlice(trackIds, i, next);
      NextBatch(before, owner, user, IdSet(trackIds[..i]), batch, IdSet(trackIds));
      var more;
      ok, more := ReownBatch(db, user, owner, batch);
      if !ok {
        db.rows := before;
        return;
      }
      counts := map t | t in counts && t in more :: counts[t] + more[t];
      i := next;
    }
    assert trackIds[..i] == trackIds;
    TravellingMeans(before, owner, IdSet(trackIds));
    MovedMeans(before, owner, IdSet(trackIds), user);
  }

  /** The rows that go along have the new user, the others their old one, and no content changes. */
  ghost predicate AllGone(rows: Rows, after: Rows, owner: string, ids: set<Id>, user: string) {
    after.Keys == rows.Keys &&
    forall x | x in rows :: after[x].content == rows[x].content &&
      after[x].user == if GoesAlong(rows, owner, ids, x) then user else rows[x].user
  }

  lemma MovedMeans(rows: Rows, owner: string, ids: set<Id>, user: string)
    ensures AllGone(rows, Moved(rows, Travelling(rows, owner, ids), user), owner, ids, user)
  {
    hide GoesAlong, Travelling;
    TravellingMeans(rows, owner, ids);
  }

  lemma NextSlice(ids: seq<Id>, i: nat, next: nat)
    requires i <= next <= |ids|
    ensures IdSet(ids[..next]) == IdSet(ids[..i]) + IdSet(ids[i..next]) <= IdSet(ids)
  {
  }

  lemma NothingDone(rows: Rows, owner: string, user: string)
    ensures Moved(rows, Travelling(rows, owner, IdSet([])), user) == rows
    ensures forall t :: Matching(rows, t, owner, IdSet([])) == {}
  {
  }

  lemma AllCounted(counts: map<Table, nat>)
    requires counts == map[Tracks := 0, Mappings := 0, Metrics := 0, Reviews := 0, Negatives := 0]
    ensures forall t :: t in counts && counts[t] == 0
  {
    forall t: Table ensures t in counts && counts[t] == 0 {
      match t
      case Tracks =>
      case Mappings =>
      case Metrics =>
      case Reviews =>
      case Negatives =>
    }
  }

  /** The plan _run applies: owner by owner, the tracks no clash query refused. */
  datatype Part = Part(owner: string, tracks: seq<Id>)

  ghost predicate IsPlan(rows: Rows, user: string, plan: seq<Part>) {
    && (forall i, j | 0 <= i < j < |plan| :: plan[i].owner != plan[j].owner)
    && forall i | 0 <= i < |plan| :: IsPart(rows, user, plan[i])
  }

  ghost predicate IsPart(rows: Rows, user: string, part: Part) {
    && part.owner != user && AreTracksOf(rows, part.owner, IdSet(part.tracks))
    && forall f | f in part.tracks :: !IsBlocked(rows, user, f)
  }

  ghost predicate InPlan(plan: seq<Part>, f: Id) {
    exists i | 0 <= i < |plan| :: f in plan[i].tracks
  }

  /** The owners still to come have no part yet, and the tracks of the others are placed. */
  ghost predicate PlanSoFar(rows: Rows, user: string, movable: set<Id>, left: set<string>, plan: seq<Part>) {
    IsPlan(rows, user, plan) && (forall i | 0 <= i < |plan| :: plan[i].owner !in left) &&
    forall f :: InPlan(plan, f) <==> f in movable && f in rows && rows[f].user !in left
  }

  lemma OneMoreOwner(rows: Rows, user: string, movable: set<Id>, left: set<string>, plan: seq<Part>, owner: string,
                     tracks: seq<Id>)
    requires PlanSoFar(rows, user, movable, left, plan) && owner in left && owner != user
    requires forall f | f in movable :: f in rows && rows[f].content.Track? && !IsBlocked(rows, user, f)
    requires forall f :: f in tracks <==> f in movable && rows[f].user == owner
    ensures PlanSoFar(rows, user, movable, left - {owner}, plan + [Part(owner, tracks)])
  {
    hide IsBlocked;
    var more := plan + [Part(owner, tracks)];
    forall f ensures InPlan(more, f) <==> InPlan(plan, f) || f in tracks {
      if i :| 0 <= i < |plan| && f in plan[i].tracks {
        assert more[i] == plan[i];
      }
      if f in tracks {
        assert f in more[|plan|].tracks;
      }
    }
    assert IsPart(rows, user, Part(owner, tracks));
  }

  /** _run up to the apply loop: of the discovered tracks those without a blocker, owner by owner. */
  method PlanByOwner(rows: Rows, user: string, discovered: set<Id>) returns (plan: seq<Part>)
    requires forall f | f in discovered :: f in rows && rows[f].content.Track? && rows[f].user != user
    ensures IsPlan(rows, user, plan)
    ensures forall f :: InPlan(plan, f) <==> f in discovered && !IsBlocked(rows, user, f)
  {
    hide IsBlocked, IsPlan;
    var todo := discovered;
    var movable: set<Id> := {};
    while todo != {}
      invariant todo <= discovered
      invariant forall f :: f in movable <==> f in discovered - todo && !IsBlocked(rows, user, f)
    {
      var f :| f in todo;
      var reasons := BlockersFor(rows, user, f);
      if reasons == {} {
        movable := movable + {f};
      }
      todo := todo - {f};
    }
    var owners := set f | f in movable :: rows[f].user;
    plan := [];
    NoPlanYet(rows, user, movable, owners);
    while owners != {}
      invariant user !in owners && PlanSoFar(rows, user, movable, owners, plan)
      decreases owners
    {
      var owner :| owner in owners;
      var tracks := OrderById(set f | f in movable && rows[f].user == owner);
      OneMoreOwner(rows, user, movable, owners, plan, owner, tracks);
      plan := plan + [Part(owner, tracks)];
      owners := owners - {owner};
    }
  }

  lemma NoPlanYet(rows: Rows, user: string, movable: set<Id>, owners: set<string>)
    requires movable <= rows.Keys && forall f | f in movable :: rows[f].user in owners
    ensures PlanSoFar(rows, user, movable, owners, [])
  {
  }

  function PartRows(rows: Rows, part: Part): set<Id> {
    Travelling(rows, part.owner, IdSet(part.tracks))
  }

  /** Everything the first j parts move. */
  function PlanRows(rows: Rows, plan: seq<Part>): set<Id> {
    if plan == [] then {} else PlanRows(rows, plan[..|plan| - 1]) + PartRows(rows, plan[|plan| - 1])
  }

  /** Two rows of different owners that the new user could not hold together. */
  predicate SameIdentity(c: Content, d: Content) {
    if c.Track? then d.Track? && c.isrc.Some? && c.isrc == d.isrc
    else IsLive(c) && IsLive(d) && c.connectorTrack == d.connectorTrack && c.connector == d.connector
  }

  /** Owners i < j bring rows with the same ISRC, or live mappings of the same connector track. */
  ghost predicate OwnersClash(rows: Rows, plan: seq<Part>, i: int, j: int)
    requires 0 <= i < |plan| && 0 <= j < |plan|
  {
    exists x, y :: PartsMeet(rows, plan[i], plan[j], x, y)
  }

  ghost predicate PartsMeet(rows: Rows, p: Part, q: Part, x: Id, y: Id) {
    x in PartRows(rows, p) && y in PartRows(rows, q) && SameIdentity(rows[x].content, rows[y].content)
  }

  ghost predicate AnyOwnersClash(rows: Rows, plan: seq<Part>, upTo: nat)
    requires upTo <= |plan|
  {
    exists i, j | 0 <= i < j < upTo :: OwnersClash(rows, plan, i, j)
  }

  /** Rows travelling with different owners' tracks share no key that names a track. */
  lemma SharedAcrossOwners(rows: Rows, user: string, p: Part, q: Part, x: Id, y: Id)
    requires Coherent(rows) && IsPart(rows, user, p) && IsPart(rows, user, q) && p.owner != q.owner
    requires x in PartRows(rows, p) && y in PartRows(rows, q)
    ensures ShareKey(rows[x].content, rows[y].content) <==> SameIdentity(rows[x].content, rows[y].content)
  {
    var c, d := rows[x].content, rows[y].content;
    ShareEntryIsShareKey(c, d);
    assert TrackOf(x, c).value in p.tracks && TrackOf(y, d).value in q.tracks;
    assert TrackOf(x, c).value != TrackOf(y, d).value;
    assert IsCoherent(c) && IsCoherent(d);
  }

  lemma {:induction false} PlanRowsAre(rows: Rows, plan: seq<Part>, x: Id)
    ensures x in PlanRows(rows, plan) <==> exists i | 0 <= i < |plan| :: x in PartRows(rows, plan[i])
  {
    if plan != [] {
      PlanRowsAre(rows, plan[..|plan| - 1], x);
      if x in PlanRows(rows, plan[..|plan| - 1]) {
        var i :| 0 <= i < |plan| - 1 && x in PartRows(rows, plan[..|plan| - 1][i]);
        assert x in PartRows(rows, plan[i]);
      }
      if i :| 0 <= i < |plan| && x in PartRows(rows, plan[i]) {
        assert i < |plan| - 1 ==> plan[..|plan| - 1][i] == plan[i];
      }
    }
  }

  /** A part of the plan finds all of its rows still with their owner. */
  lemma PartIsUntouched(rows: Rows, user: string, plan: seq<Part>, j: nat)
    requires IsPlan(rows, user, plan) && j < |plan|
    ensures PartRows(Moved(rows, PlanRows(rows, plan[..j]), user), plan[j]) == PartRows(rows, plan[j])
  {
    var moved := PlanRows(rows, plan[..j]);
    TravellingAfterMove(rows, moved, plan[j].owner, user, IdSet(plan[j].tracks));
    forall x | x in PartRows(rows, plan[j]) ensures x !in moved {
      PlanRowsAre(rows, plan[..j], x);
    }
  }

  /** With earlier owners moved, the next one fits exactly when it meets none of them. */
  lemma NextOwnerFits(rows: Rows, user: string, plan: seq<Part>, j: nat)
    requires Unique(rows) && Coherent(rows) && IsPlan(rows, user, plan) && j < |plan|
    requires Unique(Moved(rows, PlanRows(rows, plan[..j]), user))
    ensures Unique(Moved(rows, PlanRows(rows, plan[..j + 1]), user)) <==>
      forall i | 0 <= i < j :: !OwnersClash(rows, plan, i, j)
  {
    hide Unique;
    var done, next := PlanRows(rows, plan[..j]), PartRows(rows, plan[j]);
    var now := Moved(rows, done, user);
    assert plan[..j + 1][..j] == plan[..j];
    MovedTwice(rows, done, next, user);
    PartIsUntouched(rows, user, plan, j);
    OwnedStill(rows, user, plan, j);
    FitsIffNothingBlocks(now, next, plan[j].owner, user);
    if x, y :| x in next && Blocks(now, user, x, y) {
      BlockerMovedEarlier(rows, user, plan, j, x, y);
    }
    if i :| 0 <= i < j && OwnersClash(rows, plan, i, j) {
      ClashBlocks(rows, user, plan, i, j);
    }
  }

  lemma OwnedStill(rows: Rows, user: string, plan: seq<Part>, j: nat)
    requires IsPlan(rows, user, plan) && j < |plan|
    ensures AllOwned(Moved(rows, PlanRows(rows, plan[..j]), user), PartRows(rows, plan[j]), plan[j].owner)
  {
    PartIsUntouched(rows, user, plan, j);
  }

  lemma BlockerMovedEarlier(rows: Rows, user: string, plan: seq<Part>, j: nat, x: Id, y: Id)
    requires Unique(rows) && Coherent(rows) && IsPlan(rows, user, plan) && j < |plan|
    requires x in PartRows(rows, plan[j]) && Blocks(Moved(rows, PlanRows(rows, plan[..j]), user), user, x, y)
    ensures exists i | 0 <= i < j :: OwnersClash(rows, plan, i, j)
  {
    var done := PlanRows(rows, plan[..j]);
    if y in done {
      PlanRowsAre(rows, plan[..j], y);
      var i :| 0 <= i < j && y in PartRows(rows, plan[..j][i]);
      SharedAcrossOwners(rows, user, plan[i], plan[j], y, x);
      ShareEntryIsShareKey(rows[x].content, rows[y].content);
      ShareEntryIsShareKey(rows[y].content, rows[x].content);
      assert PartsMeet(rows, plan[i], plan[j], y, x);
      assert OwnersClash(rows, plan, i, j);
    } else {
      assert Blocks(rows, user, x, y);
      BlockIsClash(rows, user, plan[j].owner, IdSet(plan[j].tracks), x, y);
      UnblockedHasNoClash(rows, user, plan[j]);
    }
  }

  lemma UnblockedHasNoClash(rows: Rows, user: string, part: Part)
    requires IsPart(rows, user, part)
    ensures forall f | f in IdSet(part.tracks) :: !HasKeyClash(rows, user, f)
  {
  }

  lemma ClashBlocks(rows: Rows, user: string, plan: seq<Part>, i: nat, j: nat)
    requires Coherent(rows) && IsPlan(rows, user, plan) && i < j < |plan| && OwnersClash(rows, plan, i, j)
    ensures !NothingBlocks(Moved(rows, PlanRows(rows, plan[..j]), user), PartRows(rows, plan[j]), user)
  {
    var now := Moved(rows, PlanRows(rows, plan[..j]), user);
    var x, y :| PartsMeet(rows, plan[i], plan[j], x, y);
    SharedAcrossOwners(rows, user, plan[i], plan[j], x, y);
    PlanRowsAre(rows, plan[..j], x);
    assert plan[..j][i] == plan[i];
    assert now[x].user == user && now[y].content == rows[y].content && now[x].content == rows[x].content;
    var k :| Occupies(rows[x].content, k) && Occupies(rows[y].content, k);
    SharedKey(now[y].content, now[x].content, k);
    assert Blocks(now, user, y, x);
  }

  /**
   The apply loop of _run: one transaction for each owner, stopping at the first that fails.  The
   refusals do not look from one owner to another, so the whole run succeeds exactly when no two
   owners bring the same ISRC or the same live connector track.
   */
  method Apply(db: Store, user: string, plan: seq<Part>) returns (ok: bool, done: nat)
    requires Unique(db.rows) && Coherent(db.rows) && IsPlan(db.rows, user, plan)
    modifies db
    ensures ok <==> !AnyOwnersClash(old(db.rows), plan, |plan|)
    ensures done <= |plan| && (ok <==> done == |plan|)
    ensures db.rows == Moved(old(db.rows), PlanRows(old(db.rows), plan[..done]), user) && Unique(db.rows)
    ensures AllGoneWith(old(db.rows), db.rows, plan[..done], user)
  {
    ghost var before := db.rows;
    done := 0;
    ok := true;
    assert Moved(before, PlanRows(before, plan[..0]), user) == before;
    hide *;
    NoClashYet(before, plan);
    while done < |plan|
      invariant done <= |plan| && Unique(db.rows)
      invariant db.rows == Moved(before, PlanRows(before, plan[..done]), user)
      invariant !AnyOwnersClash(before, plan, done)
    {
      ApplyStep(before, user, plan, done);
      var counts;
      ok, counts := ReownTracks(db, user, plan[done].owner, plan[done].tracks);
      if !ok {
        PlanMeans(before, plan[..done], user);
        return;
      }
      done := done + 1;
    }
    PlanMeans(before, plan[..done], user);
  }

  ghost predicate GoesWithOneOf(rows: Rows, parts: seq<Part>, x: Id) {
    exists i | 0 <= i < |parts| :: GoesAlong(rows, parts[i].owner, IdSet(parts[i].tracks), x)
  }

  ghost predicate AllGoneWith(rows: Rows, after: Rows, parts: seq<Part>, user: string) {
    after.Keys == rows.Keys &&
    forall x | x in rows :: after[x].content == rows[x].content &&
      after[x].user == if GoesWithOneOf(rows, parts, x) then user else rows[x].user
  }

  lemma PlanMeans(rows: Rows, parts: seq<Part>, user: string)
    ensures AllGoneWith(rows, Moved(rows, PlanRows(rows, parts), user), parts, user)
  {
    hide GoesAlong, Travelling, PlanRows;
    forall x | x in rows ensures x in PlanRows(rows, parts) <==> GoesWithOneOf(rows, parts, x) {
      PlanRowsAre(rows, parts, x);
      forall i | 0 <= i < |parts|
        ensures x in PartRows(rows, parts[i]) <==> GoesAlong(rows, parts[i].owner, IdSet(parts[i].tracks), x)
      {
        TravellingMeans(rows, parts[i].owner, IdSet(parts[i].tracks));
      }
    }
  }

  lemma NoClashYet(rows: Rows, plan: seq<Part>)
    ensures !AnyOwnersClash(rows, plan, 0)
  {
  }

  lemma ApplyStep(rows: Rows, user: string, plan: seq<Part>, j: nat)
    requires Unique(rows) && Coherent(rows) && IsPlan(rows, user, plan) && j < |plan|
    requires Unique(Moved(rows, PlanRows(rows, plan[..j]), user)) && !AnyOwnersClash(rows, plan, j)
    ensures plan[j].owner != user
    ensures var now := Moved(rows, PlanRows(rows, plan[..j]), user);
      Moved(now, Travelling(now, plan[j].owner, IdSet(plan[j].tracks)), user)
        == Moved(rows, PlanRows(rows, plan[..j + 1]), user)
    ensures Unique(Moved(rows, PlanRows(rows, plan[..j + 1]), user)) <==> !AnyOwnersClash(rows, plan, j + 1)
    ensures AnyOwnersClash(rows, plan, j + 1) ==> AnyOwnersClash(rows, plan, |plan|)
  {
    hide Unique, OwnersClash;
    NextOwnerFits(rows, user, plan, j);
    PartIsUntouched(rows, user, plan, j);
    MovedTwice(rows, PlanRows(rows, plan[..j]), PartRows(rows, plan[j]), user);
    assert plan[..j + 1][..j] == plan[..j];
  }

  // ------------------------------------------------------------ two owners, one recording

  /** Ann and Bob each own a copy of one recording that my plays name. */
  function TwoCopies(): Rows {
    map[Id(1) := Row("ann", Track(Some("USX9P1234567"), None, None)),
        Id(2) := Row("bob", Track(Some("USX9P1234567"), None, None))]
  }

  const TWO_OWNERS: seq<Part> := [Part("ann", [Id(1)]), Part("bob", [Id(2)])]

  lemma TwoCopiesAreSound()
    ensures Unique(TwoCopies()) && Coherent(TwoCopies())
  {
  }

  lemma NothingIsRefused()
    ensures IsPlan(TwoCopies(), "me", TWO_OWNERS)
  {
    var rows := TwoCopies();
    forall f | f in rows ensures !IsBlocked(rows, "me", f) {
      if r :| Clashes(rows, "me", f, r) {
        assert forall o | o in rows :: rows[o].user != "me";
      }
    }
    assert IdSet([Id(1)]) == {Id(1)} && IdSet([Id(2)]) == {Id(2)};
    assert IsPart(rows, "me", TWO_OWNERS[0]) && IsPart(rows, "me", TWO_OWNERS[1]);
  }

  /** An empty list of blockers does not mean the move is safe: two owners' tracks can meet. */
  lemma UnrefusedPlanCanFail()
    ensures exists rows, plan ::
      Unique(rows) && Coherent(rows) && IsPlan(rows, "me", plan) && AnyOwnersClash(rows, plan, |plan|)
  {
    hide Unique, Coherent, IsPlan;
    TwoCopiesAreSound();
    NothingIsRefused();
    assert IdSet([Id(1)]) == {Id(1)} && IdSet([Id(2)]) == {Id(2)};
    assert PartsMeet(TwoCopies(), TWO_OWNERS[0], TWO_OWNERS[1], Id(1), Id(2));
    assert OwnersClash(TwoCopies(), TWO_OWNERS, 0, 1);
    assert AnyOwnersClash(TwoCopies(), TWO_OWNERS, |TWO_OWNERS|);
  }
}
