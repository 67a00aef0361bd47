/**
 scripts/cleanup_mistenanted_spotify_tracks.py: guards, then nulling, then deleting under RESTRICT.
 RESTRICT is checked for each row as it is deleted, not at the end of the statement, and deleting a
 track takes the rows that cascade from it at once.
 */
module Cleanup {
  import opened Wrappers
  import opened Ids

  datatype Row =
    | Track(user: string, createdAt: int)
    | Mapping(user: string, track: Id, supersededBy: Option<Id>)
    | ConnectorPlay(user: string, resolvedTrack: Option<Id>)
    | TrackPlay(user: string, track: Id)
    | PlaySource(user: string, trackPlay: Id, connectorPlay: Id)
    | Dependent(user: string, track: Id)   // likes, preferences, tags, metrics, reviews, ...
    | Event(resultingMapping: Option<Id>)  // by value: no foreign key

  type Rows = map<Id, Row>

  const MISTENANTED_TENANT: string := "default"
  const BATCH_SIZE: nat := 1_000

  function IdSet(ids: seq<Id>): set<Id> {
    set x | x in ids
  }

  // ------------------------------------------------------------ foreign keys

  predicate IsTrack(rows: Rows, x: Id) { x in rows && rows[x].Track? }

  predicate IsMapping(rows: Rows, x: Id) { x in rows && rows[x].Mapping? }

  predicate ReferencesHold(rows: Rows, x: Id)
    requires x in rows
  {
    match rows[x]
    case Track(_, _) => true
    case Mapping(_, track, successor) => IsTrack(rows, track) && (successor.Some? ==> IsMapping(rows, successor.value))
    case ConnectorPlay(_, resolved) => resolved.Some? ==> IsTrack(rows, resolved.value)
    case TrackPlay(_, track) => IsTrack(rows, track)
    case PlaySource(_, trackPlay, connectorPlay) =>
      trackPlay in rows && rows[trackPlay].TrackPlay? && connectorPlay in rows && rows[connectorPlay].ConnectorPlay?
    case Dependent(_, track) => IsTrack(rows, track)
    case Event(_) => true
  }

  predicate IsLegal(rows: Rows) {
    forall x | x in rows :: ReferencesHold(rows, x)
  }

  /** A RESTRICT reference to `x`: a mapping on a track, or a mapping superseded by a mapping. */
  predicate Restricts(rows: Rows, x: Id, m: Id) {
    m in rows && rows[m].Mapping? && (rows[m].track == x || rows[m].supersededBy == Some(x))
  }

  function Without(rows: Rows, ids: set<Id>): Rows {
    map x | x in rows && x !in ids :: rows[x]
  }

  /** What goes with the tracks `ts`: ON DELETE CASCADE, followed to its end. */
  function Victims(rows: Rows, ts: set<Id>): set<Id> {
    set x | x in rows && IsVictim(rows, ts, x)
  }

  predicate IsVictim(rows: Rows, ts: set<Id>, x: Id)
    requires x in rows
  {
    match rows[x]
    case Track(_, _) => x in ts
    case Mapping(_, _, _) => false
    case ConnectorPlay(_, _) => IsPlayVictim(rows, ts, x)
    case TrackPlay(_, _) => IsPlayVictim(rows, ts, x)
    case PlaySource(_, trackPlay, connectorPlay) =>
      IsPlayVictim(rows, ts, trackPlay) || IsPlayVictim(rows, ts, connectorPlay)
    case Dependent(_, track) => track in ts
    case Event(_) => false
  }

  predicate IsPlayVictim(rows: Rows, ts: set<Id>, x: Id) {
    x in rows &&
    ((rows[x].TrackPlay? && rows[x].track in ts) ||
     (rows[x].ConnectorPlay? && rows[x].resolvedTrack.Some? && rows[x].resolvedTrack.value in ts))
  }

  /** The ON DELETE CASCADE references of these tables: `x` names `p`. */
  ghost predicate CascadesFrom(rows: Rows, p: Id, x: Id)
    requires x in rows
  {
    match rows[x]
    case ConnectorPlay(_, resolved) => resolved == Some(p)
    case TrackPlay(_, track) => track == p
    case PlaySource(_, trackPlay, connectorPlay) => p == trackPlay || p == connectorPlay
    case Dependent(_, track) => track == p
    case _ => false
  }

  /** A row goes exactly when it is one of the tracks or names a row that goes. */
  lemma VictimsAreWhatCascades(rows: Rows, ts: set<Id>, x: Id)
    requires IsLegal(rows) && (forall t | t in ts :: IsTrack(rows, t)) && x in rows
    ensures x in Victims(rows, ts) <==> x in ts || exists p | p in Victims(rows, ts) :: CascadesFrom(rows, p, x)
  {
    assert ReferencesHold(rows, x);
    match rows[x] {
      case ConnectorPlay(_, resolved) =>
        if x in Victims(rows, ts) {
          assert resolved.value in Victims(rows, ts);
        }
      case TrackPlay(_, track) =>
        if x in Victims(rows, ts) {
          assert track in Victims(rows, ts);
        }
      case PlaySource(_, trackPlay, connectorPlay) =>
        if x in Victims(rows, ts) {
          assert trackPlay in Victims(rows, ts) || connectorPlay in Victims(rows, ts);
        }
      case Dependent(_, track) =>
        if x in Victims(rows, ts) {
          assert track in Victims(rows, ts);
        }
      case _ =>
    }
  }

  class Store {
    var rows: Rows

    constructor (rows: Rows)
      ensures this.rows == rows
    {
      this.rows := rows;
    }

    /** DELETE of one mapping row: RESTRICT must find nothing pointing at it. */
    method DeleteMapping(m: Id)
      requires IsMapping(rows, m) && forall r :: !Restricts(rows, m, r)
      modifies this
      ensures rows == Without(old(rows), {m})
    {
      rows := Without(rows, {m});
    }

    /** DELETE of one track row: RESTRICT must find no mapping on it; the rest cascades. */
    method DeleteTrack(t: Id)
      requires IsTrack(rows, t) && forall r :: !Restricts(rows, t, r)
      modifies this
      ensures rows == Without(old(rows), Victims(old(rows), {t}))
    {
      rows := Without(rows, Victims(rows, {t}));
    }
  }

  // ------------------------------------------------------------ enumeration and guards

  /** Phase 1: default-tenant tracks inside the window. */
  function Candidates(rows: Rows, windowStart: int): set<Id> {
    set x | x in rows && rows[x].Track? && rows[x].user == MISTENANTED_TENANT && rows[x].createdAt >= windowStart
  }

  /** candidate_mapping_ids: every tenant's mappings, retired ones included. */
  function MappingsOn(rows: Rows, ts: set<Id>): set<Id> {
    set m | m in rows && rows[m].Mapping? && rows[m].track in ts
  }

  /** events_naming_mappings. */
  function NamedByEvents(rows: Rows, ms: set<Id>): set<Id> {
    set m | m in ms && exists e | e in rows :: rows[e].Event? && rows[e].resultingMapping == Some(m)
  }

  /** external_supersession_referrers: mappings outside the set that supersede into it. */
  function ExternalReferrers(rows: Rows, ms: set<Id>): set<Id> {
    set r | r in rows && r !in ms && rows[r].Mapping? && rows[r].supersededBy.Some? && rows[r].supersededBy.value in ms
  }

  /** Ledger rows of one tenant, or of all, that still point at a candidate. */
  function Pointing(rows: Rows, ts: set<Id>, tenant: Option<string>): set<Id> {
    set c | c in rows && rows[c].ConnectorPlay? && rows[c].resolvedTrack.Some? && rows[c].resolvedTrack.value in ts
      && (tenant.None? || rows[c].user == tenant.value)
  }

  function ForeignTrackPlays(rows: Rows, ts: set<Id>, user: string): set<Id> {
    set p | p in rows && rows[p].TrackPlay? && rows[p].track in ts && rows[p].user != user
  }

  /** Phase 2, once some of the candidates have been reset. */
  function Reset(rows: Rows, user: string, ts: set<Id>): Rows {
    map x | x in rows :: if x in Pointing(rows, ts, Some(user)) then rows[x].(resolvedTrack := None) else rows[x]
  }

  /** Phase 3, first statement: the set's successor pointers are nulled. */
  function Nulled(rows: Rows, ms: set<Id>): Rows {
    map x | x in rows :: if x in ms && rows[x].Mapping? then rows[x].(supersededBy := None) else rows[x]
  }

  /** The repaired database: the candidates, their mappings and what cascades are gone, the ledger unhooked. */
  function Repaired(rows: Rows, user: string, ts: set<Id>): Rows {
    var reset := Reset(rows, user, ts);
    Without(reset, MappingsOn(rows, ts) + Victims(reset, ts))
  }

  /** What phase 3 needs: nobody else's plays, and no supersession from outside. */
  predicate GuardsPass(rows: Rows, user: string, ts: set<Id>) {
    && ExternalReferrers(rows, MappingsOn(rows, ts)) == {}
    && (forall c | c in Pointing(rows, ts, None) :: rows[c].user == user)
    && ForeignTrackPlays(rows, ts, user) == {}
  }

  // ------------------------------------------------------------ what the repair promises

  /** Every candidate is gone, and every mapping on one. */
  lemma NoCandidateIsLeft(rows: Rows, user: string, windowStart: int)
    ensures var after := Repaired(rows, user, Candidates(rows, windowStart));
      Candidates(after, windowStart) == {} && MappingsOn(after, Candidates(rows, windowStart)) == {}
  {
  }

  /** The raw ledger survives whole: every connector play is there, with its pointer as it was or nulled. */
  lemma LedgerIsKept(rows: Rows, user: string, ts: set<Id>, c: Id)
    requires GuardsPass(rows, user, ts) && c in rows && rows[c].ConnectorPlay?
    ensures c in Repaired(rows, user, ts)
    ensures Repaired(rows, user, ts)[c] ==
      if c in Pointing(rows, ts, None) then rows[c].(resolvedTrack := None) else rows[c]
  {
  }

  /** Another tenant's play history is untouched, down to its sources. */
  lemma OthersKeepTheirPlays(rows: Rows, user: string, ts: set<Id>, x: Id)
    requires IsLegal(rows) && GuardsPass(rows, user, ts) && x in rows && (rows[x].TrackPlay? || rows[x].PlaySource?)
    requires PlayOwner(rows, x) != user
    ensures x in Repaired(rows, user, ts) && Repaired(rows, user, ts)[x] == rows[x]
  {
    var reset := Reset(rows, user, ts);
    assert ReferencesHold(rows, x);
    var p := if rows[x].TrackPlay? then x else rows[x].trackPlay;
    assert p !in ForeignTrackPlays(rows, ts, user) && reset[p] == rows[p];
    if rows[x].PlaySource? {
      NoLedgerVictim(rows, user, ts, rows[x].connectorPlay);
    }
  }

  /** Whose play a play row, or a row that documents its source, belongs to. */
  function PlayOwner(rows: Rows, x: Id): string
    requires IsLegal(rows) && x in rows && (rows[x].TrackPlay? || rows[x].PlaySource?)
  {
    assert ReferencesHold(rows, x);
    if rows[x].TrackPlay? then rows[x].user else rows[rows[x].trackPlay].user
  }

  lemma NoLedgerVictim(rows: Rows, user: string, ts: set<Id>, c: Id)
    requires GuardsPass(rows, user, ts) && c in rows && rows[c].ConnectorPlay?
    ensures !IsPlayVictim(Reset(rows, user, ts), ts, c)
  {
  }

  /** Rows that name no candidate are not touched at all. */
  lemma BystandersAreKept(rows: Rows, user: string, ts: set<Id>, x: Id)
    requires GuardsPass(rows, user, ts) && x in rows && x !in ts
    requires rows[x].Event? || rows[x].Track? || (rows[x].Dependent? && rows[x].track !in ts) ||
      (rows[x].Mapping? && rows[x].track !in ts)
    ensures x in Repaired(rows, user, ts) && Repaired(rows, user, ts)[x] == rows[x]
  {
  }

  /** The repair leaves a legal database: no reference dangles, supersessions into the set included. */
  lemma RepairIsLegal(rows: Rows, user: string, windowStart: int)
    requires IsLegal(rows) && GuardsPass(rows, user, Candidates(rows, windowStart))
    ensures IsLegal(Repaired(rows, user, Candidates(rows, windowStart)))
  {
    var ts := Candidates(rows, windowStart);
    forall x | x in Repaired(rows, user, ts) ensures ReferencesHold(Repaired(rows, user, ts), x) {
      SurvivorIsLegal(rows, user, ts, x);
    }
  }

  lemma SurvivorIsLegal(rows: Rows, user: string, ts: set<Id>, x: Id)
    requires IsLegal(rows) && GuardsPass(rows, user, ts) && x in Repaired(rows, user, ts)
    ensures ReferencesHold(Repaired(rows, user, ts), x)
  {
    var reset := Reset(rows, user, ts);
    assert ReferencesHold(rows, x);
    match rows[x] {
      case Mapping(_, track, successor) =>
        assert x !in MappingsOn(rows, ts);
        if successor.Some? {
          assert x !in ExternalReferrers(rows, MappingsOn(rows, ts));
        }
      case ConnectorPlay(_, resolved) =>
        LedgerIsKept(rows, user, ts, x);
      case PlaySource(_, trackPlay, connectorPlay) =>
        LedgerIsKept(rows, user, ts, connectorPlay);
        assert !IsPlayVictim(reset, ts, trackPlay);
      case _ =>
    }
  }

  // ------------------------------------------------------------ what other tenants lose

  predicate HasUser(r: Row) { !r.Event? }

  /** A row of another tenant that the repair does not name for deletion: no candidate, no mapping on one. */
  predicate IsOthers(rows: Rows, user: string, ts: set<Id>, x: Id) {
    x in rows && HasUser(rows[x]) && rows[x].user != user && x !in ts && x !in MappingsOn(rows, ts)
  }

  predicate IsUntouched(rows: Rows, user: string, ts: set<Id>, x: Id)
    requires x in rows
  {
    x in Repaired(rows, user, ts) && Repaired(rows, user, ts)[x] == rows[x]
  }

  /** A dependent of another tenant that names a candidate: a count the script could make beforehand. */
  predicate IsOthersDependent(rows: Rows, user: string, ts: set<Id>, x: Id) {
    x in rows && rows[x].Dependent? && rows[x].user != user && rows[x].track in ts
  }

  /** A source row that carries another tenant's name although its play is the user's, on a candidate. */
  predicate IsOthersSource(rows: Rows, user: string, ts: set<Id>, x: Id) {
    x in rows && rows[x].PlaySource? && rows[x].user != user &&
    rows[x].trackPlay in rows && rows[rows[x].trackPlay].TrackPlay? && rows[rows[x].trackPlay].track in ts
  }

  /** One row of another tenant: it stays as it was unless it is of one of those two kinds. */
  lemma OthersRowIsUntouched(rows: Rows, user: string, ts: set<Id>, x: Id)
    requires IsLegal(rows) && GuardsPass(rows, user, ts) && IsOthers(rows, user, ts, x)
    ensures IsUntouched(rows, user, ts, x) <==>
      !IsOthersDependent(rows, user, ts, x) && !IsOthersSource(rows, user, ts, x)
  {
    var reset := Reset(rows, user, ts);
    assert ReferencesHold(rows, x);
    match rows[x] {
      case ConnectorPlay(_, _) => LedgerIsKept(rows, user, ts, x);
      case TrackPlay(_, _) => OthersKeepTheirPlays(rows, user, ts, x);
      case PlaySource(_, trackPlay, connectorPlay) =>
        NoLedgerVictim(rows, user, ts, connectorPlay);
        assert reset[trackPlay] == rows[trackPlay];
      case _ =>
    }
  }

  /**
   The guards look at plays only.  When they pass, nothing of another tenant is touched, apart from the
   mappings deleted on purpose, if and only if no dependent of another tenant names a candidate and no
   source row of another tenant documents one of the user's plays on a candidate.
   */
  lemma OthersUntouchedIff(rows: Rows, user: string, windowStart: int)
    requires IsLegal(rows) && GuardsPass(rows, user, Candidates(rows, windowStart))
    ensures var ts := Candidates(rows, windowStart);
      (forall x | IsOthers(rows, user, ts, x) :: IsUntouched(rows, user, ts, x))
      <==> forall x :: !IsOthersDependent(rows, user, ts, x) && !IsOthersSource(rows, user, ts, x)
  {
    hide IsLegal, GuardsPass, IsUntouched;
    var ts := Candidates(rows, windowStart);
    forall x | IsOthers(rows, user, ts, x)
      ensures IsUntouched(rows, user, ts, x) <==>
        !IsOthersDependent(rows, user, ts, x) && !IsOthersSource(rows, user, ts, x)
    {
      OthersRowIsUntouched(rows, user, ts, x);
    }
    assert forall x | IsOthersDependent(rows, user, ts, x) || IsOthersSource(rows, user, ts, x) ::
      IsOthers(rows, user, ts, x);
  }

  /** Where every source row carries the tenant of its play, dependents are all that matters. */
  ghost predicate SourcesFollowPlays(rows: Rows) {
    forall x | x in rows && rows[x].PlaySource? ::
      rows[x].trackPlay in rows && rows[rows[x].trackPlay].TrackPlay? ==> rows[rows[x].trackPlay].user == rows[x].user
  }

  lemma OthersUntouchedIffNoDependent(rows: Rows, user: string, windowStart: int)
    requires IsLegal(rows) && GuardsPass(rows, user, Candidates(rows, windowStart)) && SourcesFollowPlays(rows)
    ensures var ts := Candidates(rows, windowStart);
      (forall x | IsOthers(rows, user, ts, x) :: IsUntouched(rows, user, ts, x))
      <==> forall x :: !IsOthersDependent(rows, user, ts, x)
  {
    var ts := Candidates(rows, windowStart);
    OthersUntouchedIff(rows, user, windowStart);
    forall x ensures !IsOthersSource(rows, user, ts, x) {
      if IsOthersSource(rows, user, ts, x) {
        SourceOfForeignPlay(rows, user, ts, x);
      }
    }
  }

  lemma SourceOfForeignPlay(rows: Rows, user: string, ts: set<Id>, x: Id)
    requires SourcesFollowPlays(rows) && IsOthersSource(rows, user, ts, x)
    ensures rows[x].trackPlay in ForeignTrackPlays(rows, ts, user)
  {
  }

  /** Such a database exists: another tenant's like on a candidate passes the guards and goes with it. */
  lemma OthersLikesAreTaken()
    ensures exists rows: Rows, like ::
      IsLegal(rows) && GuardsPass(rows, "me", Candidates(rows, 0)) && like in rows && rows[like].Dependent?
      && rows[like].user == "other" && like !in Repaired(rows, "me", Candidates(rows, 0))
  {
    var rows: Rows := map[Id(1) := Track(MISTENANTED_TENANT, 5), Id(2) := Dependent("other", Id(1))];
    assert Id(1) in Candidates(rows, 0);
    assert MappingsOn(rows, Candidates(rows, 0)) == {};
    assert Id(2) in Victims(Reset(rows, "me", Candidates(rows, 0)), Candidates(rows, 0));
    assert IsLegal(rows) && GuardsPass(rows, "me", Candidates(rows, 0));
    assert rows[Id(2)].Dependent? && rows[Id(2)].user == "other" && Id(2) !in Repaired(rows, "me", Candidates(rows, 0));
  }

  // ------------------------------------------------------------ the statements

  /** UPDATE connector_plays SET resolved_track_id = NULL for one tenant, one batch of tracks at a time. */
  method ResetResolutions(db: Store, user: string, trackIds: seq<Id>) returns (total: nat)
    modifies db
    ensures db.rows == Reset(old(db.rows), user, IdSet(trackIds))
    ensures total == |Pointing(old(db.rows), IdSet(trackIds), Some(user))|
  {
    ghost var before := db.rows;
    var i := 0;
    total := 0;
    NothingToReset(before, user);
    assert trackIds[..0] == [];
    hide *;
    while i < |trackIds|
      invariant i <= |trackIds| && db.rows == Reset(before, user, IdSet(trackIds[..i]))
      invariant total == |Pointing(before, IdSet(trackIds[..i]), Some(user))|
    {
      var next := if i + BATCH_SIZE < |trackIds| then i + BATCH_SIZE else |trackIds|;
      var batch := IdSet(trackIds[i..next]);
      SplitBatch(trackIds, i, next);
      ResetMore(before, user, IdSet(trackIds[..i]), batch);
      total := total + |Pointing(db.rows, batch, Some(user))|;
      db.rows := Reset(db.rows, user, batch);
      i := next;
    }
    assert trackIds[..i] == trackIds;
  }

  lemma SplitBatch(ids: seq<Id>, i: nat, next: nat)
    requires i <= next <= |ids|
    ensures IdSet(ids[..next]) == IdSet(ids[..i]) + IdSet(ids[i..next])
    ensures IdSet(ids[i..next]) <= IdSet(ids)
  {
  }

  lemma NothingToReset(rows: Rows, user: string)
    ensures Reset(rows, user, IdSet([])) == rows && Pointing(rows, IdSet([]), Some(user)) == {}
  {
  }

  lemma ResetMore(rows: Rows, user: string, done: set<Id>, batch: set<Id>)
    ensures Reset(Reset(rows, user, done), user, batch) == Reset(rows, user, done + batch)
    ensures |Pointing(rows, done, Some(user))| + |Pointing(Reset(rows, user, done), batch, Some(user))|
         == |Pointing(rows, done + batch, Some(user))|
  {
    PointingAfterReset(rows, user, done, batch);
    PointingAdds(rows, user, done, batch);
    hide Pointing;
    var first, rest := Pointing(rows, done, Some(user)), Pointing(Reset(rows, user, done), batch, Some(user));
    assert first !! rest && Pointing(rows, done + batch, Some(user)) == first + rest;
    ResetTwice(rows, user, done, batch);
  }

  lemma ResetTwice(rows: Rows, user: string, done: set<Id>, batch: set<Id>)
    requires Pointing(Reset(rows, user, done), batch, Some(user))
          == Pointing(rows, batch, Some(user)) - Pointing(rows, done, Some(user))
    requires Pointing(rows, done + batch, Some(user))
          == Pointing(rows, done, Some(user)) + Pointing(rows, batch, Some(user))
    ensures Reset(Reset(rows, user, done), user, batch) == Reset(rows, user, done + batch)
  {
  }

  lemma PointingAdds(rows: Rows, user: string, done: set<Id>, batch: set<Id>)
    ensures Pointing(rows, done + batch, Some(user))
         == Pointing(rows, done, Some(user)) + Pointing(rows, batch, Some(user))
  {
  }

  lemma PointingAfterReset(rows: Rows, user: string, done: set<Id>, batch: set<Id>)
    ensures Pointing(Reset(rows, user, done), batch, Some(user))
         == Pointing(rows, batch, Some(user)) - Pointing(rows, done, Some(user))
  {
    var now := Reset(rows, user, done);
    forall x | x in rows
      ensures x in Pointing(now, batch, Some(user)) <==>
        x in Pointing(rows, batch, Some(user)) - Pointing(rows, done, Some(user))
    {
    }
  }

  /** Nothing outside the set points into it, and inside it no successor pointer is left. */
  ghost predicate IsUnchained(rows: Rows, ms: set<Id>) {
    forall m, r | m in ms && r in rows && rows[r].Mapping? :: rows[r].supersededBy != Some(m) && rows[r].track != m
  }

  /** The mapping rows an id list reaches. */
  function Hits(rows: Rows, ids: set<Id>): set<Id> {
    set m | m in ids && IsMapping(rows, m)
  }

  /** DELETE FROM track_mappings WHERE id IN (...): row by row, in any order. */
  method DeleteMappings(db: Store, batch: set<Id>, ghost ms: set<Id>) returns (deleted: nat)
    requires batch <= ms && IsUnchained(db.rows, ms)
    modifies db
    ensures db.rows == Without(old(db.rows), Hits(old(db.rows), batch))
    ensures deleted == |Hits(old(db.rows), batch)|
  {
    ghost var before := db.rows;
    var all := Hits(db.rows, batch);
    var todo := all;
    deleted := |all|;
    assert Without(before, {}) == before;
    while todo != {}
      invariant todo <= all && db.rows == Without(before, all - todo)
    {
      var m :| m in todo;
      UnchainedAllows(before, ms, all - todo, m);
      db.DeleteMapping(m);
      assert all - (todo - {m}) == (all - todo) + {m};
      WithoutMore(before, all - todo, {m});
      todo := todo - {m};
    }
    assert all - todo == all;
  }

  lemma UnchainedAllows(rows: Rows, ms: set<Id>, gone: set<Id>, m: Id)
    requires IsUnchained(rows, ms) && m in ms
    ensures forall r :: !Restricts(Without(rows, gone), m, r)
  {
  }

  lemma WithoutMore(rows: Rows, a: set<Id>, b: set<Id>)
    ensures Without(Without(rows, a), b) == Without(rows, a + b)
  {
  }

  /** DELETE FROM tracks WHERE user_id = 'default' AND created_at >= :start AND id IN (...). */
  method DeleteTracks(db: Store, batch: set<Id>, windowStart: int) returns (deleted: nat)
    requires MappingsOn(db.rows, batch) == {} && forall t | t in batch :: NotAMapping(db.rows, t)
    modifies db
    ensures db.rows == Without(old(db.rows), Victims(old(db.rows), batch * Candidates(old(db.rows), windowStart)))
    ensures deleted == |batch * Candidates(old(db.rows), windowStart)|
  {
    hide *;
    ghost var before := db.rows;
    var all := batch * Candidates(db.rows, windowStart);
    var todo := all;
    deleted := 0;
    NoVictims(before, all);
    while todo != {}
      invariant todo <= all && db.rows == Without(before, Victims(before, all - todo))
      invariant deleted == |all - todo|
    {
      var t :| t in todo;
      TrackStep(before, batch, all, todo, t, windowStart);
      db.DeleteTrack(t);
      todo := todo - {t};
      deleted := deleted + 1;
    }
    assert all - todo == all;
  }

  /** No mapping is superseded by a track: the pointer is a foreign key to the mappings. */
  predicate NotAMapping(rows: Rows, t: Id) {
    forall r | r in rows && rows[r].Mapping? :: rows[r].supersededBy != Some(t)
  }

  lemma NoVictims(rows: Rows, all: set<Id>)
    ensures Without(rows, Victims(rows, all - all)) == rows && |all - all| == 0
  {
    assert all - all == {};
  }

  lemma TrackStep(rows: Rows, batch: set<Id>, all: set<Id>, todo: set<Id>, t: Id, windowStart: int)
    requires MappingsOn(rows, batch) == {} && all == batch * Candidates(rows, windowStart) && t in todo && todo <= all
    requires NotAMapping(rows, t)
    ensures var now := Without(rows, Victims(rows, all - todo));
      && IsTrack(now, t) && (forall r :: !Restricts(now, t, r))
      && Without(now, Victims(now, {t})) == Without(rows, Victims(rows, all - (todo - {t})))
      && |all - (todo - {t})| == |all - todo| + 1
  {
    assert all - (todo - {t}) == (all - todo) + {t};
    VictimsAddUp(rows, all - todo, {t});
    forall r ensures !Restricts(Without(rows, Victims(rows, all - todo)), t, r) {
      assert r !in MappingsOn(rows, batch);
    }
  }

  /** Cascading track by track removes what one cascade over all of them would. */
  lemma VictimsAddUp(rows: Rows, a: set<Id>, b: set<Id>)
    ensures var now := Without(rows, Victims(rows, a));
      Without(now, Victims(now, b)) == Without(rows, Victims(rows, a + b))
  {
  }

  // ------------------------------------------------------------ phase 3

  /** UPDATE track_mappings SET superseded_by_id = NULL, batch by batch. */
  method NullSuccessors(db: Store, mappingIds: seq<Id>)
    modifies db
    ensures db.rows == Nulled(old(db.rows), IdSet(mappingIds))
  {
    ghost var before := db.rows;
    var i := 0;
    assert Nulled(before, IdSet(mappingIds[..0])) == before;
    while i < |mappingIds|
      invariant i <= |mappingIds| && db.rows == Nulled(before, IdSet(mappingIds[..i]))
    {
      var next := if i + BATCH_SIZE < |mappingIds| then i + BATCH_SIZE else |mappingIds|;
      SplitBatch(mappingIds, i, next);
      NulledMore(before, IdSet(mappingIds[..i]), IdSet(mappingIds[i..next]));
      db.rows := Nulled(db.rows, IdSet(mappingIds[i..next]));
      i := next;
    }
    assert mappingIds[..i] == mappingIds;
  }

  lemma NulledMore(rows: Rows, a: set<Id>, b: set<Id>)
    ensures Nulled(Nulled(rows, a), b) == Nulled(rows, a + b)
  {
  }

  method DeleteAllMappings(db: Store, mappingIds: seq<Id>) returns (deleted: nat)
    requires IsUnchained(db.rows, IdSet(mappingIds))
    modifies db
    ensures db.rows == Without(old(db.rows), Hits(old(db.rows), IdSet(mappingIds)))
    ensures deleted == |Hits(old(db.rows), IdSet(mappingIds))|
  {
    ghost var before := db.rows;
    ghost var ms := IdSet(mappingIds);
    var i := 0;
    deleted := 0;
    NothingHit(before);
    assert mappingIds[..0] == [];
    hide *;
    while i < |mappingIds|
      invariant i <= |mappingIds| && db.rows == Without(before, Hits(before, IdSet(mappingIds[..i])))
      invariant deleted == |Hits(before, IdSet(mappingIds[..i]))|
    {
      var next := if i + BATCH_SIZE < |mappingIds| then i + BATCH_SIZE else |mappingIds|;
      var batch := IdSet(mappingIds[i..next]);
      SplitBatch(mappingIds, i, next);
      MappingBatch(before, ms, IdSet(mappingIds[..i]), batch);
      var more := DeleteMappings(db, batch, ms);
      deleted := deleted + more;
      i := next;
    }
    assert mappingIds[..i] == mappingIds;
  }

  lemma NothingHit(rows: Rows)
    ensures Without(rows, Hits(rows, IdSet([]))) == rows && Hits(rows, IdSet([])) == {}
  {
  }

  lemma MappingBatch(rows: Rows, ms: set<Id>, done: set<Id>, batch: set<Id>)
    requires IsUnchained(rows, ms)
    ensures var now := Without(rows, Hits(rows, done));
      && IsUnchained(now, ms)
      && Without(now, Hits(now, batch)) == Without(rows, Hits(rows, done + batch))
      && |Hits(rows, done)| + |Hits(now, batch)| == |Hits(rows, done + batch)|
  {
    var now := Without(rows, Hits(rows, done));
    assert Hits(rows, done + batch) == Hits(rows, done) + Hits(now, batch);
    assert Hits(rows, done) !! Hits(now, batch);
  }

  method DeleteAllTracks(db: Store, trackIds: seq<Id>, windowStart: int) returns (deleted: nat)
    requires MappingsOn(db.rows, IdSet(trackIds)) == {} && forall t | t in trackIds :: NotAMapping(db.rows, t)
    modifies db
    ensures db.rows ==
      Without(old(db.rows), Victims(old(db.rows), IdSet(trackIds) * Candidates(old(db.rows), windowStart)))
    ensures deleted == |IdSet(trackIds) * Candidates(old(db.rows), windowStart)|
  {
    ghost var before := db.rows;
    ghost var all := Candidates(before, windowStart);
    var i := 0;
    deleted := 0;
    NoVictims(before, {});
    assert IdSet(trackIds[..0]) * all == {};
    assert forall t | t in IdSet(trackIds) :: NotAMapping(before, t);
    hide *;
    while i < |trackIds|
      invariant i <= |trackIds| && db.rows == Without(before, Victims(before, IdSet(trackIds[..i]) * all))
      invariant deleted == |IdSet(trackIds[..i]) * all|
    {
      var next := if i + BATCH_SIZE < |trackIds| then i + BATCH_SIZE else |trackIds|;
      var batch := IdSet(trackIds[i..next]);
      SplitBatch(trackIds, i, next);
      TrackBatch(before, IdSet(trackIds), IdSet(trackIds[..i]), batch, windowStart);
      var more := DeleteTracks(db, batch, windowStart);
      deleted := deleted + more;
      i := next;
    }
    assert trackIds[..i] == trackIds;
  }

  lemma TrackBatch(rows: Rows, whole: set<Id>, done: set<Id>, batch: set<Id>, windowStart: int)
    requires MappingsOn(rows, whole) == {} && batch <= whole && forall t | t in whole :: NotAMapping(rows, t)
    ensures var all := Candidates(rows, windowStart);
      var now := Without(rows, Victims(rows, done * all));
      var hit := batch * Candidates(now, windowStart);
      && MappingsOn(now, batch) == {} && (forall t | t in batch :: NotAMapping(now, t))
      && Without(now, Victims(now, hit)) == Without(rows, Victims(rows, (done + batch) * all))
      && |done * all| + |hit| == |(done + batch) * all|
  {
    var all := Candidates(rows, windowStart);
    var now := Without(rows, Victims(rows, done * all));
    var hit := batch * Candidates(now, windowStart);
    TracksLeft(rows, done, windowStart);
    assert (done + batch) * all == done * all + hit && done * all !! hit;
    VictimsAddUp(rows, done * all, hit);
    forall m | m in now && now[m].Mapping? ensures now[m].track !in batch {
      assert m !in MappingsOn(rows, whole);
    }
  }

  lemma TracksLeft(rows: Rows, done: set<Id>, windowStart: int)
    ensures var all := Candidates(rows, windowStart);
      Candidates(Without(rows, Victims(rows, done * all)), windowStart) == all - done * all
  {
  }

  /** delete_mappings_and_tracks: one transaction, and no step of it can fail. */
  method DeleteMappingsAndTracks(db: Store, trackIds: seq<Id>, mappingIds: seq<Id>, windowStart: int)
    returns (mappings: nat, tracks: nat)
    requires IsLegal(db.rows) && IdSet(trackIds) == Candidates(db.rows, windowStart)
    requires IdSet(mappingIds) == MappingsOn(db.rows, IdSet(trackIds)) &&
      ExternalReferrers(db.rows, IdSet(mappingIds)) == {}
    modifies db
    ensures db.rows ==
      Without(old(db.rows), MappingsOn(old(db.rows), IdSet(trackIds)) + Victims(old(db.rows), IdSet(trackIds)))
    ensures mappings == |MappingsOn(old(db.rows), IdSet(trackIds))| && tracks == |IdSet(trackIds)|
  {
    ghost var before := db.rows;
    hide *;
    NullSuccessors(db, mappingIds);
    NullingUnchains(before, IdSet(trackIds), IdSet(mappingIds));
    mappings := DeleteAllMappings(db, mappingIds);
    MappingsGone(before, trackIds, IdSet(mappingIds), windowStart);
    tracks := DeleteAllTracks(db, trackIds, windowStart);
  }

  lemma NullingUnchains(rows: Rows, ts: set<Id>, ms: set<Id>)
    requires IsLegal(rows) && ms == MappingsOn(rows, ts) && ExternalReferrers(rows, ms) == {}
    ensures IsUnchained(Nulled(rows, ms), ms) && Hits(Nulled(rows, ms), ms) == ms
  {
    forall m, r | m in ms && r in rows && rows[r].Mapping?
      ensures Nulled(rows, ms)[r].supersededBy != Some(m) && rows[r].track != m
    {
      assert ReferencesHold(rows, r) && r !in ExternalReferrers(rows, ms);
    }
  }

  lemma MappingsGone(rows: Rows, trackIds: seq<Id>, ms: set<Id>, windowStart: int)
    requires IsLegal(rows) && IdSet(trackIds) == Candidates(rows, windowStart) &&
      ms == MappingsOn(rows, IdSet(trackIds))
    ensures var now := Without(Nulled(rows, ms), ms);
      && MappingsOn(now, IdSet(trackIds)) == {} && (forall t | t in trackIds :: NotAMapping(now, t))
      && IdSet(trackIds) * Candidates(now, windowStart) == IdSet(trackIds)
      && Without(now, Victims(now, IdSet(trackIds))) == Without(rows, ms + Victims(rows, IdSet(trackIds)))
  {
    var ts := IdSet(trackIds);
    var now := Without(Nulled(rows, ms), ms);
    forall t, r | t in ts && r in now && now[r].Mapping? ensures now[r].supersededBy != Some(t) {
      assert ReferencesHold(rows, r);
    }
    assert now == Without(rows, ms);
    assert Candidates(now, windowStart) == Candidates(rows, windowStart);
    forall x | x in now ensures x in Victims(now, ts) <==> x in Victims(rows, ts) {
      PlayVictimsAreNoMappings(rows, ms, ts, x);
    }
  }

  lemma PlayVictimsAreNoMappings(rows: Rows, ms: set<Id>, ts: set<Id>, x: Id)
    requires (forall m | m in ms :: IsMapping(rows, m)) && x in Without(rows, ms)
    ensures IsVictim(Without(rows, ms), ts, x) <==> IsVictim(rows, ts, x)
  {
  }

  // ------------------------------------------------------------ the run

  datatype Outcome =
    | NothingToRepair
    | ExternalSupersession
    | HistoryNotAcknowledged
    | StillPointing
    | Done(reset: nat, mappings: nat, tracks: nat)

  /** What --apply decides, on the sets the script collects. */
  ghost predicate Decides(rows: Rows, user: string, windowStart: int, acknowledged: bool, o: Outcome) {
    var ts := Candidates(rows, windowStart);
    var ms := MappingsOn(rows, ts);
    if ts == {} then o.NothingToRepair?
    else if ExternalReferrers(rows, ms) != {} then o.ExternalSupersession?
    else if NamedByEvents(rows, ms) != {} && !acknowledged then o.HistoryNotAcknowledged?
    else if !GuardsPass(rows, user, ts) then o.StillPointing?
    else o == Done(|Pointing(rows, ts, Some(user))|, |ms|, |ts|)
  }

  // ------------------------------------------------------------ the decision and its effect, row by row

  /** A track of the "default" tenant created inside the window. */
  ghost predicate IsCandidate(rows: Rows, windowStart: int, t: Id) {
    t in rows && rows[t].Track? && rows[t].user == "default" && rows[t].createdAt >= windowStart
  }

  ghost predicate OnCandidate(rows: Rows, windowStart: int, m: Id) {
    m in rows && rows[m].Mapping? && IsCandidate(rows, windowStart, rows[m].track)
  }

  /** A mapping on a candidate is the successor of `r`, which is on no candidate. */
  ghost predicate SupersededInto(rows: Rows, windowStart: int, r: Id, m: Id) {
    OnCandidate(rows, windowStart, m) && r in rows && rows[r].Mapping? && !OnCandidate(rows, windowStart, r) &&
    rows[r].supersededBy == Some(m)
  }

  ghost predicate FromOutside(rows: Rows, windowStart: int) {
    exists r, m :: SupersededInto(rows, windowStart, r, m)
  }

  /** The event names a mapping on a candidate. */
  ghost predicate NamesMapping(rows: Rows, windowStart: int, e: Id, m: Id) {
    OnCandidate(rows, windowStart, m) && e in rows && rows[e].Event? && rows[e].resultingMapping == Some(m)
  }

  ghost predicate InHistory(rows: Rows, windowStart: int) {
    exists e, m :: NamesMapping(rows, windowStart, e, m)
  }

  ghost predicate PlaysCandidate(rows: Rows, windowStart: int, p: Id) {
    p in rows &&
    ((rows[p].TrackPlay? && IsCandidate(rows, windowStart, rows[p].track)) ||
     (rows[p].ConnectorPlay? && rows[p].resolvedTrack != None &&
      IsCandidate(rows, windowStart, rows[p].resolvedTrack.value)))
  }

  /** Somebody else has a play of a candidate, in either ledger. */
  ghost predicate OthersPlay(rows: Rows, user: string, windowStart: int) {
    exists p | p in rows :: PlaysCandidate(rows, windowStart, p) && rows[p].user != user
  }

  /** A connector play of the user that resolves to a candidate. */
  ghost predicate IsHooked(rows: Rows, user: string, windowStart: int, c: Id) {
    c in rows && rows[c].ConnectorPlay? && rows[c].user == user && PlaysCandidate(rows, windowStart, c)
  }

  /** What --apply answers, in the script's order. */
  ghost predicate Answers(rows: Rows, user: string, windowStart: int, acknowledged: bool, o: Outcome) {
    if forall t :: !IsCandidate(rows, windowStart, t) then o.NothingToRepair?
    else if FromOutside(rows, windowStart) then o.ExternalSupersession?
    else if InHistory(rows, windowStart) && !acknowledged then o.HistoryNotAcknowledged?
    else if OthersPlay(rows, user, windowStart) then o.StillPointing?
    else o == Done(|set c | c in rows && IsHooked(rows, user, windowStart, c)|,
                   |set m | m in rows && OnCandidate(rows, windowStart, m)|,
                   |set t | t in rows && IsCandidate(rows, windowStart, t)|)
  }

  /** What becomes of one row in a full repair; None when it is deleted. */
  ghost function Fate(rows: Rows, windowStart: int, x: Id): Option<Row>
    requires x in rows
  {
    match rows[x]
    case Track(_, _) => if IsCandidate(rows, windowStart, x) then None else Some(rows[x])
    case Mapping(_, _, _) => if OnCandidate(rows, windowStart, x) then None else Some(rows[x])
    case ConnectorPlay(user, _) =>
      if PlaysCandidate(rows, windowStart, x) then Some(ConnectorPlay(user, None)) else Some(rows[x])
    case TrackPlay(_, _) => if PlaysCandidate(rows, windowStart, x) then None else Some(rows[x])
    case PlaySource(_, trackPlay, _) =>
      if PlaysCandidate(rows, windowStart, trackPlay) then None else Some(rows[x])
    case Dependent(_, track) => if IsCandidate(rows, windowStart, track) then None else Some(rows[x])
    case Event(_) => Some(rows[x])
  }

  ghost predicate AllMet(rows: Rows, windowStart: int, after: Rows) {
    after.Keys <= rows.Keys &&
    forall x | x in rows :: Fate(rows, windowStart, x) == if x in after then Some(after[x]) else None
  }

  /** Only the user's connector plays of candidates differ: they resolve to nothing. */
  ghost predicate OnlyUnhooked(rows: Rows, user: string, windowStart: int, after: Rows) {
    after.Keys == rows.Keys &&
    forall x | x in rows ::
      after[x] == if IsHooked(rows, user, windowStart, x) then ConnectorPlay(user, None) else rows[x]
  }

  lemma SetsAreByRow(rows: Rows, user: string, windowStart: int)
    ensures var ts := Candidates(rows, windowStart);
      && ts == (set t | t in rows && IsCandidate(rows, windowStart, t))
      && (ts == {} <==> forall t :: !IsCandidate(rows, windowStart, t))
      && MappingsOn(rows, ts) == (set m | m in rows && OnCandidate(rows, windowStart, m))
      && Pointing(rows, ts, Some(user)) == (set c | c in rows && IsHooked(rows, user, windowStart, c))
  {
    assert forall t :: t in Candidates(rows, windowStart) <==> IsCandidate(rows, windowStart, t);
  }

  lemma RefusalsAreByRow(rows: Rows, windowStart: int)
    ensures var ts := Candidates(rows, windowStart);
      && (ExternalReferrers(rows, MappingsOn(rows, ts)) != {} <==> FromOutside(rows, windowStart))
      && (NamedByEvents(rows, MappingsOn(rows, ts)) != {} <==> InHistory(rows, windowStart))
  {
    var ms := MappingsOn(rows, Candidates(rows, windowStart));
    assert forall m :: m in ms <==> OnCandidate(rows, windowStart, m);
    if r, m :| SupersededInto(rows, windowStart, r, m) {
      assert r in ExternalReferrers(rows, ms);
    }
    if r :| r in ExternalReferrers(rows, ms) {
      assert SupersededInto(rows, windowStart, r, rows[r].supersededBy.value);
    }
    if e, m :| NamesMapping(rows, windowStart, e, m) {
      assert m in NamedByEvents(rows, ms);
    }
    if m :| m in NamedByEvents(rows, ms) {
      var e :| e in rows && rows[e].Event? && rows[e].resultingMapping == Some(m);
      assert NamesMapping(rows, windowStart, e, m);
    }
  }

  lemma GuardsAreByRow(rows: Rows, user: string, windowStart: int)
    requires !FromOutside(rows, windowStart)
    ensures GuardsPass(rows, user, Candidates(rows, windowStart)) <==> !OthersPlay(rows, user, windowStart)
  {
    var ts := Candidates(rows, windowStart);
    RefusalsAreByRow(rows, windowStart);
    assert forall t :: t in ts <==> IsCandidate(rows, windowStart, t);
    if p :| p in rows && PlaysCandidate(rows, windowStart, p) && rows[p].user != user {
      assert p in ForeignTrackPlays(rows, ts, user) || p in Pointing(rows, ts, None);
    }
    if !GuardsPass(rows, user, ts) {
      var p :| (p in Pointing(rows, ts, None) && rows[p].user != user) || p in ForeignTrackPlays(rows, ts, user);
      assert PlaysCandidate(rows, windowStart, p);
    }
  }

  /** What was decided on sets is what the rows say. */
  lemma DecisionIsByRow(rows: Rows, user: string, windowStart: int, acknowledged: bool, o: Outcome)
    requires Decides(rows, user, windowStart, acknowledged, o)
    ensures Answers(rows, user, windowStart, acknowledged, o)
  {
    hide GuardsPass, FromOutside, InHistory, OthersPlay, Candidates, MappingsOn, Pointing, NamedByEvents,
         ExternalReferrers;
    SetsAreByRow(rows, user, windowStart);
    RefusalsAreByRow(rows, windowStart);
    if !FromOutside(rows, windowStart) {
      GuardsAreByRow(rows, user, windowStart);
    }
  }

  lemma ResetIsByRow(rows: Rows, user: string, windowStart: int)
    ensures OnlyUnhooked(rows, user, windowStart, Reset(rows, user, Candidates(rows, windowStart)))
  {
    assert forall t :: t in Candidates(rows, windowStart) <==> IsCandidate(rows, windowStart, t);
  }

  lemma RepairIsByRow(rows: Rows, user: string, windowStart: int)
    requires IsLegal(rows) && GuardsPass(rows, user, Candidates(rows, windowStart))
    ensures AllMet(rows, windowStart, Repaired(rows, user, Candidates(rows, windowStart)))
  {
    forall x | x in rows
      ensures var after := Repaired(rows, user, Candidates(rows, windowStart));
        Fate(rows, windowStart, x) == if x in after then Some(after[x]) else None
    {
      FateIsMet(rows, user, windowStart, x);
    }
  }

  lemma FateIsMet(rows: Rows, user: string, windowStart: int, x: Id)
    requires IsLegal(rows) && GuardsPass(rows, user, Candidates(rows, windowStart)) && x in rows
    ensures var after := Repaired(rows, user, Candidates(rows, windowStart));
      Fate(rows, windowStart, x) == if x in after then Some(after[x]) else None
  {
    var ts := Candidates(rows, windowStart);
    assert forall t :: t in ts <==> IsCandidate(rows, windowStart, t);
    assert ReferencesHold(rows, x);
    match rows[x] {
      case ConnectorPlay(_, _) => LedgerIsKept(rows, user, ts, x);
      case PlaySource(_, trackPlay, connectorPlay) =>
        NoLedgerVictim(rows, user, ts, connectorPlay);
        assert Reset(rows, user, ts)[trackPlay] == rows[trackPlay];
      case _ =>
    }
  }

  /**
   _run with --apply.  Phase 2 commits before the guards look, so a refusal there leaves the user's
   pointers reset and nothing else changed; when the guards pass, phase 3 cannot fail.
   */
  method Run(db: Store, user: string, windowStart: int, acknowledged: bool) returns (outcome: Outcome)
    requires IsLegal(db.rows)
    modifies db
    ensures Answers(old(db.rows), user, windowStart, acknowledged, outcome)
    ensures outcome.Done? ==>
      AllMet(old(db.rows), windowStart, db.rows) &&
      db.rows == Repaired(old(db.rows), user, Candidates(old(db.rows), windowStart))
    ensures outcome.StillPointing? ==> OnlyUnhooked(old(db.rows), user, windowStart, db.rows)
    ensures !outcome.Done? && !outcome.StillPointing? ==> db.rows == old(db.rows)
    ensures OtherTracksStay(old(db.rows), windowStart, db.rows)
    ensures outcome.Done? ==> WindowIsEmpty(windowStart, db.rows)
    ensures IsLegal(db.rows)
  {
    hide *;
    ghost var before := db.rows;
    TracksAreSame(before, windowStart);
    var trackIds := EnumerateCandidates(db.rows, windowStart);
    if trackIds == [] {
      DecideNothing(before, user, windowStart, acknowledged);
      return NothingToRepair;
    }
    var mappingIds := CandidateMappingIds(db.rows, trackIds);
    if ExternalReferrers(db.rows, IdSet(mappingIds)) != {} {
      DecideExternal(before, user, windowStart, acknowledged);
      return ExternalSupersession;
    }
    if NamedByEvents(db.rows, IdSet(mappingIds)) != {} && !acknowledged {
      DecideHistory(before, user, windowStart, acknowledged);
      return HistoryNotAcknowledged;
    }
    Phase2IsReached(before, windowStart, acknowledged);
    var reset := ResetResolutions(db, user, trackIds);
    ResetIsLegal(before, user, IdSet(trackIds));
    AfterReset(before, user, windowStart);
    if Pointing(db.rows, IdSet(trackIds), Some(user)) != {}
      || Pointing(db.rows, IdSet(trackIds), Some(MISTENANTED_TENANT)) != {}
      || Pointing(db.rows, IdSet(trackIds), None) != {}
      || ForeignTrackPlays(db.rows, IdSet(trackIds), user) != {}
    {
      DecidePointing(before, user, windowStart, acknowledged);
      ResetIsByRow(before, user, windowStart);
      ResetKeepsTracks(before, user, windowStart, db.rows);
      return StillPointing;
    }
    var mappings, tracks := DeleteMappingsAndTracks(db, trackIds, mappingIds, windowStart);
    DecideDone(before, user, windowStart, acknowledged);
    outcome := Done(reset, mappings, tracks);
    RepairTakesTheWindow(before, windowStart, db.rows);
  }

  /** A track of another tenant, or from before the window, is there as it was. */
  ghost predicate OtherTracksStay(rows: Rows, windowStart: int, after: Rows) {
    forall t | t in rows && rows[t].Track? && (rows[t].user != "default" || rows[t].createdAt < windowStart) ::
      t in after && after[t] == rows[t]
  }

  ghost predicate WindowIsEmpty(windowStart: int, after: Rows) {
    forall t | t in after && after[t].Track? && after[t].user == "default" :: after[t].createdAt < windowStart
  }

  lemma TracksAreSame(rows: Rows, windowStart: int)
    ensures OtherTracksStay(rows, windowStart, rows)
  {
  }

  lemma ResetKeepsTracks(rows: Rows, user: string, windowStart: int, after: Rows)
    requires OnlyUnhooked(rows, user, windowStart, after)
    ensures OtherTracksStay(rows, windowStart, after)
  {
  }

  lemma RepairTakesTheWindow(rows: Rows, windowStart: int, after: Rows)
    requires AllMet(rows, windowStart, after)
    ensures OtherTracksStay(rows, windowStart, after) && WindowIsEmpty(windowStart, after)
  {
    forall t | t in rows && rows[t].Track? && (rows[t].user != "default" || rows[t].createdAt < windowStart)
      ensures t in after && after[t] == rows[t]
    {
      assert Fate(rows, windowStart, t) == Some(rows[t]);
    }
    forall t | t in after && after[t].Track? && after[t].user == "default" ensures after[t].createdAt < windowStart {
      assert Fate(rows, windowStart, t) == Some(after[t]);
    }
  }

  method EnumerateCandidates(rows: Rows, windowStart: int) returns (trackIds: seq<Id>)
    ensures IdSet(trackIds) == Candidates(rows, windowStart)
    ensures trackIds == [] <==> Candidates(rows, windowStart) == {}
  {
    trackIds := OrderById(Candidates(rows, windowStart));
    assert trackIds != [] ==> trackIds[0] in trackIds;
  }

  method CandidateMappingIds(rows: Rows, trackIds: seq<Id>) returns (mappingIds: seq<Id>)
    ensures IdSet(mappingIds) == MappingsOn(rows, IdSet(trackIds))
  {
    mappingIds := OrderById(MappingsOn(rows, IdSet(trackIds)));
  }

  lemma DecideNothing(rows: Rows, user: string, windowStart: int, acknowledged: bool)
    requires Candidates(rows, windowStart) == {}
    ensures Answers(rows, user, windowStart, acknowledged, NothingToRepair)
  {
    SetsAreByRow(rows, user, windowStart);
  }

  /** The reset touches pointers only, so what was enumerated before it still stands. */
  lemma AfterReset(rows: Rows, user: string, windowStart: int)
    ensures var ts := Candidates(rows, windowStart);
      var now := Reset(rows, user, ts);
      && Candidates(now, windowStart) == ts && MappingsOn(now, ts) == MappingsOn(rows, ts)
      && ExternalReferrers(now, MappingsOn(rows, ts)) == ExternalReferrers(rows, MappingsOn(rows, ts))
    ensures var ts := Candidates(rows, windowStart);
      var now := Reset(rows, user, ts);
      (ExternalReferrers(rows, MappingsOn(rows, ts)) == {} ==>
        (GuardsPass(rows, user, ts) <==>
          Pointing(now, ts, Some(user)) == {} && Pointing(now, ts, Some(MISTENANTED_TENANT)) == {}
          && Pointing(now, ts, None) == {} && ForeignTrackPlays(now, ts, user) == {}))
  {
    var ts := Candidates(rows, windowStart);
    var now := Reset(rows, user, ts);
    assert ForeignTrackPlays(now, ts, user) == ForeignTrackPlays(rows, ts, user);
    forall c ensures c in Pointing(now, ts, None) <==> c in Pointing(rows, ts, None) && rows[c].user != user {
    }
    assert Pointing(now, ts, Some(user)) <= Pointing(now, ts, None);
    assert Pointing(now, ts, Some(MISTENANTED_TENANT)) <= Pointing(now, ts, None);
  }

  lemma ResetIsLegal(rows: Rows, user: string, ts: set<Id>)
    requires IsLegal(rows)
    ensures IsLegal(Reset(rows, user, ts))
  {
  }

  lemma DecideExternal(rows: Rows, user: string, windowStart: int, acknowledged: bool)
    requires Candidates(rows, windowStart) != {}
    requires ExternalReferrers(rows, MappingsOn(rows, Candidates(rows, windowStart))) != {}
    ensures Answers(rows, user, windowStart, acknowledged, ExternalSupersession)
  {
    DecisionIsByRow(rows, user, windowStart, acknowledged, ExternalSupersession);
  }

  lemma DecideHistory(rows: Rows, user: string, windowStart: int, acknowledged: bool)
    requires Candidates(rows, windowStart) != {} && !acknowledged
    requires ExternalReferrers(rows, MappingsOn(rows, Candidates(rows, windowStart))) == {}
    requires NamedByEvents(rows, MappingsOn(rows, Candidates(rows, windowStart))) != {}
    ensures Answers(rows, user, windowStart, acknowledged, HistoryNotAcknowledged)
  {
    DecisionIsByRow(rows, user, windowStart, acknowledged, HistoryNotAcknowledged);
  }

  ghost predicate ReachesPhase2(rows: Rows, windowStart: int, acknowledged: bool) {
    var ts := Candidates(rows, windowStart);
    ts != {} && ExternalReferrers(rows, MappingsOn(rows, ts)) == {}
    && (NamedByEvents(rows, MappingsOn(rows, ts)) == {} || acknowledged)
  }

  lemma Phase2IsReached(rows: Rows, windowStart: int, acknowledged: bool)
    requires Candidates(rows, windowStart) != {}
    requires ExternalReferrers(rows, MappingsOn(rows, Candidates(rows, windowStart))) == {}
    requires NamedByEvents(rows, MappingsOn(rows, Candidates(rows, windowStart))) == {} || acknowledged
    ensures ReachesPhase2(rows, windowStart, acknowledged)
  {
  }

  lemma DecidePointing(rows: Rows, user: string, windowStart: int, acknowledged: bool)
    requires ReachesPhase2(rows, windowStart, acknowledged) && !GuardsPass(rows, user, Candidates(rows, windowStart))
    ensures Answers(rows, user, windowStart, acknowledged, StillPointing)
  {
    DecisionIsByRow(rows, user, windowStart, acknowledged, StillPointing);
  }

  lemma DecideDone(rows: Rows, user: string, windowStart: int, acknowledged: bool)
    requires IsLegal(rows)
    requires ReachesPhase2(rows, windowStart, acknowledged) && GuardsPass(rows, user, Candidates(rows, windowStart))
    ensures var ts := Candidates(rows, windowStart);
      Answers(rows, user, windowStart, acknowledged,
              Done(|Pointing(rows, ts, Some(user))|, |MappingsOn(rows, ts)|, |ts|))
    ensures var ts := Candidates(rows, windowStart);
      var reset := Reset(rows, user, ts);
      Repaired(rows, user, ts) == Without(reset, MappingsOn(reset, ts) + Victims(reset, ts))
    ensures IsLegal(Repaired(rows, user, Candidates(rows, windowStart)))
    ensures AllMet(rows, windowStart, Repaired(rows, user, Candidates(rows, windowStart)))
  {
    hide IsLegal, GuardsPass, Answers, AllMet;
    var ts := Candidates(rows, windowStart);
    DecisionIsByRow(rows, user, windowStart, acknowledged,
                    Done(|Pointing(rows, ts, Some(user))|, |MappingsOn(rows, ts)|, |ts|));
    AfterReset(rows, user, windowStart);
    RepairIsLegal(rows, user, windowStart);
    RepairIsByRow(rows, user, windowStart);
  }
}
