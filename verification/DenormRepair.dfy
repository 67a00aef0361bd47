/**
 The pre-pass of alembic/versions/044_track_mappings_supersession.py: collapse duplicate live keys,
 then re-derive each denormalized identifier column of `tracks` from the primary mapping in two
 batched passes.  Every row write is probed against the unique index on (user, column); a statement
 that trips it is rolled back, earlier batches stay committed and the migration stops.
 */
module DenormRepair {
  import opened Wrappers
  import opened Ids
  import opened BatchedCollapse

  datatype Mapping = Mapping(user: string, track: Id, connectorTrack: Id, connector: string, isPrimary: bool)

  datatype ConnectorTrack = ConnectorTrack(connector: string, identifier: string)

  /** A track's denormalized columns; an absent column is NULL. */
  datatype Track = Track(user: string, columns: map<string, string>)

  type Mappings = map<Id, Mapping>
  type ConnectorTracks = map<Id, ConnectorTrack>
  type Tracks = map<Id, Track>

  /** The denormalized columns and the connector each follows. */
  const SPOTIFY := "spotify"
  const SPOTIFY_ID := "spotify_id"
  const MUSICBRAINZ := "musicbrainz"
  const MBID := "mbid"

  function Column(t: Track, column: string): Option<string> {
    if column in t.columns then Some(t.columns[column]) else None
  }

  function SetColumn(t: Track, column: string, value: Option<string>): Track {
    match value
    case None => t.(columns := t.columns - {column})
    case Some(v) => t.(columns := t.columns[column := v])
  }

  /** The unique index on (user, column); NULLs never collide. */
  predicate SameValue(tracks: Tracks, column: string, t: Id, u: Id)
    requires t in tracks && u in tracks
  {
    tracks[t].user == tracks[u].user && Column(tracks[t], column).Some? &&
    Column(tracks[t], column) == Column(tracks[u], column)
  }

  ghost predicate UniqueColumn(tracks: Tracks, column: string) {
    forall t, u {:trigger SameValue(tracks, column, t, u)} |
      t in tracks && u in tracks && SameValue(tracks, column, t, u) :: t == u
  }

  // ------------------------------------------------------------ the primary identifier

  /** A primary mapping of the track's own user for the connector, joined to its connector track. */
  ghost predicate IsPrimaryFor(ms: Mappings, cts: ConnectorTracks, connector: string, id: Id, user: string, m: Id) {
    m in ms && ms[m].track == id && ms[m].user == user && ms[m].connector == connector && ms[m].isPrimary &&
    ms[m].connectorTrack in cts
  }

  /** `ORDER BY tm.id LIMIT 1`: the first of those mappings. */
  ghost predicate IsFirstPrimary(ms: Mappings, cts: ConnectorTracks, connector: string, id: Id, user: string, m: Id) {
    IsPrimaryFor(ms, cts, connector, id, user, m) &&
    forall x | IsPrimaryFor(ms, cts, connector, id, user, x) :: m.n <= x.n
  }

  /** `_primary_identifier_sql`: the identifier of the lowest-id primary mapping, or NULL. */
  function PrimaryIdentifier(ms: Mappings, cts: ConnectorTracks, connector: string, id: Id, user: string)
    : (r: Option<string>)
    ensures r.None? <==> forall m | m in ms :: !IsPrimaryFor(ms, cts, connector, id, user, m)
    ensures r.Some? ==> exists m :: IsFirstPrimary(ms, cts, connector, id, user, m)
    ensures forall m | IsFirstPrimary(ms, cts, connector, id, user, m) ::
              r == Some(cts[ms[m].connectorTrack].identifier)
  {
    var primaries := set m | m in ms && ms[m].track == id && ms[m].user == user && ms[m].connector == connector &&
                             ms[m].isPrimary && ms[m].connectorTrack in cts;
    assert forall m :: IsPrimaryFor(ms, cts, connector, id, user, m) <==> m in primaries;
    if primaries == {} then None
    else
      var first := Least(primaries);
      assert IsFirstPrimary(ms, cts, connector, id, user, first);
      Some(cts[ms[first].connectorTrack].identifier)
  }

  // ------------------------------------------------------------ claims

  /** Mappings and connector tracks agree on the connector. */
  ghost predicate ConnectorsAgree(ms: Mappings, cts: ConnectorTracks) {
    forall m | m in ms && ms[m].connectorTrack in cts :: cts[ms[m].connectorTrack].connector == ms[m].connector
  }

  ghost predicate UniqueIdentifiers(cts: ConnectorTracks) {
    forall a, b | a in cts && b in cts && cts[a] == cts[b] :: a == b
  }

  function LiveKeyOf(m: Mapping): Key { LiveKey(m.user, m.connectorTrack, m.connector) }

  function KeyRows(ms: Mappings): Rows {
    map m | m in ms :: Row(LiveKeyOf(ms[m]), None)
  }

  /** Equal in the three columns of the live key. */
  ghost predicate SameLiveKey(a: Mapping, b: Mapping) {
    a.user == b.user && a.connectorTrack == b.connectorTrack && a.connector == b.connector
  }

  ghost predicate OneLiveKey(ms: Mappings) {
    forall a, b | a in ms && b in ms && SameLiveKey(ms[a], ms[b]) :: a == b
  }

  /** Mappings that stay are as they were, and each that goes leaves a lower one of its live key. */
  ghost predicate LowestLiveStay(before: Mappings, after: Mappings) {
    (forall m | m in after :: m in before && after[m] == before[m]) &&
    (forall d | d in before && d !in after :: exists k | k in after :: k.n < d.n && SameLiveKey(after[k], before[d]))
  }

  /** What the collapse leaves of the mappings. */
  function Collapsed(ms: Mappings): Mappings {
    ms - Doomed(KeyRows(ms))
  }

  /** What track `id` claims for the column. */
  function Claim(ms: Mappings, cts: ConnectorTracks, connector: string, tracks: Tracks, id: Id): Option<string>
    requires id in tracks
  {
    PrimaryIdentifier(ms, cts, connector, id, tracks[id].user)
  }

  predicate SameClaim(ms: Mappings, cts: ConnectorTracks, connector: string, tracks: Tracks, t: Id, u: Id)
    requires t in tracks && u in tracks
  {
    tracks[t].user == tracks[u].user && Claim(ms, cts, connector, tracks, t).Some? &&
    Claim(ms, cts, connector, tracks, t) == Claim(ms, cts, connector, tracks, u)
  }

  /** No two tracks of one user have first primary mappings with the same identifier. */
  ghost predicate ClaimsAreDistinct(ms: Mappings, cts: ConnectorTracks, connector: string, tracks: Tracks) {
    forall t, u {:trigger SameClaim(ms, cts, connector, tracks, t, u)} |
      t in tracks && u in tracks && SameClaim(ms, cts, connector, tracks, t, u) :: t == u
  }

  /** Claims depend on the tracks' users only, not on the columns. */
  lemma ClaimsStay(ms: Mappings, cts: ConnectorTracks, connector: string, before: Tracks, after: Tracks)
    requires before.Keys == after.Keys && forall t | t in after :: after[t].user == before[t].user
    ensures ClaimsAreDistinct(ms, cts, connector, after) <==> ClaimsAreDistinct(ms, cts, connector, before)
    ensures forall t | t in after :: Claim(ms, cts, connector, after, t) == Claim(ms, cts, connector, before, t)
  {
    forall t, u | t in after && u in after
      ensures SameClaim(ms, cts, connector, after, t, u) <==> SameClaim(ms, cts, connector, before, t, u)
    {
    }
  }

  /** A connector track belongs to one canonical track per user once live keys are collapsed. */
  lemma CollapseMakesClaimsDistinct(ms: Mappings, cts: ConnectorTracks, connector: string, tracks: Tracks)
    requires OneLiveKey(ms) && ConnectorsAgree(ms, cts) && UniqueIdentifiers(cts)
    ensures ClaimsAreDistinct(ms, cts, connector, tracks)
  {
    forall t, u | t in tracks && u in tracks && SameClaim(ms, cts, connector, tracks, t, u) ensures t == u {
      var m :| IsFirstPrimary(ms, cts, connector, t, tracks[t].user, m);
      var n :| IsFirstPrimary(ms, cts, connector, u, tracks[u].user, n);
      assert cts[ms[m].connectorTrack] == cts[ms[n].connectorTrack];
      assert SameLiveKey(ms[m], ms[n]);
    }
  }

  lemma CollapsedRows(ms: Mappings)
    ensures Collapsed(ms) == map m | m in ms && m in Kept(KeyRows(ms)) :: ms[m]
    ensures KeyRows(ms).Keys == ms.Keys && Kept(KeyRows(ms)).Keys == Collapsed(ms).Keys
  {
  }

  /** The collapse keeps the lowest mapping of every live key, and only that one. */
  lemma CollapsedKeysAreUnique(ms: Mappings)
    ensures OneLiveKey(Collapsed(ms)) && LowestLiveStay(ms, Collapsed(ms))
  {
    hide Doomed, IsDoomed;
    var rows, left := KeyRows(ms), Collapsed(ms);
    KeptAreLowest(rows);
    forall a, b | a in left && b in left && SameLiveKey(left[a], left[b]) ensures a == b {
      assert Kept(rows)[a] == Kept(rows)[b];
    }
    forall d | d in ms && d !in left ensures exists k | k in left :: k.n < d.n && SameLiveKey(left[k], ms[d]) {
      var k :| IsLowerTwin(rows, Kept(rows), k, d);
      assert k in left;
    }
  }

  // ------------------------------------------------------------ one row

  lemma SettingAColumn(t: Track, column: string, value: Option<string>)
    ensures Column(SetColumn(t, column, value), column) == value && SetColumn(t, column, value).user == t.user
    ensures forall other | other != column :: Column(SetColumn(t, column, value), other) == Column(t, other)
    ensures SetColumn(t, column, Column(t, column)) == t
  {
  }

  lemma SettingTwice(t: Track, column: string, value: Option<string>, again: Option<string>)
    ensures SetColumn(SetColumn(t, column, value), column, again) == SetColumn(t, column, again)
  {
  }

  /** The index probe: no other track of the user holds the value. */
  predicate IsFree(tracks: Tracks, t: Id, column: string, value: Option<string>)
    requires t in tracks
  {
    value.None? ||
    forall u | u in tracks && u != t :: tracks[u].user != tracks[t].user || Column(tracks[u], column) != value
  }

  /** A single row write keeps the index exactly when the probe finds the value free. */
  lemma WriteFitsIffFree(tracks: Tracks, t: Id, column: string, value: Option<string>)
    requires UniqueColumn(tracks, column) && t in tracks
    ensures UniqueColumn(tracks[t := SetColumn(tracks[t], column, value)], column) <==> IsFree(tracks, t, column, value)
  {
    var after := tracks[t := SetColumn(tracks[t], column, value)];
    SettingAColumn(tracks[t], column, value);
    if IsFree(tracks, t, column, value) {
      forall a, b | a in after && b in after && SameValue(after, column, a, b) ensures a == b {
        if a != t && b != t {
          assert SameValue(tracks, column, a, b);
        }
      }
    } else {
      var u :| u in tracks && u != t && tracks[u].user == tracks[t].user && Column(tracks[u], column) == value;
      assert SameValue(after, column, t, u);
    }
  }

  // ------------------------------------------------------------ the two passes

  /** Which rows a pass selects: pass 1 clears what disagrees, pass 2 assigns what is missing. */
  datatype Pass = Clear | Assign

  /** The identifier each track claims; it does not depend on the columns being repaired. */
  type Claims = map<Id, Option<string>>

  function ClaimsOf(ms: Mappings, cts: ConnectorTracks, connector: string, tracks: Tracks): Claims {
    map t | t in tracks :: Claim(ms, cts, connector, tracks, t)
  }

  predicate Selected(tracks: Tracks, claims: Claims, column: string, pass: Pass, t: Id) {
    t in tracks && t in claims &&
    match pass
    case Clear => Column(tracks[t], column).Some? && Column(tracks[t], column) != claims[t]
    case Assign => Column(tracks[t], column).None? && claims[t].Some?
  }

  function Work(tracks: Tracks, claims: Claims, column: string, pass: Pass): set<Id> {
    set t | t in tracks && Selected(tracks, claims, column, pass, t)
  }

  function NewValue(claims: Claims, pass: Pass, t: Id): Option<string> {
    if pass == Assign && t in claims then claims[t] else None
  }

  /** The tracks once a pass has written the rows in `done`. */
  function Swept(tracks: Tracks, claims: Claims, column: string, pass: Pass, done: set<Id>): Tracks {
    map t | t in tracks :: if t in done then SetColumn(tracks[t], column, NewValue(claims, pass, t)) else tracks[t]
  }

  /** Only `column` differs from the start. */
  ghost predicate OnlyColumn(tracks0: Tracks, tracks: Tracks, column: string) {
    tracks.Keys == tracks0.Keys &&
    forall t | t in tracks :: tracks[t] == SetColumn(tracks0[t], column, Column(tracks[t], column))
  }

  /** Tracks whose column holds something other than their claim. */
  ghost function Disagreeing(tracks: Tracks, claims: Claims, column: string): set<Id> {
    set t | t in tracks && t in claims && column in tracks[t].columns && Some(tracks[t].columns[column]) != claims[t]
  }

  /** Tracks with a claim that their column does not hold. */
  ghost function Wanting(tracks: Tracks, claims: Claims, column: string): set<Id> {
    set t | t in tracks && t in claims && claims[t] != None &&
            (column !in tracks[t].columns || Some(tracks[t].columns[column]) != claims[t])
  }

  lemma FirstPassWork(tracks: Tracks, claims: Claims, column: string)
    ensures Work(tracks, claims, column, Clear) == Disagreeing(tracks, claims, column)
  {
  }

  /** What pass 1 leaves to pass 2. */
  lemma SecondPassWork(tracks: Tracks, claims: Claims, column: string)
    ensures var middle := Swept(tracks, claims, column, Clear, Work(tracks, claims, column, Clear));
      Work(middle, claims, column, Assign) == Wanting(tracks, claims, column)
  {
    var middle := Swept(tracks, claims, column, Clear, Work(tracks, claims, column, Clear));
    forall t | t in tracks ensures t in Work(middle, claims, column, Assign) <==> t in Wanting(tracks, claims, column) {
      SweptAt(tracks, claims, column, Clear, Work(tracks, claims, column, Clear), t);
    }
  }

  lemma SweptAt(tracks: Tracks, claims: Claims, column: string, pass: Pass, done: set<Id>, t: Id)
    requires t in tracks
    ensures var after := Swept(tracks, claims, column, pass, done);
      && after[t].user == tracks[t].user
      && Column(after[t], column) == (if t in done then NewValue(claims, pass, t) else Column(tracks[t], column))
      && after[t] == SetColumn(tracks[t], column, Column(after[t], column))
  {
    SettingAColumn(tracks[t], column, NewValue(claims, pass, t));
    SettingAColumn(tracks[t], column, Column(tracks[t], column));
  }

  lemma SweptIsOnlyColumn(tracks: Tracks, claims: Claims, column: string, pass: Pass, done: set<Id>)
    ensures OnlyColumn(tracks, Swept(tracks, claims, column, pass, done), column)
  {
    hide Swept;
    SweptKeys(tracks, claims, column, pass, done);
    forall t | t in tracks
      ensures var after := Swept(tracks, claims, column, pass, done);
        t in after && after[t] == SetColumn(tracks[t], column, Column(after[t], column))
    {
      SweptAt(tracks, claims, column, pass, done, t);
    }
  }

  lemma SweptKeys(tracks: Tracks, claims: Claims, column: string, pass: Pass, done: set<Id>)
    ensures Swept(tracks, claims, column, pass, done).Keys == tracks.Keys
  {
  }

  lemma SweptMore(tracks: Tracks, claims: Claims, column: string, pass: Pass, a: set<Id>, b: set<Id>)
    ensures Swept(Swept(tracks, claims, column, pass, a), claims, column, pass, b)
         == Swept(tracks, claims, column, pass, a + b)
  {
    forall t | t in tracks
      ensures Swept(Swept(tracks, claims, column, pass, a), claims, column, pass, b)[t]
           == Swept(tracks, claims, column, pass, a + b)[t]
    {
      SettingTwice(tracks[t], column, NewValue(claims, pass, t), NewValue(claims, pass, t));
    }
  }

  /** A written row has left the pass's work, and no other row has moved. */
  lemma WorkLeft(tracks: Tracks, claims: Claims, column: string, pass: Pass, done: set<Id>)
    requires done <= Work(tracks, claims, column, pass)
    ensures Work(Swept(tracks, claims, column, pass, done), claims, column, pass)
         == Work(tracks, claims, column, pass) - done
  {
    var after := Swept(tracks, claims, column, pass, done);
    forall t | t in tracks
      ensures t in Work(after, claims, column, pass) <==> t in Work(tracks, claims, column, pass) - done
    {
      SweptAt(tracks, claims, column, pass, done, t);
    }
  }

  /** A collision met on the way is still there at the end of the pass. */
  lemma PartFits(tracks: Tracks, claims: Claims, column: string, pass: Pass, part: set<Id>, all: set<Id>)
    requires part <= all <= Work(tracks, claims, column, pass) && UniqueColumn(tracks, column)
    requires UniqueColumn(Swept(tracks, claims, column, pass, all), column)
    ensures UniqueColumn(Swept(tracks, claims, column, pass, part), column)
  {
    var some, whole := Swept(tracks, claims, column, pass, part), Swept(tracks, claims, column, pass, all);
    forall a, b | a in some && b in some && SameValue(some, column, a, b) ensures a == b {
      SweptAt(tracks, claims, column, pass, part, a);
      SweptAt(tracks, claims, column, pass, part, b);
      SweptAt(tracks, claims, column, pass, all, a);
      SweptAt(tracks, claims, column, pass, all, b);
      if pass == Assign {
        assert SameValue(whole, column, a, b);
      } else {
        assert SameValue(tracks, column, a, b);
      }
    }
  }

  /** Pass 1 never trips the index. */
  lemma ClearingFits(tracks: Tracks, claims: Claims, column: string)
    requires UniqueColumn(tracks, column)
    ensures UniqueColumn(Swept(tracks, claims, column, Clear, Work(tracks, claims, column, Clear)), column)
  {
    var work := Work(tracks, claims, column, Clear);
    var after := Swept(tracks, claims, column, Clear, work);
    forall a, b | a in after && b in after && SameValue(after, column, a, b) ensures a == b {
      SweptAt(tracks, claims, column, Clear, work, a);
      SweptAt(tracks, claims, column, Clear, work, b);
      assert SameValue(tracks, column, a, b);
    }
  }

  /** After pass 1 a track holds its claim or nothing. */
  ghost predicate HoldsClaimOrNull(tracks: Tracks, claims: Claims, column: string) {
    tracks.Keys == claims.Keys &&
    forall t | t in tracks :: Column(tracks[t], column).None? || Column(tracks[t], column) == claims[t]
  }

  lemma ClearingLeavesClaims(tracks: Tracks, claims: Claims, column: string)
    requires tracks.Keys == claims.Keys
    ensures HoldsClaimOrNull(Swept(tracks, claims, column, Clear, Work(tracks, claims, column, Clear)), claims, column)
  {
    forall t | t in tracks
      ensures var after := Swept(tracks, claims, column, Clear, Work(tracks, claims, column, Clear));
        Column(after[t], column).None? || Column(after[t], column) == claims[t]
    {
      SweptAt(tracks, claims, column, Clear, Work(tracks, claims, column, Clear), t);
    }
  }

  /** Any part of pass 2 keeps that, and all of it gives every track its claim. */
  lemma AssigningGivesClaims(tracks: Tracks, claims: Claims, column: string, done: set<Id>)
    requires HoldsClaimOrNull(tracks, claims, column) && done <= Work(tracks, claims, column, Assign)
    ensures var after := Swept(tracks, claims, column, Assign, done);
      && HoldsClaimOrNull(after, claims, column)
      && (done == Work(tracks, claims, column, Assign) ==>
            forall t | t in after :: Column(after[t], column) == claims[t])
  {
    forall t | t in tracks
      ensures var after := Swept(tracks, claims, column, Assign, done);
        && (Column(after[t], column).None? || Column(after[t], column) == claims[t])
        && (done == Work(tracks, claims, column, Assign) ==> Column(after[t], column) == claims[t])
    {
      SweptAt(tracks, claims, column, Assign, done, t);
    }
  }

  /** A column that equals the claims is unique exactly when the claims are distinct. */
  lemma ClaimedColumnIsUnique(ms: Mappings, cts: ConnectorTracks, connector: string, column: string, tracks: Tracks)
    requires forall t | t in tracks :: Column(tracks[t], column) == Claim(ms, cts, connector, tracks, t)
    ensures UniqueColumn(tracks, column) <==> ClaimsAreDistinct(ms, cts, connector, tracks)
  {
    forall t, u | t in tracks && u in tracks
      ensures SameValue(tracks, column, t, u) <==> SameClaim(ms, cts, connector, tracks, t, u)
    {
    }
  }

  /**
   After pass 1, all of pass 2 fits under the index exactly when the claims of the starting rows are
   distinct: of a contested pair at most one can hold the value, so the other is always left to write.
   */
  lemma AssigningFitsIffDistinct(ms: Mappings, cts: ConnectorTracks, connector: string, column: string,
                                 tracks0: Tracks, tracks: Tracks)
    requires OnlyColumn(tracks0, tracks, column)
    requires HoldsClaimOrNull(tracks, ClaimsOf(ms, cts, connector, tracks0), column)
    ensures var claims := ClaimsOf(ms, cts, connector, tracks0);
      UniqueColumn(Swept(tracks, claims, column, Assign, Work(tracks, claims, column, Assign)), column)
      <==> ClaimsAreDistinct(ms, cts, connector, tracks0)
  {
    hide UniqueColumn, ClaimsAreDistinct, HoldsClaimOrNull, Work, Selected;
    var claims := ClaimsOf(ms, cts, connector, tracks0);
    var work := Work(tracks, claims, column, Assign);
    var after := Swept(tracks, claims, column, Assign, work);
    AssigningGivesClaims(tracks, claims, column, work);
    SweptIsOnlyColumn(tracks, claims, column, Assign, work);
    OnlyColumnTwice(tracks0, tracks, after, column);
    OnlyColumnKeepsUsers(tracks0, after, column);
    ClaimsStay(ms, cts, connector, tracks0, after);
    ClaimedColumnIsUnique(ms, cts, connector, column, after);
  }

  lemma OnlyColumnKeepsUsers(a: Tracks, b: Tracks, column: string)
    requires OnlyColumn(a, b, column)
    ensures a.Keys == b.Keys && forall t | t in b :: b[t].user == a[t].user
  {
    forall t | t in b ensures b[t].user == a[t].user {
      SettingAColumn(a[t], column, Column(b[t], column));
    }
  }

  lemma OnlyColumnTwice(a: Tracks, b: Tracks, c: Tracks, column: string)
    requires OnlyColumn(a, b, column) && OnlyColumn(b, c, column)
    ensures OnlyColumn(a, c, column)
  {
    forall t | t in c ensures c[t] == SetColumn(a[t], column, Column(c[t], column)) {
      SettingTwice(a[t], column, Column(b[t], column), Column(c[t], column));
    }
  }

  /** Repairing one column leaves the other, and its index, as it was. */
  lemma OtherColumnStays(tracks0: Tracks, tracks: Tracks, column: string, other: string)
    requires OnlyColumn(tracks0, tracks, column) && other != column
    ensures forall t | t in tracks :: Column(tracks[t], other) == Column(tracks0[t], other)
    ensures UniqueColumn(tracks0, other) ==> UniqueColumn(tracks, other)
  {
    forall t | t in tracks
      ensures Column(tracks[t], other) == Column(tracks0[t], other) && tracks[t].user == tracks0[t].user
    {
      SettingAColumn(tracks0[t], column, Column(tracks[t], column));
    }
    forall t, u | UniqueColumn(tracks0, other) && t in tracks && u in tracks && SameValue(tracks, other, t, u)
      ensures t == u
    {
      assert SameValue(tracks0, other, t, u);
    }
  }

  /** Only the two columns differ from the start. */
  ghost predicate OnlyColumns(tracks0: Tracks, tracks: Tracks, one: string, two: string) {
    tracks.Keys == tracks0.Keys &&
    forall t | t in tracks :: tracks[t].user == tracks0[t].user &&
      tracks[t].columns - {one, two} == tracks0[t].columns - {one, two}
  }

  lemma OneOfTwoColumns(a: Tracks, b: Tracks, one: string, two: string)
    requires OnlyColumn(a, b, one)
    ensures OnlyColumns(a, b, one, two)
  {
  }

  lemma TwoColumns(a: Tracks, b: Tracks, c: Tracks, one: string, two: string)
    requires OnlyColumn(a, b, one) && OnlyColumn(b, c, two)
    ensures OnlyColumns(a, c, one, two)
  {
    OneOfTwoColumns(a, b, one, two);
    OneOfTwoColumns(b, c, two, one);
    assert {one, two} == {two, one};
  }

  // ------------------------------------------------------------ the statements

  class Catalog {
    const connectorTracks: ConnectorTracks
    var mappings: Mappings
    var tracks: Tracks

    constructor (cts: ConnectorTracks, ms: Mappings, ts: Tracks)
      ensures connectorTracks == cts && mappings == ms && tracks == ts
    {
      connectorTracks, mappings, tracks := cts, ms, ts;
    }

    /** One row of an UPDATE: the unique index accepts it or the statement fails. */
    method UpdateRow(t: Id, column: string, value: Option<string>) returns (ok: bool)
      requires t in tracks && UniqueColumn(tracks, column)
      modifies this`tracks
      ensures ok <==> UniqueColumn(old(tracks)[t := SetColumn(old(tracks)[t], column, value)], column)
      ensures tracks == if ok then old(tracks)[t := SetColumn(old(tracks)[t], column, value)] else old(tracks)
    {
      ok := IsFree(tracks, t, column, value);
      WriteFitsIffFree(tracks, t, column, value);
      if ok {
        tracks := tracks[t := SetColumn(tracks[t], column, value)];
      }
    }

    /** One UPDATE over the rows of a batch, in an arbitrary order: all of them, or none. */
    method UpdateRows(claims: Claims, column: string, pass: Pass, batch: set<Id>) returns (ok: bool)
      requires UniqueColumn(tracks, column) && batch <= Work(tracks, claims, column, pass)
      modifies this`tracks
      ensures ok <==> UniqueColumn(Swept(old(tracks), claims, column, pass, batch), column)
      ensures tracks == if ok then Swept(old(tracks), claims, column, pass, batch) else old(tracks)
    {
      hide *;
      var before := tracks;
      var left := batch;
      ok := true;
      NothingSwept(tracks, claims, column, pass, batch);
      while left != {}
        invariant left <= batch && UniqueColumn(tracks, column)
        invariant tracks == Swept(before, claims, column, pass, batch - left)
      {
        var t :| t in left;
        SweepRow(before, claims, column, pass, batch, left, t);
        ok := UpdateRow(t, column, NewValue(claims, pass, t));
        if !ok {
          tracks := before;
          return;
        }
        left := left - {t};
      }
      assert batch - left == batch;
    }

    /** One batched UPDATE, on whatever rows its LIMIT picks. */
    method UpdateBatch(claims: Claims, column: string, pass: Pass)
      returns (ok: bool, affected: nat, ghost batch: set<Id>)
      requires UniqueColumn(tracks, column)
      modifies this`tracks
      ensures IsBatch(Work(old(tracks), claims, column, pass), batch) && affected == |batch|
      ensures batch == {} <==> Work(old(tracks), claims, column, pass) == {}
      ensures ok <==> UniqueColumn(Swept(old(tracks), claims, column, pass, batch), column)
      ensures tracks == if ok then Swept(old(tracks), claims, column, pass, batch) else old(tracks)
    {
      var rows := PickBatch(Work(tracks, claims, column, pass));
      ok := UpdateRows(claims, column, pass, rows);
      affected, batch := |rows|, rows;
    }

    /**
     _run_batched: repeat until a round affects no row, or a statement fails.  For every choice of
     batches it does all of the pass exactly when the whole pass fits; what it had done stays.
     */
    method RunBatched(claims: Claims, column: string, pass: Pass)
      returns (ok: bool, total: nat, ghost done: set<Id>)
      requires UniqueColumn(tracks, column)
      modifies this`tracks
      ensures var work := Work(old(tracks), claims, column, pass);
        && (ok <==> UniqueColumn(Swept(old(tracks), claims, column, pass, work), column))
        && done <= work && (ok <==> done == work) && total == |done|
      ensures tracks == Swept(old(tracks), claims, column, pass, done) && UniqueColumn(tracks, column)
    {
      hide *;
      ghost var before := tracks;
      ghost var work := Work(tracks, claims, column, pass);
      total, done := 0, {};
      NothingSwept(tracks, claims, column, pass, {});
      while true
        invariant done <= work && total == |done| && UniqueColumn(tracks, column)
        invariant tracks == Swept(before, claims, column, pass, done)
        decreases |work - done|
      {
        var affected;
        ghost var batch;
        WorkLeft(before, claims, column, pass, done);
        ok, affected, batch := UpdateBatch(claims, column, pass);
        BatchSwept(before, claims, column, pass, done, batch);
        if !ok {
          return;
        }
        total, done := total + affected, done + batch;
        if affected == 0 {
          return;
        }
      }
    }

    /**
     _repair_denormalized_column.  For every choice of batches: it completes exactly when no two tracks
     of one user claim one identifier, and then the column is the claims; otherwise it stops with a
     unique column in which each track holds its claim or NULL.
     */
    method RepairColumn(connector: string, column: string) returns (ok: bool, cleared: nat, filled: nat)
      requires UniqueColumn(tracks, column)
      modifies this`tracks
      ensures ok <==> ClaimsAreDistinct(mappings, connectorTracks, connector, old(tracks))
      ensures OnlyColumn(old(tracks), tracks, column) && UniqueColumn(tracks, column)
      ensures var claims := ClaimsOf(mappings, connectorTracks, connector, old(tracks));
        && HoldsClaimOrNull(tracks, claims, column)
        && (ok ==> forall t | t in tracks :: Column(tracks[t], column) == claims[t])
        && cleared == |Disagreeing(old(tracks), claims, column)|
        && (ok ==> filled == |Wanting(old(tracks), claims, column)|)
    {
      hide *;
      ghost var before := tracks;
      var claims := ClaimsOf(mappings, connectorTracks, connector, tracks);
      ghost var done;
      ClaimsCover(mappings, connectorTracks, connector, tracks);
      ClearingFits(tracks, claims, column);
      FirstPassWork(tracks, claims, column);
      SecondPassWork(tracks, claims, column);
      ok, cleared, done := RunBatched(claims, column, Clear);
      ghost var middle := tracks;
      ClearingLeavesClaims(before, claims, column);
      SweptIsOnlyColumn(before, claims, column, Clear, done);
      AssigningFitsIffDistinct(mappings, connectorTracks, connector, column, before, middle);
      ok, filled, done := RunBatched(claims, column, Assign);
      AssigningGivesClaims(middle, claims, column, done);
      SweptIsOnlyColumn(middle, claims, column, Assign, done);
      OnlyColumnTwice(before, middle, tracks, column);
    }

    /** _collapse_duplicate_live_keys: lowest id of each live key survives, whatever the batches. */
    method CollapseDuplicateLiveKeys() returns (total: nat)
      modifies this`mappings
      ensures mappings == Collapsed(old(mappings))
      ensures OneLiveKey(mappings) && LowestLiveStay(old(mappings), mappings)
      ensures total == |old(mappings).Keys| - |mappings.Keys|
    {
      hide Kept, LowestStay, LowestLiveStay, OneLiveKey, Collapsed, KeyRows, UniqueNullsDistinct,
           UniqueNullsNotDistinct;
      var table := new KeyedTable(KeyRows(mappings));
      total := table.CollapseDuplicates();
      CollapsedKeysAreUnique(mappings);
      CollapsedRows(mappings);
      mappings := map m | m in mappings && m in table.rows :: mappings[m];
    }

    /**
     _pre_pass: collapse, then repair both columns, stopping at the first failure.  It completes exactly
     when the claims of the collapsed mappings are distinct for both columns; a failure of the first
     leaves the second column alone.
     */
    method PrePass() returns (ok: bool)
      requires UniqueColumn(tracks, "spotify_id") && UniqueColumn(tracks, "mbid")
      modifies this
      ensures OneLiveKey(mappings) && LowestLiveStay(old(mappings), mappings)
      ensures ok <==>
        (ClaimsAreDistinct(mappings, connectorTracks, "spotify", old(tracks)) &&
         ClaimsAreDistinct(mappings, connectorTracks, "musicbrainz", old(tracks)))
      ensures UniqueColumn(tracks, "spotify_id") && UniqueColumn(tracks, "mbid")
      ensures !ClaimsAreDistinct(mappings, connectorTracks, "spotify", old(tracks)) ==>
                OnlyColumn(old(tracks), tracks, "spotify_id")
      ensures OnlyColumns(old(tracks), tracks, "spotify_id", "mbid")
      ensures ok ==> forall t | t in tracks ::
        Column(tracks[t], "spotify_id") == Claim(mappings, connectorTracks, "spotify", tracks, t) &&
        Column(tracks[t], "mbid") == Claim(mappings, connectorTracks, "musicbrainz", tracks, t)
    {
      hide ClaimsAreDistinct, UniqueColumn, Claim, HoldsClaimOrNull, Collapsed, OneLiveKey, LowestLiveStay,
           Disagreeing, Wanting, OnlyColumns;
      var collapsed := CollapseDuplicateLiveKeys();
      ghost var tracks0 := tracks;
      var cleared, filled;
      ok, cleared, filled := RepairColumn(SPOTIFY, SPOTIFY_ID);
      ghost var tracks1 := tracks;
      OtherColumnStays(tracks0, tracks1, SPOTIFY_ID, MBID);
      OneOfTwoColumns(tracks0, tracks1, SPOTIFY_ID, MBID);
      if !ok {
        return;
      }
      OnlyColumnKeepsUsers(tracks0, tracks1, SPOTIFY_ID);
      ClaimsStay(mappings, connectorTracks, MUSICBRAINZ, tracks0, tracks1);
      ok, cleared, filled := RepairColumn(MUSICBRAINZ, MBID);
      OtherColumnStays(tracks1, tracks, MBID, SPOTIFY_ID);
      TwoColumns(tracks0, tracks1, tracks, SPOTIFY_ID, MBID);
      OnlyColumnKeepsUsers(tracks1, tracks, MBID);
      ClaimsStay(mappings, connectorTracks, SPOTIFY, tracks0, tracks);
      ClaimsStay(mappings, connectorTracks, MUSICBRAINZ, tracks0, tracks);
    }
  }

  lemma NothingSwept(tracks: Tracks, claims: Claims, column: string, pass: Pass, batch: set<Id>)
    ensures Swept(tracks, claims, column, pass, batch - batch) == tracks
    ensures Swept(tracks, claims, column, pass, {}) == tracks
  {
  }

  /** The next row of a statement: in its place, and only refused when the statement as a whole is. */
  lemma SweepRow(tracks: Tracks, claims: Claims, column: string, pass: Pass, batch: set<Id>, left: set<Id>, t: Id)
    requires UniqueColumn(tracks, column) && left <= batch <= Work(tracks, claims, column, pass) && t in left
    ensures var now := Swept(tracks, claims, column, pass, batch - left);
      var next := Swept(tracks, claims, column, pass, batch - (left - {t}));
      && t in now && now[t := SetColumn(now[t], column, NewValue(claims, pass, t))] == next
      && (UniqueColumn(Swept(tracks, claims, column, pass, batch), column) ==> UniqueColumn(next, column))
  {
    var now := Swept(tracks, claims, column, pass, batch - left);
    var next := Swept(tracks, claims, column, pass, batch - (left - {t}));
    assert now[t := SetColumn(now[t], column, NewValue(claims, pass, t))] == next;
    if UniqueColumn(Swept(tracks, claims, column, pass, batch), column) {
      PartFits(tracks, claims, column, pass, batch - (left - {t}), batch);
    }
  }

  /** The next batch of a pass, likewise. */
  lemma BatchSwept(tracks: Tracks, claims: Claims, column: string, pass: Pass, done: set<Id>, batch: set<Id>)
    requires UniqueColumn(tracks, column) && done <= Work(tracks, claims, column, pass)
    requires IsBatch(Work(tracks, claims, column, pass) - done, batch)
    ensures var work := Work(tracks, claims, column, pass);
      && done + batch <= work && |done + batch| == |done| + |batch|
      && (batch != {} ==> |work - (done + batch)| < |work - done| && done != work)
      && (|batch| == 0 <==> batch == {}) && (work - done == {} <==> done == work)
      && Swept(Swept(tracks, claims, column, pass, done), claims, column, pass, batch)
         == Swept(tracks, claims, column, pass, done + batch)
      && (UniqueColumn(Swept(tracks, claims, column, pass, work), column) ==>
           UniqueColumn(Swept(tracks, claims, column, pass, done + batch), column))
  {
    hide UniqueColumn;
    var work := Work(tracks, claims, column, pass);
    SweptMore(tracks, claims, column, pass, done, batch);
    assert work - done == (work - (done + batch)) + batch;
    if UniqueColumn(Swept(tracks, claims, column, pass, work), column) {
      PartFits(tracks, claims, column, pass, done + batch, work);
    }
  }

  lemma ClaimsCover(ms: Mappings, cts: ConnectorTracks, connector: string, tracks: Tracks)
    ensures ClaimsOf(ms, cts, connector, tracks).Keys == tracks.Keys
  {
  }

  // ------------------------------------------------------------ a catalog on which the migration fails

  // Ann's two tracks, each with a primary mapping labelled spotify; the second one's connector track
  // is a MusicBrainz row that happens to carry the same identifier.
  const MIXED_TRACKS: Tracks := map[Id(1) := Track("ann", map[]), Id(2) := Track("ann", map[])]
  const MIXED_CONNECTORS: ConnectorTracks :=
    map[Id(3) := ConnectorTrack(SPOTIFY, "x"), Id(4) := ConnectorTrack(MUSICBRAINZ, "x")]
  const MIXED_MAPPINGS: Mappings :=
    map[Id(5) := Mapping("ann", Id(1), Id(3), SPOTIFY, true), Id(6) := Mapping("ann", Id(2), Id(4), SPOTIFY, true)]

  lemma SoleClaim(ms: Mappings, cts: ConnectorTracks, id: Id, m: Id)
    requires IsPrimaryFor(ms, cts, SPOTIFY, id, "ann", m)
    requires forall x | x in ms && ms[x].track == id :: x == m
    ensures PrimaryIdentifier(ms, cts, SPOTIFY, id, "ann") == Some(cts[ms[m].connectorTrack].identifier)
  {
    assert IsFirstPrimary(ms, cts, SPOTIFY, id, "ann", m);
  }

  /** No live key is shared and identifiers are unique, yet the two tracks claim the same one. */
  lemma ClaimsCanCollide()
    ensures OneLiveKey(MIXED_MAPPINGS) && UniqueIdentifiers(MIXED_CONNECTORS)
    ensures !ClaimsAreDistinct(MIXED_MAPPINGS, MIXED_CONNECTORS, "spotify", MIXED_TRACKS)
  {
    hide PrimaryIdentifier;
    SoleClaim(MIXED_MAPPINGS, MIXED_CONNECTORS, Id(1), Id(5));
    SoleClaim(MIXED_MAPPINGS, MIXED_CONNECTORS, Id(2), Id(6));
    assert SameClaim(MIXED_MAPPINGS, MIXED_CONNECTORS, SPOTIFY, MIXED_TRACKS, Id(1), Id(2));
  }

  lemma NothingCollapses(ms: Mappings, after: Mappings)
    requires OneLiveKey(ms) && LowestLiveStay(ms, after)
    ensures after == ms
  {
    forall d | d in ms ensures d in after {
      if d !in after {
        assert false;
      }
    }
  }

  /** On that catalog the pre-pass stops, whatever its batches. */
  method PrePassCanFail() returns (ok: bool)
    ensures !ok
  {
    hide *;
    var catalog := new Catalog(MIXED_CONNECTORS, MIXED_MAPPINGS, MIXED_TRACKS);
    EmptyColumnsAreUnique();
    ClaimsCanCollide();
    ok := catalog.PrePass();
    NothingCollapses(MIXED_MAPPINGS, catalog.mappings);
  }

  lemma EmptyColumnsAreUnique()
    ensures UniqueColumn(MIXED_TRACKS, "spotify_id") && UniqueColumn(MIXED_TRACKS, "mbid")
  {
  }
}
