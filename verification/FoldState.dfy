/**
 What a partly run fold has done to the tables: every connector track of the start has a home
 among the rows still there, and mappings, reviews and playlist pointers have followed it.
 */
module FoldState {
  import opened Wrappers
  import opened Ids
  import opened Relocation
  import opened FoldTables

  datatype Snapshot = Snapshot(tracks: Tracks, mappings: Mappings, reviews: Reviews, playlist: Playlist)

  ghost function Now(lib: Library): Snapshot
    reads lib
  {
    Snapshot(lib.tracks, lib.mappings, lib.reviews, lib.playlist)
  }

  /** Python's strip().lower() on either side of the key, left abstract. */
  type Norm = string -> string

  /** The recomputed key of a Last.fm row; None when a side is blank, or the row is another connector's. */
  function FoldKey(norm: Norm, t: ConnectorTrack): Option<string> {
    if t.connector != LASTFM || norm(t.artist) == "" || norm(t.title) == "" then None
    else Some(norm(t.artist) + "::" + norm(t.title))
  }

  /** `x` may be folded into `y`: they share a key, or `x` has none but already sits on `y`'s. */
  predicate SameGroup(norm: Norm, tracks: Tracks, x: Id, y: Id)
    requires x in tracks && y in tracks
  {
    tracks[x].connector == LASTFM && FoldKey(norm, tracks[y]).Some? &&
    (FoldKey(norm, tracks[x]) == FoldKey(norm, tracks[y]) ||
     (FoldKey(norm, tracks[x]).None? && tracks[x].identifier == FoldKey(norm, tracks[y]).value))
  }

  /** Rows still there keep everything but identifier and metadata; other connectors' rows keep everything. */
  ghost predicate SameRows(tracks0: Tracks, tracks: Tracks) {
    forall t | t in tracks ::
      t in tracks0 && (tracks[t].connector == LASTFM || tracks[t] == tracks0[t]) &&
      tracks[t] == tracks0[t].(identifier := tracks[t].identifier, meta := tracks[t].meta)
  }

  ghost predicate HomesHold(norm: Norm, tracks0: Tracks, tracks: Tracks, home: Home) {
    (forall x | x in tracks0 :: At(home, x) in tracks && At(home, x) in tracks0) &&
    (forall t | t in tracks :: At(home, t) == t) &&
    (forall x | x in tracks0 && At(home, x) != x :: SameGroup(norm, tracks0, x, At(home, x)))
  }

  ghost predicate PlaylistFollows(p0: Playlist, p: Playlist, home: Home) {
    p.Keys == p0.Keys &&
    forall i | i in p :: p[i] == if p0[i].None? then None else Some(At(home, p0[i].value))
  }

  ghost predicate FoldedTo(norm: Norm, s0: Snapshot, s: Snapshot, home: Home) {
    SameRows(s0.tracks, s.tracks) && HomesHold(norm, s0.tracks, s.tracks, home) &&
    OnlyMoved(s0.mappings, s.mappings) && Rehomed(MappingSlots(s0.mappings), MappingSlots(s.mappings), home) &&
    OnlyMovedReviews(s0.reviews, s.reviews) && Rehomed(ReviewSlots(s0.reviews), ReviewSlots(s.reviews), home) &&
    PlaylistFollows(s0.playlist, s.playlist, home)
  }

  lemma StartIsFolded(norm: Norm, s: Snapshot)
    ensures FoldedTo(norm, s, s, map[])
  {
    RehomedToItself(MappingSlots(s.mappings), map[]);
    RehomedToItself(ReviewSlots(s.reviews), map[]);
  }

  // ------------------------------------------------------------ absorbing one row

  /** `s2` is `s1` with `loser` emptied into `survivor` and deleted. */
  ghost predicate Absorbed(s1: Snapshot, s2: Snapshot, loser: Id, survivor: Id) {
    s2.tracks == s1.tracks - {loser} && MappingsFolded(s1.mappings, s2.mappings, loser, survivor) &&
    ReviewsFolded(s1.reviews, s2.reviews, loser, survivor) &&
    PlaylistFollows(s1.playlist, s2.playlist, Redirect(loser, survivor))
  }

  lemma AbsorbedMappings(ms0: Mappings, ms1: Mappings, ms2: Mappings, home: Home, loser: Id, survivor: Id)
    requires OnlyMoved(ms0, ms1) && Rehomed(MappingSlots(ms0), MappingSlots(ms1), home)
    requires MappingsFolded(ms1, ms2, loser, survivor)
    ensures OnlyMoved(ms0, ms2)
    ensures Rehomed(MappingSlots(ms0), MappingSlots(ms2), Compose(Redirect(loser, survivor), home))
  {
    RehomedCompose(MappingSlots(ms0), MappingSlots(ms1), MappingSlots(ms2), home, Redirect(loser, survivor));
  }

  lemma AbsorbedReviews(rs0: Reviews, rs1: Reviews, rs2: Reviews, home: Home, loser: Id, survivor: Id)
    requires OnlyMovedReviews(rs0, rs1) && Rehomed(ReviewSlots(rs0), ReviewSlots(rs1), home)
    requires ReviewsFolded(rs1, rs2, loser, survivor)
    ensures OnlyMovedReviews(rs0, rs2)
    ensures Rehomed(ReviewSlots(rs0), ReviewSlots(rs2), Compose(Redirect(loser, survivor), home))
  {
    RehomedCompose(ReviewSlots(rs0), ReviewSlots(rs1), ReviewSlots(rs2), home, Redirect(loser, survivor));
  }

  lemma AbsorbedHomes(norm: Norm, tracks0: Tracks, tracks1: Tracks, home: Home, loser: Id, survivor: Id)
    requires HomesHold(norm, tracks0, tracks1, home) && SameRows(tracks0, tracks1)
    requires loser in tracks1 && survivor in tracks1 && loser != survivor && SameGroup(norm, tracks0, loser, survivor)
    ensures HomesHold(norm, tracks0, tracks1 - {loser}, Compose(Redirect(loser, survivor), home))
    ensures SameRows(tracks0, tracks1 - {loser})
  {
    var both := Compose(Redirect(loser, survivor), home);
    forall x | x in tracks0 && At(both, x) != x ensures SameGroup(norm, tracks0, x, At(both, x)) {
      assert At(home, x) != x ==> SameGroup(norm, tracks0, x, At(home, x));
    }
  }

  /** One absorption takes a partly run fold to a partly run fold. */
  lemma AbsorbStep(norm: Norm, s0: Snapshot, s1: Snapshot, s2: Snapshot, home: Home, loser: Id, survivor: Id)
    requires FoldedTo(norm, s0, s1, home) && Absorbed(s1, s2, loser, survivor)
    requires loser in s1.tracks && survivor in s1.tracks && loser != survivor &&
      SameGroup(norm, s0.tracks, loser, survivor)
    ensures FoldedTo(norm, s0, s2, Compose(Redirect(loser, survivor), home))
  {
    AbsorbedMappings(s0.mappings, s1.mappings, s2.mappings, home, loser, survivor);
    AbsorbedReviews(s0.reviews, s1.reviews, s2.reviews, home, loser, survivor);
    AbsorbedHomes(norm, s0.tracks, s1.tracks, home, loser, survivor);
  }

  /** The foreign keys follow from the start's: every pointer was sent to a row that is still there. */
  lemma FoldedStaysLinked(norm: Norm, s0: Snapshot, s: Snapshot, home: Home)
    requires FoldedTo(norm, s0, s, home)
    requires MappingsLinked(s0.tracks, s0.mappings) && ReviewsLinked(s0.tracks, s0.reviews)
    requires PlaylistLinked(s0.tracks, s0.playlist)
    ensures MappingsLinked(s.tracks, s.mappings) && ReviewsLinked(s.tracks, s.reviews)
    ensures PlaylistLinked(s.tracks, s.playlist)
  {
    MovedMappingsStayLinked(norm, s0.tracks, s.tracks, s0.mappings, s.mappings, home);
    MovedReviewsStayLinked(norm, s0.tracks, s.tracks, s0.reviews, s.reviews, home);
    PlaylistStaysLinked(norm, s0.tracks, s.tracks, s0.playlist, s.playlist, home);
  }

  lemma MovedMappingsStayLinked(norm: Norm, tracks0: Tracks, tracks: Tracks, ms0: Mappings, ms: Mappings, home: Home)
    requires SameRows(tracks0, tracks) && HomesHold(norm, tracks0, tracks, home) && MappingsLinked(tracks0, ms0)
    requires OnlyMoved(ms0, ms) && Rehomed(MappingSlots(ms0), MappingSlots(ms), home)
    ensures MappingsLinked(tracks, ms)
  {
    hide Rehomed, At;
    forall i | i in ms
      ensures ms[i].connectorTrack in tracks && tracks[ms[i].connectorTrack].connector == ms[i].connector
    {
      MappingIsAtHome(ms0, ms, home, i);
      RowIsThere(norm, tracks0, tracks, home, ms0[i].connectorTrack);
    }
  }

  lemma MappingIsAtHome(ms0: Mappings, ms: Mappings, home: Home, i: Id)
    requires OnlyMoved(ms0, ms) && Rehomed(MappingSlots(ms0), MappingSlots(ms), home) && i in ms
    ensures i in ms0 && ms[i] == ms0[i].(connectorTrack := At(home, ms0[i].connectorTrack))
  {
    assert MappingSlots(ms)[i] == MappingSlots(ms0)[i].(place := At(home, ms0[i].connectorTrack));
  }

  /** A row's home is there, under the same connector. */
  lemma RowIsThere(norm: Norm, tracks0: Tracks, tracks: Tracks, home: Home, x: Id)
    requires SameRows(tracks0, tracks) && HomesHold(norm, tracks0, tracks, home) && x in tracks0
    ensures At(home, x) in tracks && tracks[At(home, x)].connector == tracks0[x].connector
  {
    if At(home, x) != x {
      assert SameGroup(norm, tracks0, x, At(home, x));
    }
  }

  lemma MovedReviewsStayLinked(norm: Norm, tracks0: Tracks, tracks: Tracks, rs0: Reviews, rs: Reviews, home: Home)
    requires HomesHold(norm, tracks0, tracks, home) && ReviewsLinked(tracks0, rs0)
    requires OnlyMovedReviews(rs0, rs) && Rehomed(ReviewSlots(rs0), ReviewSlots(rs), home)
    ensures ReviewsLinked(tracks, rs)
  {
    forall i | i in rs ensures rs[i].connectorTrack in tracks {
      assert ReviewSlots(rs)[i] == ReviewSlots(rs0)[i].(place := At(home, rs0[i].connectorTrack));
    }
  }

  lemma PlaylistStaysLinked(norm: Norm, tracks0: Tracks, tracks: Tracks, p0: Playlist, p: Playlist, home: Home)
    requires HomesHold(norm, tracks0, tracks, home) && PlaylistLinked(tracks0, p0) && PlaylistFollows(p0, p, home)
    ensures PlaylistLinked(tracks, p)
  {
  }

  // ------------------------------------------------------------ the running invariant

  ghost predicate Started(s0: Snapshot) {
    UniqueIdentifiers(s0.tracks) && MappingsLinked(s0.tracks, s0.mappings) && ReviewsLinked(s0.tracks, s0.reviews) &&
    PlaylistLinked(s0.tracks, s0.playlist)
  }

  /** Every unique index and foreign key holds. */
  ghost predicate Legal(s: Snapshot) {
    UniqueIdentifiers(s.tracks) && MappingKeys(s.mappings) && OnePerKey(ReviewSlots(s.reviews)) &&
    MappingsLinked(s.tracks, s.mappings) && ReviewsLinked(s.tracks, s.reviews) && PlaylistLinked(s.tracks, s.playlist)
  }

  /** Holds between any two statements of the fold. */
  ghost predicate FoldingAt(norm: Norm, s0: Snapshot, s: Snapshot, home: Home, affected: set<Pair>) {
    Legal(s) && Started(s0) && FoldedTo(norm, s0, s, home) && ChangedAreIn(s0.mappings, s.mappings, affected)
  }

  ghost predicate Folding(lib: Library, norm: Norm, s0: Snapshot, home: Home, affected: set<Pair>)
    reads lib
  {
    FoldingAt(norm, s0, Now(lib), home, affected)
  }

  lemma ChangesAccumulate(ms0: Mappings, ms1: Mappings, ms2: Mappings, affected: set<Pair>, touched: set<Pair>)
    requires ChangedAreIn(ms0, ms1, affected) && OnlyMoved(ms0, ms1) && ChangedAreIn(ms1, ms2, touched) &&
      affected <= touched
    ensures ChangedAreIn(ms0, ms2, touched)
  {
  }

  /** Move everything off `loser`, then delete it; nothing points at it by then, so nothing cascades. */
  method EmptyAndDelete(lib: Library, loser: Id, survivor: Id, affected: set<Pair>) returns (touched: set<Pair>)
    requires MappingKeys(lib.mappings) && OnePerKey(ReviewSlots(lib.reviews))
    requires loser in lib.tracks && survivor in lib.tracks && loser != survivor
    modifies lib
    ensures MappingKeys(lib.mappings) && OnePerKey(ReviewSlots(lib.reviews))
    ensures lib.tracks == old(lib.tracks) - {loser}
    ensures MappingsFolded(old(lib.mappings), lib.mappings, loser, survivor)
    ensures ReviewsFolded(old(lib.reviews), lib.reviews, loser, survivor)
    ensures PlaylistFollows(old(lib.playlist), lib.playlist, Redirect(loser, survivor))
    ensures affected <= touched && ChangedAreIn(old(lib.mappings), lib.mappings, touched)
  {
    hide MappingsFolded, ReviewsFolded, MappingKeys, OnePerKey, ChangedAreIn, PlaylistFollows, Redirect;
    ghost var mappings, reviews, playlist := lib.mappings, lib.reviews, lib.playlist;
    touched := lib.MoveMappings(loser, survivor, affected);
    lib.MoveReviews(loser, survivor);
    lib.RepointPlaylist(loser, survivor);
    MappingsLeft(mappings, lib.mappings, loser, survivor);
    ReviewsLeft(reviews, lib.reviews, loser, survivor);
    PlaylistLeft(playlist, lib.playlist, loser, survivor);
    lib.DeleteTrack(loser);
  }

  lemma MappingsLeft(ms0: Mappings, ms: Mappings, loser: Id, survivor: Id)
    requires MappingsFolded(ms0, ms, loser, survivor)
    ensures forall i | i in ms :: ms[i].connectorTrack != loser
  {
  }

  lemma ReviewsLeft(rs0: Reviews, rs: Reviews, loser: Id, survivor: Id)
    requires ReviewsFolded(rs0, rs, loser, survivor)
    ensures forall i | i in rs :: rs[i].connectorTrack != loser
  {
  }

  lemma PlaylistLeft(p0: Playlist, p: Playlist, loser: Id, survivor: Id)
    requires p.Keys == p0.Keys && loser != survivor
    requires forall i | i in p :: p[i] == if p0[i] == Some(loser) then Some(survivor) else p0[i]
    ensures PlaylistFollows(p0, p, Redirect(loser, survivor))
    ensures forall i | i in p :: p[i] != Some(loser)
  {
  }

  lemma FewerIdentifiersStayUnique(tracks: Tracks, gone: set<Id>)
    requires UniqueIdentifiers(tracks)
    ensures UniqueIdentifiers(tracks - gone)
  {
    forall a, b | a in tracks - gone && b in tracks - gone && SameIdentifier(tracks - gone, a, b) ensures a == b {
      assert SameIdentifier(tracks, a, b);
    }
  }

  /** The invariant survives an absorption. */
  lemma AbsorptionKeepsFolding(
    norm: Norm, s0: Snapshot, s1: Snapshot, s2: Snapshot, home: Home, loser: Id, survivor: Id,
    affected: set<Pair>, touched: set<Pair>)
    requires FoldingAt(norm, s0, s1, home, affected) && Absorbed(s1, s2, loser, survivor)
    requires loser in s1.tracks && survivor in s1.tracks && loser != survivor &&
      SameGroup(norm, s0.tracks, loser, survivor)
    requires ChangedAreIn(s1.mappings, s2.mappings, touched) && affected <= touched
    requires MappingKeys(s2.mappings) && OnePerKey(ReviewSlots(s2.reviews))
    ensures FoldingAt(norm, s0, s2, Compose(Redirect(loser, survivor), home), touched)
  {
    AbsorbStep(norm, s0, s1, s2, home, loser, survivor);
    FoldedStaysLinked(norm, s0, s2, Compose(Redirect(loser, survivor), home));
    ChangesAccumulate(s0.mappings, s1.mappings, s2.mappings, affected, touched);
    FewerIdentifiersStayUnique(s1.tracks, {loser});
  }

  method Absorb(lib: Library, norm: Norm, loser: Id, survivor: Id, affected: set<Pair>, ghost s0: Snapshot,
                ghost home: Home)
      returns (touched: set<Pair>)
    requires Folding(lib, norm, s0, home, affected)
    requires loser in lib.tracks && survivor in lib.tracks && loser != survivor
    requires loser in s0.tracks && survivor in s0.tracks && SameGroup(norm, s0.tracks, loser, survivor)
    modifies lib
    ensures Folding(lib, norm, s0, Compose(Redirect(loser, survivor), home), touched)
    ensures lib.tracks == old(lib.tracks) - {loser} && affected <= touched
  {
    ghost var s1 := Now(lib);
    touched := EmptyAndDelete(lib, loser, survivor, affected);
    AbsorptionKeepsFolding(norm, s0, s1, Now(lib), home, loser, survivor, affected, touched);
  }
}
