/**
 The tables alembic/versions/035_lastfm_identifier_fold.py rewrites, their uniqueness keys, and
 the single statements it issues.  A statement may only run where the database would accept it:
 its precondition is that no unique index trips and no foreign key is broken or cascades.
 */
module FoldTables {
  import opened Wrappers
  import opened Ids
  import opened Relocation

  const LASTFM := "lastfm"
  const MANUAL_OVERRIDE := "manual_override"

  /** The two shapes of JSON value the fold tells apart. */
  datatype Json = StringList(items: seq<string>) | Other(text: string)

  type Meta = map<string, Json>

  datatype ConnectorTrack = ConnectorTrack(
    connector: string, identifier: string, artist: string, title: string, createdAt: int, meta: Meta)

  datatype Mapping = Mapping(
    user: string, connector: string, track: Id, connectorTrack: Id, origin: string, isPrimary: bool, confidence: int)

  datatype Review = Review(user: string, connector: string, track: Id, connectorTrack: Id, createdAt: int)

  type Tracks = map<Id, ConnectorTrack>
  type Mappings = map<Id, Mapping>
  type Reviews = map<Id, Review>
  type Playlist = map<Id, Option<Id>>
  type Pair = (string, Id)

  // ------------------------------------------------------------ what decides a conflict

  predicate IsManual(m: Mapping) { m.origin == MANUAL_OVERRIDE }

  function MappingRank(m: Mapping): Rank {
    Rank(if IsManual(m) then 1 else 0, if m.isPrimary then 1 else 0, m.confidence)
  }

  /** Whether `cand` wins the conflict; a full tie keeps the incumbent. */
  predicate MappingBeats(cand: Mapping, incumbent: Mapping)
    ensures MappingBeats(cand, incumbent) <==> Above(MappingRank(cand), MappingRank(incumbent))
  {
    if IsManual(cand) != IsManual(incumbent) then IsManual(cand)
    else if cand.isPrimary != incumbent.isPrimary then cand.isPrimary
    else cand.confidence > incumbent.confidence
  }

  function MappingSlots(ms: Mappings): Slots {
    map i | i in ms :: Slot(ms[i].connectorTrack, MappingKey(ms[i].user, ms[i].connector), MappingRank(ms[i]))
  }

  /** The earlier review wins. */
  function ReviewSlots(rs: Reviews): Slots {
    map i | i in rs ::
      Slot(rs[i].connectorTrack, ReviewKey(rs[i].user, rs[i].connector, rs[i].track), Rank(-rs[i].createdAt, 0, 0))
  }

  function PairOf(m: Mapping): Pair { (m.user, m.track) }

  // ------------------------------------------------------------ uniqueness keys and foreign keys

  predicate SameIdentifier(tracks: Tracks, a: Id, b: Id)
    requires a in tracks && b in tracks
  {
    tracks[a].connector == tracks[b].connector && tracks[a].identifier == tracks[b].identifier
  }

  ghost predicate UniqueIdentifiers(tracks: Tracks) {
    forall a, b {:trigger SameIdentifier(tracks, a, b)} |
      a in tracks && b in tracks && SameIdentifier(tracks, a, b) :: a == b
  }

  predicate SamePrimarySlot(ms: Mappings, i: Id, j: Id)
    requires i in ms && j in ms
  {
    ms[i].isPrimary && ms[j].isPrimary && PairOf(ms[i]) == PairOf(ms[j]) && ms[i].connector == ms[j].connector
  }

  /** uq_primary_mapping: at most one primary per user, track and connector. */
  ghost predicate OnePrimary(ms: Mappings) {
    forall i, j {:trigger SamePrimarySlot(ms, i, j)} | i in ms && j in ms && SamePrimarySlot(ms, i, j) :: i == j
  }

  ghost predicate MappingsLinked(tracks: Tracks, ms: Mappings) {
    forall i | i in ms :: ms[i].connectorTrack in tracks && tracks[ms[i].connectorTrack].connector == ms[i].connector
  }

  ghost predicate ReviewsLinked(tracks: Tracks, rs: Reviews) {
    forall i | i in rs :: rs[i].connectorTrack in tracks
  }

  ghost predicate PlaylistLinked(tracks: Tracks, playlist: Playlist) {
    forall i | i in playlist && playlist[i].Some? :: playlist[i].value in tracks
  }

  /** The unique keys of the mapping table. */
  ghost predicate MappingKeys(ms: Mappings) {
    OnePerKey(MappingSlots(ms)) && OnePrimary(ms)
  }

  // ------------------------------------------------------------ rows that only changed slot

  ghost predicate OnlyMoved(ms0: Mappings, ms: Mappings) {
    forall i | i in ms :: i in ms0 && ms[i] == ms0[i].(connectorTrack := ms[i].connectorTrack)
  }

  ghost predicate OnlyMovedReviews(rs0: Reviews, rs: Reviews) {
    forall i | i in rs :: i in rs0 && rs[i] == rs0[i].(connectorTrack := rs[i].connectorTrack)
  }

  /** Moving or dropping mappings never makes a second primary. */
  lemma MovingKeepsOnePrimary(ms0: Mappings, ms: Mappings)
    requires OnePrimary(ms0) && OnlyMoved(ms0, ms)
    ensures OnePrimary(ms)
  {
    forall i, j | i in ms && j in ms && SamePrimarySlot(ms, i, j) ensures i == j {
      assert SamePrimarySlot(ms0, i, j);
    }
  }

  // ------------------------------------------------------------ the three ways a mapping moves

  function PlacedMapping(ms: Mappings, i: Id, survivor: Id): Mappings
    requires i in ms
  {
    ms[i := ms[i].(connectorTrack := survivor)]
  }

  /** `w` already holds the key of `i` at the survivor. */
  predicate Blocks(ms: Mappings, i: Id, survivor: Id, w: Id)
    requires i in ms
  {
    w in ms && ms[w].connectorTrack == survivor && ms[w].user == ms[i].user && ms[w].connector == ms[i].connector
  }

  /** `after` is a legal result of moving `i`. */
  ghost predicate LegalMove(ms: Mappings, i: Id, survivor: Id, after: Mappings)
    requires i in ms
  {
    MappingKeys(after) && OnlyMoved(ms, after) && Moves(MappingSlots(ms), i, survivor, MappingSlots(after))
  }

  lemma UnopposedMove(ms: Mappings, i: Id, survivor: Id)
    requires MappingKeys(ms) && i in ms && ms[i].connectorTrack != survivor
    requires forall w | w in ms :: !Blocks(ms, i, survivor, w)
    ensures LegalMove(ms, i, survivor, PlacedMapping(ms, i, survivor))
  {
    var slots, after := MappingSlots(ms), PlacedMapping(ms, i, survivor);
    assert MappingSlots(after) == Placed(slots, i, survivor);
    forall w | w in slots ensures !Incumbent(slots, i, survivor, w) {
      assert !Blocks(ms, i, survivor, w);
    }
    MoveKeepsOnePerKey(slots, i, survivor, MappingSlots(after));
    MovingKeepsOnePrimary(ms, after);
  }

  lemma WinningMove(ms: Mappings, i: Id, survivor: Id, w: Id)
    requires MappingKeys(ms) && i in ms && ms[i].connectorTrack != survivor
    requires Blocks(ms, i, survivor, w) && MappingBeats(ms[i], ms[w])
    ensures LegalMove(ms, i, survivor, PlacedMapping(ms - {w}, i, survivor))
  {
    var slots, after := MappingSlots(ms), PlacedMapping(ms - {w}, i, survivor);
    assert MappingSlots(after) == Placed(slots, i, survivor) - {w};
    assert Incumbent(slots, i, survivor, w) && Settles(slots, i, survivor, w, MappingSlots(after));
    MoveKeepsOnePerKey(slots, i, survivor, MappingSlots(after));
    MovingKeepsOnePrimary(ms, after);
  }

  lemma LosingMove(ms: Mappings, i: Id, survivor: Id, w: Id)
    requires MappingKeys(ms) && i in ms && ms[i].connectorTrack != survivor
    requires Blocks(ms, i, survivor, w) && !MappingBeats(ms[i], ms[w])
    ensures LegalMove(ms, i, survivor, ms - {i})
  {
    var slots := MappingSlots(ms);
    assert MappingSlots(ms - {i}) == slots - {i};
    assert Incumbent(slots, i, survivor, w) && Settles(slots, i, survivor, w, slots - {i});
    MoveKeepsOnePerKey(slots, i, survivor, slots - {i});
    MovingKeepsOnePrimary(ms, ms - {i});
  }

  // ------------------------------------------------------------ the three ways a review moves

  function PlacedReview(rs: Reviews, i: Id, survivor: Id): Reviews
    requires i in rs
  {
    rs[i := rs[i].(connectorTrack := survivor)]
  }

  predicate BlocksReview(rs: Reviews, i: Id, survivor: Id, w: Id)
    requires i in rs
  {
    w in rs && rs[w].connectorTrack == survivor && rs[w].user == rs[i].user && rs[w].connector == rs[i].connector &&
    rs[w].track == rs[i].track
  }

  ghost predicate LegalReviewMove(rs: Reviews, i: Id, survivor: Id, after: Reviews)
    requires i in rs
  {
    OnePerKey(ReviewSlots(after)) && OnlyMovedReviews(rs, after) &&
    Moves(ReviewSlots(rs), i, survivor, ReviewSlots(after))
  }

  lemma UnopposedReviewMove(rs: Reviews, i: Id, survivor: Id)
    requires OnePerKey(ReviewSlots(rs)) && i in rs && rs[i].connectorTrack != survivor
    requires forall w | w in rs :: !BlocksReview(rs, i, survivor, w)
    ensures LegalReviewMove(rs, i, survivor, PlacedReview(rs, i, survivor))
  {
    var slots, after := ReviewSlots(rs), PlacedReview(rs, i, survivor);
    assert ReviewSlots(after) == Placed(slots, i, survivor);
    forall w | w in slots ensures !Incumbent(slots, i, survivor, w) {
      assert !BlocksReview(rs, i, survivor, w);
    }
    MoveKeepsOnePerKey(slots, i, survivor, ReviewSlots(after));
  }

  lemma WinningReviewMove(rs: Reviews, i: Id, survivor: Id, w: Id)
    requires OnePerKey(ReviewSlots(rs)) && i in rs && rs[i].connectorTrack != survivor
    requires BlocksReview(rs, i, survivor, w) && rs[i].createdAt < rs[w].createdAt
    ensures LegalReviewMove(rs, i, survivor, PlacedReview(rs - {w}, i, survivor))
  {
    var slots, after := ReviewSlots(rs), PlacedReview(rs - {w}, i, survivor);
    assert ReviewSlots(after) == Placed(slots, i, survivor) - {w};
    assert Incumbent(slots, i, survivor, w) && Settles(slots, i, survivor, w, ReviewSlots(after));
    MoveKeepsOnePerKey(slots, i, survivor, ReviewSlots(after));
  }

  lemma LosingReviewMove(rs: Reviews, i: Id, survivor: Id, w: Id)
    requires OnePerKey(ReviewSlots(rs)) && i in rs && rs[i].connectorTrack != survivor
    requires BlocksReview(rs, i, survivor, w) && rs[i].createdAt >= rs[w].createdAt
    ensures LegalReviewMove(rs, i, survivor, rs - {i})
  {
    var slots := ReviewSlots(rs);
    assert ReviewSlots(rs - {i}) == slots - {i};
    assert Incumbent(slots, i, survivor, w) && Settles(slots, i, survivor, w, slots - {i});
    MoveKeepsOnePerKey(slots, i, survivor, slots - {i});
  }

  // ------------------------------------------------------------ the loop over a loser's rows

  function Seen(order: seq<Id>, k: nat): set<Id>
    requires k <= |order|
  {
    set x | x in order[..k]
  }

  lemma SeenGrows(order: seq<Id>, k: nat)
    requires k < |order| && IsOrdered(order)
    ensures Seen(order, k + 1) == Seen(order, k) + {order[k]} && order[k] !in Seen(order, k)
  {
  }

  lemma NextIsUntouched(m0: Slots, m: Slots, loser: Id, survivor: Id, order: seq<Id>, k: nat)
    requires k < |order| && loser != survivor && PartlyMoved(m0, m, loser, survivor, Seen(order, k))
    requires order[k] !in Seen(order, k) && order[k] in m0 && m0[order[k]].place == loser
    ensures order[k] in m && m[order[k]].place == loser
  {
  }

  /** `losers` lists the loser's mappings in id order. */
  ghost predicate ListsMappings(ms: Mappings, loser: Id, losers: seq<Id>) {
    IsOrdered(losers) && forall i :: i in losers <==> i in ms && ms[i].connectorTrack == loser
  }

  ghost predicate ListsReviews(rs: Reviews, loser: Id, losers: seq<Id>) {
    IsOrdered(losers) && forall i :: i in losers <==> i in rs && rs[i].connectorTrack == loser
  }

  method SelectMappings(ms: Mappings, loser: Id) returns (losers: seq<Id>)
    ensures ListsMappings(ms, loser, losers)
  {
    losers := OrderById(set i | i in ms && ms[i].connectorTrack == loser);
  }

  method SelectReviews(rs: Reviews, loser: Id) returns (losers: seq<Id>)
    ensures ListsReviews(rs, loser, losers)
  {
    losers := OrderById(set i | i in rs && rs[i].connectorTrack == loser);
  }

  ghost predicate MappingLoop(ms0: Mappings, ms: Mappings, loser: Id, survivor: Id, losers: seq<Id>, k: nat) {
    k <= |losers| && MappingKeys(ms) && OnlyMoved(ms0, ms) &&
    PartlyMoved(MappingSlots(ms0), MappingSlots(ms), loser, survivor, Seen(losers, k))
  }

  ghost predicate ReviewLoop(rs0: Reviews, rs: Reviews, loser: Id, survivor: Id, losers: seq<Id>, k: nat) {
    k <= |losers| && OnePerKey(ReviewSlots(rs)) && OnlyMovedReviews(rs0, rs) &&
    PartlyMoved(ReviewSlots(rs0), ReviewSlots(rs), loser, survivor, Seen(losers, k))
  }

  lemma MappingLoopStart(ms: Mappings, loser: Id, survivor: Id, losers: seq<Id>)
    requires MappingKeys(ms)
    ensures MappingLoop(ms, ms, loser, survivor, losers, 0)
  {
  }

  lemma ReviewLoopStart(rs: Reviews, loser: Id, survivor: Id, losers: seq<Id>)
    requires OnePerKey(ReviewSlots(rs))
    ensures ReviewLoop(rs, rs, loser, survivor, losers, 0)
  {
  }

  lemma MappingLoopNext(ms0: Mappings, ms: Mappings, loser: Id, survivor: Id, losers: seq<Id>, k: nat)
    requires MappingLoop(ms0, ms, loser, survivor, losers, k) && k < |losers| && loser != survivor
    requires ListsMappings(ms0, loser, losers)
    ensures losers[k] in ms && ms[losers[k]].connectorTrack == loser
    ensures forall after | LegalMove(ms, losers[k], survivor, after) ::
      MappingLoop(ms0, after, loser, survivor, losers, k + 1)
  {
    assert losers[k] in losers;
    SeenGrows(losers, k);
    NextIsUntouched(MappingSlots(ms0), MappingSlots(ms), loser, survivor, losers, k);
    forall after | LegalMove(ms, losers[k], survivor, after)
      ensures MappingLoop(ms0, after, loser, survivor, losers, k + 1)
    {
      MoveOne(MappingSlots(ms0), MappingSlots(ms), MappingSlots(after), loser, survivor, Seen(losers, k), losers[k]);
    }
  }

  lemma ReviewLoopNext(rs0: Reviews, rs: Reviews, loser: Id, survivor: Id, losers: seq<Id>, k: nat)
    requires ReviewLoop(rs0, rs, loser, survivor, losers, k) && k < |losers| && loser != survivor
    requires ListsReviews(rs0, loser, losers)
    ensures losers[k] in rs && rs[losers[k]].connectorTrack == loser
    ensures forall after | LegalReviewMove(rs, losers[k], survivor, after) ::
      ReviewLoop(rs0, after, loser, survivor, losers, k + 1)
  {
    assert losers[k] in losers;
    SeenGrows(losers, k);
    NextIsUntouched(ReviewSlots(rs0), ReviewSlots(rs), loser, survivor, losers, k);
    forall after | LegalReviewMove(rs, losers[k], survivor, after)
      ensures ReviewLoop(rs0, after, loser, survivor, losers, k + 1)
    {
      MoveOne(ReviewSlots(rs0), ReviewSlots(rs), ReviewSlots(after), loser, survivor, Seen(losers, k), losers[k]);
    }
  }

  /** What folding one slot into another leaves of the mappings. */
  ghost predicate MappingsFolded(ms0: Mappings, ms: Mappings, loser: Id, survivor: Id) {
    OnlyMoved(ms0, ms) && Rehomed(MappingSlots(ms0), MappingSlots(ms), Redirect(loser, survivor)) &&
    forall i | i in ms :: ms[i].connectorTrack != loser
  }

  ghost predicate ReviewsFolded(rs0: Reviews, rs: Reviews, loser: Id, survivor: Id) {
    OnlyMovedReviews(rs0, rs) && Rehomed(ReviewSlots(rs0), ReviewSlots(rs), Redirect(loser, survivor)) &&
    forall i | i in rs :: rs[i].connectorTrack != loser
  }

  lemma MappingLoopDone(ms0: Mappings, ms: Mappings, loser: Id, survivor: Id, losers: seq<Id>)
    requires MappingLoop(ms0, ms, loser, survivor, losers, |losers|) && loser != survivor
    requires ListsMappings(ms0, loser, losers)
    ensures MappingsFolded(ms0, ms, loser, survivor)
  {
    AllMoved(MappingSlots(ms0), MappingSlots(ms), loser, survivor, Seen(losers, |losers|));
    LoserIsEmpty(MappingSlots(ms0), MappingSlots(ms), loser, survivor, Seen(losers, |losers|));
    assert forall i | i in ms :: MappingSlots(ms)[i].place == ms[i].connectorTrack;
  }

  lemma ReviewLoopDone(rs0: Reviews, rs: Reviews, loser: Id, survivor: Id, losers: seq<Id>)
    requires ReviewLoop(rs0, rs, loser, survivor, losers, |losers|) && loser != survivor
    requires ListsReviews(rs0, loser, losers)
    ensures ReviewsFolded(rs0, rs, loser, survivor)
  {
    AllMoved(ReviewSlots(rs0), ReviewSlots(rs), loser, survivor, Seen(losers, |losers|));
    LoserIsEmpty(ReviewSlots(rs0), ReviewSlots(rs), loser, survivor, Seen(losers, |losers|));
    assert forall i | i in rs :: ReviewSlots(rs)[i].place == rs[i].connectorTrack;
  }

  /** The pair of every row that moved or went away is remembered. */
  ghost predicate ChangedAreIn(ms0: Mappings, ms: Mappings, touched: set<Pair>) {
    forall x | x in ms0 :: (x in ms && ms[x] == ms0[x]) || PairOf(ms0[x]) in touched
  }

  class Library {
    var tracks: Tracks
    var mappings: Mappings
    var reviews: Reviews
    var playlist: Playlist

    constructor (tracks: Tracks, mappings: Mappings, reviews: Reviews, playlist: Playlist)
      ensures this.tracks == tracks && this.mappings == mappings && this.reviews == reviews && this.playlist == playlist
    {
      this.tracks, this.mappings, this.reviews, this.playlist := tracks, mappings, reviews, playlist;
    }

    /** No row of any table points at `id`, so deleting it sets off no referential action. */
    ghost predicate Unreferenced(id: Id)
      reads this
    {
      (forall i | i in mappings :: mappings[i].connectorTrack != id) &&
      (forall i | i in reviews :: reviews[i].connectorTrack != id) &&
      (forall i | i in playlist :: playlist[i] != Some(id))
    }

    method SetMappingTrack(i: Id, survivor: Id)
      requires i in mappings && survivor in tracks
      requires MappingKeys(mappings[i := mappings[i].(connectorTrack := survivor)])
      modifies this`mappings
      ensures mappings == old(mappings)[i := old(mappings[i]).(connectorTrack := survivor)]
    {
      mappings := mappings[i := mappings[i].(connectorTrack := survivor)];
    }

    method DeleteMapping(i: Id)
      modifies this`mappings
      ensures mappings == old(mappings) - {i}
    {
      mappings := mappings - {i};
    }

    method SetPrimary(i: Id)
      requires i in mappings && MappingKeys(mappings[i := mappings[i].(isPrimary := true)])
      modifies this`mappings
      ensures mappings == old(mappings)[i := old(mappings[i]).(isPrimary := true)]
    {
      mappings := mappings[i := mappings[i].(isPrimary := true)];
    }

    method SetReviewTrack(i: Id, survivor: Id)
      requires i in reviews && survivor in tracks
      requires OnePerKey(ReviewSlots(reviews[i := reviews[i].(connectorTrack := survivor)]))
      modifies this`reviews
      ensures reviews == old(reviews)[i := old(reviews[i]).(connectorTrack := survivor)]
    {
      reviews := reviews[i := reviews[i].(connectorTrack := survivor)];
    }

    method DeleteReview(i: Id)
      modifies this`reviews
      ensures reviews == old(reviews) - {i}
    {
      reviews := reviews - {i};
    }

    method RepointPlaylist(loser: Id, survivor: Id)
      requires survivor in tracks
      modifies this`playlist
      ensures playlist.Keys == old(playlist).Keys
      ensures forall i | i in playlist ::
        playlist[i] == if old(playlist[i]) == Some(loser) then Some(survivor) else old(playlist[i])
    {
      playlist := map i | i in playlist :: if playlist[i] == Some(loser) then Some(survivor) else playlist[i];
    }

    method DeleteTrack(id: Id)
      requires id in tracks && Unreferenced(id)
      modifies this`tracks
      ensures tracks == old(tracks) - {id}
    {
      tracks := tracks - {id};
    }

    method SetIdentifier(id: Id, identifier: string)
      requires id in tracks && UniqueIdentifiers(tracks[id := tracks[id].(identifier := identifier)])
      modifies this`tracks
      ensures tracks == old(tracks)[id := old(tracks[id]).(identifier := identifier)]
    {
      tracks := tracks[id := tracks[id].(identifier := identifier)];
    }

    method SetMeta(id: Id, meta: Meta)
      requires id in tracks
      modifies this`tracks
      ensures tracks == old(tracks)[id := old(tracks[id]).(meta := meta)]
    {
      tracks := tracks[id := tracks[id].(meta := meta)];
    }

    method Rename(id: Id, identifier: string, meta: Meta)
      requires id in tracks && UniqueIdentifiers(tracks[id := tracks[id].(identifier := identifier, meta := meta)])
      modifies this`tracks
      ensures tracks == old(tracks)[id := old(tracks[id]).(identifier := identifier, meta := meta)]
    {
      tracks := tracks[id := tracks[id].(identifier := identifier, meta := meta)];
    }

    // ---------------------------------------------------------- _move_mappings, _move_reviews

    /** One mapping of the loser goes to the survivor, or goes away. */
    method MoveMapping(i: Id, survivor: Id, affected: set<Pair>) returns (touched: set<Pair>)
      requires MappingKeys(mappings) && i in mappings && survivor in tracks
      requires mappings[i].connectorTrack != survivor
      modifies this`mappings
      ensures LegalMove(old(mappings), i, survivor, mappings)
      ensures affected <= touched
      ensures ChangedAreIn(old(mappings), mappings, touched)
    {
      var mapping := mappings[i];
      var incumbents := set w | w in mappings && Blocks(mappings, i, survivor, w);
      touched := affected + {PairOf(mapping)};
      if incumbents == {} {
        assert forall w | w in mappings :: w !in incumbents;
        UnopposedMove(mappings, i, survivor);
        SetMappingTrack(i, survivor);
        return;
      }
      var w := Least(incumbents);
      touched := touched + {PairOf(mappings[w])};
      if MappingBeats(mapping, mappings[w]) {
        WinningMove(mappings, i, survivor, w);
        DeleteMapping(w);
        SetMappingTrack(i, survivor);
      } else {
        LosingMove(mappings, i, survivor, w);
        DeleteMapping(i);
      }
    }

    /** One review of the loser goes to the survivor, or goes away; the earlier one stays. */
    method MoveReview(i: Id, survivor: Id)
      requires OnePerKey(ReviewSlots(reviews)) && i in reviews && survivor in tracks
      requires reviews[i].connectorTrack != survivor
      modifies this`reviews
      ensures LegalReviewMove(old(reviews), i, survivor, reviews)
    {
      var incumbents := set w | w in reviews && BlocksReview(reviews, i, survivor, w);
      if incumbents == {} {
        assert forall w | w in reviews :: w !in incumbents;
        UnopposedReviewMove(reviews, i, survivor);
        SetReviewTrack(i, survivor);
        return;
      }
      var w := Least(incumbents);
      if reviews[i].createdAt < reviews[w].createdAt {
        WinningReviewMove(reviews, i, survivor, w);
        DeleteReview(w);
        SetReviewTrack(i, survivor);
      } else {
        LosingReviewMove(reviews, i, survivor, w);
        DeleteReview(i);
      }
    }

    method MoveNextMapping(ghost ms0: Mappings, loser: Id, survivor: Id, losers: seq<Id>, k: nat, affected: set<Pair>)
        returns (touched: set<Pair>)
      requires MappingLoop(ms0, mappings, loser, survivor, losers, k) && ChangedAreIn(ms0, mappings, affected)
      requires k < |losers| && ListsMappings(ms0, loser, losers) && survivor in tracks && loser != survivor
      modifies this`mappings
      ensures MappingLoop(ms0, mappings, loser, survivor, losers, k + 1)
      ensures affected <= touched && ChangedAreIn(ms0, mappings, touched)
    {
      MappingLoopNext(ms0, mappings, loser, survivor, losers, k);
      touched := MoveMapping(losers[k], survivor, affected);
    }

    method MoveNextReview(ghost rs0: Reviews, loser: Id, survivor: Id, losers: seq<Id>, k: nat)
      requires ReviewLoop(rs0, reviews, loser, survivor, losers, k)
      requires k < |losers| && ListsReviews(rs0, loser, losers) && survivor in tracks && loser != survivor
      modifies this`reviews
      ensures ReviewLoop(rs0, reviews, loser, survivor, losers, k + 1)
    {
      ReviewLoopNext(rs0, reviews, loser, survivor, losers, k);
      MoveReview(losers[k], survivor);
    }

    /**
     _move_mappings: the loser's slot ends empty, every row that went away lost to one at least as
     strong, and the pair of every such row is remembered for the primary re-election.
     */
    method MoveMappings(loser: Id, survivor: Id, affected: set<Pair>) returns (touched: set<Pair>)
      requires MappingKeys(mappings) && survivor in tracks && loser != survivor
      modifies this`mappings
      ensures MappingKeys(mappings) && MappingsFolded(old(mappings), mappings, loser, survivor)
      ensures affected <= touched && ChangedAreIn(old(mappings), mappings, touched)
    {
      touched := affected;
      var losers := SelectMappings(mappings, loser);
      MappingLoopStart(mappings, loser, survivor, losers);
      for k := 0 to |losers|
        invariant MappingLoop(old(mappings), mappings, loser, survivor, losers, k)
        invariant affected <= touched && ChangedAreIn(old(mappings), mappings, touched)
      {
        touched := MoveNextMapping(old(mappings), loser, survivor, losers, k, touched);
      }
      MappingLoopDone(old(mappings), mappings, loser, survivor, losers);
    }

    /** _move_reviews: the same for reviews, where the earlier row stays. */
    method MoveReviews(loser: Id, survivor: Id)
      requires OnePerKey(ReviewSlots(reviews)) && survivor in tracks && loser != survivor
      modifies this`reviews
      ensures OnePerKey(ReviewSlots(reviews)) && ReviewsFolded(old(reviews), reviews, loser, survivor)
    {
      var losers := SelectReviews(reviews, loser);
      ReviewLoopStart(reviews, loser, survivor, losers);
      for k := 0 to |losers|
        invariant ReviewLoop(old(reviews), reviews, loser, survivor, losers, k)
      {
        MoveNextReview(old(reviews), loser, survivor, losers, k);
      }
      ReviewLoopDone(old(reviews), reviews, loser, survivor, losers);
    }
  }
}
