/**
 What alembic/versions/035_lastfm_identifier_fold.py leaves behind, against the tables it started
 from; at the end the same in the columns of the rows, without the fold's own vocabulary.
 */
module FoldOutcome {
  import opened Wrappers
  import opened Ids
  import opened Relocation
  import opened FoldTables
  import opened FoldState
  import opened FoldGroups
  import opened FoldRenames
  import opened FoldElection
  import opened FoldPrimaries

  /** Mappings followed their track home and lost only to at least as strong ones; flags were only raised. */
  ghost predicate MappingsSettled(ms0: Mappings, ms: Mappings, home: Home) {
    (forall i | i in ms :: i in ms0 && (ms0[i].isPrimary ==> ms[i].isPrimary) &&
      ms[i] == ms0[i].(connectorTrack := At(home, ms0[i].connectorTrack), isPrimary := ms[i].isPrimary)) &&
    (forall i | i in ms0 :: Won(MappingSlots(ms0), MappingSlots(ms), home, i))
  }

  ghost predicate PrimariesKept(ms0: Mappings, ms: Mappings, touched: set<Pair>) {
    (forall p | HasPrimary(ms0, p) && HasMapping(ms, p) :: HasPrimary(ms, p)) &&
    (forall p | p in touched && HasMapping(ms, p) :: HasPrimary(ms, p))
  }

  /** A mapping that became primary is the best of its pair: manual override, then confidence, then lowest id. */
  ghost predicate PromotedAreBest(ms0: Mappings, ms: Mappings) {
    forall i, x | i in ms && i in ms0 && ms[i].isPrimary && !ms0[i].isPrimary && InPair(ms, PairOf(ms[i]), x) ::
      Outranks(ms, i, x)
  }

  lemma RaisedAreBest(ms0: Mappings, ms1: Mappings, ms: Mappings, touched: set<Pair>)
    requires OnlyMoved(ms0, ms1) && OnlyRaised(ms1, ms, touched)
    ensures PromotedAreBest(ms0, ms)
  {
    forall i, x | i in ms && i in ms0 && ms[i].isPrimary && !ms0[i].isPrimary && InPair(ms, PairOf(ms[i]), x)
      ensures Outranks(ms, i, x)
    {
      assert Raised(ms1, ms, touched, i);
      assert InPair(ms1, PairOf(ms1[i]), x);
    }
  }

  lemma RaisingKeepsMappings(ms: Mappings, after: Mappings, touched: set<Pair>, p: Pair)
    requires OnlyRaised(ms, after, touched) && HasMapping(after, p)
    ensures HasMapping(ms, p)
  {
    var i :| InPair(after, p, i);
    assert InPair(ms, p, i);
  }

  lemma MovedMappingsSettle(ms0: Mappings, ms1: Mappings, ms: Mappings, home: Home, touched: set<Pair>)
    requires OnlyMoved(ms0, ms1) && Rehomed(MappingSlots(ms0), MappingSlots(ms1), home) && OnlyRaised(ms1, ms, touched)
    ensures MappingsSettled(ms0, ms, home)
  {
    forall i | i in ms
      ensures i in ms0 && (ms0[i].isPrimary ==> ms[i].isPrimary)
      ensures ms[i] == ms0[i].(connectorTrack := At(home, ms0[i].connectorTrack), isPrimary := ms[i].isPrimary)
    {
      assert MappingSlots(ms1)[i] == MappingSlots(ms0)[i].(place := At(home, ms0[i].connectorTrack));
    }
    forall i | i in ms0 ensures Won(MappingSlots(ms0), MappingSlots(ms), home, i) {
      var w := Winner(MappingSlots(ms0), MappingSlots(ms1), home, i);
      assert w in MappingSlots(ms);
    }
  }

  /** No pair that had a primary and still has a mapping loses it. */
  lemma PairsKeepPrimaries(ms0: Mappings, ms1: Mappings, ms: Mappings, touched: set<Pair>)
    requires OnlyMoved(ms0, ms1) && ChangedAreIn(ms0, ms1, touched) && OnlyRaised(ms1, ms, touched)
    requires forall p | p in touched && HasMapping(ms1, p) :: HasPrimary(ms, p)
    ensures PrimariesKept(ms0, ms, touched)
  {
    forall p | HasMapping(ms, p) && (p in touched || HasPrimary(ms0, p)) ensures HasPrimary(ms, p) {
      RaisingKeepsMappings(ms1, ms, touched, p);
      if p !in touched {
        var i :| InPair(ms0, p, i) && ms0[i].isPrimary;
        assert InPair(ms1, p, i) && ms1[i].isPrimary;
        PairKeepsPrimary(ms1, ms, touched, p);
      }
    }
  }

  /** No key is lost, and the rows of other connectors are as they were. */
  lemma KeysSurvive(norm: Norm, s0: Snapshot, s: Snapshot, home: Home)
    requires FoldedTo(norm, s0, s, home)
    ensures KeysOf(norm, s.tracks) == KeysOf(norm, s0.tracks)
    ensures forall x | x in s0.tracks && s0.tracks[x].connector != LASTFM ::
      x in s.tracks && s.tracks[x] == s0.tracks[x]
  {
    forall key ensures key in KeysOf(norm, s.tracks) <==> key in KeysOf(norm, s0.tracks) {
      KeyHasHome(norm, s0, s, home, key);
    }
    forall x | x in s0.tracks && s0.tracks[x].connector != LASTFM ensures x in s.tracks && s.tracks[x] == s0.tracks[x] {
      assert At(home, x) == x;
    }
  }

  lemma HomeHasKey(norm: Norm, tracks0: Tracks, tracks: Tracks, home: Home, x: Id)
    requires HomesHold(norm, tracks0, tracks, home) && x in tracks0 && FoldKey(norm, tracks0[x]).Some?
    ensures At(home, x) in tracks && At(home, x) in tracks0
    ensures FoldKey(norm, tracks0[At(home, x)]) == FoldKey(norm, tracks0[x])
  {
    if At(home, x) != x {
      assert SameGroup(norm, tracks0, x, At(home, x));
    }
  }

  /** The row a key went to carries it. */
  lemma KeyHasHome(norm: Norm, s0: Snapshot, s: Snapshot, home: Home, key: string)
    requires SameRows(s0.tracks, s.tracks) && HomesHold(norm, s0.tracks, s.tracks, home)
    ensures key in KeysOf(norm, s.tracks) <==> key in KeysOf(norm, s0.tracks)
  {
    hide FoldKey, At;
    if t :| t in s.tracks && FoldKey(norm, s.tracks[t]) == Some(key) {
      KeyStays(norm, s0.tracks[t], s.tracks[t]);
    }
    if x :| x in s0.tracks && FoldKey(norm, s0.tracks[x]) == Some(key) {
      HomeHasKey(norm, s0.tracks, s.tracks, home, x);
      KeyStays(norm, s0.tracks[At(home, x)], s.tracks[At(home, x)]);
    }
  }

  /** Canonical rows under the unique index: one row per key. */
  lemma CanonicalMeansOneRow(norm: Norm, tracks: Tracks, t: Id, u: Id)
    requires Canonical(norm, tracks) && UniqueIdentifiers(tracks) && t in tracks && u in tracks
    requires FoldKey(norm, tracks[t]).Some? && FoldKey(norm, tracks[t]) == FoldKey(norm, tracks[u])
    ensures t == u
  {
    assert SameIdentifier(tracks, t, u);
  }

  /** The state a fold leaves behind, against the state it started from. */
  ghost predicate Folded(norm: Norm, s0: Snapshot, s: Snapshot, home: Home, touched: set<Pair>) {
    Legal(s) && Canonical(norm, s.tracks) && UnkeyedKept(norm, s0, s.tracks) &&
    SameRows(s0.tracks, s.tracks) && HomesHold(norm, s0.tracks, s.tracks, home) &&
    KeysOf(norm, s.tracks) == KeysOf(norm, s0.tracks) &&
    MappingsSettled(s0.mappings, s.mappings, home) && PrimariesKept(s0.mappings, s.mappings, touched) &&
    PromotedAreBest(s0.mappings, s.mappings) &&
    Rehomed(ReviewSlots(s0.reviews), ReviewSlots(s.reviews), home) && OnlyMovedReviews(s0.reviews, s.reviews) &&
    PlaylistFollows(s0.playlist, s.playlist, home)
  }

  lemma FoldEnds(norm: Norm, s0: Snapshot, s1: Snapshot, ms: Mappings, home: Home, touched: set<Pair>)
    requires FoldingAt(norm, s0, s1, home, touched) && Canonical(norm, s1.tracks) && UnkeyedKept(norm, s0, s1.tracks)
    requires MappingKeys(ms) && OnlyRaised(s1.mappings, ms, touched)
    requires forall p | p in touched && HasMapping(s1.mappings, p) :: HasPrimary(ms, p)
    ensures Folded(norm, s0, s1.(mappings := ms), home, touched)
  {
    hide Rehomed, OnePerKey, OnePrimary, UniqueIdentifiers, OnlyMoved, OnlyMovedReviews, ChangedAreIn, SameRows,
         HomesHold, PlaylistFollows, MappingsSettled, PrimariesKept, PromotedAreBest, Canonical, UnkeyedKept,
         MappingKeys;
    RaisedAreBest(s0.mappings, s1.mappings, ms, touched);
    MovedMappingsSettle(s0.mappings, s1.mappings, ms, home, touched);
    PairsKeepPrimaries(s0.mappings, s1.mappings, ms, touched);
    KeysSurvive(norm, s0, s1, home);
    RaisingKeepsLinks(s1.tracks, s1.mappings, ms, touched);
  }

  lemma RaisingKeepsLinks(tracks: Tracks, ms0: Mappings, ms: Mappings, touched: set<Pair>)
    requires MappingsLinked(tracks, ms0) && OnlyRaised(ms0, ms, touched)
    ensures MappingsLinked(tracks, ms)
  {
  }

  // ------------------------------------------------------------ the same, in columns

  /** A Last.fm row with neither side of the key blank, and its key. */
  ghost predicate IsKeyed(norm: Norm, t: ConnectorTrack, key: string) {
    t.connector == "lastfm" && norm(t.artist) != "" && norm(t.title) != "" &&
    key == norm(t.artist) + "::" + norm(t.title)
  }

  lemma FoldKeyMeans(norm: Norm, t: ConnectorTrack, key: string)
    ensures FoldKey(norm, t) == Some(key) <==> IsKeyed(norm, t, key)
  {
  }

  ghost function MappingsNaming(ms: Mappings, x: Id): set<Id> {
    set i | i in ms && ms[i].connectorTrack == x
  }

  /** More mappings name `t` than `u`; or as many, and it is older; or as old, and has the lower id. */
  ghost predicate Outvotes(s0: Snapshot, t: Id, u: Id)
    requires t in s0.tracks && u in s0.tracks
  {
    var a, b := |MappingsNaming(s0.mappings, t)|, |MappingsNaming(s0.mappings, u)|;
    a > b || (a == b && (s0.tracks[t].createdAt < s0.tracks[u].createdAt ||
                         (s0.tracks[t].createdAt == s0.tracks[u].createdAt && t.n <= u.n)))
  }

  ghost predicate Lists(meta: Meta, identifier: string) {
    "folded_from" in meta && meta["folded_from"].StringList? && identifier in meta["folded_from"].items
  }

  /** Whatever the old metadata listed the new one lists, the key itself apart. */
  ghost predicate ListsAllOf(meta: Meta, before: Meta, key: string) {
    forall v | Lists(before, v) && v != key :: Lists(meta, v)
  }

  /** What the row that stays holds of a row that went: what it listed, its identifier, every key of its metadata. */
  ghost predicate Remembers(meta: Meta, gone: ConnectorTrack, key: string) {
    ListsAllOf(meta, gone.meta, key) && (gone.identifier != key ==> Lists(meta, gone.identifier)) &&
    forall k | k in gone.meta :: k in meta
  }

  /** Row `t` of the end is what became of row `x` of the start, both under `key`. */
  ghost predicate Keeps(norm: Norm, s0: Snapshot, s: Snapshot, key: string, x: Id, t: Id) {
    x in s0.tracks && t in s0.tracks && t in s.tracks &&
    IsKeyed(norm, s0.tracks[t], key) && s.tracks[t].identifier == key &&
    (s0.tracks[x].identifier == key ==> t == x) &&
    (s0.tracks[t].identifier == key || Outvotes(s0, t, x)) &&
    (t != x ==> x !in s.tracks && Remembers(s.tracks[t].meta, s0.tracks[x], key)) &&
    ListsAllOf(s.tracks[t].meta, s0.tracks[t].meta, key) &&
    (forall k | k in s0.tracks[t].meta && k != "folded_from" ::
      k in s.tracks[t].meta && s.tracks[t].meta[k] == s0.tracks[t].meta[k])
  }

  ghost predicate EveryRowIsKept(norm: Norm, s0: Snapshot, s: Snapshot) {
    forall x, key {:trigger IsKeyed(norm, s0.tracks[x], key)} |
      x in s0.tracks && IsKeyed(norm, s0.tracks[x], key) :: exists t :: Keeps(norm, s0, s, key, x, t)
  }

  /** Row `x` has no key and went into `t`, whose key is its identifier; `t` has every key of its metadata. */
  ghost predicate TakenIn(norm: Norm, s0: Snapshot, s: Snapshot, x: Id, t: Id) {
    x in s0.tracks && x !in s.tracks && t in s0.tracks && t in s.tracks &&
    IsKeyed(norm, s0.tracks[t], s0.tracks[x].identifier) && s.tracks[t].identifier == s0.tracks[x].identifier &&
    forall k | k in s0.tracks[x].meta :: k in s.tracks[t].meta
  }

  /** A Last.fm row without a key is there as it was, or went into the row whose key it held. */
  ghost predicate EveryOtherRowIsKept(norm: Norm, s0: Snapshot, s: Snapshot) {
    forall x | x in s0.tracks && s0.tracks[x].connector == "lastfm" &&
      (norm(s0.tracks[x].artist) == "" || norm(s0.tracks[x].title) == "") ::
      (x in s.tracks && s.tracks[x] == s0.tracks[x]) || exists t :: TakenIn(norm, s0, s, x, t)
  }

  /** manual_override first, then primary, then confidence. */
  ghost predicate AtLeastAsStrong(a: Mapping, b: Mapping) {
    var x, y := a.origin == "manual_override", b.origin == "manual_override";
    (x && !y) || (x == y && ((a.isPrimary && !b.isPrimary) ||
                             (a.isPrimary == b.isPrimary && a.confidence >= b.confidence)))
  }

  /** The mapping `w` that stays holds the place of `i`: same user, same connector, where the row of `i` went. */
  ghost predicate Holds(s0: Snapshot, s: Snapshot, home: Home, i: Id, w: Id) {
    i in s0.mappings && w in s0.mappings && w in s.mappings &&
    s.mappings[w].connectorTrack == At(home, s0.mappings[i].connectorTrack) &&
    s.mappings[w].user == s0.mappings[i].user && s.mappings[w].connector == s0.mappings[i].connector &&
    AtLeastAsStrong(s0.mappings[w], s0.mappings[i])
  }

  ghost predicate EveryMappingIsHeld(s0: Snapshot, s: Snapshot, home: Home) {
    forall i | i in s0.mappings :: exists w :: Holds(s0, s, home, i, w)
  }

  /** Before the other as the sole primary: manual_override, then confidence, then id. */
  ghost predicate GoesBefore(ms: Mappings, i: Id, x: Id)
    requires i in ms && x in ms
  {
    var a, b := ms[i].origin == "manual_override", ms[x].origin == "manual_override";
    (a && !b) || (a == b && (ms[i].confidence > ms[x].confidence ||
                             (ms[i].confidence == ms[x].confidence && i.n <= x.n)))
  }

  /** A mapping raised to primary goes before every other Last.fm mapping of its user and track. */
  ghost predicate RaisedGoFirst(ms0: Mappings, ms: Mappings) {
    forall i, x | i in ms && x in ms && i in ms0 && ms[i].isPrimary && !ms0[i].isPrimary &&
      ms[x].user == ms[i].user && ms[x].track == ms[i].track && ms[x].connector == "lastfm" :: GoesBefore(ms, i, x)
  }

  // ------------------------------------------------------------ and why it is the same

  /** The merge has every key the survivor or a loser has. */
  lemma {:induction false} MergeHasEveryKey(meta: Meta, losers: seq<Candidate>)
    ensures forall k :: k in MergedMeta(meta, losers) <==> k in meta || exists c :: c in losers && k in c.meta
    decreases |losers|
  {
    if losers != [] {
      var earlier, last := losers[..|losers| - 1], losers[|losers| - 1];
      MergeHasEveryKey(meta, earlier);
      assert losers == earlier + [last];
    }
  }

  /** A key the survivor lacks is taken from the first loser that has it. */
  lemma {:induction false} MergeTakesTheFirst(meta: Meta, losers: seq<Candidate>, k: string, i: nat)
    requires k !in meta && i < |losers| && k in losers[i].meta && forall j | 0 <= j < i :: k !in losers[j].meta
    ensures k in MergedMeta(meta, losers) && MergedMeta(meta, losers)[k] == losers[i].meta[k]
    decreases |losers|
  {
    var earlier := losers[..|losers| - 1];
    if i < |earlier| {
      MergeTakesTheFirst(meta, earlier, k, i);
    } else {
      MergeHasEveryKey(meta, earlier);
      forall c | c in earlier ensures k !in c.meta {
        var j :| 0 <= j < |earlier| && earlier[j] == c;
        assert losers[j] == c;
      }
    }
  }

  lemma RecordingKeepsKeys(meta: Meta, origins: seq<string>, target: string)
    ensures forall k | k in meta :: k in Recorded(meta, origins, target)
    ensures forall k | k in meta && k != "folded_from" :: Recorded(meta, origins, target)[k] == meta[k]
  {
  }

  /** What an elected row remembers of one member of its group. */
  lemma ElectedRemembers(norm: Norm, s0: Snapshot, tracks: Tracks, members: seq<Candidate>, target: string,
                         c: Candidate)
    requires IsElected(norm, s0, tracks, members, target) && c in members
    requires c.id != ChooseSurvivor(members, target).id && c.id in s0.tracks && c == CandidateOf(s0, c.id)
    ensures Remembers(tracks[ChooseSurvivor(members, target).id].meta, s0.tracks[c.id], target)
  {
    var survivor := ChooseSurvivor(members, target);
    assert s0.tracks[c.id].meta == c.meta && s0.tracks[c.id].identifier == c.identifier;
    forall v | v != target && (v == c.identifier || Lists(c.meta, v)) ensures Lists(tracks[survivor.id].meta, v) {
      ElectedKeepsProvenance(norm, s0, tracks, members, target, v);
    }
    var losers, meta, base := Losers(members, survivor), tracks[survivor.id].meta, GroupBase(members, target);
    assert c in losers && base == GroupMeta(survivor, losers, target);
    MergeHasEveryKey(survivor.meta, losers);
    RecordingKeepsKeys(MergedMeta(survivor.meta, losers), Provenance(FoldedList(survivor.meta), losers), target);
    if meta != base {
      var o :| AbsorbedFrom(norm, s0.tracks, meta, base, target, o);
      RecordingKeepsKeys(s0.tracks[o].meta + base, FoldedList(s0.tracks[o].meta + base) + [s0.tracks[o].identifier],
                         target);
    }
  }

  /** An elected row still has its own metadata. */
  lemma ElectedKeepsItsOwn(norm: Norm, s0: Snapshot, tracks: Tracks, members: seq<Candidate>, target: string)
    requires IsElected(norm, s0, tracks, members, target)
    ensures var survivor := ChooseSurvivor(members, target);
      forall k | k in survivor.meta && k != "folded_from" ::
        k in tracks[survivor.id].meta && tracks[survivor.id].meta[k] == survivor.meta[k]
    ensures var survivor := ChooseSurvivor(members, target);
      survivor.id in tracks && ListsAllOf(tracks[survivor.id].meta, survivor.meta, target)
  {
    var survivor := ChooseSurvivor(members, target);
    forall v | v != target && Lists(survivor.meta, v) ensures Lists(tracks[survivor.id].meta, v) {
      ElectedKeepsProvenance(norm, s0, tracks, members, target, v);
    }
    var losers, meta, base := Losers(members, survivor), tracks[survivor.id].meta, GroupBase(members, target);
    GroupMetaKeepsProvenance(survivor, losers, target);
    if meta != base {
      var o :| AbsorbedFrom(norm, s0.tracks, meta, base, target, o);
      RecordingKeepsKeys(s0.tracks[o].meta + base, FoldedList(s0.tracks[o].meta + base) + [s0.tracks[o].identifier],
                         target);
    }
  }

  lemma ElectionIsByColumns(norm: Norm, s0: Snapshot, target: string, members: seq<Candidate>, x: Id)
    requires IsGroup(norm, s0, target, members) && UniqueIdentifiers(s0.tracks)
    requires x in s0.tracks && FoldKey(norm, s0.tracks[x]) == Some(target)
    ensures var t := ChooseSurvivor(members, target).id;
      t in s0.tracks && (s0.tracks[x].identifier == target ==> t == x) &&
      (s0.tracks[t].identifier == target || Outvotes(s0, t, x))
  {
    var c, best := CandidateOf(s0, x), ChooseSurvivor(members, target);
    assert x in MemberIds(members);
    assert c in members;
    assert |MappingsNaming(s0.mappings, x)| == c.mappingCount;
    assert |MappingsNaming(s0.mappings, best.id)| == best.mappingCount;
    if s0.tracks[x].identifier == target {
      assert c.identifier == target;
      assert SameIdentifier(s0.tracks, best.id, x);
    }
  }

  lemma KeptByColumns(norm: Norm, s0: Snapshot, s: Snapshot, groups: Groups)
    requires AreGroups(norm, s0, groups) && AllElected(norm, s0, s.tracks, groups)
    requires UniqueIdentifiers(s0.tracks) && UniqueIdentifiers(s.tracks) && SameRows(s0.tracks, s.tracks)
    requires Canonical(norm, s.tracks)
    ensures EveryRowIsKept(norm, s0, s)
  {
    hide IsElected, IsGroup, CandidateOf, UniqueIdentifiers, SameRows, Canonical;
    forall x, key | x in s0.tracks && IsKeyed(norm, s0.tracks[x], key)
      ensures exists t :: Keeps(norm, s0, s, key, x, t)
    {
      FoldKeyMeans(norm, s0.tracks[x], key);
      RowIsKept(norm, s0, s, key, groups[key], x);
    }
  }

  lemma RowIsKept(norm: Norm, s0: Snapshot, s: Snapshot, key: string, members: seq<Candidate>, x: Id)
    requires IsGroup(norm, s0, key, members) && IsElected(norm, s0, s.tracks, members, key)
    requires UniqueIdentifiers(s0.tracks) && UniqueIdentifiers(s.tracks) && SameRows(s0.tracks, s.tracks)
    requires Canonical(norm, s.tracks)
    requires x in s0.tracks && FoldKey(norm, s0.tracks[x]) == Some(key)
    ensures Keeps(norm, s0, s, key, x, ChooseSurvivor(members, key).id)
  {
    hide FoldKey, Remembers, MetaSettles, Outvotes, ListsAllOf;
    var survivor := ChooseSurvivor(members, key);
    var t := survivor.id;
    ElectionIsByColumns(norm, s0, key, members, x);
    ElectedKeepsItsOwn(norm, s0, s.tracks, members, key);
    KeyStays(norm, s0.tracks[t], s.tracks[t]);
    FoldKeyMeans(norm, s0.tracks[t], key);
    if t != x {
      assert x in MemberIds(members);
      ElectedRemembers(norm, s0, s.tracks, members, key, CandidateOf(s0, x));
      if x in s.tracks {
        KeyStays(norm, s0.tracks[x], s.tracks[x]);
        CanonicalMeansOneRow(norm, s.tracks, t, x);
      }
    }
  }

  lemma OthersKeptByColumns(norm: Norm, s0: Snapshot, s: Snapshot, groups: Groups)
    requires AreGroups(norm, s0, groups) && AllElected(norm, s0, s.tracks, groups)
    requires KeylessSettled(norm, s0, s.tracks, groups)
    requires UniqueIdentifiers(s0.tracks) && SameRows(s0.tracks, s.tracks) && Canonical(norm, s.tracks)
    ensures EveryOtherRowIsKept(norm, s0, s)
  {
    hide IsElected, IsGroup, UniqueIdentifiers, Canonical;
    forall x | x in s0.tracks && s0.tracks[x].connector == "lastfm" &&
      (norm(s0.tracks[x].artist) == "" || norm(s0.tracks[x].title) == "")
      ensures (x in s.tracks && s.tracks[x] == s0.tracks[x]) || exists t :: TakenIn(norm, s0, s, x, t)
    {
      if x in s.tracks {
        KeyStays(norm, s0.tracks[x], s.tracks[x]);
      } else {
        var key := s0.tracks[x].identifier;
        OtherIsTakenIn(norm, s0, s, key, groups[key], x);
      }
    }
  }

  lemma OtherIsTakenIn(norm: Norm, s0: Snapshot, s: Snapshot, key: string, members: seq<Candidate>, x: Id)
    requires IsGroup(norm, s0, key, members) && IsElected(norm, s0, s.tracks, members, key)
    requires UniqueIdentifiers(s0.tracks) && SameRows(s0.tracks, s.tracks) && Canonical(norm, s.tracks)
    requires Sits(norm, s0.tracks, key, x) && x !in s.tracks
    ensures TakenIn(norm, s0, s, x, ChooseSurvivor(members, key).id)
  {
    hide FoldKey, GroupBase;
    var t := ChooseSurvivor(members, key).id;
    KeyStays(norm, s0.tracks[t], s.tracks[t]);
    FoldKeyMeans(norm, s0.tracks[t], key);
    var base := GroupBase(members, key);
    var o :| AbsorbedFrom(norm, s0.tracks, s.tracks[t].meta, base, key, o);
    assert SameIdentifier(s0.tracks, o, x);
    RecordingKeepsKeys(s0.tracks[o].meta + base, FoldedList(s0.tracks[o].meta + base) + [s0.tracks[o].identifier], key);
  }

  lemma WinnerHolds(s0: Snapshot, s: Snapshot, home: Home, i: Id, w: Id)
    requires MappingsSettled(s0.mappings, s.mappings, home)
    requires i in s0.mappings && w in s0.mappings && w in s.mappings
    requires AtLeastAsGood(MappingSlots(s0.mappings), home, i, w)
    ensures Holds(s0, s, home, i, w)
  {
    hide Won;
    assert MappingSlots(s0.mappings)[i].key == MappingSlots(s0.mappings)[w].key;
  }

  lemma HeldByColumns(s0: Snapshot, s: Snapshot, home: Home)
    requires MappingsSettled(s0.mappings, s.mappings, home)
    ensures EveryMappingIsHeld(s0, s, home)
  {
    hide AtLeastAsGood, Holds;
    forall i | i in s0.mappings ensures exists w :: Holds(s0, s, home, i, w) {
      assert Won(MappingSlots(s0.mappings), MappingSlots(s.mappings), home, i);
      var w :| w in MappingSlots(s.mappings) && w in MappingSlots(s0.mappings) &&
               AtLeastAsGood(MappingSlots(s0.mappings), home, i, w);
      WinnerHolds(s0, s, home, i, w);
    }
  }

  lemma RaisedByColumns(ms0: Mappings, ms: Mappings)
    requires PromotedAreBest(ms0, ms)
    ensures RaisedGoFirst(ms0, ms)
  {
    forall i, x | i in ms && x in ms && i in ms0 && ms[i].isPrimary && !ms0[i].isPrimary &&
      ms[x].user == ms[i].user && ms[x].track == ms[i].track && ms[x].connector == "lastfm"
      ensures GoesBefore(ms, i, x)
    {
      assert InPair(ms, PairOf(ms[i]), x);
    }
  }

  lemma OutcomeByColumns(norm: Norm, s0: Snapshot, s: Snapshot, home: Home, touched: set<Pair>, groups: Groups)
    requires Legal(s0) && Folded(norm, s0, s, home, touched)
    requires AreGroups(norm, s0, groups) && AllElected(norm, s0, s.tracks, groups)
    requires KeylessSettled(norm, s0, s.tracks, groups)
    ensures EveryRowIsKept(norm, s0, s) && EveryOtherRowIsKept(norm, s0, s) && EveryMappingIsHeld(s0, s, home)
    ensures RaisedGoFirst(s0.mappings, s.mappings)
  {
    hide UniqueIdentifiers, SameRows, Canonical, UnkeyedKept, AreGroups, AllElected, MappingsSettled, PromotedAreBest,
         EveryRowIsKept, EveryOtherRowIsKept, EveryMappingIsHeld, RaisedGoFirst, KeylessSettled;
    KeptByColumns(norm, s0, s, groups);
    OthersKeptByColumns(norm, s0, s, groups);
    HeldByColumns(s0, s, home);
    RaisedByColumns(s0.mappings, s.mappings);
  }
}
