/** Grouping Last.fm rows by key, electing a survivor and folding one group into it. */
module FoldGroups {
  import opened Wrappers
  import opened Ids
  import opened Relocation
  import opened FoldTables
  import opened FoldState

  const FOLDED_FROM := "folded_from"

  datatype Candidate = Candidate(id: Id, identifier: string, mappingCount: nat, createdAt: int, meta: Meta)

  datatype Rename = Rename(id: Id, target: string, meta: Meta)

  // ------------------------------------------------------------ loading the groups

  function CandidateOf(s: Snapshot, id: Id): Candidate
    requires id in s.tracks
  {
    var t := s.tracks[id];
    Candidate(id, t.identifier, |set i | i in s.mappings && s.mappings[i].connectorTrack == id|, t.createdAt, t.meta)
  }

  function MemberIds(members: seq<Candidate>): set<Id> {
    set c | c in members :: c.id
  }

  /** `members` lists, in id order, exactly the rows whose key is `target`. */
  ghost predicate IsGroup(norm: Norm, s0: Snapshot, target: string, members: seq<Candidate>) {
    members != [] && Ascending(members) &&
    (forall c | c in members ::
      c.id in s0.tracks && c == CandidateOf(s0, c.id) && FoldKey(norm, s0.tracks[c.id]) == Some(target)) &&
    (forall x | x in s0.tracks && FoldKey(norm, s0.tracks[x]) == Some(target) :: x in MemberIds(members))
  }

  type Groups = map<string, seq<Candidate>>

  ghost predicate AreGroups(norm: Norm, s0: Snapshot, groups: Groups) {
    (forall target | target in groups :: IsGroup(norm, s0, target, groups[target])) &&
    (forall x | x in s0.tracks && FoldKey(norm, s0.tracks[x]).Some? :: FoldKey(norm, s0.tracks[x]).value in groups)
  }

  /** The groups made of the first rows in id order. */
  ghost predicate GroupsSoFar(norm: Norm, s0: Snapshot, seen: seq<Id>, groups: Groups) {
    (forall x | x in seen :: x in s0.tracks) &&
    (forall target | target in groups :: IsGroupSoFar(norm, s0, seen, target, groups[target])) &&
    (forall x | x in seen && FoldKey(norm, s0.tracks[x]).Some? ::
      FoldKey(norm, s0.tracks[x]).value in groups && CandidateOf(s0, x) in groups[FoldKey(norm, s0.tracks[x]).value])
  }

  ghost predicate IsGroupSoFar(norm: Norm, s0: Snapshot, seen: seq<Id>, target: string, members: seq<Candidate>) {
    members != [] && Ascending(members) &&
    forall c | c in members ::
      c.id in seen && c.id in s0.tracks && c == CandidateOf(s0, c.id) && FoldKey(norm, s0.tracks[c.id]) == Some(target)
  }

  predicate Ascending(members: seq<Candidate>) {
    forall i, j | 0 <= i < j < |members| :: members[i].id.n < members[j].id.n
  }

  /** One row joins the list of its key; a row without a key joins none. */
  function AddCandidate(norm: Norm, s0: Snapshot, groups: Groups, id: Id): Groups
    requires id in s0.tracks
  {
    match FoldKey(norm, s0.tracks[id])
    case None => groups
    case Some(target) =>
      groups[target := (if target in groups then groups[target] else []) + [CandidateOf(s0, id)]]
  }

  lemma GroupsGrow(norm: Norm, s0: Snapshot, seen: seq<Id>, groups: Groups, id: Id)
    requires GroupsSoFar(norm, s0, seen, groups) && id in s0.tracks && forall x | x in seen :: x.n < id.n
    ensures GroupsSoFar(norm, s0, seen + [id], AddCandidate(norm, s0, groups, id))
  {
    hide IsGroupSoFar, CandidateOf, FoldKey;
    var more := AddCandidate(norm, s0, groups, id);
    forall target | target in more ensures IsGroupSoFar(norm, s0, seen + [id], target, more[target]) {
      if FoldKey(norm, s0.tracks[id]) == Some(target) {
        GroupGrows(norm, s0, seen, target, if target in groups then groups[target] else [], id);
      } else {
        SeenGrowsAround(norm, s0, seen, target, groups[target], id);
      }
    }
    forall x | x in seen + [id] && FoldKey(norm, s0.tracks[x]).Some?
      ensures var key := FoldKey(norm, s0.tracks[x]).value; key in more && CandidateOf(s0, x) in more[key]
    {
    }
  }

  lemma GroupGrows(norm: Norm, s0: Snapshot, seen: seq<Id>, target: string, members: seq<Candidate>, id: Id)
    requires members == [] || IsGroupSoFar(norm, s0, seen, target, members)
    requires id in s0.tracks && FoldKey(norm, s0.tracks[id]) == Some(target) && forall x | x in seen :: x.n < id.n
    ensures IsGroupSoFar(norm, s0, seen + [id], target, members + [CandidateOf(s0, id)])
  {
    hide FoldKey;
    assert forall c | c in members :: c.id in seen;
  }

  lemma SeenGrowsAround(norm: Norm, s0: Snapshot, seen: seq<Id>, target: string, members: seq<Candidate>, id: Id)
    requires IsGroupSoFar(norm, s0, seen, target, members)
    ensures IsGroupSoFar(norm, s0, seen + [id], target, members)
  {
  }

  method LoadCandidates(norm: Norm, s0: Snapshot) returns (groups: Groups)
    ensures AreGroups(norm, s0, groups)
  {
    hide *;
    groups := map[];
    var rows := OrderById(s0.tracks.Keys);
    NoGroupsYet(norm, s0);
    assert rows[..0] == [];
    for k := 0 to |rows|
      invariant GroupsSoFar(norm, s0, rows[..k], groups)
    {
      NextRow(rows, k);
      assert rows[k] in rows;
      GroupsGrow(norm, s0, rows[..k], groups, rows[k]);
      groups := AddCandidate(norm, s0, groups, rows[k]);
    }
    assert rows[..|rows|] == rows;
    GroupsAreComplete(norm, s0, rows, groups);
  }

  lemma NoGroupsYet(norm: Norm, s0: Snapshot)
    ensures GroupsSoFar(norm, s0, [], map[])
  {
  }

  lemma NextRow(rows: seq<Id>, k: nat)
    requires k < |rows| && IsOrdered(rows)
    ensures rows[..k + 1] == rows[..k] + [rows[k]]
    ensures forall x | x in rows[..k] :: x.n < rows[k].n
  {
  }

  lemma GroupsAreComplete(norm: Norm, s0: Snapshot, rows: seq<Id>, groups: Groups)
    requires GroupsSoFar(norm, s0, rows, groups) && forall x :: x in rows <==> x in s0.tracks
    ensures AreGroups(norm, s0, groups)
  {
    forall target | target in groups ensures IsGroup(norm, s0, target, groups[target]) {
      forall x | x in s0.tracks && FoldKey(norm, s0.tracks[x]) == Some(target)
        ensures x in MemberIds(groups[target])
      {
        assert x in rows && CandidateOf(s0, x) in groups[target] && CandidateOf(s0, x).id == x;
      }
    }
  }

  // ------------------------------------------------------------ _choose_survivor

  /** Most mappings, then oldest, then lowest id. */
  predicate Preferred(a: Candidate, b: Candidate) {
    a.mappingCount > b.mappingCount ||
    (a.mappingCount == b.mappingCount &&
      (a.createdAt < b.createdAt || (a.createdAt == b.createdAt && a.id.n <= b.id.n)))
  }

  function Best(members: seq<Candidate>): (c: Candidate)
    requires members != []
    ensures c in members && forall m | m in members :: Preferred(c, m)
  {
    if |members| == 1 then members[0]
    else
      var rest := Best(members[1..]);
      assert forall m | m in members :: m == members[0] || m in members[1..];
      if Preferred(members[0], rest) then members[0] else rest
  }

  /** The row already keyed on `target` if there is one, else the preferred row. */
  function ChooseSurvivor(members: seq<Candidate>, target: string): (c: Candidate)
    requires members != []
    ensures c in members
    ensures (exists m :: m in members && m.identifier == target) ==> c.identifier == target
    ensures c.identifier != target ==> forall m | m in members :: Preferred(c, m)
  {
    if exists i :: 0 <= i < |members| && members[i].identifier == target then FirstCanonical(members, target)
    else Best(members)
  }

  function FirstCanonical(members: seq<Candidate>, target: string): (c: Candidate)
    requires exists i :: 0 <= i < |members| && members[i].identifier == target
    ensures c in members && c.identifier == target
  {
    if members[0].identifier == target then members[0]
    else
      assert forall i | 1 <= i < |members| :: members[i] == members[1..][i - 1];
      FirstCanonical(members[1..], target)
  }

  // ------------------------------------------------------------ metadata

  function FoldedList(meta: Meta): seq<string> {
    if FOLDED_FROM in meta && meta[FOLDED_FROM].StringList? then meta[FOLDED_FROM].items else []
  }

  /** Drop repetitions, and `target` itself, keeping first-seen order. */
  function Dedupe(values: seq<string>, target: string): (kept: seq<string>)
    ensures forall v :: v in kept <==> v in values && v != target
    ensures forall i, j | 0 <= i < j < |kept| :: kept[i] != kept[j]
  {
    if values == [] then []
    else
      var last := values[|values| - 1];
      var before := Dedupe(values[..|values| - 1], target);
      if last == target || last in before then before else before + [last]
  }

  /** Some beginning of the values holds `a` and not yet `b`. */
  ghost predicate ComesFirst(values: seq<string>, a: string, b: string) {
    exists n: nat :: n <= |values| && a in values[..n] && b !in values[..n]
  }

  lemma FirstInLonger(values: seq<string>, n: nat, a: string, b: string)
    requires n <= |values| && ComesFirst(values[..n], a, b)
    ensures ComesFirst(values, a, b)
  {
    var m: nat :| m <= n && a in values[..n][..m] && b !in values[..n][..m];
    assert values[..n][..m] == values[..m];
  }

  /** What is kept is in the order of first appearance. */
  lemma {:induction false} DedupeKeepsOrder(values: seq<string>, target: string, i: nat, j: nat)
    requires i < j < |Dedupe(values, target)|
    ensures ComesFirst(values, Dedupe(values, target)[i], Dedupe(values, target)[j])
    decreases |values|
  {
    var n := |values| - 1;
    var before := Dedupe(values[..n], target);
    if j < |before| {
      DedupeKeepsOrder(values[..n], target, i, j);
      FirstInLonger(values, n, before[i], before[j]);
    } else {
      assert before[i] in before;
    }
  }

  /** Shallow merge: the survivor's keys win, then the earlier loser's. */
  function MergedMeta(meta: Meta, losers: seq<Candidate>): Meta {
    if losers == [] then meta
    else losers[|losers| - 1].meta + MergedMeta(meta, losers[..|losers| - 1])
  }

  function Provenance(first: seq<string>, losers: seq<Candidate>): seq<string> {
    if losers == [] then first
    else
      var last := losers[|losers| - 1];
      Provenance(first, losers[..|losers| - 1]) + FoldedList(last.meta) + [last.identifier]
  }

  function Recorded(meta: Meta, origins: seq<string>, target: string): Meta {
    var kept := Dedupe(origins, target);
    if kept == [] then meta else meta[FOLDED_FROM := StringList(kept)]
  }

  function GroupMeta(survivor: Candidate, losers: seq<Candidate>, target: string): Meta {
    Recorded(MergedMeta(survivor.meta, losers), Provenance(FoldedList(survivor.meta), losers), target)
  }

  lemma {:induction false} ProvenanceHolds(first: seq<string>, losers: seq<Candidate>, c: Candidate)
    requires c in losers
    ensures c.identifier in Provenance(first, losers)
    ensures forall v | v in FoldedList(c.meta) :: v in Provenance(first, losers)
    decreases |losers|
  {
    var last := losers[|losers| - 1];
    if c != last {
      assert c in losers[..|losers| - 1];
      ProvenanceHolds(first, losers[..|losers| - 1], c);
    }
  }

  lemma {:induction false} ProvenanceKeepsFirst(first: seq<string>, losers: seq<Candidate>)
    ensures forall v | v in first :: v in Provenance(first, losers)
    decreases |losers|
  {
    if losers != [] {
      ProvenanceKeepsFirst(first, losers[..|losers| - 1]);
    }
  }

  lemma {:induction false} SurvivorKeysWin(meta: Meta, losers: seq<Candidate>)
    ensures forall k | k in meta :: k in MergedMeta(meta, losers) && MergedMeta(meta, losers)[k] == meta[k]
    decreases |losers|
  {
    if losers != [] {
      SurvivorKeysWin(meta, losers[..|losers| - 1]);
    }
  }

  /** The identifiers a group folds, and all that its rows had on record, other than the key itself. */
  ghost predicate OnRecord(survivor: Candidate, losers: seq<Candidate>, target: string, v: string) {
    v != target && (v in FoldedList(survivor.meta) ||
                    exists c | c in losers :: c.identifier == v || v in FoldedList(c.meta))
  }

  /** Every folded identifier other than the key itself is on record, and no key of the survivor's own is lost. */
  lemma GroupMetaKeepsProvenance(survivor: Candidate, losers: seq<Candidate>, target: string)
    ensures forall v | OnRecord(survivor, losers, target, v) :: v in FoldedList(GroupMeta(survivor, losers, target))
    ensures forall k | k in survivor.meta && k != FOLDED_FROM ::
      k in GroupMeta(survivor, losers, target) && GroupMeta(survivor, losers, target)[k] == survivor.meta[k]
  {
    SurvivorKeysWin(survivor.meta, losers);
    ProvenanceKeepsFirst(FoldedList(survivor.meta), losers);
    forall v | OnRecord(survivor, losers, target, v) ensures v in FoldedList(GroupMeta(survivor, losers, target)) {
      if v !in FoldedList(survivor.meta) {
        var c :| c in losers && (c.identifier == v || v in FoldedList(c.meta));
        ProvenanceHolds(FoldedList(survivor.meta), losers, c);
      }
    }
  }

  // ------------------------------------------------------------ _fold_group

  /** Rewriting identifiers and metadata in place leaves the fold's own facts alone. */
  lemma RetouchKeepsFolding(norm: Norm, s0: Snapshot, s: Snapshot, tracks: Tracks, home: Home, affected: set<Pair>)
    requires FoldingAt(norm, s0, s, home, affected)
    requires tracks.Keys == s.tracks.Keys && SameRows(s.tracks, tracks) && UniqueIdentifiers(tracks)
    ensures FoldingAt(norm, s0, s.(tracks := tracks), home, affected)
  {
    hide Rehomed, OnlyMoved, OnlyMovedReviews, OnePerKey, OnePrimary, ChangedAreIn, PlaylistFollows,
         UniqueIdentifiers, MappingKeys;
    RetouchKeepsLinks(s, tracks);
    RetouchKeepsHomes(norm, s0.tracks, s.tracks, tracks, home);
  }

  lemma RetouchKeepsLinks(s: Snapshot, tracks: Tracks)
    requires tracks.Keys == s.tracks.Keys && SameRows(s.tracks, tracks)
    ensures MappingsLinked(s.tracks, s.mappings) ==> MappingsLinked(tracks, s.mappings)
    ensures ReviewsLinked(s.tracks, s.reviews) ==> ReviewsLinked(tracks, s.reviews)
    ensures PlaylistLinked(s.tracks, s.playlist) ==> PlaylistLinked(tracks, s.playlist)
  {
  }

  lemma RetouchKeepsHomes(norm: Norm, tracks0: Tracks, tracks1: Tracks, tracks: Tracks, home: Home)
    requires SameRows(tracks0, tracks1) && HomesHold(norm, tracks0, tracks1, home)
    requires tracks.Keys == tracks1.Keys && SameRows(tracks1, tracks)
    ensures SameRows(tracks0, tracks) && HomesHold(norm, tracks0, tracks, home)
  {
  }

  /** The members that are not the survivor, still in id order. */
  function Losers(members: seq<Candidate>, survivor: Candidate): (losers: seq<Candidate>)
    ensures forall c :: c in losers <==> c in members && c.id != survivor.id
    ensures Ascending(members) ==> Ascending(losers)
  {
    if members == [] then []
    else
      var rest := Losers(members[1..], survivor);
      assert forall c | c in rest :: c in members[1..];
      if members[0].id == survivor.id then rest else [members[0]] + rest
  }

  /** Every row of `ids` belongs to the survivor's group and is still there. */
  ghost predicate MayFold(lib: Library, norm: Norm, s0: Snapshot, survivor: Id, ids: set<Id>)
    reads lib
  {
    survivor in s0.tracks && survivor in lib.tracks && survivor !in ids &&
    forall x | x in ids :: x in s0.tracks && x in lib.tracks && SameGroup(norm, s0.tracks, x, survivor)
  }

  function Without(tracks: Tracks, ids: set<Id>): Tracks {
    tracks - ids
  }

  lemma WithoutOneMore(tracks: Tracks, losers: set<Id>, left: set<Id>, x: Id)
    requires x in left && left <= losers
    ensures Without(tracks, losers - left) - {x} == Without(tracks, losers - (left - {x}))
  {
  }

  lemma WithoutEnds(tracks: Tracks, losers: set<Id>)
    ensures Without(tracks, losers - losers) == tracks
    ensures losers - {} == losers
  {
  }

  /** Fold the losers one after another, in id order. */
  method FoldLosers(
    lib: Library, norm: Norm, survivor: Id, losers: set<Id>, affected: set<Pair>, ghost s0: Snapshot, ghost home: Home)
      returns (touched: set<Pair>, ghost after: Home)
    requires Folding(lib, norm, s0, home, affected) && MayFold(lib, norm, s0, survivor, losers)
    modifies lib
    ensures Folding(lib, norm, s0, after, touched)
    ensures lib.tracks == Without(old(lib.tracks), losers)
  {
    touched, after := affected, home;
    var left := losers;
    WithoutEnds(lib.tracks, losers);
    while left != {}
      invariant left <= losers && Folding(lib, norm, s0, after, touched)
      invariant lib.tracks == Without(old(lib.tracks), losers - left)
      decreases left
    {
      var x := Least(left);
      touched := Absorb(lib, norm, x, survivor, touched, s0, after);
      after := Compose(Redirect(x, survivor), after);
      WithoutOneMore(old(lib.tracks), losers, left, x);
      left := left - {x};
    }
  }

  /** The survivor's metadata after the group is folded. */
  method MergeMetadata(survivor: Candidate, losers: seq<Candidate>, target: string) returns (meta: Meta)
    ensures meta == GroupMeta(survivor, losers, target)
  {
    var merged, origins := survivor.meta, FoldedList(survivor.meta);
    for k := 0 to |losers|
      invariant merged == MergedMeta(survivor.meta, losers[..k])
      invariant origins == Provenance(FoldedList(survivor.meta), losers[..k])
    {
      assert losers[..k + 1][..k] == losers[..k];
      merged := losers[k].meta + merged;
      origins := origins + FoldedList(losers[k].meta) + [losers[k].identifier];
    }
    assert losers[..|losers|] == losers;
    meta := Recorded(merged, origins, target);
  }

  lemma GroupMayFold(lib: Library, norm: Norm, s0: Snapshot, target: string, members: seq<Candidate>)
    requires IsGroup(norm, s0, target, members)
    requires forall c | c in members :: c.id in lib.tracks
    ensures
      var survivor := ChooseSurvivor(members, target);
      MayFold(lib, norm, s0, survivor.id, MemberIds(members) - {survivor.id}) &&
      MemberIds(Losers(members, survivor)) == MemberIds(members) - {survivor.id}
  {
  }

  /** Rows of the group are as they were loaded. */
  ghost predicate Untouched(lib: Library, s0: Snapshot, members: seq<Candidate>)
    reads lib
  {
    forall c | c in members :: c.id in lib.tracks && c.id in s0.tracks && lib.tracks[c.id] == s0.tracks[c.id]
  }

  /** The rename left to phase 2, if the survivor does not carry the key yet. */
  function PendingRename(members: seq<Candidate>, target: string): Option<Rename>
    requires members != []
  {
    var survivor := ChooseSurvivor(members, target);
    if survivor.identifier == target then None
    else Some(Rename(survivor.id, target, GroupMeta(survivor, Losers(members, survivor), target)))
  }

  /** What the survivor's row holds once its group is folded; a renamed one gets its metadata in phase 2. */
  function MetaAfterFold(members: seq<Candidate>, target: string): Meta
    requires members != []
  {
    var survivor := ChooseSurvivor(members, target);
    var losers := Losers(members, survivor);
    if survivor.identifier == target && losers != [] then GroupMeta(survivor, losers, target) else survivor.meta
  }

  /** The rows once one group is folded: only the survivor is left, under its old identifier. */
  ghost predicate GroupFolded(tracks0: Tracks, tracks: Tracks, members: seq<Candidate>, target: string)
    requires members != []
  {
    var survivor := ChooseSurvivor(members, target);
    tracks.Keys == tracks0.Keys - (MemberIds(members) - {survivor.id}) && survivor.id in tracks &&
    (forall t | t in tracks :: t in tracks0 && tracks[t] == tracks0[t].(meta := tracks[t].meta)) &&
    (forall t | t in tracks && t != survivor.id :: tracks[t] == tracks0[t])
  }

  lemma LosersGone(tracks0: Tracks, members: seq<Candidate>, target: string)
    requires members != [] && forall c | c in members :: c.id in tracks0
    ensures
      var survivor := ChooseSurvivor(members, target);
      GroupFolded(tracks0, Without(tracks0, MemberIds(Losers(members, survivor))), members, target)
  {
  }

  lemma MetadataWritten(tracks0: Tracks, tracks: Tracks, members: seq<Candidate>, target: string, meta: Meta)
    requires members != [] && GroupFolded(tracks0, tracks, members, target)
    ensures
      var id := ChooseSurvivor(members, target).id;
      GroupFolded(tracks0, tracks[id := tracks[id].(meta := meta)], members, target)
  {
  }

  lemma MetadataKeepsIdentifiers(tracks: Tracks, id: Id, meta: Meta)
    requires id in tracks && UniqueIdentifiers(tracks) && tracks[id].connector == LASTFM
    ensures UniqueIdentifiers(tracks[id := tracks[id].(meta := meta)])
    ensures SameRows(tracks, tracks[id := tracks[id].(meta := meta)])
  {
    var after := tracks[id := tracks[id].(meta := meta)];
    forall a, b | a in after && b in after && SameIdentifier(after, a, b) ensures a == b {
      assert SameIdentifier(tracks, a, b);
    }
  }

  lemma NoLosersGone(tracks0: Tracks, members: seq<Candidate>, target: string)
    requires members != [] && forall c | c in members :: c.id in tracks0
    requires Losers(members, ChooseSurvivor(members, target)) == []
    ensures GroupFolded(tracks0, tracks0, members, target)
  {
  }

  lemma MetadataKeepsFolding(norm: Norm, s0: Snapshot, s: Snapshot, id: Id, meta: Meta, home: Home, affected: set<Pair>)
    requires FoldingAt(norm, s0, s, home, affected) && id in s.tracks && s.tracks[id].connector == LASTFM
    ensures FoldingAt(norm, s0, s.(tracks := s.tracks[id := s.tracks[id].(meta := meta)]), home, affected)
  {
    MetadataKeepsIdentifiers(s.tracks, id, meta);
    RetouchKeepsFolding(norm, s0, s, s.tracks[id := s.tracks[id].(meta := meta)], home, affected);
  }

  /** Rewriting a row's metadata keeps the invariant. */
  method RecordMeta(lib: Library, norm: Norm, id: Id, meta: Meta, ghost s0: Snapshot, ghost home: Home,
                    ghost affected: set<Pair>)
    requires Folding(lib, norm, s0, home, affected) && id in lib.tracks && lib.tracks[id].connector == LASTFM
    modifies lib
    ensures Folding(lib, norm, s0, home, affected)
    ensures lib.tracks == old(lib.tracks)[id := old(lib.tracks[id]).(meta := meta)]
  {
    ghost var after := Now(lib).(tracks := lib.tracks[id := lib.tracks[id].(meta := meta)]);
    MetadataKeepsFolding(norm, s0, Now(lib), id, meta, home, affected);
    lib.SetMeta(id, meta);
    assert Now(lib) == after;
  }

  /** _fold_group: one group down to its survivor; a lone canonical row is left entirely alone. */
  method FoldGroup(
    lib: Library, norm: Norm, target: string, members: seq<Candidate>, affected: set<Pair>,
    ghost s0: Snapshot, ghost home: Home)
      returns (rename: Option<Rename>, touched: set<Pair>, ghost after: Home)
    requires Folding(lib, norm, s0, home, affected) && IsGroup(norm, s0, target, members) && Untouched(lib, s0, members)
    modifies lib
    ensures Folding(lib, norm, s0, after, touched)
    ensures GroupFolded(old(lib.tracks), lib.tracks, members, target)
    ensures rename == PendingRename(members, target)
    ensures lib.tracks[ChooseSurvivor(members, target).id].meta == MetaAfterFold(members, target)
    ensures |members| == 1 && members[0].identifier == target ==>
      Now(lib) == old(Now(lib)) && touched == affected && after == home
  {
    var survivor := ChooseSurvivor(members, target);
    var losers := Losers(members, survivor);
    GroupMayFold(lib, norm, s0, target, members);
    if losers == [] && survivor.identifier == target {
      rename, touched, after := None, affected, home;
      NoLosersGone(lib.tracks, members, target);
      return;
    }
    LosersGone(lib.tracks, members, target);
    touched, after := FoldLosers(lib, norm, survivor.id, MemberIds(losers), affected, s0, home);
    var meta := MergeMetadata(survivor, losers, target);
    rename := None;
    if survivor.identifier != target {
      rename := Some(Rename(survivor.id, target, meta));
    } else {
      MetadataWritten(old(lib.tracks), lib.tracks, members, target, meta);
      RecordMeta(lib, norm, survivor.id, meta, s0, after, touched);
    }
    SingletonHasNoLosers(members, survivor);
  }

  lemma SingletonHasNoLosers(members: seq<Candidate>, survivor: Candidate)
    requires survivor in members
    ensures |members| == 1 ==> Losers(members, survivor) == []
  {
  }
}
