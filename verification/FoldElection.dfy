/**
 Which row a group ends as, and with what metadata: the elected survivor, with the merged metadata of
 its group and, when a keyless row sat on its key, of that occupant.
 */
module FoldElection {
  import opened Wrappers
  import opened Ids
  import opened FoldTables
  import opened FoldState
  import opened FoldGroups
  import opened FoldRenames

  /** The metadata once an occupant has been absorbed. */
  function AbsorbedMeta(occupant: ConnectorTrack, base: Meta, target: string): Meta {
    Recorded(occupant.meta + base, FoldedList(occupant.meta + base) + [occupant.identifier], target)
  }

  /** The provenance gathered in phase 1 survives the absorption. */
  lemma AbsorptionKeepsProvenance(occupant: ConnectorTrack, base: Meta, target: string)
    ensures forall v | v in FoldedList(base) && v != target :: v in FoldedList(AbsorbedMeta(occupant, base, target))
  {
  }

  /** A row without a key that holds `target`. */
  ghost predicate Sits(norm: Norm, tracks: Tracks, target: string, o: Id) {
    o in tracks && tracks[o].connector == LASTFM && tracks[o].identifier == target && FoldKey(norm, tracks[o]).None?
  }

  /** `meta` is `base`, with the metadata of the keyless row that held the target, if there was one. */
  ghost predicate MetaSettles(norm: Norm, tracks: Tracks, meta: Meta, base: Meta, target: string) {
    if forall o :: !Sits(norm, tracks, target, o) then meta == base
    else exists o :: AbsorbedFrom(norm, tracks, meta, base, target, o)
  }

  ghost predicate AbsorbedFrom(norm: Norm, tracks: Tracks, meta: Meta, base: Meta, target: string, o: Id) {
    Sits(norm, tracks, target, o) && meta == AbsorbedMeta(tracks[o], base, target)
  }

  /** The metadata a group comes to, before any occupant. */
  function GroupBase(members: seq<Candidate>, target: string): Meta
    requires members != []
  {
    match PendingRename(members, target)
    case None => MetaAfterFold(members, target)
    case Some(r) => r.meta
  }

  /** The group is down to its elected survivor, with the metadata of the whole group. */
  ghost predicate IsElected(norm: Norm, s0: Snapshot, tracks: Tracks, members: seq<Candidate>, target: string) {
    members != [] &&
    var id := ChooseSurvivor(members, target).id;
    id in tracks && FoldKey(norm, tracks[id]) == Some(target) &&
    MetaSettles(norm, s0.tracks, tracks[id].meta, GroupBase(members, target), target)
  }

  ghost predicate AllElected(norm: Norm, s0: Snapshot, tracks: Tracks, groups: Groups) {
    forall target | target in groups :: IsElected(norm, s0, tracks, groups[target], target)
  }

  // ------------------------------------------------------------ on the way

  /** The survivor is there; unless its rename is still to come it is settled. */
  ghost predicate OnItsWay(norm: Norm, s0: Snapshot, tracks: Tracks, members: seq<Candidate>, target: string,
                           waiting: seq<Rename>) {
    members != [] &&
    var id := ChooseSurvivor(members, target).id;
    id in tracks && FoldKey(norm, tracks[id]) == Some(target) &&
    ((exists r | r in waiting :: PendingRename(members, target) == Some(r)) ||
     MetaSettles(norm, s0.tracks, tracks[id].meta, GroupBase(members, target), target))
  }

  /** Each deferred rename is the one its group asked for, and comes once. */
  ghost predicate RenamesAsked(groups: Groups, renames: seq<Rename>) {
    (forall r | r in renames :: r.target in groups && groups[r.target] != [] &&
      PendingRename(groups[r.target], r.target) == Some(r)) &&
    (forall i, j | 0 <= i < j < |renames| :: renames[i].id != renames[j].id)
  }

  ghost predicate KeylessKept(norm: Norm, s0: Snapshot, tracks: Tracks) {
    forall t | t in tracks && FoldKey(norm, tracks[t]).None? :: t in s0.tracks && tracks[t] == s0.tracks[t]
  }

  ghost predicate IsSpent(done: seq<Rename>, identifier: string) {
    exists r | r in done :: r.target == identifier
  }

  /** A row without a key is there until the rename to its identifier has been done. */
  ghost predicate KeylessWait(norm: Norm, s0: Snapshot, tracks: Tracks, done: seq<Rename>) {
    forall o | o in s0.tracks && FoldKey(norm, s0.tracks[o]).None? ::
      o in tracks || IsSpent(done, s0.tracks[o].identifier)
  }

  ghost predicate Electing(norm: Norm, s0: Snapshot, tracks: Tracks, groups: Groups, done: set<string>,
                           renames: seq<Rename>, k: nat) {
    k <= |renames| && RenamesAsked(groups, renames) && KeylessKept(norm, s0, tracks) &&
    KeylessWait(norm, s0, tracks, renames[..k]) &&
    forall target | target in done ::
      target in groups && OnItsWay(norm, s0, tracks, groups[target], target, renames[k..])
  }

  lemma ElectionStarts(norm: Norm, s0: Snapshot, groups: Groups)
    ensures Electing(norm, s0, s0.tracks, groups, {}, [], 0)
  {
  }

  /** A rename the group asks for names its survivor and its target. */
  lemma RenameIsOfSurvivor(members: seq<Candidate>, target: string, r: Rename)
    requires members != [] && PendingRename(members, target) == Some(r)
    ensures r.id == ChooseSurvivor(members, target).id && r.target == target && r.meta == GroupBase(members, target)
  {
  }

  lemma SurvivorIsKeyed(norm: Norm, s0: Snapshot, members: seq<Candidate>, target: string)
    requires IsGroup(norm, s0, target, members)
    ensures var id := ChooseSurvivor(members, target).id;
      id in s0.tracks && FoldKey(norm, s0.tracks[id]) == Some(target)
  {
  }

  /** Folding one more group elects its survivor and disturbs no other. */
  lemma GroupElects(norm: Norm, s0: Snapshot, tracks: Tracks, after: Tracks, groups: Groups, done: set<string>,
                    renames: seq<Rename>, target: string)
    requires Electing(norm, s0, tracks, groups, done, renames, 0) && target in groups && target !in done
    requires SameRows(s0.tracks, tracks) && IsGroup(norm, s0, target, groups[target]) && UniqueIdentifiers(s0.tracks)
    requires forall r | r in renames :: r.target in done
    requires GroupFolded(tracks, after, groups[target], target)
    requires after[ChooseSurvivor(groups[target], target).id].meta == MetaAfterFold(groups[target], target)
    ensures Electing(norm, s0, after, groups, done + {target},
                     WithRename(renames, PendingRename(groups[target], target)), 0)
  {
    hide OnItsWay, RenamesAsked, KeylessKept, PendingRename, MetaAfterFold, IsGroup, GroupFolded, SameRows, WithRename,
         KeylessWait, UniqueIdentifiers;
    var members := groups[target];
    var more := WithRename(renames, PendingRename(members, target));
    assert renames <= more by { RenamesGrow(renames, PendingRename(members, target)); }
    assert members != [] by { SurvivorIsKeyed(norm, s0, members, target); }
    forall t | t in done
      ensures OnItsWay(norm, s0, after, groups[t], t, more[0..])
      ensures groups[t] != [] && ChooseSurvivor(groups[t], t).id != ChooseSurvivor(members, target).id
    {
      OtherGroupStays(norm, s0, tracks, after, groups[t], t, members, target, renames, more);
    }
    GroupAsks(groups, done, renames, target);
    GroupIsOnItsWay(norm, s0, tracks, after, members, target, renames);
    KeylessStay(norm, s0, tracks, after, members, target);
    assert renames[..0] == [] == more[..0];
  }

  lemma RenamesGrow(renames: seq<Rename>, rename: Option<Rename>)
    ensures renames <= WithRename(renames, rename)
    ensures rename.Some? ==> rename.value in WithRename(renames, rename)[0..]
  {
    if rename.Some? {
      assert WithRename(renames, rename)[0..][|renames|] == rename.value;
    }
  }

  lemma GroupIsOnItsWay(norm: Norm, s0: Snapshot, tracks: Tracks, after: Tracks, members: seq<Candidate>,
                        target: string, renames: seq<Rename>)
    requires SameRows(s0.tracks, tracks) && IsGroup(norm, s0, target, members) && UniqueIdentifiers(s0.tracks)
    requires GroupFolded(tracks, after, members, target)
    requires after[ChooseSurvivor(members, target).id].meta == MetaAfterFold(members, target)
    ensures OnItsWay(norm, s0, after, members, target, WithRename(renames, PendingRename(members, target))[0..])
  {
    hide PendingRename, MetaAfterFold, CandidateOf, GroupBase, FoldKey, UniqueIdentifiers;
    var id, rename := ChooseSurvivor(members, target).id, PendingRename(members, target);
    SurvivorIsKeyed(norm, s0, members, target);
    KeyStays(norm, s0.tracks[id], after[id]);
    RenamesGrow(renames, rename);
    if rename == None {
      BaseWithoutRename(members, target);
      NobodySits(norm, s0, members, target);
    }
  }

  /** A group whose survivor holds its key already leaves no room for a keyless row there. */
  lemma NobodySits(norm: Norm, s0: Snapshot, members: seq<Candidate>, target: string)
    requires IsGroup(norm, s0, target, members) && UniqueIdentifiers(s0.tracks)
    requires PendingRename(members, target) == None
    ensures forall o :: !Sits(norm, s0.tracks, target, o)
  {
    var id := ChooseSurvivor(members, target).id;
    SurvivorIsKeyed(norm, s0, members, target);
    forall o ensures !Sits(norm, s0.tracks, target, o) {
      if Sits(norm, s0.tracks, target, o) {
        assert SameIdentifier(s0.tracks, o, id);
      }
    }
  }

  lemma KeylessStay(norm: Norm, s0: Snapshot, tracks: Tracks, after: Tracks, members: seq<Candidate>, target: string)
    requires KeylessKept(norm, s0, tracks) && SameRows(s0.tracks, tracks) && IsGroup(norm, s0, target, members)
    requires GroupFolded(tracks, after, members, target) && KeylessWait(norm, s0, tracks, [])
    ensures KeylessKept(norm, s0, after) && KeylessWait(norm, s0, after, [])
  {
    hide CandidateOf;
    var id := ChooseSurvivor(members, target).id;
    SurvivorIsKeyed(norm, s0, members, target);
    KeyStays(norm, s0.tracks[id], after[id]);
  }

  /** The key of a row does not depend on its identifier or metadata. */
  lemma KeyStays(norm: Norm, a: ConnectorTrack, b: ConnectorTrack)
    requires b == a.(identifier := b.identifier, meta := b.meta)
    ensures FoldKey(norm, b) == FoldKey(norm, a)
  {
  }

  lemma BaseWithoutRename(members: seq<Candidate>, target: string)
    requires members != [] && PendingRename(members, target) == None
    ensures GroupBase(members, target) == MetaAfterFold(members, target)
  {
  }

  lemma GroupAsks(groups: Groups, done: set<string>, renames: seq<Rename>, target: string)
    requires RenamesAsked(groups, renames) && (forall r | r in renames :: r.target in done)
    requires target in groups && target !in done && groups[target] != []
    requires forall t | t in done ::
      t in groups && groups[t] != [] && ChooseSurvivor(groups[t], t).id != ChooseSurvivor(groups[target], target).id
    ensures RenamesAsked(groups, WithRename(renames, PendingRename(groups[target], target)))
  {
    var rename := PendingRename(groups[target], target);
    if rename.Some? {
      RenameIsOfSurvivor(groups[target], target, rename.value);
      forall r | r in renames ensures r.id != rename.value.id {
        RenameIsOfSurvivor(groups[r.target], r.target, r);
      }
    }
  }

  lemma OtherGroupStays(norm: Norm, s0: Snapshot, tracks: Tracks, after: Tracks, others: seq<Candidate>, t: string,
                        members: seq<Candidate>, target: string, renames: seq<Rename>, more: seq<Rename>)
    requires OnItsWay(norm, s0, tracks, others, t, renames[0..]) && t != target && IsGroup(norm, s0, target, members)
    requires SameRows(s0.tracks, tracks) && GroupFolded(tracks, after, members, target) && renames <= more
    ensures OnItsWay(norm, s0, after, others, t, more[0..])
    ensures others != [] && ChooseSurvivor(others, t).id != ChooseSurvivor(members, target).id
  {
    hide GroupBase, MetaSettles, CandidateOf;
    var id := ChooseSurvivor(others, t).id;
    assert FoldKey(norm, s0.tracks[id]) == Some(t);
    assert id !in MemberIds(members);
    assert after[id] == tracks[id];
    if r :| r in renames[0..] && PendingRename(others, t) == Some(r) {
      assert r in more[0..];
    }
  }

  /** Parking changes identifiers of keyed rows only. */
  lemma ParkingElects(norm: Norm, s0: Snapshot, tracks: Tracks, groups: Groups, done: set<string>, renames: seq<Rename>)
    requires Electing(norm, s0, tracks, groups, done, renames, 0) && RenamesFit(norm, tracks, renames, done)
    ensures Electing(norm, s0, ParkRows(tracks, RenamedIds(renames)), groups, done, renames, 0)
  {
    hide GroupBase, MetaSettles, PendingRename, IsSpent;
    var parked := ParkRows(tracks, RenamedIds(renames));
    forall target | target in done ensures OnItsWay(norm, s0, parked, groups[target], target, renames[0..]) {
      assert OnItsWay(norm, s0, tracks, groups[target], target, renames[0..]);
    }
  }

  /** What one rename leaves as metadata. */
  ghost predicate MetaAssigned(norm: Norm, tracks: Tracks, after: Tracks, r: Rename) {
    r.id in after && MetaSettles(norm, tracks, after[r.id].meta, r.meta, r.target)
  }

  /** One rename settles its own group and disturbs no other. */
  lemma AssignmentElects(norm: Norm, s0: Snapshot, tracks: Tracks, after: Tracks, groups: Groups, done: set<string>,
                         renames: seq<Rename>, k: nat)
    requires k < |renames| && Electing(norm, s0, tracks, groups, done, renames, k)
    requires Phase2(norm, s0, tracks, renames, k) && Assigned(tracks, after, renames[k])
    requires MetaAssigned(norm, tracks, after, renames[k])
    ensures Electing(norm, s0, after, groups, done, renames, k + 1)
  {
    hide Phase2, GroupBase, MetaSettles, PendingRename, FoldKey, KeylessWait;
    var r := renames[k];
    assert FoldKey(norm, tracks[r.id]) == Some(r.target) && SameRows(s0.tracks, tracks) by {
      RenamedRowIsKeyed(norm, s0, tracks, renames, k);
    }
    hide SameRows;
    KeyStays(norm, tracks[r.id], after[r.id]);
    forall target | target in done ensures OnItsWay(norm, s0, after, groups[target], target, renames[k + 1..]) {
      assert OnItsWay(norm, s0, tracks, groups[target], target, renames[k..]);
      var id := ChooseSurvivor(groups[target], target).id;
      KeyedRowsStay(norm, s0, tracks, after, renames, k, id);
      assert r in renames;
      RenameIsOfSurvivor(groups[r.target], r.target, r);
      if target == r.target {
        TargetIsFresh(groups, renames, k);
        SettlesFromStart(norm, s0, tracks, after[r.id].meta, r.meta, target, renames[..k]);
      } else {
        assert id != r.id;
        OtherStillWaits(groups, renames, k, target);
      }
    }
    forall t | t in after && FoldKey(norm, after[t]).None? ensures t in s0.tracks && after[t] == s0.tracks[t] {
      assert t != r.id;
    }
    OneMoreIsSpent(norm, s0, tracks, after, renames, k);
  }

  /** Only the row on the target goes, and its identifier is spent. */
  lemma OneMoreIsSpent(norm: Norm, s0: Snapshot, tracks: Tracks, after: Tracks, renames: seq<Rename>, k: nat)
    requires k < |renames| && KeylessKept(norm, s0, tracks) && KeylessWait(norm, s0, tracks, renames[..k])
    requires SameRows(s0.tracks, tracks) && Assigned(tracks, after, renames[k])
    ensures KeylessWait(norm, s0, after, renames[..k + 1])
  {
    assert renames[..k + 1] == renames[..k] + [renames[k]];
    assert renames[k] in renames[..k + 1];
    forall o | o in s0.tracks && FoldKey(norm, s0.tracks[o]).None? && o !in after
      ensures IsSpent(renames[..k + 1], s0.tracks[o].identifier)
    {
      if o in tracks {
        assert Occupies(tracks, renames[k].target, renames[k].id, o);
      }
    }
  }

  /** No two renames have the same target. */
  lemma TargetIsFresh(groups: Groups, renames: seq<Rename>, k: nat)
    requires k < |renames| && RenamesAsked(groups, renames)
    ensures !IsSpent(renames[..k], renames[k].target)
  {
    forall r | r in renames[..k] ensures r.target != renames[k].target {
      assert renames[k] in renames && r in renames;
      RenameIsOfSurvivor(groups[r.target], r.target, r);
      RenameIsOfSurvivor(groups[renames[k].target], renames[k].target, renames[k]);
    }
  }

  lemma RenamedRowIsKeyed(norm: Norm, s0: Snapshot, tracks: Tracks, renames: seq<Rename>, k: nat)
    requires k < |renames| && Phase2(norm, s0, tracks, renames, k)
    ensures renames[k].id in tracks && FoldKey(norm, tracks[renames[k].id]) == Some(renames[k].target)
    ensures SameRows(s0.tracks, tracks)
  {
  }

  /** An occupant is there from the start, as it was, so what it gave is what it held then. */
  lemma SettlesFromStart(norm: Norm, s0: Snapshot, tracks: Tracks, meta: Meta, base: Meta, target: string,
                         done: seq<Rename>)
    requires KeylessKept(norm, s0, tracks) && MetaSettles(norm, tracks, meta, base, target)
    requires SameRows(s0.tracks, tracks) && KeylessWait(norm, s0, tracks, done) && !IsSpent(done, target)
    ensures MetaSettles(norm, s0.tracks, meta, base, target)
  {
    forall o ensures Sits(norm, s0.tracks, target, o) <==> Sits(norm, tracks, target, o) {
    }
    if o :| AbsorbedFrom(norm, tracks, meta, base, target, o) {
      assert AbsorbedFrom(norm, s0.tracks, meta, base, target, o);
    }
  }

  lemma OtherStillWaits(groups: Groups, renames: seq<Rename>, k: nat, target: string)
    requires k < |renames| && RenamesAsked(groups, renames) && target in groups && groups[target] != []
    requires target != renames[k].target
    ensures forall r | r in renames[k..] && PendingRename(groups[target], target) == Some(r) :: r in renames[k + 1..]
  {
    forall r | r in renames[k..] && PendingRename(groups[target], target) == Some(r) ensures r in renames[k + 1..] {
      RenameIsOfSurvivor(groups[target], target, r);
      var i :| k <= i < |renames| && renames[i] == r;
      assert i != k && renames[k + 1..][i - k - 1] == r;
    }
  }

  /** A row without a key is there as it was, or its identifier is the key of a group. */
  ghost predicate KeylessSettled(norm: Norm, s0: Snapshot, tracks: Tracks, groups: Groups) {
    KeylessKept(norm, s0, tracks) &&
    forall x | x in s0.tracks && FoldKey(norm, s0.tracks[x]).None? :: x in tracks || s0.tracks[x].identifier in groups
  }

  lemma ElectionEnds(norm: Norm, s0: Snapshot, tracks: Tracks, groups: Groups, renames: seq<Rename>)
    requires Electing(norm, s0, tracks, groups, groups.Keys, renames, |renames|)
    ensures AllElected(norm, s0, tracks, groups) && KeylessSettled(norm, s0, tracks, groups)
  {
    assert renames[..|renames|] == renames;
    forall target | target in groups ensures IsElected(norm, s0, tracks, groups[target], target) {
      assert OnItsWay(norm, s0, tracks, groups[target], target, renames[|renames|..]);
    }
  }

  /** What its group folds, and all that the group had on record, is on record in an elected row. */
  lemma ElectedKeepsProvenance(norm: Norm, s0: Snapshot, tracks: Tracks, members: seq<Candidate>, target: string,
                               v: string)
    requires IsElected(norm, s0, tracks, members, target) && v != target
    requires v in FoldedList(ChooseSurvivor(members, target).meta) ||
      exists c | c in members :: c.id != ChooseSurvivor(members, target).id &&
        (c.identifier == v || v in FoldedList(c.meta))
    ensures v in FoldedList(tracks[ChooseSurvivor(members, target).id].meta)
  {
    var survivor := ChooseSurvivor(members, target);
    var losers, meta := Losers(members, survivor), tracks[survivor.id].meta;
    if v !in FoldedList(survivor.meta) {
      var c :| c in members && c.id != survivor.id && (c.identifier == v || v in FoldedList(c.meta));
      assert c in losers;
    }
    assert OnRecord(survivor, losers, target, v);
    GroupMetaKeepsProvenance(survivor, losers, target);
    if meta != GroupBase(members, target) {
      var o :| AbsorbedFrom(norm, s0.tracks, meta, GroupBase(members, target), target, o);
      AbsorptionKeepsProvenance(s0.tracks[o], GroupBase(members, target), target);
    }
  }
}
