/** upgrade() of alembic/versions/035_lastfm_identifier_fold.py, and what it leaves behind. */
module LastfmFold {
  import opened Wrappers
  import opened Ids
  import opened Relocation
  import opened FoldTables
  import opened FoldState
  import opened FoldGroups
  import opened FoldRenames
  import opened FoldElection
  import opened FoldPrimaries
  import opened FoldOutcome

  // ------------------------------------------------------------ phase 1

  lemma Phase1Start(norm: Norm, s0: Snapshot)
    ensures Phase1(norm, s0, s0.tracks, {}, [])
  {
  }

  lemma FoldingStart(norm: Norm, s0: Snapshot)
    requires Legal(s0)
    ensures FoldingAt(norm, s0, s0, map[], {})
  {
    StartIsFolded(norm, s0);
  }

  /** On canonical rows every group is a lone row that carries its key. */
  lemma CanonicalGroupIsSingle(norm: Norm, s0: Snapshot, target: string, members: seq<Candidate>)
    requires Canonical(norm, s0.tracks) && UniqueIdentifiers(s0.tracks) && IsGroup(norm, s0, target, members)
    ensures |members| == 1 && members[0].identifier == target && PendingRename(members, target) == None
  {
    if |members| > 1 {
      assert members[0] in members && members[1] in members && members[0].id.n < members[1].id.n;
      assert SameIdentifier(s0.tracks, members[0].id, members[1].id);
      assert false;
    }
    assert members[0] in members;
  }

  lemma GroupIsUntouched(lib: Library, norm: Norm, s0: Snapshot, done: set<string>, renames: seq<Rename>,
                         target: string, members: seq<Candidate>)
    requires Phase1(norm, s0, lib.tracks, done, renames) && target !in done && IsGroup(norm, s0, target, members)
    ensures members != [] && Untouched(lib, s0, members)
  {
    forall c | c in members ensures c.id in lib.tracks && lib.tracks[c.id] == s0.tracks[c.id] {
      assert Pending(norm, s0.tracks[c.id], done);
    }
  }

  /** Phase 1: fold every group, in whatever order, collecting the renames. */
  method FoldAllGroups(lib: Library, norm: Norm, ghost s0: Snapshot, groups: Groups)
      returns (renames: seq<Rename>, affected: set<Pair>, ghost home: Home)
    requires Legal(s0) && Now(lib) == s0 && AreGroups(norm, s0, groups)
    modifies lib
    ensures Folding(lib, norm, s0, home, affected)
    ensures Phase1(norm, s0, lib.tracks, groups.Keys, renames)
    ensures Electing(norm, s0, lib.tracks, groups, groups.Keys, renames, 0)
    ensures Canonical(norm, s0.tracks) ==> Now(lib) == s0 && renames == [] && affected == {}
  {
    hide Phase1, Electing, FoldingAt, IsGroup;
    renames, affected, home := [], {}, map[];
    var left := groups.Keys;
    FoldingStart(norm, s0);
    Phase1Start(norm, s0);
    ElectionStarts(norm, s0, groups);
    assert groups.Keys - left == {};
    while left != {}
      invariant left <= groups.Keys && Folding(lib, norm, s0, home, affected)
      invariant Phase1(norm, s0, lib.tracks, groups.Keys - left, renames)
      invariant Electing(norm, s0, lib.tracks, groups, groups.Keys - left, renames, 0)
      invariant Canonical(norm, s0.tracks) ==> Now(lib) == s0 && renames == [] && affected == {}
      decreases left
    {
      var target :| target in left;
      OneGroupFewer(groups.Keys, left, target);
      renames, affected, home :=
        FoldNextGroup(lib, norm, s0, groups, target, groups.Keys - left, renames, affected, home);
      OneGroupFewer(groups.Keys, left, target);
      left := left - {target};
    }
    AllGroupsDone(groups.Keys, left);
  }

  lemma OneGroupFewer(all: set<string>, left: set<string>, target: string)
    requires target in left && left <= all
    ensures all - (left - {target}) == all - left + {target} && target !in all - left
    ensures left - {target} < left
  {
  }

  lemma AllGroupsDone(all: set<string>, left: set<string>)
    requires left == {}
    ensures all - left == all
  {
  }

  method FoldNextGroup(
    lib: Library, norm: Norm, ghost s0: Snapshot, groups: Groups, target: string, ghost done: set<string>,
    renames: seq<Rename>, affected: set<Pair>, ghost home: Home)
      returns (more: seq<Rename>, touched: set<Pair>, ghost after: Home)
    requires Folding(lib, norm, s0, home, affected) && Phase1(norm, s0, lib.tracks, done, renames)
    requires Electing(norm, s0, lib.tracks, groups, done, renames, 0)
    requires target !in done && target in groups && IsGroup(norm, s0, target, groups[target])
    requires UniqueIdentifiers(s0.tracks)
    modifies lib
    ensures Folding(lib, norm, s0, after, touched)
    ensures Phase1(norm, s0, lib.tracks, done + {target}, more)
    ensures Electing(norm, s0, lib.tracks, groups, done + {target}, more, 0)
    ensures Canonical(norm, s0.tracks) ==> Now(lib) == old(Now(lib)) && more == renames && touched == affected
  {
    hide *;
    GroupIsUntouched(lib, norm, s0, done, renames, target, groups[target]);
    ghost var tracks := lib.tracks;
    var rename;
    rename, touched, after := FoldGroup(lib, norm, target, groups[target], affected, s0, home);
    GroupIsDone(norm, s0, tracks, lib.tracks, groups, done, renames, target);
    more := WithRename(renames, rename);
    CanonicalGroupStays(norm, s0, target, groups[target], renames);
  }

  /** One group more, for both pictures. */
  lemma GroupIsDone(norm: Norm, s0: Snapshot, tracks: Tracks, after: Tracks, groups: Groups, done: set<string>,
                    renames: seq<Rename>, target: string)
    requires Phase1(norm, s0, tracks, done, renames) && Electing(norm, s0, tracks, groups, done, renames, 0)
    requires target !in done && target in groups && groups[target] != [] && IsGroup(norm, s0, target, groups[target])
    requires UniqueIdentifiers(s0.tracks)
    requires GroupFolded(tracks, after, groups[target], target)
    requires after[ChooseSurvivor(groups[target], target).id].meta == MetaAfterFold(groups[target], target)
    ensures var more := WithRename(renames, PendingRename(groups[target], target));
      Phase1(norm, s0, after, done + {target}, more) && Electing(norm, s0, after, groups, done + {target}, more, 0)
  {
    hide Electing, PendingRename, MetaAfterFold, WithRename;
    Phase1RenamesAreDone(norm, s0, tracks, done, renames);
    Phase1Step(norm, s0, tracks, after, done, target, groups[target], renames);
    GroupElects(norm, s0, tracks, after, groups, done, renames, target);
  }

  lemma CanonicalGroupStays(norm: Norm, s0: Snapshot, target: string, members: seq<Candidate>, renames: seq<Rename>)
    requires IsGroup(norm, s0, target, members) && UniqueIdentifiers(s0.tracks) && members != []
    ensures Canonical(norm, s0.tracks) ==>
      |members| == 1 && members[0].identifier == target &&
        WithRename(renames, PendingRename(members, target)) == renames
  {
    if Canonical(norm, s0.tracks) {
      CanonicalGroupIsSingle(norm, s0, target, members);
    }
  }

  lemma Phase1RenamesAreDone(norm: Norm, s0: Snapshot, tracks: Tracks, done: set<string>, renames: seq<Rename>)
    requires Phase1(norm, s0, tracks, done, renames)
    ensures SameRows(s0.tracks, tracks) && RenamesFit(norm, tracks, renames, done)
    ensures forall r | r in renames :: r.target in done
  {
  }

  // ------------------------------------------------------------ phase 2, parking

  lemma ParkOneMore(tracks: Tracks, ids: set<Id>, id: Id)
    requires id in tracks
    ensures var now := ParkRows(tracks, ids);
      ParkRows(tracks, ids + {id}) == now[id := now[id].(identifier := Tmp(id))]
  {
  }

  lemma RenamedIdsGrow(renames: seq<Rename>, k: nat)
    requires k < |renames|
    ensures RenamedIds(renames[..k + 1]) == RenamedIds(renames[..k]) + {renames[k].id}
  {
  }

  ghost predicate MayPark(tracks: Tracks, renames: seq<Rename>) {
    UniqueIdentifiers(tracks) && NoTemporaries(tracks) &&
    forall r | r in renames :: r.id in tracks && tracks[r.id].connector == LASTFM
  }

  lemma ParkStep(tracks: Tracks, renames: seq<Rename>, k: nat)
    requires MayPark(tracks, renames) && k < |renames|
    ensures
      var now, next := ParkRows(tracks, RenamedIds(renames[..k])), ParkRows(tracks, RenamedIds(renames[..k + 1]));
      renames[k].id in now && next == now[renames[k].id := now[renames[k].id].(identifier := Tmp(renames[k].id))] &&
      UniqueIdentifiers(next)
  {
    assert renames[k] in renames;
    RenamedIdsGrow(renames, k);
    ParkOneMore(tracks, RenamedIds(renames[..k]), renames[k].id);
    forall t | t in RenamedIds(renames[..k + 1]) && t in tracks ensures tracks[t].connector == LASTFM {
      var r :| r in renames[..k + 1] && r.id == t;
      assert r in renames;
    }
    ParkingStaysUnique(tracks, RenamedIds(renames[..k + 1]));
  }

  /** Park every row to be renamed at its temporary identifier; no statement meets a stored identifier. */
  method ParkAll(lib: Library, renames: seq<Rename>)
    requires MayPark(lib.tracks, renames)
    modifies lib`tracks
    ensures lib.tracks == ParkRows(old(lib.tracks), RenamedIds(renames)) && UniqueIdentifiers(lib.tracks)
  {
    assert ParkRows(lib.tracks, RenamedIds(renames[..0])) == lib.tracks;
    for k := 0 to |renames|
      invariant lib.tracks == ParkRows(old(lib.tracks), RenamedIds(renames[..k])) && UniqueIdentifiers(lib.tracks)
    {
      ParkStep(old(lib.tracks), renames, k);
      lib.SetIdentifier(renames[k].id, Tmp(renames[k].id));
    }
    assert renames[..|renames|] == renames;
  }

  lemma Phase1MayPark(norm: Norm, s0: Snapshot, tracks: Tracks, done: set<string>, renames: seq<Rename>)
    requires Phase1(norm, s0, tracks, done, renames) && UniqueIdentifiers(tracks) && NoTemporaries(s0.tracks)
    ensures MayPark(tracks, renames)
    ensures SameRows(tracks, ParkRows(tracks, RenamedIds(renames)))
  {
  }

  // ------------------------------------------------------------ phase 2, assigning

  lemma SoleOccupant(tracks: Tracks, target: string, survivor: Id, o: Id)
    requires UniqueIdentifiers(tracks) && Occupies(tracks, target, survivor, o)
    ensures (set t | t in tracks && !Occupies(tracks, target, survivor, t)) == tracks.Keys - {o}
  {
    forall t | t in tracks && Occupies(tracks, target, survivor, t) ensures t == o {
      assert SameIdentifier(tracks, t, o);
    }
  }

  /** The rows once a survivor has its key and its metadata. */
  function Finished(tracks: Tracks, r: Rename, meta: Meta): Tracks
    requires r.id in tracks
  {
    tracks[r.id := tracks[r.id].(identifier := r.target, meta := meta)]
  }

  /** With nothing on the target the rename is accepted. */
  lemma PlainAssignment(norm: Norm, tracks: Tracks, r: Rename)
    requires r.id in tracks && tracks[r.id].connector == LASTFM && UniqueIdentifiers(tracks)
    requires FoldKey(norm, tracks[r.id]).Some?
    requires (set o | o in tracks && Occupies(tracks, r.target, r.id, o)) == {}
    ensures Assigned(tracks, Finished(tracks, r, r.meta), r) && UniqueIdentifiers(Finished(tracks, r, r.meta))
    ensures MetaAssigned(norm, tracks, Finished(tracks, r, r.meta), r)
  {
    hide UniqueIdentifiers;
    var occupants := set o | o in tracks && Occupies(tracks, r.target, r.id, o);
    assert forall t | t in tracks :: Occupies(tracks, r.target, r.id, t) ==> t in occupants;
    assert (set t | t in tracks && !Occupies(tracks, r.target, r.id, t)) == tracks.Keys;
    AssignedStaysUnique(tracks, Finished(tracks, r, r.meta), r);
  }

  /** With the occupant gone it is, too. */
  lemma AbsorbingAssignment(norm: Norm, tracks: Tracks, r: Rename, o: Id)
    requires r.id in tracks && tracks[r.id].connector == LASTFM && UniqueIdentifiers(tracks)
    requires Occupies(tracks, r.target, r.id, o) && FoldKey(norm, tracks[o]).None?
    ensures var meta := AbsorbedMeta(tracks[o], r.meta, r.target);
      r.id in tracks - {o} &&
      Assigned(tracks, Finished(tracks - {o}, r, meta), r) && UniqueIdentifiers(Finished(tracks - {o}, r, meta)) &&
      MetaAssigned(norm, tracks, Finished(tracks - {o}, r, meta), r)
  {
    hide UniqueIdentifiers, AbsorbedMeta;
    var meta := AbsorbedMeta(tracks[o], r.meta, r.target);
    SoleOccupant(tracks, r.target, r.id, o);
    AssignedStaysUnique(tracks, Finished(tracks - {o}, r, meta), r);
    assert AbsorbedFrom(norm, tracks, meta, r.meta, r.target, o);
  }

  lemma FinishedKeepsRows(tracks: Tracks, r: Rename, meta: Meta)
    requires r.id in tracks && tracks[r.id].connector == LASTFM
    ensures Finished(tracks, r, meta).Keys == tracks.Keys && SameRows(tracks, Finished(tracks, r, meta))
  {
  }

  /** The UPDATE that gives a survivor its key and its metadata. */
  method AssignFinal(lib: Library, norm: Norm, r: Rename, meta: Meta, ghost s0: Snapshot, ghost home: Home,
                     ghost affected: set<Pair>)
    requires Folding(lib, norm, s0, home, affected) && r.id in lib.tracks && lib.tracks[r.id].connector == LASTFM
    requires UniqueIdentifiers(Finished(lib.tracks, r, meta))
    modifies lib
    ensures Folding(lib, norm, s0, home, affected)
    ensures lib.tracks == Finished(old(lib.tracks), r, meta)
  {
    hide FoldingAt, UniqueIdentifiers, SameRows;
    ghost var before := Now(lib);
    FinishedKeepsRows(lib.tracks, r, meta);
    RetouchKeepsFolding(norm, s0, before, Finished(lib.tracks, r, meta), home, affected);
    lib.Rename(r.id, r.target, meta);
    assert Now(lib) == before.(tracks := Finished(before.tracks, r, meta));
  }

  /** One deferred rename: absorb whatever row still sits on the target, then assign it. */
  method AssignOne(
    lib: Library, norm: Norm, renames: seq<Rename>, k: nat, affected: set<Pair>, ghost s0: Snapshot, ghost home: Home)
      returns (touched: set<Pair>, ghost after: Home)
    requires k < |renames| && Folding(lib, norm, s0, home, affected) && Phase2(norm, s0, lib.tracks, renames, k)
    modifies lib
    ensures Folding(lib, norm, s0, after, touched) && Phase2(norm, s0, lib.tracks, renames, k + 1)
    ensures Assigned(old(lib.tracks), lib.tracks, renames[k])
    ensures MetaAssigned(norm, old(lib.tracks), lib.tracks, renames[k])
  {
    hide *;
    var r := renames[k];
    ghost var tracks := lib.tracks;
    touched, after := affected, home;
    IdentifiersAreUnique(lib, norm, s0, home, affected);
    RenamedRowIsThere(norm, s0, tracks, renames, k);
    var occupants := set o | o in lib.tracks && Occupies(lib.tracks, r.target, r.id, o);
    if occupants == {} {
      PlainAssignment(norm, tracks, r);
      AssignFinal(lib, norm, r, r.meta, s0, home, affected);
    } else {
      var o := Least(occupants);
      LeastIsIn(occupants);
      var meta := AbsorbedMeta(lib.tracks[o], r.meta, r.target);
      OccupantMayBeAbsorbed(norm, s0, tracks, renames, k, o);
      AbsorbingAssignment(norm, tracks, r, o);
      touched := Absorb(lib, norm, o, r.id, affected, s0, home);
      after := Compose(Redirect(o, r.id), home);
      AssignFinal(lib, norm, r, meta, s0, after, touched);
    }
    Phase2Step(norm, s0, tracks, lib.tracks, renames, k);
  }

  lemma IdentifiersAreUnique(lib: Library, norm: Norm, s0: Snapshot, home: Home, affected: set<Pair>)
    requires Folding(lib, norm, s0, home, affected)
    ensures UniqueIdentifiers(lib.tracks)
  {
  }

  lemma LeastIsIn(ids: set<Id>)
    requires ids != {}
    ensures Least(ids) in ids
  {
  }

  lemma RenamedRowIsThere(norm: Norm, s0: Snapshot, tracks: Tracks, renames: seq<Rename>, k: nat)
    requires k < |renames| && Phase2(norm, s0, tracks, renames, k)
    ensures renames[k].id in tracks && tracks[renames[k].id].connector == LASTFM
    ensures FoldKey(norm, tracks[renames[k].id]).Some?
  {
    assert FoldKey(norm, tracks[renames[k].id]) == Some(renames[k].target);
  }

  /** What absorbing an occupant demands of it. */
  lemma OccupantMayBeAbsorbed(norm: Norm, s0: Snapshot, tracks: Tracks, renames: seq<Rename>, k: nat, o: Id)
    requires k < |renames| && Phase2(norm, s0, tracks, renames, k)
    requires Occupies(tracks, renames[k].target, renames[k].id, o)
    ensures o in tracks && o != renames[k].id && FoldKey(norm, tracks[o]).None?
    ensures renames[k].id in tracks && o in s0.tracks && renames[k].id in s0.tracks
    ensures SameGroup(norm, s0.tracks, o, renames[k].id)
  {
    OccupantIsUnfoldable(norm, s0, tracks, renames, k, o);
    RenamedRowIsThere(norm, s0, tracks, renames, k);
  }

  /** Phase 2: every deferred rename, collision-free. */
  method AssignAll(lib: Library, norm: Norm, renames: seq<Rename>, affected: set<Pair>, ghost s0: Snapshot,
                   ghost home: Home, ghost groups: Groups)
      returns (touched: set<Pair>, ghost after: Home)
    requires Folding(lib, norm, s0, home, affected) && Phase2(norm, s0, lib.tracks, renames, 0)
    requires Electing(norm, s0, lib.tracks, groups, groups.Keys, renames, 0)
    modifies lib
    ensures AllElected(norm, s0, lib.tracks, groups) && KeylessSettled(norm, s0, lib.tracks, groups)
    ensures Folding(lib, norm, s0, after, touched) && Canonical(norm, lib.tracks) && UnkeyedKept(norm, s0, lib.tracks)
    ensures renames == [] ==> Now(lib) == old(Now(lib)) && touched == affected
  {
    hide Phase2, FoldingAt, Electing, Assigned, MetaAssigned, AllElected, KeylessSettled;
    touched, after := affected, home;
    for k := 0 to |renames|
      invariant Folding(lib, norm, s0, after, touched) && Phase2(norm, s0, lib.tracks, renames, k)
      invariant Electing(norm, s0, lib.tracks, groups, groups.Keys, renames, k)
      invariant renames == [] ==> Now(lib) == old(Now(lib)) && touched == affected
    {
      ghost var tracks := lib.tracks;
      touched, after := AssignOne(lib, norm, renames, k, touched, s0, after);
      AssignmentElects(norm, s0, tracks, lib.tracks, groups, groups.Keys, renames, k);
    }
    ElectionEnds(norm, s0, lib.tracks, groups, renames);
    Phase2Ends(norm, s0, lib.tracks, renames);
  }

  /** The parking half of phase 2, as a step of the running invariant. */
  method Park(lib: Library, norm: Norm, renames: seq<Rename>, ghost groups: Groups, ghost s0: Snapshot,
              ghost home: Home, ghost affected: set<Pair>)
    requires Folding(lib, norm, s0, home, affected) && Phase1(norm, s0, lib.tracks, groups.Keys, renames)
    requires NoTemporaries(s0.tracks) && Electing(norm, s0, lib.tracks, groups, groups.Keys, renames, 0)
    requires forall x | x in s0.tracks && FoldKey(norm, s0.tracks[x]).Some? ::
      FoldKey(norm, s0.tracks[x]).value in groups.Keys
    modifies lib
    ensures Folding(lib, norm, s0, home, affected) && Phase2(norm, s0, lib.tracks, renames, 0)
    ensures Electing(norm, s0, lib.tracks, groups, groups.Keys, renames, 0)
    ensures renames == [] ==> Now(lib) == old(Now(lib))
  {
    hide FoldingAt, Phase1, Phase2, MayPark, SameRows, UniqueIdentifiers, NoTemporaries, Electing, RenamesFit;
    ghost var done := groups.Keys;
    ghost var s := Now(lib);
    ghost var parked := ParkRows(lib.tracks, RenamedIds(renames));
    FoldingIsUnique(norm, s0, s, home, affected);
    Phase1MayPark(norm, s0, lib.tracks, done, renames);
    ParkedIsPhase2(norm, s0, lib.tracks, done, renames);
    Phase1RenamesAreDone(norm, s0, lib.tracks, done, renames);
    ParkingElects(norm, s0, lib.tracks, groups, done, renames);
    ParkAll(lib, renames);
    RetouchKeepsFolding(norm, s0, s, parked, home, affected);
    assert Now(lib) == s.(tracks := parked);
    ParkNothing(s.tracks, renames);
  }

  lemma FoldingIsUnique(norm: Norm, s0: Snapshot, s: Snapshot, home: Home, affected: set<Pair>)
    requires FoldingAt(norm, s0, s, home, affected)
    ensures UniqueIdentifiers(s.tracks) && MappingKeys(s.mappings) && SameRows(s0.tracks, s.tracks)
  {
  }

  lemma ParkNothing(tracks: Tracks, renames: seq<Rename>)
    ensures renames == [] ==> ParkRows(tracks, RenamedIds(renames)) == tracks
  {
  }

  /**
   upgrade(): every statement keeps every unique index and foreign key (each statement's own
   precondition), each group ends as its elected survivor with the metadata of the group, and on rows
   that are already canonical nothing changes in any table.
   */
  method Upgrade(lib: Library, norm: Norm) returns (ghost home: Home, touched: set<Pair>, groups: Groups)
    requires Legal(Now(lib)) && NoTemporaries(lib.tracks)
    modifies lib
    ensures Folded(norm, old(Now(lib)), Now(lib), home, touched) && NoTemporaries(lib.tracks)
    ensures AreGroups(norm, old(Now(lib)), groups) && AllElected(norm, old(Now(lib)), lib.tracks, groups)
    // The same in columns: which row of a key stays, which mapping of a slot, which one becomes primary.
    ensures EveryRowIsKept(norm, old(Now(lib)), Now(lib)) && EveryOtherRowIsKept(norm, old(Now(lib)), Now(lib))
    ensures EveryMappingIsHeld(old(Now(lib)), Now(lib), home)
    ensures RaisedGoFirst(old(lib.mappings), lib.mappings)
    ensures old(Canonical(norm, lib.tracks)) ==> Now(lib) == old(Now(lib))
  {
    hide FoldingAt, Phase1, Phase2, Folded, AreGroups, NoTemporaries, Legal, Canonical, UnkeyedKept, MappingKeys,
         OnlyRaised, Electing, AllElected, KeylessSettled;
    ghost var s0 := Now(lib);
    var snapshot := Snapshot(lib.tracks, lib.mappings, lib.reviews, lib.playlist);
    groups := LoadCandidates(norm, snapshot);
    var renames;
    renames, touched, home := FoldAllGroups(lib, norm, s0, groups);
    GroupsCoverKeys(norm, s0, groups);
    Park(lib, norm, renames, groups, s0, home, touched);
    touched, home := AssignAll(lib, norm, renames, touched, s0, home, groups);
    ghost var s1 := Now(lib);
    FoldingIsUnique(norm, s0, s1, home, touched);
    NoTemporariesAtTheEnd(norm, s0, lib.tracks);
    ReassertPrimaries(lib, touched);
    FoldEnds(norm, s0, s1, lib.mappings, home, touched);
    assert Now(lib) == s1.(mappings := lib.mappings);
    OutcomeByColumns(norm, s0, Now(lib), home, touched, groups);
    if touched == {} {
      NothingRaised(s1.mappings, lib.mappings);
    }
  }

  lemma GroupsCoverKeys(norm: Norm, s0: Snapshot, groups: Groups)
    requires AreGroups(norm, s0, groups)
    ensures forall x | x in s0.tracks && FoldKey(norm, s0.tracks[x]).Some? ::
      FoldKey(norm, s0.tracks[x]).value in groups.Keys
  {
  }

  lemma NothingRaised(ms0: Mappings, ms: Mappings)
    requires OnlyRaised(ms0, ms, {})
    ensures ms == ms0
  {
  }

  /** The fold is idempotent: a second run finds canonical rows and changes no row of any table. */
  method UpgradeTwice(lib: Library, norm: Norm) returns (ghost once: Snapshot)
    requires Legal(Now(lib)) && NoTemporaries(lib.tracks)
    modifies lib
    ensures Now(lib) == once && Canonical(norm, once.tracks)
    ensures exists home: Home, touched: set<Pair> :: Folded(norm, old(Now(lib)), once, home, touched)
  {
    hide Legal, Canonical, NoTemporaries, UnkeyedKept;
    var home, touched, groups := Upgrade(lib, norm);
    once := Now(lib);
    home, touched, groups := Upgrade(lib, norm);
  }
}
