/**
 The renames of alembic/versions/035_lastfm_identifier_fold.py: after every group has been folded
 (phase 1), park each survivor that must change its identifier at a temporary one, then assign the
 final ones, absorbing whatever row still sits on a target (phase 2).
 */
module FoldRenames {
  import opened Wrappers
  import opened Ids
  import opened Relocation
  import opened FoldTables
  import opened FoldState
  import opened FoldGroups

  // ------------------------------------------------------------ temporary identifiers

  function Digits(n: nat): (text: string)
    ensures text != "" && forall c | c in text :: '0' <= c <= '9'
  {
    var digit := ['0' + (n % 10) as char];
    if n < 10 then digit else Digits(n / 10) + digit
  }

  /** The unique temporary identifier of a row, after its uuid. */
  function Tmp(id: Id): string {
    "__fold_tmp_" + Digits(id.n) + "__"
  }

  lemma {:induction false} DigitsAreDistinct(a: nat, b: nat)
    requires Digits(a) == Digits(b)
    ensures a == b
    decreases a
  {
    var x, y := Digits(a), Digits(b);
    assert x[|x| - 1] == '0' + (a % 10) as char && y[|y| - 1] == '0' + (b % 10) as char;
    assert a % 10 == b % 10;
    if a >= 10 && b >= 10 {
      assert x[..|x| - 1] == Digits(a / 10) && y[..|y| - 1] == Digits(b / 10);
      DigitsAreDistinct(a / 10, b / 10);
    } else {
      assert a < 10 ==> |x| == 1;
      assert b < 10 ==> |y| == 1;
    }
  }

  lemma TmpIsInjective(a: Id, b: Id)
    requires Tmp(a) == Tmp(b)
    ensures a == b
  {
    var x, y := Digits(a.n), Digits(b.n);
    assert Tmp(a)[11..11 + |x|] == x && Tmp(b)[11..11 + |y|] == y;
    assert |Tmp(a)| == 13 + |x| && |Tmp(b)| == 13 + |y|;
    DigitsAreDistinct(a.n, b.n);
  }

  /** A fold key holds a colon and a temporary identifier does not. */
  lemma TmpIsNoKey(norm: Norm, id: Id, t: ConnectorTrack)
    requires FoldKey(norm, t).Some?
    ensures Tmp(id) != FoldKey(norm, t).value
  {
    var key := FoldKey(norm, t).value;
    assert key[|norm(t.artist)|] == ':';
    assert ':' in key;
    assert forall c | c in Tmp(id) :: c in "__fold_tmp_" || c in Digits(id.n) || c in "__";
  }

  /** No stored Last.fm identifier has the temporary form. */
  ghost predicate NoTemporaries(tracks: Tracks) {
    forall t, i: Id {:trigger t in tracks, Tmp(i)} | t in tracks && tracks[t].connector == LASTFM ::
      tracks[t].identifier != Tmp(i)
  }

  // ------------------------------------------------------------ after phase 1

  function RenamedIds(renames: seq<Rename>): set<Id> {
    set r | r in renames :: r.id
  }

  ghost predicate OneRowPerKey(norm: Norm, tracks: Tracks, done: set<string>) {
    forall t, u {:trigger SameKeyIn(norm, tracks, done, t, u)} |
      t in tracks && u in tracks && SameKeyIn(norm, tracks, done, t, u) :: t == u
  }

  predicate SameKeyIn(norm: Norm, tracks: Tracks, done: set<string>, t: Id, u: Id)
    requires t in tracks && u in tracks
  {
    FoldKey(norm, tracks[t]).Some? && FoldKey(norm, tracks[t]).value in done &&
    FoldKey(norm, tracks[t]) == FoldKey(norm, tracks[u])
  }

  predicate Pending(norm: Norm, t: ConnectorTrack, done: set<string>) {
    FoldKey(norm, t).None? || FoldKey(norm, t).value !in done
  }

  ghost predicate RenamesFit(norm: Norm, tracks: Tracks, renames: seq<Rename>, done: set<string>) {
    (forall r | r in renames :: r.id in tracks && FoldKey(norm, tracks[r.id]) == Some(r.target) && r.target in done) &&
    (forall i, j | 0 <= i < j < |renames| :: renames[i].id != renames[j].id)
  }

  /** The groups of `done` are down to one row each, which carries its key or waits for a rename. */
  ghost predicate Phase1(norm: Norm, s0: Snapshot, tracks: Tracks, done: set<string>, renames: seq<Rename>) {
    SameRows(s0.tracks, tracks) && OneRowPerKey(norm, tracks, done) && RenamesFit(norm, tracks, renames, done) &&
    (forall t | t in tracks :: tracks[t].identifier == s0.tracks[t].identifier) &&
    Phase1Pending(norm, s0, tracks, done) &&
    (forall t | t in tracks && !Pending(norm, tracks[t], done) ::
      t in RenamedIds(renames) || FoldKey(norm, tracks[t]) == Some(tracks[t].identifier))
  }

  function WithRename(renames: seq<Rename>, rename: Option<Rename>): seq<Rename> {
    match rename
    case None => renames
    case Some(r) => renames + [r]
  }

  /** A key's only row after its group is folded is the survivor. */
  lemma SurvivorIsAlone(norm: Norm, s0: Snapshot, tracks: Tracks, after: Tracks, target: string,
                        members: seq<Candidate>, t: Id)
    requires SameRows(s0.tracks, tracks) && IsGroup(norm, s0, target, members) &&
      GroupFolded(tracks, after, members, target)
    requires t in after && FoldKey(norm, after[t]) == Some(target)
    ensures t == ChooseSurvivor(members, target).id
  {
    assert FoldKey(norm, s0.tracks[t]) == Some(target);
  }

  lemma Phase1RowsStep(norm: Norm, s0: Snapshot, tracks: Tracks, after: Tracks, done: set<string>, target: string,
                       members: seq<Candidate>)
    requires SameRows(s0.tracks, tracks) && OneRowPerKey(norm, tracks, done) && target !in done
    requires IsGroup(norm, s0, target, members) && GroupFolded(tracks, after, members, target)
    ensures SameRows(s0.tracks, after) && OneRowPerKey(norm, after, done + {target})
  {
    forall t, u | t in after && u in after && SameKeyIn(norm, after, done + {target}, t, u) ensures t == u {
      if FoldKey(norm, after[t]) == Some(target) {
        SurvivorIsAlone(norm, s0, tracks, after, target, members, t);
        SurvivorIsAlone(norm, s0, tracks, after, target, members, u);
      } else {
        assert SameKeyIn(norm, tracks, done, t, u);
      }
    }
  }

  lemma RenamedRowIsNoMember(norm: Norm, s0: Snapshot, tracks: Tracks, done: set<string>, target: string,
                             members: seq<Candidate>, renames: seq<Rename>, r: Rename)
    requires SameRows(s0.tracks, tracks) && RenamesFit(norm, tracks, renames, done) && r in renames
    requires target !in done && IsGroup(norm, s0, target, members)
    ensures r.id !in MemberIds(members)
  {
    assert FoldKey(norm, s0.tracks[r.id]) == Some(r.target) && r.target != target;
  }

  lemma SurvivorHasKey(norm: Norm, s0: Snapshot, target: string, members: seq<Candidate>)
    requires IsGroup(norm, s0, target, members)
    ensures
      var survivor := ChooseSurvivor(members, target);
      members != [] && survivor.id in MemberIds(members) && survivor.id in s0.tracks &&
      FoldKey(norm, s0.tracks[survivor.id]) == Some(target)
  {
  }

  lemma Phase1RenamesStep(norm: Norm, s0: Snapshot, tracks: Tracks, after: Tracks, done: set<string>, target: string,
                          members: seq<Candidate>, renames: seq<Rename>)
    requires SameRows(s0.tracks, tracks) && RenamesFit(norm, tracks, renames, done) && target !in done
    requires IsGroup(norm, s0, target, members) && GroupFolded(tracks, after, members, target)
    ensures RenamesFit(norm, after, WithRename(renames, PendingRename(members, target)), done + {target})
  {
    assert members != [];
    hide IsGroup, PendingRename, WithRename, GroupFolded, SameRows, FoldKey;
    var id := ChooseSurvivor(members, target).id;
    SurvivorHasKey(norm, s0, target, members);
    forall r | r in renames
      ensures r.id in after && FoldKey(norm, after[r.id]) == Some(r.target) && r.target in done && r.id != id
    {
      RenamedRowIsNoMember(norm, s0, tracks, done, target, members, renames, r);
      OtherRowStays(tracks, after, members, target, r.id);
    }
    SurvivorStays(norm, s0, tracks, after, members, target);
    PendingRenameIsOfSurvivor(members, target);
    OneMoreFits(norm, after, renames, PendingRename(members, target), done, target, id);
  }

  lemma OneMoreFits(norm: Norm, after: Tracks, renames: seq<Rename>, rename: Option<Rename>, done: set<string>,
                    target: string, id: Id)
    requires forall r | r in renames ::
      r.id in after && FoldKey(norm, after[r.id]) == Some(r.target) && r.target in done && r.id != id
    requires forall i, j | 0 <= i < j < |renames| :: renames[i].id != renames[j].id
    requires id in after && FoldKey(norm, after[id]) == Some(target)
    requires rename.Some? ==> rename.value.id == id && rename.value.target == target
    ensures RenamesFit(norm, after, WithRename(renames, rename), done + {target})
  {
    hide FoldKey;
  }

  lemma OtherRowStays(tracks: Tracks, after: Tracks, members: seq<Candidate>, target: string, t: Id)
    requires members != [] && GroupFolded(tracks, after, members, target) && t in tracks && t !in MemberIds(members)
    ensures t in after && after[t] == tracks[t] && t != ChooseSurvivor(members, target).id
  {
  }

  lemma SurvivorStays(norm: Norm, s0: Snapshot, tracks: Tracks, after: Tracks, members: seq<Candidate>, target: string)
    requires members != [] && GroupFolded(tracks, after, members, target) && SameRows(s0.tracks, tracks)
    ensures var id := ChooseSurvivor(members, target).id;
      id in after && id in s0.tracks && FoldKey(norm, after[id]) == FoldKey(norm, s0.tracks[id])
  {
  }

  lemma PendingRenameIsOfSurvivor(members: seq<Candidate>, target: string)
    requires members != []
    ensures var rename := PendingRename(members, target);
      rename.Some? ==> rename.value.id == ChooseSurvivor(members, target).id && rename.value.target == target
  {
  }

  lemma WithRenameHas(renames: seq<Rename>, rename: Option<Rename>)
    ensures forall r :: r in WithRename(renames, rename) <==> r in renames || rename == Some(r)
    ensures |WithRename(renames, rename)| == |renames| + (if rename.Some? then 1 else 0)
    ensures forall i | 0 <= i < |renames| :: WithRename(renames, rename)[i] == renames[i]
    ensures rename.Some? ==> WithRename(renames, rename)[|renames|] == rename.value
  {
  }

  /** Folding one more group keeps the phase-1 picture. */
  lemma Phase1Step(norm: Norm, s0: Snapshot, tracks: Tracks, after: Tracks, done: set<string>, target: string,
                   members: seq<Candidate>, renames: seq<Rename>)
    requires Phase1(norm, s0, tracks, done, renames) && target !in done
    requires IsGroup(norm, s0, target, members) && GroupFolded(tracks, after, members, target)
    ensures Phase1(norm, s0, after, done + {target}, WithRename(renames, PendingRename(members, target)))
  {
    assert members != [];
    hide IsGroup, PendingRename, WithRename, GroupFolded, OneRowPerKey, RenamesFit, Pending, FoldKey, SameRows;
    var more := WithRename(renames, PendingRename(members, target));
    Phase1RowsStep(norm, s0, tracks, after, done, target, members);
    Phase1RenamesStep(norm, s0, tracks, after, done, target, members, renames);
    forall x | x in s0.tracks && Pending(norm, s0.tracks[x], done + {target})
      ensures x in after && after[x] == s0.tracks[x]
    {
      StillPending(norm, s0, tracks, after, done, target, members, x);
    }
    forall t | t in after ensures after[t].identifier == s0.tracks[t].identifier {
      IdentifierStays(tracks, after, members, target, t);
    }
    forall t | t in after && !Pending(norm, after[t], done + {target})
      ensures t in RenamedIds(more) || FoldKey(norm, after[t]) == Some(after[t].identifier)
    {
      NamedOrRenamed(norm, s0, tracks, after, done, target, members, renames, t);
    }
  }

  lemma IdentifierStays(tracks: Tracks, after: Tracks, members: seq<Candidate>, target: string, t: Id)
    requires members != [] && GroupFolded(tracks, after, members, target) && t in after
    ensures t in tracks && after[t].identifier == tracks[t].identifier
  {
  }

  lemma StillPending(norm: Norm, s0: Snapshot, tracks: Tracks, after: Tracks, done: set<string>, target: string,
                     members: seq<Candidate>, x: Id)
    requires Phase1Pending(norm, s0, tracks, done) && IsGroup(norm, s0, target, members)
    requires GroupFolded(tracks, after, members, target)
    requires x in s0.tracks && Pending(norm, s0.tracks[x], done + {target})
    ensures x in after && after[x] == s0.tracks[x]
  {
    assert x !in MemberIds(members);
  }

  ghost predicate Phase1Pending(norm: Norm, s0: Snapshot, tracks: Tracks, done: set<string>) {
    forall x | x in s0.tracks && Pending(norm, s0.tracks[x], done) :: x in tracks && tracks[x] == s0.tracks[x]
  }

  lemma NamedOrRenamed(norm: Norm, s0: Snapshot, tracks: Tracks, after: Tracks, done: set<string>, target: string,
                       members: seq<Candidate>, renames: seq<Rename>, t: Id)
    requires SameRows(s0.tracks, tracks) && IsGroup(norm, s0, target, members)
    requires GroupFolded(tracks, after, members, target) && t in after && !Pending(norm, after[t], done + {target})
    requires forall u | u in tracks && !Pending(norm, tracks[u], done) ::
      u in RenamedIds(renames) || FoldKey(norm, tracks[u]) == Some(tracks[u].identifier)
    requires forall u | u in tracks :: tracks[u].identifier == s0.tracks[u].identifier
    ensures t in RenamedIds(WithRename(renames, PendingRename(members, target)))
         || FoldKey(norm, after[t]) == Some(after[t].identifier)
  {
    hide PendingRename, WithRename;
    var more := WithRename(renames, PendingRename(members, target));
    WithRenameHas(renames, PendingRename(members, target));
    if FoldKey(norm, after[t]) == Some(target) {
      SurvivorIsAlone(norm, s0, tracks, after, target, members, t);
      SurvivorIsNamedOrRenamed(s0, members, target, more);
    } else {
      assert !Pending(norm, tracks[t], done);
      assert t in RenamedIds(renames) ==> t in RenamedIds(more);
    }
  }

  lemma SurvivorIsNamedOrRenamed(s0: Snapshot, members: seq<Candidate>, target: string, more: seq<Rename>)
    requires members != [] && forall r | PendingRename(members, target) == Some(r) :: r in more
    ensures var survivor := ChooseSurvivor(members, target);
      survivor.identifier == target || survivor.id in RenamedIds(more)
  {
    var survivor := ChooseSurvivor(members, target);
    if survivor.identifier != target {
      assert PendingRename(members, target).value in more;
    }
  }

  // ------------------------------------------------------------ parking

  function ParkRows(tracks: Tracks, ids: set<Id>): Tracks {
    map t | t in tracks :: if t in ids then tracks[t].(identifier := Tmp(t)) else tracks[t]
  }

  lemma ParkingStaysUnique(tracks: Tracks, ids: set<Id>)
    requires UniqueIdentifiers(tracks) && NoTemporaries(tracks)
    requires forall t | t in ids && t in tracks :: tracks[t].connector == LASTFM
    ensures UniqueIdentifiers(ParkRows(tracks, ids))
  {
    var parked := ParkRows(tracks, ids);
    forall a, b | a in parked && b in parked && SameIdentifier(parked, a, b) ensures a == b {
      if a in ids && b in ids {
        TmpIsInjective(a, b);
      } else if a !in ids && b !in ids {
        assert SameIdentifier(tracks, a, b);
      }
    }
  }

  // ------------------------------------------------------------ assigning

  function Waiting(renames: seq<Rename>, k: nat): set<Id>
    requires k <= |renames|
  {
    RenamedIds(renames[k..])
  }

  function KeysOf(norm: Norm, tracks: Tracks): set<string> {
    set t | t in tracks && FoldKey(norm, tracks[t]).Some? :: FoldKey(norm, tracks[t]).value
  }

  /** The first `k` renames are done: foldable rows carry their key, or wait at their temporary identifier. */
  ghost predicate Phase2(norm: Norm, s0: Snapshot, tracks: Tracks, renames: seq<Rename>, k: nat)
    requires k <= |renames|
  {
    SameRows(s0.tracks, tracks) && OneRowPerKey(norm, tracks, KeysOf(norm, tracks)) &&
    (forall j | k <= j < |renames| ::
      renames[j].id in tracks && FoldKey(norm, tracks[renames[j].id]) == Some(renames[j].target)) &&
    (forall i, j | 0 <= i < j < |renames| :: renames[i].id != renames[j].id) &&
    (forall t | t in tracks && FoldKey(norm, tracks[t]).Some? ::
      tracks[t].identifier == if t in Waiting(renames, k) then Tmp(t) else FoldKey(norm, tracks[t]).value) &&
    (forall t | t in tracks && FoldKey(norm, tracks[t]).None? :: tracks[t].identifier == s0.tracks[t].identifier)
  }

  lemma ParkedRowsOnePerKey(norm: Norm, s0: Snapshot, tracks: Tracks, done: set<string>, ids: set<Id>)
    requires OneRowPerKey(norm, tracks, done) && SameRows(s0.tracks, tracks)
    requires forall x | x in s0.tracks && FoldKey(norm, s0.tracks[x]).Some? :: FoldKey(norm, s0.tracks[x]).value in done
    ensures OneRowPerKey(norm, ParkRows(tracks, ids), KeysOf(norm, ParkRows(tracks, ids)))
  {
    var parked := ParkRows(tracks, ids);
    forall t, u | t in parked && u in parked && SameKeyIn(norm, parked, KeysOf(norm, parked), t, u) ensures t == u {
      assert FoldKey(norm, s0.tracks[t]) == FoldKey(norm, tracks[t]);
      assert SameKeyIn(norm, tracks, done, t, u);
    }
  }

  lemma ParkedIdentifiers(norm: Norm, s0: Snapshot, tracks: Tracks, done: set<string>, renames: seq<Rename>, t: Id)
    requires Phase1(norm, s0, tracks, done, renames) && t in tracks
    requires forall x | x in s0.tracks && FoldKey(norm, s0.tracks[x]).Some? :: FoldKey(norm, s0.tracks[x]).value in done
    ensures
      var parked := ParkRows(tracks, RenamedIds(renames));
      parked[t].identifier ==
        if FoldKey(norm, parked[t]).None? then s0.tracks[t].identifier
        else if t in RenamedIds(renames) then Tmp(t) else FoldKey(norm, parked[t]).value
  {
  }

  lemma ParkedKeepsRows(norm: Norm, s0: Snapshot, tracks: Tracks, ids: set<Id>)
    requires SameRows(s0.tracks, tracks)
    requires forall t | t in ids && t in tracks :: FoldKey(norm, tracks[t]).Some?
    ensures ParkRows(tracks, ids).Keys == tracks.Keys && SameRows(s0.tracks, ParkRows(tracks, ids))
    ensures forall t | t in tracks :: FoldKey(norm, ParkRows(tracks, ids)[t]) == FoldKey(norm, tracks[t])
  {
  }

  lemma ParkedIsPhase2(norm: Norm, s0: Snapshot, tracks: Tracks, done: set<string>, renames: seq<Rename>)
    requires Phase1(norm, s0, tracks, done, renames)
    requires forall x | x in s0.tracks && FoldKey(norm, s0.tracks[x]).Some? :: FoldKey(norm, s0.tracks[x]).value in done
    ensures Phase2(norm, s0, ParkRows(tracks, RenamedIds(renames)), renames, 0)
  {
    hide OneRowPerKey, Tmp, Pending, KeysOf, FoldKey, Phase1Pending;
    var parked := ParkRows(tracks, RenamedIds(renames));
    assert renames[0..] == renames;
    ParkedRowsOnePerKey(norm, s0, tracks, done, RenamedIds(renames));
    ParkedKeepsRows(norm, s0, tracks, RenamedIds(renames));
    forall j | 0 <= j < |renames|
      ensures renames[j].id in parked && FoldKey(norm, parked[renames[j].id]) == Some(renames[j].target)
    {
      assert renames[j] in renames;
    }
    hide SameRows, ParkRows;
    forall t | t in parked
      ensures parked[t].identifier ==
        if FoldKey(norm, parked[t]).None? then s0.tracks[t].identifier
        else if t in RenamedIds(renames) then Tmp(t) else FoldKey(norm, parked[t]).value
    {
      ParkedIdentifiers(norm, s0, tracks, done, renames, t);
    }
  }

  predicate Occupies(tracks: Tracks, target: string, survivor: Id, o: Id) {
    o in tracks && o != survivor && tracks[o].connector == LASTFM && tracks[o].identifier == target
  }

  /** Only a row without a key can ever be found sitting on a target. */
  lemma OccupantIsUnfoldable(norm: Norm, s0: Snapshot, tracks: Tracks, renames: seq<Rename>, k: nat, o: Id)
    requires k < |renames| && Phase2(norm, s0, tracks, renames, k) &&
      Occupies(tracks, renames[k].target, renames[k].id, o)
    ensures FoldKey(norm, tracks[o]).None?
    ensures SameGroup(norm, s0.tracks, o, renames[k].id)
  {
    var survivor, target := renames[k].id, renames[k].target;
    assert FoldKey(norm, tracks[survivor]) == Some(target);
    if FoldKey(norm, tracks[o]).Some? {
      TmpIsNoKey(norm, o, tracks[survivor]);
      assert SameKeyIn(norm, tracks, KeysOf(norm, tracks), o, survivor);
    }
  }

  /** The rows after one rename, the occupant (if any) absorbed first. */
  ghost predicate Assigned(tracks: Tracks, after: Tracks, r: Rename) {
    r.id in tracks && after.Keys <= tracks.Keys && r.id in after &&
    after.Keys == (set t | t in tracks && !Occupies(tracks, r.target, r.id, t)) &&
    (forall t | t in after && t != r.id :: after[t] == tracks[t]) &&
    after[r.id] == tracks[r.id].(identifier := r.target, meta := after[r.id].meta)
  }

  lemma AssignedStaysUnique(tracks: Tracks, after: Tracks, r: Rename)
    requires UniqueIdentifiers(tracks) && Assigned(tracks, after, r) && tracks[r.id].connector == LASTFM
    ensures UniqueIdentifiers(after)
  {
    forall a, b | a in after && b in after && SameIdentifier(after, a, b) ensures a == b {
      if a != r.id && b != r.id {
        assert SameIdentifier(tracks, a, b);
      } else {
        assert !Occupies(tracks, r.target, r.id, a) && !Occupies(tracks, r.target, r.id, b);
      }
    }
  }

  /** A keyed row survives every assignment: only rows without a key are absorbed. */
  lemma KeyedRowsStay(norm: Norm, s0: Snapshot, tracks: Tracks, after: Tracks, renames: seq<Rename>, k: nat, t: Id)
    requires k < |renames| && Phase2(norm, s0, tracks, renames, k) && Assigned(tracks, after, renames[k])
    requires t in tracks && FoldKey(norm, tracks[t]).Some?
    ensures t in after
  {
    if Occupies(tracks, renames[k].target, renames[k].id, t) {
      OccupantIsUnfoldable(norm, s0, tracks, renames, k, t);
    }
  }

  lemma WaitingShrinks(renames: seq<Rename>, k: nat)
    requires k < |renames| && forall i, j | 0 <= i < j < |renames| :: renames[i].id != renames[j].id
    ensures Waiting(renames, k) == Waiting(renames, k + 1) + {renames[k].id} &&
      renames[k].id !in Waiting(renames, k + 1)
  {
  }

  /** One more rename done. */
  lemma Phase2Step(norm: Norm, s0: Snapshot, tracks: Tracks, after: Tracks, renames: seq<Rename>, k: nat)
    requires k < |renames| && Phase2(norm, s0, tracks, renames, k) && Assigned(tracks, after, renames[k])
    ensures Phase2(norm, s0, after, renames, k + 1)
  {
    assert tracks[renames[k].id].connector == LASTFM;
    hide Tmp, Occupies, SameKeyIn, KeysOf, Waiting, OneRowPerKey;
    WaitingShrinks(renames, k);
    AssignedRowsOnePerKey(norm, tracks, after, renames[k]);
    forall t | t in after ensures t in tracks && FoldKey(norm, after[t]) == FoldKey(norm, tracks[t]) {
      AssignedKeepsKey(norm, tracks, after, renames[k], t);
    }
    forall j | k + 1 <= j < |renames|
      ensures renames[j].id in after && FoldKey(norm, after[renames[j].id]) == Some(renames[j].target)
    {
      KeyedRowsStay(norm, s0, tracks, after, renames, k, renames[j].id);
    }
    hide FoldKey;
    forall t | t in after && FoldKey(norm, after[t]).Some?
      ensures after[t].identifier == if t in Waiting(renames, k + 1) then Tmp(t) else FoldKey(norm, after[t]).value
    {
      assert t == renames[k].id ==> t !in Waiting(renames, k + 1);
    }
    AssignedKeepsRows(s0, tracks, after, renames[k]);
    hide Assigned, SameRows;
  }

  lemma AssignedKeepsRows(s0: Snapshot, tracks: Tracks, after: Tracks, r: Rename)
    requires Assigned(tracks, after, r) && SameRows(s0.tracks, tracks) && tracks[r.id].connector == LASTFM
    ensures SameRows(s0.tracks, after)
  {
  }

  lemma AssignedKeepsKey(norm: Norm, tracks: Tracks, after: Tracks, r: Rename, t: Id)
    requires Assigned(tracks, after, r) && t in after
    ensures t in tracks && FoldKey(norm, after[t]) == FoldKey(norm, tracks[t])
  {
  }

  lemma AssignedRowsOnePerKey(norm: Norm, tracks: Tracks, after: Tracks, r: Rename)
    requires Assigned(tracks, after, r) && OneRowPerKey(norm, tracks, KeysOf(norm, tracks))
    ensures OneRowPerKey(norm, after, KeysOf(norm, after))
  {
    forall t, u | t in after && u in after && SameKeyIn(norm, after, KeysOf(norm, after), t, u) ensures t == u {
      assert FoldKey(norm, after[t]) == FoldKey(norm, tracks[t]) && FoldKey(norm, after[u]) == FoldKey(norm, tracks[u]);
      assert SameKeyIn(norm, tracks, KeysOf(norm, tracks), t, u);
    }
  }

  /** Every keyed row carries its key. */
  ghost predicate Canonical(norm: Norm, tracks: Tracks) {
    forall t | t in tracks && FoldKey(norm, tracks[t]).Some? :: FoldKey(norm, tracks[t]) == Some(tracks[t].identifier)
  }

  /** Rows without a key that are still there keep their identifier. */
  ghost predicate UnkeyedKept(norm: Norm, s0: Snapshot, tracks: Tracks) {
    forall t | t in tracks && FoldKey(norm, tracks[t]).None? ::
      t in s0.tracks && tracks[t].identifier == s0.tracks[t].identifier
  }

  lemma Phase2Ends(norm: Norm, s0: Snapshot, tracks: Tracks, renames: seq<Rename>)
    requires Phase2(norm, s0, tracks, renames, |renames|)
    ensures Canonical(norm, tracks) && UnkeyedKept(norm, s0, tracks)
  {
  }

  lemma NoTemporariesAtTheEnd(norm: Norm, s0: Snapshot, tracks: Tracks)
    requires NoTemporaries(s0.tracks) && SameRows(s0.tracks, tracks) && Canonical(norm, tracks) &&
      UnkeyedKept(norm, s0, tracks)
    ensures NoTemporaries(tracks)
  {
    forall t, i: Id | t in tracks && tracks[t].connector == LASTFM ensures tracks[t].identifier != Tmp(i) {
      if FoldKey(norm, tracks[t]).Some? {
        TmpIsNoKey(norm, i, tracks[t]);
      } else {
        assert s0.tracks[t].identifier != Tmp(i);
      }
    }
  }
}
