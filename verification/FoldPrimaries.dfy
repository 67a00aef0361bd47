/** _reassert_primaries: after the fold every touched pair that still has a Last.fm mapping has exactly one primary. */
module FoldPrimaries {
  import opened Wrappers
  import opened Ids
  import opened Relocation
  import opened FoldTables

  /** `i` is a Last.fm mapping of the pair. */
  predicate InPair(ms: Mappings, p: Pair, i: Id) {
    i in ms && PairOf(ms[i]) == p && ms[i].connector == LASTFM
  }

  ghost predicate HasMapping(ms: Mappings, p: Pair) {
    exists i :: InPair(ms, p, i)
  }

  ghost predicate HasPrimary(ms: Mappings, p: Pair) {
    exists i :: InPair(ms, p, i) && ms[i].isPrimary
  }

  /** manual_override first, then confidence, then lowest id. */
  predicate Outranks(ms: Mappings, a: Id, b: Id)
    requires a in ms && b in ms
  {
    if IsManual(ms[a]) != IsManual(ms[b]) then IsManual(ms[a])
    else if ms[a].confidence != ms[b].confidence then ms[a].confidence > ms[b].confidence
    else a.n <= b.n
  }

  predicate IsBest(ms: Mappings, rows: set<Id>, best: Id) {
    best in rows && rows <= ms.Keys && forall x | x in rows :: Outranks(ms, best, x)
  }

  lemma {:induction false} BestExists(ms: Mappings, rows: set<Id>, start: Id)
    requires start in rows && rows <= ms.Keys
    ensures exists best :: IsBest(ms, rows, best)
    decreases rows
  {
    if y :| y in rows && !Outranks(ms, start, y) {
      BestExists(ms, rows - {start}, y);
      var best :| IsBest(ms, rows - {start}, best);
      forall x | x in rows ensures Outranks(ms, best, x) {
        assert x == start || x in rows - {start};
        assert Outranks(ms, best, y);
      }
      assert IsBest(ms, rows, best);
    } else {
      assert IsBest(ms, rows, start);
    }
  }

  method BestOf(ms: Mappings, rows: set<Id>) returns (best: Id)
    requires rows != {} && rows <= ms.Keys
    ensures IsBest(ms, rows, best)
  {
    var start :| start in rows;
    BestExists(ms, rows, start);
    best :| best in rows && IsBest(ms, rows, best);
  }

  /** Flags are only raised, and only on Last.fm mappings of pairs in `touched`. */
  ghost predicate OnlyRaised(ms0: Mappings, ms: Mappings, touched: set<Pair>) {
    ms.Keys == ms0.Keys &&
    forall i | i in ms :: ms[i] == ms0[i] || Raised(ms0, ms, touched, i)
  }

  /** `i` became primary in a pair that had none, and no mapping of the pair outranks it. */
  ghost predicate Raised(ms0: Mappings, ms: Mappings, touched: set<Pair>, i: Id)
    requires i in ms0 && i in ms
  {
    ms[i] == ms0[i].(isPrimary := true) && PairOf(ms0[i]) in touched && ms0[i].connector == LASTFM &&
    !HasPrimary(ms0, PairOf(ms0[i])) && forall x | InPair(ms0, PairOf(ms0[i]), x) :: Outranks(ms0, i, x)
  }

  lemma RaisingKeepsKeys(ms: Mappings, i: Id)
    requires MappingKeys(ms) && i in ms && ms[i].connector == LASTFM && !HasPrimary(ms, PairOf(ms[i]))
    ensures MappingKeys(ms[i := ms[i].(isPrimary := true)])
  {
    var after, p := ms[i := ms[i].(isPrimary := true)], PairOf(ms[i]);
    forall a, b | a in after && b in after && SamePrimarySlot(after, a, b) ensures a == b {
      assert a == i && b != i ==> InPair(ms, p, b);
      assert b == i && a != i ==> InPair(ms, p, a);
      assert a != i && b != i ==> SamePrimarySlot(ms, a, b);
    }
    forall a, b | a in MappingSlots(after) && b in MappingSlots(after) && SameKey(MappingSlots(after), a, b)
      ensures a == b
    {
      assert SameKey(MappingSlots(ms), a, b);
    }
  }

  /** The pairs done so far have their primary; pairs still to come are as they were. */
  ghost predicate Reelected(ms0: Mappings, ms: Mappings, touched: set<Pair>, left: set<Pair>) {
    left <= touched && MappingKeys(ms) && OnlyRaised(ms0, ms, touched) &&
    (forall p | p in touched && p !in left && HasMapping(ms0, p) :: HasPrimary(ms, p)) &&
    (forall i | i in ms && ms[i] != ms0[i] :: PairOf(ms0[i]) !in left)
  }

  lemma PairKeepsPrimary(ms0: Mappings, ms: Mappings, touched: set<Pair>, p: Pair)
    requires OnlyRaised(ms0, ms, touched) && HasPrimary(ms0, p)
    ensures HasPrimary(ms, p)
  {
  }

  /** A pair with a primary, or with no mapping at all, is passed over. */
  lemma SkipPair(ms0: Mappings, ms: Mappings, touched: set<Pair>, left: set<Pair>, p: Pair)
    requires Reelected(ms0, ms, touched, left) && p in left && (HasPrimary(ms, p) || !HasMapping(ms, p))
    ensures Reelected(ms0, ms, touched, left - {p})
  {
    if HasMapping(ms0, p) {
      var i :| InPair(ms0, p, i);
      assert InPair(ms, p, i);
    }
  }

  /** A pair left without a primary gets its best mapping promoted. */
  lemma PromoteBest(ms0: Mappings, ms: Mappings, touched: set<Pair>, left: set<Pair>, p: Pair, rows: set<Id>, best: Id)
    requires Reelected(ms0, ms, touched, left) && p in left && !HasPrimary(ms, p)
    requires rows == (set i | i in ms && InPair(ms, p, i)) && IsBest(ms, rows, best)
    ensures Reelected(ms0, ms[best := ms[best].(isPrimary := true)], touched, left - {p})
  {
    assert best in ms && InPair(ms, p, best);
    hide Outranks, MappingKeys, IsBest, HasMapping;
    var after := ms[best := ms[best].(isPrimary := true)];
    RaisingKeepsKeys(ms, best);
    BestIsRaised(ms0, ms, touched, left, p, rows, best);
    forall i | i in after && i != best && after[i] != ms0[i] ensures Raised(ms0, after, touched, i) {
      assert Raised(ms0, ms, touched, i);
    }
    forall q | q in touched && q !in left - {p} && HasMapping(ms0, q) ensures HasPrimary(after, q) {
      PromotionLeavesPrimaries(ms, best, p, q);
    }
  }

  /** The promoted row is the best of a pair that had no primary, now as at the start. */
  lemma BestIsRaised(ms0: Mappings, ms: Mappings, touched: set<Pair>, left: set<Pair>, p: Pair, rows: set<Id>, best: Id)
    requires Reelected(ms0, ms, touched, left) && p in left && !HasPrimary(ms, p)
    requires rows == (set i | i in ms && InPair(ms, p, i)) && IsBest(ms, rows, best)
    ensures best in ms && InPair(ms, p, best) && ms[best] == ms0[best]
    ensures Raised(ms0, ms[best := ms[best].(isPrimary := true)], touched, best)
  {
    hide MappingKeys, HasMapping;
    assert forall i | InPair(ms0, p, i) :: i in ms && ms[i] == ms0[i] && i in rows && Outranks(ms, best, i);
    if HasPrimary(ms0, p) {
      PairKeepsPrimary(ms0, ms, touched, p);
    }
  }

  lemma PromotionLeavesPrimaries(ms: Mappings, best: Id, p: Pair, q: Pair)
    requires InPair(ms, p, best) && (q == p || HasPrimary(ms, q))
    ensures HasPrimary(ms[best := ms[best].(isPrimary := true)], q)
  {
    var after := ms[best := ms[best].(isPrimary := true)];
    if q == p {
      assert InPair(after, p, best) && after[best].isPrimary;
    } else {
      var i :| InPair(ms, q, i) && ms[i].isPrimary;
      assert InPair(after, q, i) && after[i].isPrimary;
    }
  }

  /**
   Each touched pair that still has a Last.fm mapping ends with exactly one primary.  The branch
   that demotes surplus primaries cannot be reached: the partial unique index holds throughout.
   */
  method ReassertPrimaries(lib: Library, touched: set<Pair>)
    requires MappingKeys(lib.mappings)
    modifies lib`mappings
    ensures MappingKeys(lib.mappings) && OnlyRaised(old(lib.mappings), lib.mappings, touched)
    ensures forall p | p in touched && HasMapping(old(lib.mappings), p) :: HasPrimary(lib.mappings, p)
  {
    var left := touched;
    while left != {}
      invariant Reelected(old(lib.mappings), lib.mappings, touched, left)
      decreases left
    {
      var p :| p in left;
      ReassertPair(lib, p, old(lib.mappings), touched, left);
      left := left - {p};
    }
  }

  method ReassertPair(lib: Library, p: Pair, ghost ms0: Mappings, ghost touched: set<Pair>, ghost left: set<Pair>)
    requires p in left && Reelected(ms0, lib.mappings, touched, left)
    modifies lib`mappings
    ensures Reelected(ms0, lib.mappings, touched, left - {p})
  {
    var rows := set i | i in lib.mappings && InPair(lib.mappings, p, i);
    var primaries := set i | i in rows && lib.mappings[i].isPrimary;
    assert forall i | InPair(lib.mappings, p, i) :: i in rows;
    if rows == {} || primaries != {} {
      if rows != {} {
        var i :| i in primaries;
      }
      SkipPair(ms0, lib.mappings, touched, left, p);
      return;
    }
    assert forall i | i in rows && lib.mappings[i].isPrimary :: i in primaries;
    var best := BestOf(lib.mappings, rows);
    PromoteBest(ms0, lib.mappings, touched, left, p, rows, best);
    assert MappingKeys(lib.mappings[best := lib.mappings[best].(isPrimary := true)]);
    lib.SetPrimary(best);
  }
}
