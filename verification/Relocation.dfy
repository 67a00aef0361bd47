/**
 Moving rows from a loser's slot to a survivor's slot when at most one row per (slot, key) may
 stay.  Mappings and reviews of alembic/versions/035_lastfm_identifier_fold.py both move this
 way; they differ in the key and in what makes a row win.
 */
module Relocation {
  import opened Ids


  /** What decides a conflict, most significant first. */
  datatype Rank = Rank(first: int, second: int, third: int)

  predicate Above(a: Rank, b: Rank) {
    a.first > b.first ||
    (a.first == b.first && (a.second > b.second || (a.second == b.second && a.third > b.third)))
  }

  /** The columns of the unique key besides the slot. */
  datatype Key = MappingKey(user: string, connector: string) | ReviewKey(user: string, connector: string, track: Id)

  /** The part of a row that a move looks at: where it hangs, under which key, and how strong it is. */
  datatype Slot = Slot(place: Id, key: Key, rank: Rank)

  type Slots = map<Id, Slot>

  predicate SameKey(m: Slots, i: Id, j: Id)
    requires i in m && j in m
  {
    m[i].place == m[j].place && m[i].key == m[j].key
  }

  ghost predicate OnePerKey(m: Slots) {
    forall i, j {:trigger SameKey(m, i, j)} | i in m && j in m && SameKey(m, i, j) :: i == j
  }

  /** Where each emptied slot's rows went; a slot not listed kept its rows. */
  type Home = map<Id, Id>

  function At(home: Home, p: Id): Id {
    if p in home then home[p] else p
  }

  function Redirect(loser: Id, survivor: Id): Home {
    map[loser := survivor]
  }

  /** First `h`, then `g`. */
  function Compose(g: Home, h: Home): (both: Home)
    ensures forall p :: At(both, p) == At(g, At(h, p))
  {
    map p | p in h.Keys + g.Keys :: At(g, At(h, p))
  }

  /** `w` is at least as strong a claim to `i`'s key, at the slot `i` goes to. */
  predicate AtLeastAsGood(m: Slots, home: Home, i: Id, w: Id)
    requires i in m && w in m
  {
    At(home, m[w].place) == At(home, m[i].place) && m[w].key == m[i].key && !Above(m[i].rank, m[w].rank)
  }

  /** Some row of `m` holds the key of `i` at the slot `i` goes to, and is at least as strong. */
  ghost predicate Won(m0: Slots, m: Slots, home: Home, i: Id)
    requires i in m0
  {
    exists w: Id :: w in m && w in m0 && AtLeastAsGood(m0, home, i, w)
  }

  /**
   `m` is what is left of `m0` when every slot `p` was emptied into `At(home, p)`: rows change their
   slot and nothing else, and each row that is gone lost to one at least as strong.
   */
  ghost predicate Rehomed(m0: Slots, m: Slots, home: Home) {
    (forall i | i in m :: i in m0 && m[i] == m0[i].(place := At(home, m0[i].place))) &&
    (forall i {:trigger Won(m0, m, home, i)} | i in m0 :: Won(m0, m, home, i))
  }

  lemma RehomedToItself(m: Slots, home: Home)
    requires forall p :: At(home, p) == p
    ensures Rehomed(m, m, home)
  {
  }

  lemma Winner(m0: Slots, m: Slots, home: Home, i: Id) returns (w: Id)
    requires Rehomed(m0, m, home) && i in m0
    ensures w in m && w in m0 && AtLeastAsGood(m0, home, i, w)
    ensures m[w] == m0[w].(place := At(home, m0[w].place))
  {
    assert Won(m0, m, home, i);
    w :| w in m && w in m0 && AtLeastAsGood(m0, home, i, w);
  }

  lemma WinnerOfWinners(m0: Slots, m1: Slots, m2: Slots, h: Home, g: Home, i: Id)
    requires Rehomed(m0, m1, h) && Rehomed(m1, m2, g) && i in m0
    ensures Won(m0, m2, Compose(g, h), i)
  {
    var v := Winner(m0, m1, h, i);
    var w := Winner(m1, m2, g, v);
    assert m1[w] == m0[w].(place := At(h, m0[w].place));
    assert AtLeastAsGood(m0, Compose(g, h), i, w);
  }

  /** Two folds in a row are one fold: the winner of winners is a winner. */
  lemma RehomedCompose(m0: Slots, m1: Slots, m2: Slots, h: Home, g: Home)
    requires Rehomed(m0, m1, h) && Rehomed(m1, m2, g)
    ensures Rehomed(m0, m2, Compose(g, h))
  {
    forall i | i in m2
      ensures i in m0 && m2[i] == m0[i].(place := At(Compose(g, h), m0[i].place))
    {
      assert i in m1;
    }
    forall i | i in m0 ensures Won(m0, m2, Compose(g, h), i) {
      WinnerOfWinners(m0, m1, m2, h, g, i);
    }
  }

  // ------------------------------------------------------------ moving one row at a time

  predicate Incumbent(m: Slots, i: Id, survivor: Id, w: Id)
    requires i in m
  {
    w in m && m[w].place == survivor && m[w].key == m[i].key
  }

  ghost predicate Unopposed(m: Slots, i: Id, survivor: Id)
    requires i in m
  {
    forall w | w in m :: !Incumbent(m, i, survivor, w)
  }

  function Placed(m: Slots, i: Id, survivor: Id): Slots
    requires i in m
  {
    m[i := m[i].(place := survivor)]
  }

  /** The three ways one row moves: no conflict, it beats the incumbent, or it loses to it. */
  ghost predicate Moves(m: Slots, i: Id, survivor: Id, after: Slots)
    requires i in m
  {
    if Unopposed(m, i, survivor) then after == Placed(m, i, survivor)
    else exists w: Id :: Incumbent(m, i, survivor, w) && Settles(m, i, survivor, w, after)
  }

  predicate Settles(m: Slots, i: Id, survivor: Id, w: Id, after: Slots)
    requires i in m && w in m
  {
    after == if Above(m[i].rank, m[w].rank) then Placed(m, i, survivor) - {w} else m - {i}
  }

  lemma PlacedRowIsAlone(m: Slots, i: Id, survivor: Id, after: Slots, b: Id)
    requires OnePerKey(m) && i in m && m[i].place != survivor && Moves(m, i, survivor, after)
    requires i in after && b in after && b != i
    ensures !SameKey(after, i, b)
  {
    if SameKey(after, i, b) {
      assert Incumbent(m, i, survivor, b);
      if !Unopposed(m, i, survivor) {
        var w :| Incumbent(m, i, survivor, w) && Settles(m, i, survivor, w, after);
        assert SameKey(m, w, b);
      }
    }
  }

  lemma MoveKeepsOnePerKey(m: Slots, i: Id, survivor: Id, after: Slots)
    requires OnePerKey(m) && i in m && m[i].place != survivor && Moves(m, i, survivor, after)
    ensures OnePerKey(after)
  {
    forall a, b | a in after && b in after && SameKey(after, a, b) ensures a == b {
      if a == i && b != i {
        PlacedRowIsAlone(m, i, survivor, after, b);
      } else if b == i && a != i {
        PlacedRowIsAlone(m, i, survivor, after, a);
      } else {
        assert a != i && b != i ==> SameKey(m, a, b);
      }
    }
  }

  /** The rows of `done` have moved from `loser` to `survivor`, the rest have not. */
  ghost predicate PartlyMoved(m0: Slots, m: Slots, loser: Id, survivor: Id, done: set<Id>) {
    (forall i | i in done :: i in m0 && m0[i].place == loser) &&
    (forall i | i in m :: i in m0 && m[i] == if i in done then m0[i].(place := survivor) else m0[i]) &&
    (forall i | i in m0 && i !in done && m0[i].place != survivor :: i in m) &&
    (forall i {:trigger IsHeld(m0, m, survivor, done, i)} |
      i in m0 && (i in done || m0[i].place == survivor) :: IsHeld(m0, m, survivor, done, i))
  }

  ghost predicate IsHeld(m0: Slots, m: Slots, survivor: Id, done: set<Id>, i: Id)
    requires i in m0
  {
    exists w: Id :: w in m && Holds(m0, survivor, done, i, w)
  }

  /** `w` now holds `i`'s key at the survivor and is at least as strong. */
  ghost predicate Holds(m0: Slots, survivor: Id, done: set<Id>, i: Id, w: Id)
    requires i in m0
  {
    w in m0 && (w in done || m0[w].place == survivor) && m0[w].key == m0[i].key && !Above(m0[i].rank, m0[w].rank)
  }

  /** Whoever held a key before the move, some row at least as strong holds it afterwards. */
  lemma MoveKeepsHolder(m0: Slots, m: Slots, after: Slots, loser: Id, survivor: Id, done: set<Id>, i: Id, x: Id)
    requires loser != survivor && PartlyMoved(m0, m, loser, survivor, done)
    requires i in m && i !in done && m[i].place == loser && Moves(m, i, survivor, after)
    requires x in m0 && (x in done || m0[x].place == survivor)
    ensures IsHeld(m0, after, survivor, done + {i}, x)
  {
    assert IsHeld(m0, m, survivor, done, x);
    var w :| w in m && Holds(m0, survivor, done, x, w);
    if w in after {
      assert Holds(m0, survivor, done + {i}, x, w);
    } else {
      assert Incumbent(m, i, survivor, w);
      assert Holds(m0, survivor, done + {i}, x, i);
    }
  }

  lemma MoveHoldsMoved(m0: Slots, m: Slots, after: Slots, loser: Id, survivor: Id, done: set<Id>, i: Id)
    requires loser != survivor && PartlyMoved(m0, m, loser, survivor, done)
    requires i in m && i !in done && m[i].place == loser && Moves(m, i, survivor, after)
    ensures IsHeld(m0, after, survivor, done + {i}, i)
  {
    if i in after {
      assert Holds(m0, survivor, done + {i}, i, i);
    } else {
      var w :| Incumbent(m, i, survivor, w) && Settles(m, i, survivor, w, after);
      assert w in after && Holds(m0, survivor, done + {i}, i, w);
    }
  }

  lemma MoveChangesOneSlot(m0: Slots, m: Slots, after: Slots, loser: Id, survivor: Id, done: set<Id>, i: Id)
    requires loser != survivor && PartlyMoved(m0, m, loser, survivor, done)
    requires i in m && i !in done && m[i].place == loser && Moves(m, i, survivor, after)
    ensures forall x | x in after :: x in m0 && after[x] == if x in done + {i} then m0[x].(place := survivor) else m0[x]
    ensures forall x | x in m0 && x !in done + {i} && m0[x].place != survivor :: x in after
  {
  }

  /** One more row moved, whichever of the three ways it went. */
  lemma MoveOne(m0: Slots, m: Slots, after: Slots, loser: Id, survivor: Id, done: set<Id>, i: Id)
    requires loser != survivor && PartlyMoved(m0, m, loser, survivor, done)
    requires i in m && i !in done && m[i].place == loser && Moves(m, i, survivor, after)
    ensures PartlyMoved(m0, after, loser, survivor, done + {i})
  {
    MoveChangesOneSlot(m0, m, after, loser, survivor, done, i);
    assert forall x | x in done + {i} :: x in m0 && m0[x].place == loser;
    forall x | x in m0 && (x in done + {i} || m0[x].place == survivor)
      ensures IsHeld(m0, after, survivor, done + {i}, x)
    {
      if x == i {
        MoveHoldsMoved(m0, m, after, loser, survivor, done, i);
      } else {
        MoveKeepsHolder(m0, m, after, loser, survivor, done, i, x);
      }
    }
  }

  lemma HolderWins(m0: Slots, m: Slots, loser: Id, survivor: Id, done: set<Id>, i: Id)
    requires loser != survivor && PartlyMoved(m0, m, loser, survivor, done) && i in m0
    requires m0[i].place == loser ==> i in done
    ensures Won(m0, m, Redirect(loser, survivor), i)
  {
    var home := Redirect(loser, survivor);
    if i in done || m0[i].place == survivor {
      assert IsHeld(m0, m, survivor, done, i);
      var w :| w in m && Holds(m0, survivor, done, i, w);
      assert AtLeastAsGood(m0, home, i, w);
    } else {
      assert i in m;
      assert AtLeastAsGood(m0, home, i, i);
    }
  }

  /** When every row of the loser has moved, its slot is empty. */
  lemma LoserIsEmpty(m0: Slots, m: Slots, loser: Id, survivor: Id, done: set<Id>)
    requires loser != survivor && PartlyMoved(m0, m, loser, survivor, done)
    requires forall i | i in m0 && m0[i].place == loser :: i in done
    ensures forall i | i in m :: m[i].place != loser
  {
  }

  lemma RowIsRehomed(m0: Slots, m: Slots, loser: Id, survivor: Id, done: set<Id>, i: Id)
    requires loser != survivor && PartlyMoved(m0, m, loser, survivor, done) && i in m
    requires i in m0 && m0[i].place == loser ==> i in done
    ensures i in m0 && m[i] == m0[i].(place := At(Redirect(loser, survivor), m0[i].place))
  {
  }

  /** When every row of the loser has moved, the fold of that slot is complete. */
  lemma AllMoved(m0: Slots, m: Slots, loser: Id, survivor: Id, done: set<Id>)
    requires loser != survivor && PartlyMoved(m0, m, loser, survivor, done)
    requires forall i | i in m0 && m0[i].place == loser :: i in done
    ensures Rehomed(m0, m, Redirect(loser, survivor))
  {
    forall i | i in m
      ensures i in m0 && m[i] == m0[i].(place := At(Redirect(loser, survivor), m0[i].place))
    {
      RowIsRehomed(m0, m, loser, survivor, done, i);
    }
    forall i | i in m0 ensures Won(m0, m, Redirect(loser, survivor), i) {
      HolderWins(m0, m, loser, survivor, done, i);
    }
  }
}
