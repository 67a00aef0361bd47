/**
 delete_order of scripts/purge_residue_tenants.py: children before parents, by relaxing a depth
 per table at most one round more than there are tables, and refusing when it does not settle.
 */
module PurgeOrder {
  import opened Sql

  /** A foreign key between two different tables of the restricted graph. */
  predicate IsEdge(tables: set<Table>, fk: ForeignKey) {
    fk.child in tables && fk.parent in tables && fk.child != fk.parent
  }

  ghost predicate Linked(s: Schema, tables: set<Table>, child: Table, parent: Table) {
    exists fk :: fk in s.foreignKeys && IsEdge(tables, fk) && fk.child == child && fk.parent == parent
  }

  /** A walk from child to parent along the edges; it has `|w| - 1` of them. */
  ghost predicate IsWalk(s: Schema, tables: set<Table>, w: seq<Table>) {
    |w| > 0 && (forall t | t in w :: t in tables) &&
    (forall i | 0 <= i < |w| - 1 :: Linked(s, tables, w[i], w[i + 1]))
  }

  ghost predicate Cyclic(s: Schema, tables: set<Table>) {
    exists w :: IsWalk(s, tables, w) && |w| > 1 && w[0] == w[|w| - 1]
  }

  /** Each depth is the length of some walk. */
  ghost predicate Witnessed(s: Schema, tables: set<Table>, depth: map<Table, nat>) {
    depth.Keys == tables &&
    forall t | t in tables :: HasWitness(s, tables, t, depth[t])
  }

  ghost predicate HasWitness(s: Schema, tables: set<Table>, t: Table, n: nat) {
    exists w :: IsWalk(s, tables, w) && w[0] == t && |w| == n + 1
  }

  /** No walk of at most `k` edges is longer than its start's depth. */
  ghost predicate Covers(s: Schema, tables: set<Table>, depth: map<Table, nat>, k: nat)
    requires depth.Keys == tables
  {
    forall w | IsWalk(s, tables, w) && |w| <= k + 1 :: depth[w[0]] >= |w| - 1
  }

  ghost predicate Settled(s: Schema, tables: set<Table>, depth: map<Table, nat>)
    requires depth.Keys == tables
  {
    forall fk | fk in s.foreignKeys && IsEdge(tables, fk) :: depth[fk.child] > depth[fk.parent]
  }

  ghost predicate HasLongWalk(s: Schema, tables: set<Table>, k: nat) {
    exists w :: IsWalk(s, tables, w) && |w| > k + 1
  }

  // ------------------------------------------------------------ walks

  lemma {:induction false} DistinctFits(w: seq<Table>, tables: set<Table>)
    requires forall t | t in w :: t in tables
    requires forall i, j | 0 <= i < j < |w| :: w[i] != w[j]
    ensures |w| <= |tables|
    decreases |w|
  {
    if w != [] {
      DistinctFits(w[1..], tables - {w[0]});
    }
  }

  /** A walk that visits a table twice holds a closed walk. */
  lemma RepeatIsCyclic(s: Schema, tables: set<Table>, w: seq<Table>, i: nat, j: nat)
    requires IsWalk(s, tables, w) && i < j < |w| && w[i] == w[j]
    ensures Cyclic(s, tables)
  {
    SliceIsWalk(s, tables, w, i, j + 1);
    assert IsWalk(s, tables, w[i..j + 1]);
  }

  /** A walk with more vertices than there are tables comes back to one of them. */
  lemma LongWalkIsCyclic(s: Schema, tables: set<Table>)
    requires HasLongWalk(s, tables, |tables|)
    ensures Cyclic(s, tables)
  {
    hide Cyclic, Linked;
    var w :| IsWalk(s, tables, w) && |w| > |tables| + 1;
    if forall i, j | 0 <= i < j < |w| :: w[i] != w[j] {
      DistinctFits(w, tables);
    } else {
      var i, j :| 0 <= i < j < |w| && w[i] == w[j];
      RepeatIsCyclic(s, tables, w, i, j);
    }
  }

  lemma SliceIsWalk(s: Schema, tables: set<Table>, w: seq<Table>, from: nat, to: nat)
    requires IsWalk(s, tables, w) && from < to <= |w|
    ensures IsWalk(s, tables, w[from..to])
  {
  }

  /** In a settled graph depth falls along every walk. */
  lemma {:induction false} SettledBoundsWalks(s: Schema, tables: set<Table>, depth: map<Table, nat>, w: seq<Table>)
    requires depth.Keys == tables && Settled(s, tables, depth) && IsWalk(s, tables, w)
    ensures depth[w[0]] >= depth[w[|w| - 1]] + |w| - 1
    decreases |w|
  {
    if |w| > 1 {
      assert Linked(s, tables, w[0], w[1]);
      TailIsWalk(s, tables, w);
      SettledBoundsWalks(s, tables, depth, w[1..]);
    }
  }

  lemma TailIsWalk(s: Schema, tables: set<Table>, w: seq<Table>)
    requires IsWalk(s, tables, w) && |w| > 1
    ensures IsWalk(s, tables, w[1..]) && Linked(s, tables, w[0], w[1])
  {
  }

  lemma StepBefore(s: Schema, tables: set<Table>, fk: ForeignKey, w: seq<Table>)
    requires fk in s.foreignKeys && IsEdge(tables, fk) && IsWalk(s, tables, w) && w[0] == fk.parent
    ensures IsWalk(s, tables, [fk.child] + w)
  {
  }

  // ------------------------------------------------------------ one round

  ghost predicate Above(tables: set<Table>, start: map<Table, nat>, depth: map<Table, nat>) {
    start.Keys == depth.Keys == tables && forall t | t in tables :: depth[t] >= start[t]
  }

  /** Raising one child past its parent keeps every depth witnessed, and the new depth is a new walk. */
  lemma RaiseKeepsWitnesses(s: Schema, tables: set<Table>, depth: map<Table, nat>, fk: ForeignKey, k: nat)
    requires Witnessed(s, tables, depth) && fk in s.foreignKeys && IsEdge(tables, fk)
    requires depth[fk.child] <= depth[fk.parent] && Covers(s, tables, depth, k)
    ensures Witnessed(s, tables, depth[fk.child := depth[fk.parent] + 1])
    ensures HasLongWalk(s, tables, k)
  {
    hide Linked;
    assert HasWitness(s, tables, fk.parent, depth[fk.parent]);
    var w :| IsWalk(s, tables, w) && w[0] == fk.parent && |w| == depth[fk.parent] + 1;
    StepBefore(s, tables, fk, w);
    var longer := [fk.child] + w;
    assert IsWalk(s, tables, longer) && longer[0] == fk.child && |longer| == depth[fk.parent] + 2;
    assert |longer| > k + 1;
  }

  /** The first `i` edges have been seen in the round that began at `start`. */
  ghost predicate Seen(s: Schema, tables: set<Table>, start: map<Table, nat>, depth: map<Table, nat>, i: nat)
    requires i <= |s.foreignKeys|
  {
    Above(tables, start, depth) &&
    forall j | 0 <= j < i && IsEdge(tables, s.foreignKeys[j]) ::
      depth[s.foreignKeys[j].child] > start[s.foreignKeys[j].parent]
  }

  lemma RaiseKeepsSeen(s: Schema, tables: set<Table>, start: map<Table, nat>, depth: map<Table, nat>, i: nat, k: nat)
    requires i < |s.foreignKeys| && Seen(s, tables, start, depth, i) && Covers(s, tables, depth, k)
    requires IsEdge(tables, s.foreignKeys[i])
    requires depth[s.foreignKeys[i].child] <= depth[s.foreignKeys[i].parent]
    ensures var fk := s.foreignKeys[i];
      var raised := depth[fk.child := depth[fk.parent] + 1];
      Seen(s, tables, start, raised, i + 1) && Covers(s, tables, raised, k)
  {
  }

  ghost predicate InRound(s: Schema, tables: set<Table>, start: map<Table, nat>, depth: map<Table, nat>, i: nat, k: nat)
    requires i <= |s.foreignKeys|
  {
    Witnessed(s, tables, depth) && Seen(s, tables, start, depth, i) && Covers(s, tables, depth, k)
  }

  method RelaxEdge(s: Schema, tables: set<Table>, ghost start: map<Table, nat>, depth: map<Table, nat>, i: nat,
                   ghost k: nat)
      returns (raised: map<Table, nat>, changed: bool)
    requires i < |s.foreignKeys| && InRound(s, tables, start, depth, i, k)
    ensures InRound(s, tables, start, raised, i + 1, k)
    ensures if changed then HasLongWalk(s, tables, k) else raised == depth
  {
    hide Witnessed, Covers, HasLongWalk;
    assert depth.Keys == tables;
    hide Seen;
    var fk := s.foreignKeys[i];
    changed := IsEdge(tables, fk) && depth[fk.child] <= depth[fk.parent];
    if changed {
      RaiseKeepsWitnesses(s, tables, depth, fk, k);
      RaiseKeepsSeen(s, tables, start, depth, i, k);
      raised := depth[fk.child := depth[fk.parent] + 1];
    } else {
      SkipKeepsSeen(s, tables, start, depth, i);
      raised := depth;
    }
  }

  lemma SkipKeepsSeen(s: Schema, tables: set<Table>, start: map<Table, nat>, depth: map<Table, nat>, i: nat)
    requires i < |s.foreignKeys| && Seen(s, tables, start, depth, i)
    requires IsEdge(tables, s.foreignKeys[i]) ==> depth[s.foreignKeys[i].child] > depth[s.foreignKeys[i].parent]
    ensures Seen(s, tables, start, depth, i + 1)
  {
  }

  method RelaxOnce(s: Schema, tables: set<Table>, start: map<Table, nat>, ghost k: nat)
      returns (depth: map<Table, nat>, changed: bool)
    requires Witnessed(s, tables, start) && Covers(s, tables, start, k)
    ensures Witnessed(s, tables, depth) && Covers(s, tables, depth, k + 1)
    ensures !changed ==> depth == start && Settled(s, tables, depth)
    ensures changed ==> HasLongWalk(s, tables, k)
  {
    depth, changed := start, false;
    for i := 0 to |s.foreignKeys|
      invariant InRound(s, tables, start, depth, i, k)
      invariant if changed then HasLongWalk(s, tables, k) else depth == start
    {
      var hit;
      depth, hit := RelaxEdge(s, tables, start, depth, i, k);
      changed := changed || hit;
    }
    RoundCovers(s, tables, start, depth, k);
  }

  lemma RoundCovers(s: Schema, tables: set<Table>, start: map<Table, nat>, depth: map<Table, nat>, k: nat)
    requires Seen(s, tables, start, depth, |s.foreignKeys|) && Covers(s, tables, start, k)
    ensures Covers(s, tables, depth, k + 1)
  {
    forall w | IsWalk(s, tables, w) && |w| <= k + 2 ensures depth[w[0]] >= |w| - 1 {
      if |w| > 1 {
        TailIsWalk(s, tables, w);
        var fk :| fk in s.foreignKeys && IsEdge(tables, fk) && fk.child == w[0] && fk.parent == w[1];
        assert start[w[1..][0]] >= |w[1..]| - 1;
      }
    }
  }

  // ------------------------------------------------------------ sorted(depth, key=(-depth, name))

  /** Python's order on strings. */
  predicate NameLeq(a: string, b: string) {
    a == "" || (b != "" && (a[0] < b[0] || (a[0] == b[0] && NameLeq(a[1..], b[1..]))))
  }

  lemma NameLeqIsTotalOrder(a: string, b: string, c: string)
    ensures NameLeq(a, b) || NameLeq(b, a)
    ensures NameLeq(a, b) && NameLeq(b, a) ==> a == b
    ensures NameLeq(a, b) && NameLeq(b, c) ==> NameLeq(a, c)
  {
    if a != "" && b != "" {
      NameLeqIsTotalOrder(a[1..], b[1..], if c == "" then "" else c[1..]);
      assert a == [a[0]] + a[1..] && b == [b[0]] + b[1..];
    }
  }

  /** At the first character where they differ the smaller one decides; a proper prefix comes first. */
  lemma {:induction false} NameLeqIsLexicographic(a: string, b: string)
    ensures NameLeq(a, b) <==>
            a <= b || exists k :: 0 <= k < |a| && k < |b| && a[..k] == b[..k] && a[k] < b[k]
    decreases |a|
  {
    if a != "" && b != "" {
      NameLeqIsLexicographic(a[1..], b[1..]);
      assert a <= b <==> a[0] == b[0] && a[1..] <= b[1..];
      if a[0] == b[0] {
        if k :| 0 <= k < |a[1..]| && k < |b[1..]| && a[1..][..k] == b[1..][..k] && a[1..][k] < b[1..][k] {
          assert a[..k + 1] == [a[0]] + a[1..][..k] && b[..k + 1] == [b[0]] + b[1..][..k];
        }
        if k :| 0 <= k < |a| && k < |b| && a[..k] == b[..k] && a[k] < b[k] {
          assert k > 0 && a[1..][..k - 1] == a[..k][1..] && b[1..][..k - 1] == b[..k][1..];
        }
      } else if a[0] < b[0] {
        assert a[..0] == b[..0];
      }
    }
  }

  predicate Before(depth: map<Table, nat>, a: Table, b: Table)
    requires a in depth && b in depth
  {
    depth[a] > depth[b] || (depth[a] == depth[b] && NameLeq(a, b))
  }

  lemma BeforeIsTotal(depth: map<Table, nat>, a: Table, b: Table, c: Table)
    requires a in depth && b in depth && c in depth
    ensures Before(depth, a, b) || Before(depth, b, a)
    ensures Before(depth, a, b) && Before(depth, b, c) ==> Before(depth, a, c)
  {
    NameLeqIsTotalOrder(a, b, c);
  }

  predicate IsFirst(depth: map<Table, nat>, left: set<Table>, t: Table) {
    t in left && left <= depth.Keys && forall u | u in left :: Before(depth, t, u)
  }

  /** The earlier of `t` and `x` comes before everything `t` comes before. */
  lemma FirstOfMore(depth: map<Table, nat>, left: set<Table>, x: Table, t: Table)
    requires left <= depth.Keys && x in left && IsFirst(depth, left - {x}, t)
    ensures IsFirst(depth, left, if Before(depth, t, x) then t else x)
  {
    hide NameLeq, Before;
    BeforeIsTotal(depth, t, x, x);
    BeforeIsTotal(depth, x, x, x);
    var first := if Before(depth, t, x) then t else x;
    forall u | u in left ensures Before(depth, first, u) {
      BeforeIsTotal(depth, x, t, u);
    }
  }

  lemma {:induction false} FirstExists(depth: map<Table, nat>, left: set<Table>)
    requires left != {} && left <= depth.Keys
    ensures exists t :: IsFirst(depth, left, t)
    decreases |left|
  {
    hide NameLeq, Before;
    var x :| x in left;
    if left == {x} {
      BeforeIsTotal(depth, x, x, x);
      assert IsFirst(depth, left, x);
    } else {
      FirstExists(depth, left - {x});
      var t :| IsFirst(depth, left - {x}, t);
      FirstOfMore(depth, left, x, t);
    }
  }

  predicate SortedBy(depth: map<Table, nat>, order: seq<Table>)
    requires forall t | t in order :: t in depth
  {
    forall i, j | 0 <= i < j < |order| :: Before(depth, order[i], order[j]) && order[i] != order[j]
  }

  method SortTables(depth: map<Table, nat>) returns (order: seq<Table>)
    ensures forall t :: t in order <==> t in depth
    ensures SortedBy(depth, order)
  {
    var left := depth.Keys;
    order := [];
    while left != {}
      invariant left <= depth.Keys
      invariant forall t :: t in order <==> t in depth && t !in left
      invariant SortedBy(depth, order)
      invariant forall t, u | t in order && u in left :: Before(depth, t, u)
      decreases left
    {
      FirstExists(depth, left);
      var t :| t in left && IsFirst(depth, left, t);
      order := order + [t];
      left := left - {t};
    }
  }

  // ------------------------------------------------------------ delete_order

  datatype Ordered = Cycle | Order(tables: seq<Table>)

  /** No repetition, exactly the given tables, and every child strictly before each of its parents. */
  ghost predicate ChildrenFirst(s: Schema, tables: set<Table>, order: seq<Table>) {
    (forall t :: t in order <==> t in tables) &&
    (forall i, j | 0 <= i < j < |order| :: order[i] != order[j]) &&
    (forall fk, i, j | fk in s.foreignKeys && 0 <= i < |order| && 0 <= j < |order| &&
      fk.child == order[i] && fk.parent == order[j] && fk.child != fk.parent :: i < j)
  }

  lemma SettledSortIsChildrenFirst(s: Schema, tables: set<Table>, depth: map<Table, nat>, order: seq<Table>)
    requires depth.Keys == tables && Settled(s, tables, depth)
    requires (forall t :: t in order <==> t in depth) && SortedBy(depth, order)
    ensures ChildrenFirst(s, tables, order)
  {
  }

  /** A settled depth is the length of the longest walk, and there is no cycle. */
  lemma SettledDepthIsLongest(s: Schema, tables: set<Table>, depth: map<Table, nat>)
    requires Witnessed(s, tables, depth) && Settled(s, tables, depth)
    ensures !Cyclic(s, tables)
    ensures forall w | IsWalk(s, tables, w) :: |w| - 1 <= depth[w[0]]
  {
    forall w | IsWalk(s, tables, w) ensures |w| - 1 <= depth[w[0]] && (|w| > 1 ==> w[0] != w[|w| - 1]) {
      SettledBoundsWalks(s, tables, depth, w);
    }
  }

  method DeleteOrder(s: Schema, tables: set<Table>) returns (result: Ordered, depth: map<Table, nat>)
    ensures result.Cycle? <==> Cyclic(s, tables)
    ensures result.Order? ==> ChildrenFirst(s, tables, result.tables)
    ensures result.Order? ==> Witnessed(s, tables, depth)
    ensures result.Order? ==> forall i, j | 0 <= i < j < |result.tables| ::
      depth[result.tables[i]] > depth[result.tables[j]] ||
      (depth[result.tables[i]] == depth[result.tables[j]] && NameLeq(result.tables[i], result.tables[j]))
    ensures result.Order? ==> forall w | IsWalk(s, tables, w) :: |w| - 1 <= depth[w[0]]
  {
    depth := map t | t in tables :: 0;
    forall t | t in tables ensures HasWitness(s, tables, t, depth[t]) {
      assert IsWalk(s, tables, [t]);
    }
    var changed := true;
    for k := 0 to |tables| + 1
      invariant Witnessed(s, tables, depth) && Covers(s, tables, depth, k)
      invariant k > 0 ==> HasLongWalk(s, tables, k - 1)
    {
      depth, changed := RelaxOnce(s, tables, depth, k);
      if !changed {
        SettledDepthIsLongest(s, tables, depth);
        var order := SortTables(depth);
        SettledSortIsChildrenFirst(s, tables, depth, order);
        return Order(order), depth;
      }
    }
    LongWalkIsCyclic(s, tables);
    return Cycle, depth;
  }
}
