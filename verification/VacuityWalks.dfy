/**
 The two worklists of scripts/check_test_vacuity.py: _walk_shallow keeps an explicit stack of syntax
 nodes, _class_chain a queue of classes whose base names may lead in circles.
 */
module VacuityWalks {
  import opened Wrappers

  // ------------------------------------------------------------ _walk_shallow

  /** A syntax node; `nested` marks function, lambda and class definitions. */
  datatype Node = Node(tag: string, nested: bool, children: seq<Node>)

  /** The recursive reading: a node, then what is below it unless it opens a scope, then its right. */
  function Preorder(nodes: seq<Node>): seq<Node> {
    if nodes == [] then [] else
      [nodes[0]] + (if nodes[0].nested then [] else Preorder(nodes[0].children)) + Preorder(nodes[1..])
  }

  function Reversed<T>(s: seq<T>): seq<T> {
    if s == [] then [] else Reversed(s[1..]) + [s[0]]
  }

  function Size(nodes: seq<Node>): nat {
    if nodes == [] then 0 else 1 + Size(nodes[0].children) + Size(nodes[1..])
  }

  lemma {:induction false} PreorderConcat(a: seq<Node>, b: seq<Node>)
    ensures Preorder(a + b) == Preorder(a) + Preorder(b)
    ensures Size(a + b) == Size(a) + Size(b)
  {
    if a == [] {
      assert a + b == b;
    } else {
      assert (a + b)[1..] == a[1..] + b;
      PreorderConcat(a[1..], b);
    }
  }

  lemma {:induction false} ReversedConcat<T>(a: seq<T>, b: seq<T>)
    ensures Reversed(a + b) == Reversed(b) + Reversed(a)
  {
    if a == [] {
      assert a + b == b;
    } else {
      assert (a + b)[1..] == a[1..] + b;
      ReversedConcat(a[1..], b);
    }
  }

  lemma {:induction false} ReversedTwice<T>(s: seq<T>)
    ensures Reversed(Reversed(s)) == s
  {
    if s != [] {
      ReversedTwice(s[1..]);
      ReversedConcat(Reversed(s[1..]), [s[0]]);
    }
  }

  lemma ReversedPush(rest: seq<Node>, node: Node)
    ensures Reversed(rest + [node]) == [node] + Reversed(rest)
  {
    ReversedConcat(rest, [node]);
  }

  /** The walk of a stack whose top is `node`. */
  lemma WalkOfTop(node: Node, below: seq<Node>)
    ensures Preorder([node] + below) == [node] + (if node.nested then [] else Preorder(node.children)) + Preorder(below)
    ensures Size([node] + below) == 1 + Size(node.children) + Size(below)
  {
    assert ([node] + below)[1..] == below;
  }

  /** Popping the stack and pushing the children back leaves the same walk ahead, less one node. */
  lemma StepOfWalk(rest: seq<Node>, node: Node, pushed: seq<Node>)
    requires pushed == if node.nested then [] else Reversed(node.children)
    ensures Preorder(Reversed(rest + [node])) == [node] + Preorder(Reversed(rest + pushed))
    ensures Size(Reversed(rest + pushed)) < Size(Reversed(rest + [node]))
  {
    hide Preorder, Size, Reversed;
    ReversedPush(rest, node);
    ReversedConcat(rest, pushed);
    PushedIsChildren(node, pushed);
    PreorderConcat(Reversed(pushed), Reversed(rest));
    WalkOfTop(node, Reversed(rest));
    EmptyWalk();
  }

  lemma PushedIsChildren(node: Node, pushed: seq<Node>)
    requires pushed == if node.nested then [] else Reversed(node.children)
    ensures Reversed(pushed) == if node.nested then [] else node.children
  {
    ReversedTwice(node.children);
  }

  lemma EmptyWalk()
    ensures Preorder([]) == [] && Size([]) == 0
  {
  }

  lemma NothingAhead()
    ensures Preorder(Reversed([])) == []
  {
  }

  /** _walk_shallow, with its explicit stack, lists what the recursive walk lists, in the same order. */
  method WalkShallow(nodes: seq<Node>) returns (out: seq<Node>)
    ensures out == Preorder(nodes)
  {
    out := [];
    var stack := Reversed(nodes);
    ReversedTwice(nodes);
    hide *;
    while stack != []
      invariant out + Preorder(Reversed(stack)) == Preorder(nodes)
      decreases Size(Reversed(stack))
    {
      var node := stack[|stack| - 1];
      var rest := stack[..|stack| - 1];
      assert stack == rest + [node];
      out := out + [node];
      if node.nested {
        StepOfWalk(rest, node, []);
        assert rest + [] == rest;
        stack := rest;
        continue;
      }
      StepOfWalk(rest, node, Reversed(node.children));
      stack := rest + Reversed(node.children);
    }
    NothingAhead();
  }

  /** A way down from the given nodes that enters no nested scope. */
  predicate IsWayDown(nodes: seq<Node>, way: seq<Node>) {
    way != [] && way[0] in nodes && (|way| == 1 || (!way[0].nested && IsWayDown(way[0].children, way[1..])))
  }

  lemma {:induction false} ListedIsReached(nodes: seq<Node>, node: Node) returns (way: seq<Node>)
    requires node in Preorder(nodes)
    ensures IsWayDown(nodes, way) && way[|way| - 1] == node
  {
    if node == nodes[0] {
      way := [node];
    } else if !nodes[0].nested && node in Preorder(nodes[0].children) {
      way := ListedIsReached(nodes[0].children, node);
      assert ([nodes[0]] + way)[1..] == way;
      way := [nodes[0]] + way;
    } else {
      way := ListedIsReached(nodes[1..], node);
    }
  }

  lemma {:induction false} ReachedIsListed(nodes: seq<Node>, way: seq<Node>)
    requires IsWayDown(nodes, way)
    ensures way[|way| - 1] in Preorder(nodes)
    decreases nodes
  {
    if way[0] != nodes[0] {
      assert way[0] in nodes[1..];
      ReachedIsListed(nodes[1..], way);
    } else if |way| > 1 {
      ReachedIsListed(nodes[0].children, way[1..]);
    }
  }

  /** The walk lists a node exactly when a way down to it enters no nested scope. */
  lemma ListedIffReached(nodes: seq<Node>, node: Node)
    ensures node in Preorder(nodes) <==> exists way :: IsWayDown(nodes, way) && way[|way| - 1] == node
  {
    if node in Preorder(nodes) {
      var way := ListedIsReached(nodes, node);
    }
    if way :| IsWayDown(nodes, way) && way[|way| - 1] == node {
      ReachedIsListed(nodes, way);
    }
  }

  // ------------------------------------------------------------ _class_chain

  /** A class definition of the module, by identity. */
  datatype ClassDef = ClassDef(n: nat)

  /** The base names each class writes, and which local class a name means. */
  datatype Program = Program(bases: map<ClassDef, seq<string>>, classes: map<string, ClassDef>)

  /** One entry of the chain: the class and the name it was reached by. */
  datatype Link = Link(klass: ClassDef, path: string)

  function BaseNames(p: Program, klass: ClassDef): seq<string> {
    if klass in p.bases then p.bases[klass] else []
  }

  predicate HasBase(p: Program, klass: ClassDef, base: ClassDef) {
    klass in p.bases && exists name | name in p.bases[klass] :: name in p.classes && p.classes[name] == base
  }

  /** The local classes among the base names, in the order they are written. */
  function BaseLinks(p: Program, names: seq<string>): seq<Link> {
    if names == [] then []
    else (if names[0] in p.classes then [Link(p.classes[names[0]], names[0])] else []) + BaseLinks(p, names[1..])
  }

  lemma {:induction false} BaseLinksAreTheBases(p: Program, names: seq<string>, base: ClassDef)
    ensures (exists l | l in BaseLinks(p, names) :: l.klass == base)
       <==> (exists name | name in names :: name in p.classes && p.classes[name] == base)
  {
    if names != [] {
      BaseLinksAreTheBases(p, names[1..], base);
      var tail := BaseLinks(p, names[1..]);
      assert forall l | l in BaseLinks(p, names) ::
        l in tail || (names[0] in p.classes && l == Link(p.classes[names[0]], names[0]));
      assert forall l | l in tail :: l in BaseLinks(p, names);
      if names[0] in p.classes {
        assert Link(p.classes[names[0]], names[0]) in BaseLinks(p, names);
      }
      assert forall name | name in names :: name == names[0] || name in names[1..];
    }
  }

  /** A walk along base classes. */
  predicate IsLineage(p: Program, from: ClassDef, line: seq<ClassDef>)
    decreases line
  {
    line != [] && line[0] == from && (|line| == 1 || (HasBase(p, from, line[1]) && IsLineage(p, line[1], line[1..])))
  }

  /** A walk along base classes that ends at `klass`. */
  predicate LeadsTo(p: Program, from: ClassDef, line: seq<ClassDef>, klass: ClassDef) {
    IsLineage(p, from, line) && line[|line| - 1] == klass
  }

  ghost predicate NoRepeats(chain: seq<Link>) {
    forall i, j | 0 <= i < j < |chain| :: chain[i].klass != chain[j].klass
  }

  predicate Lists(chain: seq<Link>, klass: ClassDef) {
    exists l | l in chain :: l.klass == klass
  }

  /** `depth` certifies that `chain` is what breadth-first search from `root` finds. */
  ghost predicate IsLayered(p: Program, root: ClassDef, chain: seq<Link>, depth: seq<nat>) {
    && |depth| == |chain| > 0 && chain[0].klass == root && depth[0] == 0
    && NoRepeats(chain)
    && (forall i, j | 0 <= i < j < |depth| :: depth[i] <= depth[j])
    && (forall j | 0 < j < |chain| :: HasParent(p, chain, depth, j))
    && (forall i, base | 0 <= i < |chain| && HasBase(p, chain[i].klass, base) ::
          IsListedBy(chain, depth, base, depth[i] + 1))
  }

  ghost predicate HasParent(p: Program, chain: seq<Link>, depth: seq<nat>, j: int)
    requires |depth| == |chain| && 0 <= j < |chain|
  {
    exists i | 0 <= i < j :: IsParent(p, chain, depth, i, chain[j].klass, depth[j])
  }

  ghost predicate IsParent(p: Program, chain: seq<Link>, depth: seq<nat>, i: int, klass: ClassDef, at: nat)
    requires |depth| == |chain| && 0 <= i < |chain|
  {
    HasBase(p, chain[i].klass, klass) && at == depth[i] + 1
  }

  ghost predicate IsListedBy(chain: seq<Link>, depth: seq<nat>, klass: ClassDef, bound: nat)
    requires |depth| == |chain|
  {
    exists j | 0 <= j < |chain| :: IsAt(chain, depth, j, klass, bound)
  }

  ghost predicate IsAt(chain: seq<Link>, depth: seq<nat>, j: int, klass: ClassDef, bound: nat)
    requires |depth| == |chain| && 0 <= j < |chain|
  {
    chain[j].klass == klass && depth[j] <= bound
  }

  lemma BaseIsListed(p: Program, root: ClassDef, chain: seq<Link>, depth: seq<nat>, i: nat, base: ClassDef)
    returns (j: nat)
    requires IsLayered(p, root, chain, depth) && i < |chain| && HasBase(p, chain[i].klass, base)
    ensures |depth| == |chain| && j < |chain| && chain[j].klass == base && depth[j] <= depth[i] + 1
  {
    assert IsListedBy(chain, depth, base, depth[i] + 1);
    j :| 0 <= j < |chain| && IsAt(chain, depth, j, base, depth[i] + 1);
  }

  lemma FirstOfLineage(p: Program, from: ClassDef, line: seq<ClassDef>)
    requires IsLineage(p, from, line)
    ensures |line| > 0 && line[0] == from
    ensures |line| > 1 ==> HasBase(p, from, line[1]) && IsLineage(p, line[1], line[1..])
  {
  }

  /** Every class a lineage leads to is listed, no deeper than the lineage is long. */
  lemma {:induction false} LineageIsListed(p: Program, root: ClassDef, chain: seq<Link>, depth: seq<nat>,
                                           i: nat, line: seq<ClassDef>)
    requires IsLayered(p, root, chain, depth) && i < |chain| && IsLineage(p, chain[i].klass, line)
    ensures IsListedBy(chain, depth, line[|line| - 1], depth[i] + |line| - 1)
    decreases line
  {
    assert |depth| == |chain|;
    hide IsLayered, IsLineage, HasBase, IsListedBy;
    FirstOfLineage(p, chain[i].klass, line);
    if |line| == 1 {
      AtIsListed(chain, depth, i);
    } else {
      var j := BaseIsListed(p, root, chain, depth, i, line[1]);
      LineageIsListed(p, root, chain, depth, j, line[1..]);
      BoundMayGrow(chain, depth, line[|line| - 1], depth[j] + |line| - 2, depth[i] + |line| - 1);
    }
  }

  lemma AtIsListed(chain: seq<Link>, depth: seq<nat>, i: nat)
    requires |depth| == |chain| && i < |chain|
    ensures IsListedBy(chain, depth, chain[i].klass, depth[i])
  {
    assert IsAt(chain, depth, i, chain[i].klass, depth[i]);
  }

  lemma BoundMayGrow(chain: seq<Link>, depth: seq<nat>, klass: ClassDef, low: nat, high: nat)
    requires |depth| == |chain| && IsListedBy(chain, depth, klass, low) && low <= high
    ensures IsListedBy(chain, depth, klass, high)
  {
    var k :| 0 <= k < |chain| && IsAt(chain, depth, k, klass, low);
    assert IsAt(chain, depth, k, klass, high);
  }

  lemma {:induction false} LineageConcat(p: Program, from: ClassDef, line: seq<ClassDef>, base: ClassDef)
    requires IsLineage(p, from, line) && HasBase(p, line[|line| - 1], base)
    ensures IsLineage(p, from, line + [base])
    decreases line
  {
    if |line| > 1 {
      LineageConcat(p, line[1], line[1..], base);
      assert (line + [base])[1..] == line[1..] + [base];
    } else {
      assert (line + [base])[1..] == [base];
    }
  }

  /** Every listed class is reached by a lineage exactly as long as its depth says. */
  lemma {:induction false} ListedHasLineage(p: Program, root: ClassDef, chain: seq<Link>, depth: seq<nat>, j: nat)
    returns (line: seq<ClassDef>)
    requires IsLayered(p, root, chain, depth) && j < |chain|
    ensures IsLineage(p, root, line) && line[|line| - 1] == chain[j].klass && |line| == depth[j] + 1
    decreases j
  {
    if j == 0 {
      line := [root];
    } else {
      assert HasParent(p, chain, depth, j);
      var i :| 0 <= i < j && IsParent(p, chain, depth, i, chain[j].klass, depth[j]);
      line := ListedHasLineage(p, root, chain, depth, i);
      LineageConcat(p, root, line, chain[j].klass);
      line := line + [chain[j].klass];
    }
  }

  lemma ListedIsReachable(p: Program, root: ClassDef, chain: seq<Link>, depth: seq<nat>, j: nat)
    requires IsLayered(p, root, chain, depth) && j < |chain|
    ensures exists line :: LeadsTo(p, root, line, chain[j].klass) && |line| == depth[j] + 1
  {
    hide IsLayered;
    var line := ListedHasLineage(p, root, chain, depth, j);
    assert LeadsTo(p, root, line, chain[j].klass);
  }

  lemma ReachableIsListed(p: Program, root: ClassDef, chain: seq<Link>, depth: seq<nat>, line: seq<ClassDef>,
                          klass: ClassDef)
    requires IsLayered(p, root, chain, depth) && LeadsTo(p, root, line, klass)
    ensures IsListedBy(chain, depth, klass, |line| - 1)
  {
    assert chain[0].klass == root && depth[0] == 0;
    hide IsLayered, IsListedBy;
    LineageIsListed(p, root, chain, depth, 0, line);
  }

  /** The chain is the set of reachable classes. */
  lemma ChainIsReachable(p: Program, root: ClassDef, chain: seq<Link>, depth: seq<nat>, klass: ClassDef)
    requires IsLayered(p, root, chain, depth)
    ensures Lists(chain, klass) <==> exists line :: LeadsTo(p, root, line, klass)
  {
    assert |depth| == |chain|;
    hide IsLayered, IsLineage, LeadsTo;
    if Lists(chain, klass) {
      var j :| 0 <= j < |chain| && chain[j].klass == klass;
      ListedIsReachable(p, root, chain, depth, j);
    }
    if line :| LeadsTo(p, root, line, klass) {
      LineIsLong(p, root, line, klass);
      ReachableIsListed(p, root, chain, depth, line, klass);
      var k :| 0 <= k < |chain| && IsAt(chain, depth, k, klass, |line| - 1);
      assert chain[k] in chain;
    }
  }

  lemma LineIsLong(p: Program, root: ClassDef, line: seq<ClassDef>, klass: ClassDef)
    requires LeadsTo(p, root, line, klass)
    ensures |line| > 0
  {
  }

  /** Most derived first: a class is never listed before one that fewer base steps reach. */
  lemma {:induction false} NearestFirst(p: Program, root: ClassDef, chain: seq<Link>, depth: seq<nat>, i: nat, j: nat,
                                        line: seq<ClassDef>)
    requires IsLayered(p, root, chain, depth) && i <= j < |chain| && LeadsTo(p, root, line, chain[j].klass)
    ensures exists nearer :: LeadsTo(p, root, nearer, chain[i].klass) && |nearer| <= |line|
  {
    hide IsLineage, LeadsTo, HasParent, HasBase;
    LineIsLong(p, root, line, chain[j].klass);
    ReachableIsListed(p, root, chain, depth, line, chain[j].klass);
    var k :| 0 <= k < |chain| && IsAt(chain, depth, k, chain[j].klass, |line| - 1);
    assert k == j && depth[i] <= depth[j];
    ListedIsReachable(p, root, chain, depth, i);
  }

  // The search itself: what is listed, and what waits with the depth it will have.

  ghost predicate WaitsFor(p: Program, chain: seq<Link>, depth: seq<nat>, klass: ClassDef, at: nat)
    requires |depth| == |chain|
  {
    exists i | 0 <= i < |chain| :: IsParent(p, chain, depth, i, klass, at)
  }

  ghost predicate InOrder(depth: seq<nat>, ahead: seq<nat>) {
    && (forall i, j | 0 <= i < j < |depth| :: depth[i] <= depth[j])
    && (forall i, j | 0 <= i < j < |ahead| :: ahead[i] <= ahead[j])
    && (forall i, j | 0 <= i < |depth| && 0 <= j < |ahead| :: depth[i] <= ahead[j])
    && (forall j | 0 <= j < |ahead| :: ahead[j] <= ahead[0] + 1)
  }

  ghost predicate InView(chain: seq<Link>, depth: seq<nat>, pending: seq<Link>, ahead: seq<nat>,
                         klass: ClassDef, bound: nat)
    requires |depth| == |chain| && |ahead| == |pending|
  {
    IsListedBy(chain, depth, klass, bound) || IsListedBy(pending, ahead, klass, bound)
  }

  ghost predicate Searching(p: Program, first: Link, chain: seq<Link>, depth: seq<nat>,
                            pending: seq<Link>, ahead: seq<nat>) {
    && |depth| == |chain| && |ahead| == |pending|
    && NoRepeats(chain) && InOrder(depth, ahead)
    && (if chain == [] then pending == [first] && ahead == [0] else chain[0] == first && depth[0] == 0)
    && (forall j | 0 < j < |chain| :: HasParent(p, chain, depth, j))
    && (chain != [] ==> forall k | 0 <= k < |pending| :: WaitsFor(p, chain, depth, pending[k].klass, ahead[k]))
    && (forall i, base | 0 <= i < |chain| && HasBase(p, chain[i].klass, base) ::
          InView(chain, depth, pending, ahead, base, depth[i] + 1))
  }

  /** The depth of everything queued behind one class. */
  function Repeated(n: nat, d: nat): (r: seq<nat>)
    ensures |r| == n && forall i | 0 <= i < n :: r[i] == d
  {
    if n == 0 then [] else [d] + Repeated(n - 1, d)
  }

  /** A class met before was met no deeper, so dropping it loses nothing. */
  lemma SkipKeepsView(chain: seq<Link>, depth: seq<nat>, pending: seq<Link>, ahead: seq<nat>,
                      klass: ClassDef, bound: nat)
    requires |depth| == |chain| && |ahead| == |pending| > 0 && InOrder(depth, ahead)
    requires Lists(chain, pending[0].klass) && InView(chain, depth, pending, ahead, klass, bound)
    ensures InView(chain, depth, pending[1..], ahead[1..], klass, bound)
  {
    if !IsListedBy(chain, depth, klass, bound) {
      var k :| 0 <= k < |pending| && IsAt(pending, ahead, k, klass, bound);
      if k == 0 {
        var at :| 0 <= at < |chain| && chain[at].klass == klass;
        assert IsAt(chain, depth, at, klass, bound);
      } else {
        assert IsAt(pending[1..], ahead[1..], k - 1, klass, bound);
      }
    }
  }

  lemma SkipKeepsSearching(p: Program, first: Link, chain: seq<Link>, depth: seq<nat>,
                           pending: seq<Link>, ahead: seq<nat>)
    requires Searching(p, first, chain, depth, pending, ahead) && pending != [] && Lists(chain, pending[0].klass)
    ensures Searching(p, first, chain, depth, pending[1..], ahead[1..])
  {
    hide InView, HasParent, WaitsFor, HasBase, NoRepeats;
    assert chain != [];
    hide Lists;
    assert InOrder(depth, ahead[1..]);
    hide InOrder;
    forall i, base | 0 <= i < |chain| && HasBase(p, chain[i].klass, base)
      ensures InView(chain, depth, pending[1..], ahead[1..], base, depth[i] + 1)
    {
      SkipKeepsView(chain, depth, pending, ahead, base, depth[i] + 1);
    }
  }

  lemma ListingKeepsOrder(depth: seq<nat>, ahead: seq<nat>, more: nat)
    requires InOrder(depth, ahead) && ahead != []
    ensures InOrder(depth + [ahead[0]], ahead[1..] + Repeated(more, ahead[0] + 1))
  {
  }

  lemma ListingKeepsView(chain: seq<Link>, depth: seq<nat>, pending: seq<Link>, ahead: seq<nat>,
                         bases: seq<Link>, later: seq<nat>, klass: ClassDef, bound: nat)
    requires |depth| == |chain| && |ahead| == |pending| > 0 && |later| == |bases|
    requires InView(chain, depth, pending, ahead, klass, bound)
    ensures InView(chain + [pending[0]], depth + [ahead[0]], pending[1..] + bases, ahead[1..] + later, klass, bound)
  {
    if IsListedBy(chain, depth, klass, bound) {
      var j :| 0 <= j < |chain| && IsAt(chain, depth, j, klass, bound);
      assert IsAt(chain + [pending[0]], depth + [ahead[0]], j, klass, bound);
    } else {
      var k :| 0 <= k < |pending| && IsAt(pending, ahead, k, klass, bound);
      if k == 0 {
        assert IsAt(chain + [pending[0]], depth + [ahead[0]], |chain|, klass, bound);
      } else {
        assert IsAt(pending[1..] + bases, ahead[1..] + later, k - 1, klass, bound);
      }
    }
  }

  lemma WaitingStays(p: Program, chain: seq<Link>, depth: seq<nat>, next: Link, d: nat, klass: ClassDef, at: nat)
    requires |depth| == |chain| && WaitsFor(p, chain, depth, klass, at)
    ensures exists i | 0 <= i < |chain| :: IsParent(p, chain + [next], depth + [d], i, klass, at)
  {
    var i :| 0 <= i < |chain| && IsParent(p, chain, depth, i, klass, at);
    assert IsParent(p, chain + [next], depth + [d], i, klass, at);
  }

  lemma ParentStays(p: Program, chain: seq<Link>, depth: seq<nat>, next: Link, d: nat, j: nat)
    requires |depth| == |chain| && j < |chain| && HasParent(p, chain, depth, j)
    ensures HasParent(p, chain + [next], depth + [d], j)
  {
    var i :| 0 <= i < j && IsParent(p, chain, depth, i, chain[j].klass, depth[j]);
    assert (chain + [next])[j] == chain[j] && (depth + [d])[j] == depth[j];
    assert IsParent(p, chain + [next], depth + [d], i, (chain + [next])[j].klass, (depth + [d])[j]);
  }

  /** What is queued behind a class just listed waits for that class. */
  lemma BaseWaits(p: Program, chain: seq<Link>, depth: seq<nat>, next: Link, d: nat, base: ClassDef)
    requires |depth| == |chain| && HasBase(p, next.klass, base)
    ensures WaitsFor(p, chain + [next], depth + [d], base, d + 1)
  {
    assert IsParent(p, chain + [next], depth + [d], |chain|, base, d + 1);
  }

  lemma QueuedIsInView(chain: seq<Link>, depth: seq<nat>, rest: seq<Link>, ahead: seq<nat>,
                       bases: seq<Link>, later: seq<nat>, base: ClassDef, bound: nat)
    requires |depth| == |chain| && |ahead| == |rest| && |later| == |bases|
    requires Lists(bases, base) && forall k | 0 <= k < |later| :: later[k] == bound
    ensures InView(chain, depth, rest + bases, ahead + later, base, bound)
  {
    var k :| 0 <= k < |bases| && bases[k].klass == base;
    assert IsAt(rest + bases, ahead + later, |rest| + k, base, bound);
  }

  ghost predicate AreBases(p: Program, klass: ClassDef, bases: seq<Link>) {
    (forall base | HasBase(p, klass, base) :: Lists(bases, base)) &&
    (forall l | l in bases :: HasBase(p, klass, l.klass))
  }

  /** Listing a new class and queueing its bases behind it keeps the search breadth first. */
  lemma ListKeepsSearching(p: Program, first: Link, chain: seq<Link>, depth: seq<nat>,
                           pending: seq<Link>, ahead: seq<nat>, bases: seq<Link>)
    requires Searching(p, first, chain, depth, pending, ahead) && pending != [] && !Lists(chain, pending[0].klass)
    requires AreBases(p, pending[0].klass, bases)
    ensures Searching(p, first, chain + [pending[0]], depth + [ahead[0]],
                      pending[1..] + bases, ahead[1..] + Repeated(|bases|, ahead[0] + 1))
  {
    hide InOrder, InView, HasParent, WaitsFor, HasBase, NoRepeats, Lists, AreBases;
    ListingKeepsOrder(depth, ahead, |bases|);
    NewIsNoRepeat(chain, pending[0]);
    ParentsKept(p, first, chain, depth, pending, ahead);
    WaitingKept(p, first, chain, depth, pending, ahead, bases, Repeated(|bases|, ahead[0] + 1));
    ViewKept(p, first, chain, depth, pending, ahead, bases, Repeated(|bases|, ahead[0] + 1));
  }

  lemma NewIsNoRepeat(chain: seq<Link>, next: Link)
    requires NoRepeats(chain) && !Lists(chain, next.klass)
    ensures NoRepeats(chain + [next])
  {
  }

  lemma ParentsKept(p: Program, first: Link, chain: seq<Link>, depth: seq<nat>, pending: seq<Link>, ahead: seq<nat>)
    requires Searching(p, first, chain, depth, pending, ahead) && pending != []
    ensures forall j | 0 < j < |chain| + 1 :: HasParent(p, chain + [pending[0]], depth + [ahead[0]], j)
  {
    hide InOrder, InView, HasParent, WaitsFor, NoRepeats;
    forall j | 0 < j < |chain| + 1 ensures HasParent(p, chain + [pending[0]], depth + [ahead[0]], j) {
      if j < |chain| {
        ParentStays(p, chain, depth, pending[0], ahead[0], j);
      } else {
        NewHasParent(p, chain, depth, pending[0], ahead[0]);
      }
    }
  }

  lemma WaitingKept(p: Program, first: Link, chain: seq<Link>, depth: seq<nat>, pending: seq<Link>, ahead: seq<nat>,
                    bases: seq<Link>, later: seq<nat>)
    requires Searching(p, first, chain, depth, pending, ahead) && pending != [] && AreBases(p, pending[0].klass, bases)
    requires |later| == |bases| && forall k | 0 <= k < |later| :: later[k] == ahead[0] + 1
    ensures forall k | 0 <= k < |pending| - 1 + |bases| ::
              WaitsFor(p, chain + [pending[0]], depth + [ahead[0]], (pending[1..] + bases)[k].klass,
                       (ahead[1..] + later)[k])
  {
    hide InOrder, InView, HasParent, WaitsFor, NoRepeats, HasBase;
    forall k | 0 <= k < |pending| - 1 + |bases|
      ensures WaitsFor(p, chain + [pending[0]], depth + [ahead[0]], (pending[1..] + bases)[k].klass,
                       (ahead[1..] + later)[k])
    {
      if k < |pending| - 1 {
        StillWaits(p, chain, depth, pending[0], ahead[0], pending[k + 1].klass, ahead[k + 1]);
      } else {
        assert (pending[1..] + bases)[k] == bases[k - (|pending| - 1)];
        BaseWaits(p, chain, depth, pending[0], ahead[0], bases[k - (|pending| - 1)].klass);
      }
    }
  }

  lemma ViewKept(p: Program, first: Link, chain: seq<Link>, depth: seq<nat>, pending: seq<Link>, ahead: seq<nat>,
                 bases: seq<Link>, later: seq<nat>)
    requires Searching(p, first, chain, depth, pending, ahead) && pending != [] && AreBases(p, pending[0].klass, bases)
    requires |later| == |bases| && forall k | 0 <= k < |later| :: later[k] == ahead[0] + 1
    ensures forall i, base | 0 <= i < |chain| + 1 && HasBase(p, (chain + [pending[0]])[i].klass, base) ::
              InView(chain + [pending[0]], depth + [ahead[0]], pending[1..] + bases, ahead[1..] + later,
                     base, (depth + [ahead[0]])[i] + 1)
  {
    hide InOrder, InView, HasParent, WaitsFor, NoRepeats, HasBase, Lists;
    forall i, base | 0 <= i < |chain| + 1 && HasBase(p, (chain + [pending[0]])[i].klass, base)
      ensures InView(chain + [pending[0]], depth + [ahead[0]], pending[1..] + bases, ahead[1..] + later,
                     base, (depth + [ahead[0]])[i] + 1)
    {
      if i < |chain| {
        ListingKeepsView(chain, depth, pending, ahead, bases, later, base, depth[i] + 1);
      } else {
        QueuedIsInView(chain + [pending[0]], depth + [ahead[0]], pending[1..], ahead[1..], bases, later, base,
                       ahead[0] + 1);
      }
    }
  }

  lemma NewHasParent(p: Program, chain: seq<Link>, depth: seq<nat>, next: Link, d: nat)
    requires |depth| == |chain| > 0 && WaitsFor(p, chain, depth, next.klass, d)
    ensures HasParent(p, chain + [next], depth + [d], |chain|)
  {
    WaitingStays(p, chain, depth, next, d, next.klass, d);
    assert (chain + [next])[|chain|] == next && (depth + [d])[|chain|] == d;
  }

  lemma StillWaits(p: Program, chain: seq<Link>, depth: seq<nat>, next: Link, d: nat, klass: ClassDef, at: nat)
    requires |depth| == |chain| && WaitsFor(p, chain, depth, klass, at)
    ensures WaitsFor(p, chain + [next], depth + [d], klass, at)
  {
    WaitingStays(p, chain, depth, next, d, klass, at);
  }

  lemma SearchEnds(p: Program, first: Link, chain: seq<Link>, depth: seq<nat>)
    requires Searching(p, first, chain, depth, [], [])
    ensures IsLayered(p, first.klass, chain, depth)
  {
  }

  lemma BaseClasses(p: Program, klass: ClassDef)
    ensures AreBases(p, klass, BaseLinks(p, BaseNames(p, klass)))
  {
    var links := BaseLinks(p, BaseNames(p, klass));
    forall base ensures Lists(links, base) <==> HasBase(p, klass, base) {
      BaseLinksAreTheBases(p, BaseNames(p, klass), base);
    }
    forall l | l in links ensures HasBase(p, klass, l.klass) {
      assert Lists(links, l.klass);
    }
  }

  // ------------------------------------------------------------ the order of the chain

  /** The place of a base name: in the definition of the class at `parent` in the chain, the `at`-th name. */
  datatype Place = Place(parent: nat, at: nat)

  /** The name at `o` stands for the link. */
  predicate IsNamedAt(p: Program, chain: seq<Link>, o: Place, l: Link) {
    o.parent < |chain| && chain[o.parent].klass in p.bases && o.at < |p.bases[chain[o.parent].klass]| &&
    l.path == p.bases[chain[o.parent].klass][o.at] && l.path in p.classes && l.klass == p.classes[l.path]
  }

  /** Nearer to the front of the chain, or earlier in the same definition. */
  predicate Sooner(a: Place, b: Place) {
    a.parent < b.parent || (a.parent == b.parent && a.at < b.at)
  }

  ghost predicate IsMetBy(chain: seq<Link>, places: seq<Place>, klass: ClassDef, o: Place)
    requires |places| == |chain|
  {
    exists j | 0 <= j < |chain| :: IsMetAt(chain, places, j, klass, o)
  }

  ghost predicate IsMetAt(chain: seq<Link>, places: seq<Place>, j: int, klass: ClassDef, o: Place)
    requires |places| == |chain| && 0 <= j < |chain|
  {
    chain[j].klass == klass && (j == 0 || places[j] == o || Sooner(places[j], o))
  }

  /** Each class after the first is listed where it is first named, and in the order of those places. */
  ghost predicate IsInOrderMet(p: Program, chain: seq<Link>, places: seq<Place>) {
    |places| == |chain| &&
    (forall j | 0 < j < |chain| :: places[j].parent < j && IsNamedAt(p, chain, places[j], chain[j])) &&
    (forall j, k | 0 < j < k < |chain| :: Sooner(places[j], places[k])) &&
    (forall o, l | IsNamedAt(p, chain, o, l) :: IsMetBy(chain, places, l.klass, o))
  }

  /** The same, on the way: `due` holds the places of what is queued. */
  ghost predicate Meeting(p: Program, first: Link, chain: seq<Link>, places: seq<Place>,
                          pending: seq<Link>, due: seq<Place>) {
    |places| == |chain| && |due| == |pending| &&
    (if chain == [] then pending == [first] else chain[0] == first) &&
    (forall j | 0 < j < |chain| :: places[j].parent < j && IsNamedAt(p, chain, places[j], chain[j])) &&
    (chain != [] ==> forall k | 0 <= k < |pending| :: IsNamedAt(p, chain, due[k], pending[k])) &&
    (forall j, k | 0 < j < k < |chain| :: Sooner(places[j], places[k])) &&
    (forall j, k | 0 < j < |chain| && 0 <= k < |due| :: Sooner(places[j], due[k])) &&
    (forall j, k | 0 <= j < k < |due| :: Sooner(due[j], due[k])) &&
    (forall o, l | IsNamedAt(p, chain, o, l) :: o in due || IsMetBy(chain, places, l.klass, o))
  }

  /** The places of the local classes among `names[from..]`. */
  ghost function PlacesOf(p: Program, names: seq<string>, parent: nat, from: nat): seq<Place>
    requires from <= |names|
    decreases |names| - from
  {
    if from == |names| then []
    else (if names[from] in p.classes then [Place(parent, from)] else []) + PlacesOf(p, names, parent, from + 1)
  }

  lemma {:induction false} PlacesAreInOrder(p: Program, names: seq<string>, parent: nat, from: nat)
    requires from <= |names|
    ensures var places, links := PlacesOf(p, names, parent, from), BaseLinks(p, names[from..]);
      |places| == |links| &&
      (forall k | 0 <= k < |places| :: places[k].parent == parent && from <= places[k].at < |names| &&
        names[places[k].at] in p.classes &&
        links[k] == Link(p.classes[names[places[k].at]], names[places[k].at])) &&
      (forall j, k | 0 <= j < k < |places| :: Sooner(places[j], places[k])) &&
      (forall at: nat | from <= at < |names| && names[at] in p.classes :: Place(parent, at) in places)
    decreases |names| - from
  {
    if from < |names| {
      assert names[from..][1..] == names[from + 1..];
      PlacesAreInOrder(p, names, parent, from + 1);
    }
  }

  lemma PlaceStays(p: Program, chain: seq<Link>, next: Link, o: Place, l: Link)
    ensures IsNamedAt(p, chain, o, l) ==> IsNamedAt(p, chain + [next], o, l)
    ensures IsNamedAt(p, chain + [next], o, l) && o.parent < |chain| ==> IsNamedAt(p, chain, o, l)
  {
  }

  lemma MetStays(chain: seq<Link>, places: seq<Place>, next: Link, at: Place, klass: ClassDef, o: Place)
    requires |places| == |chain| && IsMetBy(chain, places, klass, o)
    ensures IsMetBy(chain + [next], places + [at], klass, o)
  {
    var j :| 0 <= j < |chain| && IsMetAt(chain, places, j, klass, o);
    assert IsMetAt(chain + [next], places + [at], j, klass, o);
  }

  /** Dropping a class met before: it was met at a sooner place. */
  lemma SkipKeepsMeeting(p: Program, first: Link, chain: seq<Link>, places: seq<Place>,
                         pending: seq<Link>, due: seq<Place>)
    requires Meeting(p, first, chain, places, pending, due) && pending != [] && Lists(chain, pending[0].klass)
    ensures Meeting(p, first, chain, places, pending[1..], due[1..])
  {
    var j :| 0 <= j < |chain| && chain[j].klass == pending[0].klass;
    forall o, l | IsNamedAt(p, chain, o, l) ensures o in due[1..] || IsMetBy(chain, places, l.klass, o) {
      if o in due && o !in due[1..] {
        assert o == due[0] && l == pending[0];
        assert IsMetAt(chain, places, j, l.klass, o);
      }
    }
  }

  lemma OrderKept(places: seq<Place>, due: seq<Place>, more: seq<Place>)
    requires due != [] && forall j, k | 0 < j < k < |places| :: Sooner(places[j], places[k])
    requires forall j, k | 0 < j < |places| && 0 <= k < |due| :: Sooner(places[j], due[k])
    requires forall j, k | 0 <= j < k < |due| :: Sooner(due[j], due[k])
    requires places != [] ==> forall k | 0 <= k < |due| :: due[k].parent < |places|
    requires forall k | 0 <= k < |more| :: more[k].parent == |places|
    ensures var at, later := places + [due[0]], due[1..] + more;
      (forall j, k | 0 < j < k < |at| :: Sooner(at[j], at[k])) &&
      (forall j, k | 0 < j < |at| && 0 <= k < |later| :: Sooner(at[j], later[k]))
  {
    var at, later := places + [due[0]], due[1..] + more;
    forall j, k | 0 < j < |at| && 0 <= k < |later| ensures Sooner(at[j], later[k]) {
      if k >= |due| - 1 {
        assert j < |places| ==> Sooner(places[j], due[0]);
      }
    }
  }

  lemma ListedKeepsPlaces(p: Program, first: Link, chain: seq<Link>, places: seq<Place>,
                          pending: seq<Link>, due: seq<Place>)
    requires Meeting(p, first, chain, places, pending, due) && pending != []
    ensures var listed, at := chain + [pending[0]], places + [due[0]];
      forall j | 0 < j < |listed| :: at[j].parent < j && IsNamedAt(p, listed, at[j], listed[j])
  {
    hide IsMetBy, Sooner;
    var listed, at := chain + [pending[0]], places + [due[0]];
    DueIsNamed(p, first, chain, places, pending, due);
    hide IsNamedAt;
    forall j | 0 < j < |listed| ensures at[j].parent < j && IsNamedAt(p, listed, at[j], listed[j]) {
      PlaceStays(p, chain, pending[0], at[j], listed[j]);
    }
  }

  lemma DueIsNamed(p: Program, first: Link, chain: seq<Link>, places: seq<Place>, pending: seq<Link>, due: seq<Place>)
    requires Meeting(p, first, chain, places, pending, due)
    ensures chain != [] ==> forall k | 0 <= k < |due| :: due[k].parent < |chain|
    ensures forall j | 0 < j < |chain| :: places[j].parent < |chain|
  {
    hide IsMetBy;
  }

  /** Listing a new class and queueing its bases behind the others. */
  lemma ListKeepsMeeting(p: Program, first: Link, chain: seq<Link>, places: seq<Place>,
                         pending: seq<Link>, due: seq<Place>)
    requires Meeting(p, first, chain, places, pending, due) && pending != [] && !Lists(chain, pending[0].klass)
    ensures var names := BaseNames(p, pending[0].klass);
      Meeting(p, first, chain + [pending[0]], places + [due[0]], pending[1..] + BaseLinks(p, names),
              due[1..] + PlacesOf(p, names, |chain|, 0))
  {
    hide IsMetBy, BaseLinks, PlacesOf, Sooner, IsNamedAt, BaseNames, Lists;
    var next := pending[0];
    var names := BaseNames(p, next.klass);
    var links, more := BaseLinks(p, names), PlacesOf(p, names, |chain|, 0);
    PlacesAreInOrder(p, names, |chain|, 0);
    assert names[0..] == names;
    QueueKeepsPlaces(p, chain, pending, due, names, links, more);
    DueIsNamed(p, first, chain, places, pending, due);
    OrderKept(places, due, more);
    ListedKeepsPlaces(p, first, chain, places, pending, due);
    forall o, l | IsNamedAt(p, chain + [next], o, l)
      ensures o in due[1..] + more || IsMetBy(chain + [next], places + [due[0]], l.klass, o)
    {
      NewOrMet(p, first, chain, places, pending, due, more, o, l);
    }
  }

  lemma QueueKeepsPlaces(p: Program, chain: seq<Link>, pending: seq<Link>, due: seq<Place>, names: seq<string>,
                         links: seq<Link>, more: seq<Place>)
    requires |due| == |pending| > 0 && |links| == |more| && names == BaseNames(p, pending[0].klass)
    requires chain != [] ==> forall k | 0 <= k < |pending| :: IsNamedAt(p, chain, due[k], pending[k])
    requires chain == [] ==> |pending| == 1
    requires forall j, k | 0 <= j < k < |due| :: Sooner(due[j], due[k])
    requires forall k | 0 <= k < |more| ::
      more[k].parent == |chain| && more[k].at < |names| && names[more[k].at] in p.classes &&
      links[k] == Link(p.classes[names[more[k].at]], names[more[k].at])
    requires forall j, k | 0 <= j < k < |more| :: Sooner(more[j], more[k])
    ensures var queue, places := pending[1..] + links, due[1..] + more;
      (forall k | 0 <= k < |queue| :: IsNamedAt(p, chain + [pending[0]], places[k], queue[k])) &&
      (forall j, k | 0 <= j < k < |places| :: Sooner(places[j], places[k]))
  {
    var queue, places := pending[1..] + links, due[1..] + more;
    forall k | 0 <= k < |queue| ensures IsNamedAt(p, chain + [pending[0]], places[k], queue[k]) {
      if k < |pending| - 1 {
        PlaceStays(p, chain, pending[0], due[k + 1], pending[k + 1]);
      }
    }
  }

  lemma NewOrMet(p: Program, first: Link, chain: seq<Link>, places: seq<Place>, pending: seq<Link>, due: seq<Place>,
                 more: seq<Place>, o: Place, l: Link)
    requires Meeting(p, first, chain, places, pending, due) && pending != []
    requires IsNamedAt(p, chain + [pending[0]], o, l)
    requires var names := BaseNames(p, pending[0].klass);
      forall at: nat | at < |names| && names[at] in p.classes :: Place(|chain|, at) in more
    ensures o in due[1..] + more || IsMetBy(chain + [pending[0]], places + [due[0]], l.klass, o)
  {
    var next := pending[0];
    if o.parent == |chain| {
      assert o == Place(|chain|, o.at) && o in more;
    } else {
      PlaceStays(p, chain, next, o, l);
      if IsMetBy(chain, places, l.klass, o) {
        MetStays(chain, places, next, due[0], l.klass, o);
      } else if o !in due[1..] {
        assert o == due[0] && l == next;
        assert IsMetAt(chain + [next], places + [due[0]], |chain|, l.klass, o);
      }
    }
  }

  lemma LaterIsNotSooner(p: Program, chain: seq<Link>, places: seq<Place>, n: nat, j: nat, o: Place)
    requires IsInOrderMet(p, chain, places) && 0 < n <= j < |chain| && Sooner(o, places[n])
    ensures places[j] != o && !Sooner(places[j], o)
  {
    assert j == n || Sooner(places[n], places[j]);
  }

  /** A class named in what two chains share, sooner than the other chain's next class, is in what they share. */
  lemma NamedSoonerIsShared(p: Program, a: seq<Link>, b: seq<Link>, atA: seq<Place>, atB: seq<Place>, n: nat)
    requires IsInOrderMet(p, a, atA) && IsInOrderMet(p, b, atB)
    requires 0 < n < |a| && n <= |b| && a[..n] == b[..n] && (n == |b| || Sooner(atA[n], atB[n]))
    ensures Lists(a[..n], a[n].klass)
  {
    var o := atA[n];
    assert a[..n][o.parent] == b[..n][o.parent];
    assert IsNamedAt(p, b, o, a[n]);
    var j :| 0 <= j < |b| && IsMetAt(b, atB, j, a[n].klass, o);
    if n < |b| && n <= j {
      LaterIsNotSooner(p, b, atB, n, j, o);
    }
    assert a[..n][j] == b[..n][j] && a[..n][j] in a[..n];
  }

  lemma NewIsNotShared(chain: seq<Link>, n: nat)
    requires NoRepeats(chain) && n < |chain|
    ensures !Lists(chain[..n], chain[n].klass)
  {
  }

  lemma SamePlaceSameLink(p: Program, a: seq<Link>, b: seq<Link>, o: Place, l: Link, m: Link, n: nat)
    requires n <= |a| && n <= |b| && a[..n] == b[..n] && o.parent < n
    requires IsNamedAt(p, a, o, l) && IsNamedAt(p, b, o, m)
    ensures l == m
  {
    assert a[..n][o.parent] == b[..n][o.parent];
  }

  lemma {:induction false} PrefixesAgree(p: Program, a: seq<Link>, b: seq<Link>, atA: seq<Place>, atB: seq<Place>,
                                         n: nat)
    requires IsInOrderMet(p, a, atA) && IsInOrderMet(p, b, atB) && NoRepeats(a) && NoRepeats(b)
    requires 0 < n <= |a| && n <= |b| && a[0] == b[0]
    ensures a[..n] == b[..n]
    decreases n
  {
    hide IsInOrderMet, NoRepeats;
    if n > 1 {
      PrefixesAgree(p, a, b, atA, atB, n - 1);
      NextAgrees(p, a, b, atA, atB, n - 1);
      assert a[..n] == a[..n - 1] + [a[n - 1]] && b[..n] == b[..n - 1] + [b[n - 1]];
    }
  }

  lemma NextAgrees(p: Program, a: seq<Link>, b: seq<Link>, atA: seq<Place>, atB: seq<Place>, n: nat)
    requires IsInOrderMet(p, a, atA) && IsInOrderMet(p, b, atB) && NoRepeats(a) && NoRepeats(b)
    requires 0 < n < |a| && n < |b| && a[..n] == b[..n]
    ensures a[n] == b[n]
  {
    NewIsNotShared(a, n);
    NewIsNotShared(b, n);
    if Sooner(atA[n], atB[n]) {
      NamedSoonerIsShared(p, a, b, atA, atB, n);
    } else if Sooner(atB[n], atA[n]) {
      NamedSoonerIsShared(p, b, a, atB, atA, n);
    } else {
      SamePlaceSameLink(p, a, b, atA[n], a[n], b[n], n);
    }
  }

  /** The order in which base names are met fixes the chain: there is no other that starts with the same class. */
  lemma ChainIsDetermined(p: Program, a: seq<Link>, b: seq<Link>, atA: seq<Place>, atB: seq<Place>)
    requires IsInOrderMet(p, a, atA) && IsInOrderMet(p, b, atB) && NoRepeats(a) && NoRepeats(b)
    requires a != [] && b != [] && a[0] == b[0]
    ensures a == b
  {
    hide IsInOrderMet, NoRepeats, Lists;
    if |a| <= |b| {
      PrefixesAgree(p, a, b, atA, atB, |a|);
      if |a| < |b| {
        NamedSoonerIsShared(p, b, a, atB, atA, |a|);
        NewIsNotShared(b, |a|);
      }
    } else {
      PrefixesAgree(p, a, b, atA, atB, |b|);
      NamedSoonerIsShared(p, a, b, atA, atB, |b|);
      NewIsNotShared(a, |b|);
    }
  }

  /** The classes a chain can hold at all. */
  function Universe(p: Program, root: ClassDef): set<ClassDef> {
    {root} + p.classes.Values
  }

  ghost function Unlisted(p: Program, root: ClassDef, chain: seq<Link>): set<ClassDef> {
    set k | k in Universe(p, root) && !Lists(chain, k)
  }

  lemma ListingShrinks(p: Program, root: ClassDef, chain: seq<Link>, next: Link)
    requires next.klass in Universe(p, root) && !Lists(chain, next.klass)
    ensures Unlisted(p, root, chain + [next]) < Unlisted(p, root, chain)
  {
    assert next in chain + [next] && Lists(chain + [next], next.klass);
    forall k | Lists(chain, k) ensures Lists(chain + [next], k) {
      var l :| l in chain && l.klass == k;
      assert l in chain + [next];
    }
    assert next.klass in Unlisted(p, root, chain) && next.klass !in Unlisted(p, root, chain + [next]);
  }

  /** An entry other than the test class itself is named as the module names it. */
  predicate IsNamed(p: Program, l: Link) {
    l.path in p.classes && p.classes[l.path] == l.klass
  }

  predicate AreNamed(p: Program, first: Link, links: seq<Link>) {
    forall l | l in links :: l == first || IsNamed(p, l)
  }

  lemma NamedIsInUniverse(p: Program, first: Link, l: Link)
    requires l == first || IsNamed(p, l)
    ensures l.klass in Universe(p, first.klass)
  {
  }

  lemma {:induction false} BaseLinksAreNamed(p: Program, first: Link, names: seq<string>)
    ensures AreNamed(p, first, BaseLinks(p, names))
  {
    if names != [] {
      BaseLinksAreNamed(p, first, names[1..]);
    }
  }

  /** _class_chain: it ends on every base-class graph, circles included, and lists nearest classes first. */
  method ClassChain(p: Program, cls: Option<ClassDef>, path: string) returns (chain: seq<Link>, ghost depth: seq<nat>)
    ensures cls.None? ==> chain == []
    ensures cls.Some? ==> IsLayered(p, cls.value, chain, depth) && chain[0] == Link(cls.value, path)
    ensures cls.Some? ==> AreNamed(p, Link(cls.value, path), chain)
    ensures exists places :: IsInOrderMet(p, chain, places)
  {
    hide Searching, IsLayered, Meeting, IsInOrderMet;
    chain, depth := [], [];
    if cls.None? {
      NothingIsMet(p);
      return;
    }
    var first := Link(cls.value, path);
    var pending := [first];
    ghost var ahead: seq<nat> := [0];
    ghost var places: seq<Place>, due: seq<Place> := [], [Place(0, 0)];
    SearchStarts(p, first);
    MeetingStarts(p, first);
    while pending != []
      invariant Searching(p, first, chain, depth, pending, ahead)
      invariant Meeting(p, first, chain, places, pending, due)
      invariant AreNamed(p, first, chain) && AreNamed(p, first, pending)
      decreases Unlisted(p, cls.value, chain), |pending|
    {
      var link := pending[0];
      SearchingLengths(p, first, chain, depth, pending, ahead);
      if Lists(chain, link.klass) {
        SkipKeepsSearching(p, first, chain, depth, pending, ahead);
        MeetingLengths(p, first, chain, places, pending, due);
        SkipKeepsMeeting(p, first, chain, places, pending, due);
        pending, ahead, due := pending[1..], ahead[1..], due[1..];
        continue;
      }
      NamedIsInUniverse(p, first, link);
      var bases := BaseLinks(p, BaseNames(p, link.klass));
      BaseClasses(p, link.klass);
      BaseLinksAreNamed(p, first, BaseNames(p, link.klass));
      ListKeepsSearching(p, first, chain, depth, pending, ahead, bases);
      MeetingLengths(p, first, chain, places, pending, due);
      ListKeepsMeeting(p, first, chain, places, pending, due);
      ListingShrinks(p, cls.value, chain, link);
      depth, ahead := depth + [ahead[0]], ahead[1..] + Repeated(|bases|, ahead[0] + 1);
      places, due := places + [due[0]], due[1..] + PlacesOf(p, BaseNames(p, link.klass), |chain|, 0);
      chain, pending := chain + [link], pending[1..] + bases;
    }
    SearchingLengths(p, first, chain, depth, pending, ahead);
    SearchEnds(p, first, chain, depth);
    MeetingEnds(p, first, chain, places, due);
  }

  lemma NothingIsMet(p: Program)
    ensures exists places :: IsInOrderMet(p, [], places)
  {
    assert IsInOrderMet(p, [], []);
  }

  lemma MeetingStarts(p: Program, first: Link)
    ensures Meeting(p, first, [], [], [first], [Place(0, 0)])
  {
  }

  lemma MeetingLengths(p: Program, first: Link, chain: seq<Link>, places: seq<Place>, pending: seq<Link>,
                       due: seq<Place>)
    requires Meeting(p, first, chain, places, pending, due)
    ensures |places| == |chain| && |due| == |pending|
  {
  }

  lemma MeetingEnds(p: Program, first: Link, chain: seq<Link>, places: seq<Place>, due: seq<Place>)
    requires Meeting(p, first, chain, places, [], due)
    ensures exists places :: IsInOrderMet(p, chain, places)
  {
    assert IsInOrderMet(p, chain, places);
  }

  lemma SearchStarts(p: Program, first: Link)
    ensures Searching(p, first, [], [], [first], [0])
  {
  }

  lemma SearchingLengths(p: Program, first: Link, chain: seq<Link>, depth: seq<nat>, pending: seq<Link>,
                         ahead: seq<nat>)
    requires Searching(p, first, chain, depth, pending, ahead)
    ensures |depth| == |chain| && |ahead| == |pending| && (pending == [] ==> chain != [] && chain[0] == first)
  {
  }
}
