/**
 _asserting_helpers of scripts/check_test_vacuity.py: which checks a call to a local helper adds.
 The script iterates over dictionaries and sets until nothing changes; the order of a set varies
 from run to run.  The map it returns does not: it is the unique least solution of the helper
 equations, in the order where a sound helper ({REAL}) is above everything.
 */
module VacuityHelpers {
  import opened Wrappers

  datatype Check = Real | Mock | MockArgs | Existence | EnumPin | Frozen | Timing

  type Kinds = set<Check>

  const ALL_CHECKS: Kinds := {Real, Mock, MockArgs, Existence, EnumPin, Frozen, Timing}

  datatype Shape = V1 | V2 | V3 | V5

  /** classify_checks: the banned shape of a set of checks, or None when it is sound. */
  function Classify(kinds: Kinds): Option<Shape> {
    if kinds == {} then Some(V1)
    else if kinds <= {Frozen, EnumPin} then Some(V5)
    else if kinds == {Mock} then Some(V2)
    else if Existence in kinds && kinds <= {Existence, Mock} then Some(V3)
    else None
  }

  /** A check of its own, or a pinned constant together with a check that something is there or was called. */
  ghost predicate ChecksSomething(kinds: Kinds) {
    Real in kinds || MockArgs in kinds || Timing in kinds ||
    ((Frozen in kinds || EnumPin in kinds) && (Existence in kinds || Mock in kinds))
  }

  ghost predicate Only(kinds: Kinds, a: Check, b: Check) {
    forall k | k in kinds :: k == a || k == b
  }

  /** Check by check, which sets are sound and which banned shape each other set has. */
  lemma ClassifyByMembership(kinds: Kinds)
    ensures Classify(kinds) == None <==> ChecksSomething(kinds)
    ensures Classify(kinds) == Some(V1) <==> forall k :: k !in kinds
    ensures Classify(kinds) == Some(V2) <==> Mock in kinds && Only(kinds, Mock, Mock)
    ensures Classify(kinds) == Some(V3) <==> Existence in kinds && Only(kinds, Existence, Mock)
    ensures Classify(kinds) == Some(V5) <==> (Frozen in kinds || EnumPin in kinds) && Only(kinds, Frozen, EnumPin)
  {
    if kinds == {} {
      assert forall k :: k !in kinds;
    } else {
      var k :| k in kinds;
      assert kinds == {Mock} <==> Mock in kinds && Only(kinds, Mock, Mock);
      assert kinds <= {Frozen, EnumPin} <==> Only(kinds, Frozen, EnumPin);
      assert kinds <= {Existence, Mock} <==> Only(kinds, Existence, Mock);
    }
  }

  predicate IsSound(kinds: Kinds) {
    Classify(kinds) == None
  }

  /** What a helper with these checks is worth to its callers. */
  ghost function Worth(kinds: Kinds): Kinds {
    if ChecksSomething(kinds) then {Real} else kinds
  }

  /** _helper_contribution: a sound helper adds one real check, a vacuous one adds its own kinds. */
  function Contribution(kinds: Kinds): Kinds {
    if IsSound(kinds) then {Real} else kinds
  }

  lemma ContributionIsWorth(kinds: Kinds)
    ensures Contribution(kinds) == Worth(kinds)
  {
    ClassifyByMembership(kinds);
  }

  /** Adding checks never makes a sound set vacuous. */
  lemma SoundnessIsUpwardClosed(a: Kinds, b: Kinds)
    requires a <= b
    ensures IsSound(a) ==> IsSound(b)
  {
  }

  lemma RealIsSound(kinds: Kinds)
    requires Real in kinds
    ensures IsSound(kinds)
  {
  }

  /** Contribution is not monotone under plain inclusion: learning more can drop what was there. */
  lemma NotMonotoneUnderInclusion()
    ensures exists a: Kinds, b: Kinds :: a <= b && !(Contribution(a) <= Contribution(b))
  {
    var a: Kinds, b: Kinds := {Mock}, {Mock, Timing};
    assert Mock in Contribution(a) && Mock !in Contribution(b);
    assert a <= b && !(Contribution(a) <= Contribution(b));
  }

  /** The order that does fit: {REAL} on top, inclusion below it. */
  predicate Below(a: Kinds, b: Kinds) {
    b == {Real} || a <= b
  }

  lemma ContributionIsMonotone(a: Kinds, b: Kinds)
    requires a <= b
    ensures Below(Contribution(a), Contribution(b))
  {
  }

  // ------------------------------------------------------------ the helper equations

  type Helpers = map<string, Kinds>
  type Calls = map<string, set<string>>

  /** What reaches `name`: its own checks and what its local callees add. */
  ghost function Incoming(direct: Helpers, calls: Calls, v: Helpers, name: string): Kinds
    requires name in direct
  {
    set k | k in ALL_CHECKS && Arrives(direct, calls, v, name, k)
  }

  ghost predicate Arrives(direct: Helpers, calls: Calls, v: Helpers, name: string, k: Check)
    requires name in direct
  {
    k in direct[name] || exists c :: c in v && CallsTo(calls, name, c) && k in v[c]
  }

  predicate CallsTo(calls: Calls, name: string, callee: string) {
    name in calls && callee in calls[name]
  }

  ghost predicate IsSolution(direct: Helpers, calls: Calls, v: Helpers) {
    v.Keys == direct.Keys && forall n | n in direct :: v[n] == Worth(Incoming(direct, calls, v, n))
  }

  lemma SolutionAt(direct: Helpers, calls: Calls, v: Helpers, n: string)
    requires IsSolution(direct, calls, v) && n in direct
    ensures n in v && v[n] == Contribution(Incoming(direct, calls, v, n))
  {
    ContributionIsWorth(Incoming(direct, calls, v, n));
  }

  ghost predicate IsLeastSolution(direct: Helpers, calls: Calls, v: Helpers) {
    IsSolution(direct, calls, v) &&
    forall w | IsSolution(direct, calls, w) :: forall n | n in direct :: Below(v[n], w[n])
  }

  /** There is at most one least solution, so the answer cannot depend on the order of visits. */
  lemma LeastSolutionIsUnique(direct: Helpers, calls: Calls, v: Helpers, w: Helpers)
    requires IsLeastSolution(direct, calls, v) && IsLeastSolution(direct, calls, w)
    ensures v == w
  {
    hide Incoming, Contribution, Worth;
    forall n | n in direct ensures v[n] == w[n] {
      assert Below(v[n], w[n]) && Below(w[n], v[n]);
      SolutionAt(direct, calls, v, n);
      SolutionAt(direct, calls, w, n);
      ContributionWithReal(Incoming(direct, calls, v, n));
      ContributionWithReal(Incoming(direct, calls, w, n));
    }
  }

  /** A contribution that holds REAL is {REAL}. */
  lemma ContributionWithReal(kinds: Kinds)
    ensures Real in Contribution(kinds) ==> Contribution(kinds) == {Real}
  {
  }

  // ------------------------------------------------------------ the iteration's state

  function Contributions(kinds: Helpers): Helpers {
    map n | n in kinds :: Contribution(kinds[n])
  }

  ghost predicate Grown(small: Helpers, large: Helpers) {
    small.Keys == large.Keys && forall n | n in small :: small[n] <= large[n]
  }

  /** Nothing is there without a reason, except where a real check makes the rest irrelevant. */
  ghost predicate Justified(direct: Helpers, calls: Calls, kinds: Helpers) {
    kinds.Keys == direct.Keys && forall n | n in direct :: IsJustified(direct, calls, kinds, n)
  }

  ghost predicate IsJustified(direct: Helpers, calls: Calls, kinds: Helpers, n: string)
    requires n in direct && n in kinds
  {
    var incoming := Incoming(direct, calls, Contributions(kinds), n);
    kinds[n] <= incoming || Real in incoming
  }

  ghost predicate BelowSolutions(direct: Helpers, calls: Calls, kinds: Helpers) {
    kinds.Keys == direct.Keys &&
    forall w, n | IsSolution(direct, calls, w) && n in direct :: Below(Contribution(kinds[n]), w[n])
  }

  ghost predicate Iterating(direct: Helpers, calls: Calls, kinds: Helpers) {
    Grown(direct, kinds) && Justified(direct, calls, kinds) && BelowSolutions(direct, calls, kinds)
  }

  ghost predicate PairClosed(calls: Calls, kinds: Helpers, name: string, callee: string) {
    name in kinds && callee in kinds && CallsTo(calls, name, callee) ==> Contribution(kinds[callee]) <= kinds[name]
  }

  ghost predicate Closed(calls: Calls, kinds: Helpers) {
    forall name, callee :: PairClosed(calls, kinds, name, callee)
  }

  // ------------------------------------------------------------ steps

  lemma StartIterates(direct: Helpers, calls: Calls)
    ensures Iterating(direct, calls, direct)
  {
    forall n | n in direct ensures IsJustified(direct, calls, direct, n) {
      forall k | k in direct[n] ensures k in Incoming(direct, calls, Contributions(direct), n) {
        AllChecksListed(k);
        assert Arrives(direct, calls, Contributions(direct), n, k);
      }
    }
    forall w, n | IsSolution(direct, calls, w) && n in direct ensures Below(Contribution(direct[n]), w[n]) {
      SolutionAt(direct, calls, w, n);
      DirectArrives(direct, calls, w, n);
      ContributionIsMonotone(direct[n], Incoming(direct, calls, w, n));
    }
  }

  lemma AllChecksListed(k: Check)
    ensures k in ALL_CHECKS
  {
  }

  lemma DirectArrives(direct: Helpers, calls: Calls, v: Helpers, n: string)
    requires n in direct
    ensures direct[n] <= Incoming(direct, calls, v, n)
  {
    forall k | k in direct[n] ensures k in Incoming(direct, calls, v, n) {
      AllChecksListed(k);
    }
  }

  lemma CalleeArrives(direct: Helpers, calls: Calls, v: Helpers, n: string, c: string)
    requires n in direct && c in v && CallsTo(calls, n, c)
    ensures v[c] <= Incoming(direct, calls, v, n)
  {
    forall k | k in v[c] ensures k in Incoming(direct, calls, v, n) {
      AllChecksListed(k);
      assert Arrives(direct, calls, v, n, k);
    }
  }

  function Added(kinds: Helpers, name: string, callee: string): Helpers
    requires name in kinds && callee in kinds
  {
    kinds[name := kinds[name] + Contribution(kinds[callee])]
  }

  /** More kinds everywhere never take away a reason, unless they put a real check in its place. */
  lemma IncomingGrows(direct: Helpers, calls: Calls, small: Helpers, large: Helpers, n: string, k: Check)
    requires Grown(small, large) && n in direct && k in Incoming(direct, calls, Contributions(small), n)
    ensures k in Incoming(direct, calls, Contributions(large), n) ||
      Real in Incoming(direct, calls, Contributions(large), n)
  {
  }

  lemma GrowthKeepsJustified(direct: Helpers, calls: Calls, small: Helpers, large: Helpers, n: string)
    requires Grown(small, large) && n in direct && n in small && IsJustified(direct, calls, small, n)
    ensures small[n] <= Incoming(direct, calls, Contributions(large), n) ||
      Real in Incoming(direct, calls, Contributions(large), n)
  {
  }

  lemma AddKeepsJustified(direct: Helpers, calls: Calls, kinds: Helpers, name: string, callee: string)
    requires Justified(direct, calls, kinds) && name in kinds && callee in kinds && CallsTo(calls, name, callee)
    ensures Justified(direct, calls, Added(kinds, name, callee))
  {
    var more := Added(kinds, name, callee);
    assert Grown(kinds, more);
    forall n | n in direct ensures IsJustified(direct, calls, more, n) {
      GrowthKeepsJustified(direct, calls, kinds, more, n);
      if n == name && Real !in Incoming(direct, calls, Contributions(more), n) {
        forall k | k in Contribution(kinds[callee]) ensures k in Incoming(direct, calls, Contributions(more), n) {
          CalleeArrives(direct, calls, Contributions(kinds), n, callee);
          IncomingGrows(direct, calls, kinds, more, n, k);
        }
      }
    }
  }

  lemma SolutionHasAll(direct: Helpers, calls: Calls, w: Helpers, kinds: Helpers)
    requires IsSolution(direct, calls, w) && BelowSolutions(direct, calls, kinds)
    ensures w.Keys == direct.Keys == kinds.Keys
  {
  }

  /** Whatever a solution says, what the iteration adds stays below it. */
  lemma AddStaysBelow(direct: Helpers, calls: Calls, kinds: Helpers, name: string, callee: string, w: Helpers)
    requires BelowSolutions(direct, calls, kinds) && IsSolution(direct, calls, w)
    requires name in kinds && callee in kinds && CallsTo(calls, name, callee)
    ensures Below(Contribution(kinds[name] + Contribution(kinds[callee])), w[name])
  {
    hide Worth, IsSolution;
    var incoming := Incoming(direct, calls, w, name);
    assert name in w && callee in w && callee in direct by { SolutionHasAll(direct, calls, w, kinds); }
    SolutionAt(direct, calls, w, name);
    assert Below(Contribution(kinds[name]), w[name]) && Below(Contribution(kinds[callee]), w[callee]);
    CalleeArrives(direct, calls, w, name, callee);
    if !IsSound(incoming) {
      ContributionWithReal(kinds[name]);
      assert Real !in incoming by {
        if Real in incoming {
          RealIsSound(incoming);
        }
      }
      assert kinds[name] <= incoming;
      assert Contribution(kinds[callee]) <= incoming;
      ContributionIsMonotone(kinds[name] + Contribution(kinds[callee]), incoming);
    }
  }

  lemma AddIterates(direct: Helpers, calls: Calls, kinds: Helpers, name: string, callee: string)
    requires Iterating(direct, calls, kinds) && name in kinds && callee in kinds && CallsTo(calls, name, callee)
    ensures Iterating(direct, calls, Added(kinds, name, callee))
  {
    AddKeepsJustified(direct, calls, kinds, name, callee);
    forall w, n | IsSolution(direct, calls, w) && n in direct
      ensures Below(Contribution(Added(kinds, name, callee)[n]), w[n])
    {
      if n == name {
        AddStaysBelow(direct, calls, kinds, name, callee, w);
      }
    }
  }

  // ------------------------------------------------------------ the fixpoint

  lemma ClosedBoundsIncoming(direct: Helpers, calls: Calls, kinds: Helpers, n: string)
    requires Iterating(direct, calls, kinds) && Closed(calls, kinds) && n in direct
    ensures Incoming(direct, calls, Contributions(kinds), n) <= kinds[n]
  {
    var v := Contributions(kinds);
    forall k | k in Incoming(direct, calls, v, n) ensures k in kinds[n] {
      if k !in direct[n] {
        var c :| c in v && CallsTo(calls, n, c) && k in v[c];
        assert PairClosed(calls, kinds, n, c);
      }
    }
  }

  /** When a pass changes nothing, the contributions are the least solution. */
  lemma ClosedIsLeast(direct: Helpers, calls: Calls, kinds: Helpers)
    requires Iterating(direct, calls, kinds) && Closed(calls, kinds)
    ensures IsLeastSolution(direct, calls, Contributions(kinds))
  {
    var v := Contributions(kinds);
    forall n | n in direct ensures v[n] == Worth(Incoming(direct, calls, v, n)) {
      ContributionIsWorth(Incoming(direct, calls, v, n));
      var incoming := Incoming(direct, calls, v, n);
      ClosedBoundsIncoming(direct, calls, kinds, n);
      assert IsJustified(direct, calls, kinds, n);
      if Real in incoming {
        RealIsSound(incoming);
        RealIsSound(kinds[n]);
      } else {
        assert kinds[n] == incoming;
      }
    }
  }

  // ------------------------------------------------------------ the loop

  /** The facts still to be learned: how far the iteration can go. */
  ghost function Missing(kinds: Helpers): set<(string, Check)> {
    set n, k | n in kinds && k in ALL_CHECKS && k !in kinds[n] :: (n, k)
  }

  lemma AddedIsLearned(kinds: Helpers, name: string, callee: string)
    requires name in kinds && callee in kinds && !(Contribution(kinds[callee]) <= kinds[name])
    ensures Missing(Added(kinds, name, callee)) < Missing(kinds)
  {
    var k :| k in Contribution(kinds[callee]) && k !in kinds[name];
    AllChecksListed(k);
    assert (name, k) in Missing(kinds) && (name, k) !in Missing(Added(kinds, name, callee));
  }

  /** What a finished map reports: helpers that check, and helpers that only bear a helper's name. */
  ghost function Report(v: Helpers, prefixed: set<string>): Helpers {
    map n | n in v && (v[n] != {} || n in prefixed) :: if v[n] == {} then {Real} else v[n]
  }

  /** The last two statements: name-only helpers get a real check, then the empty ones are dropped. */
  function Finished(kinds: Helpers, prefixed: set<string>): Helpers {
    var named := map n | n in kinds :: if kinds[n] == {} && n in prefixed then {Real} else kinds[n];
    map n | n in named && named[n] != {} :: Contribution(named[n])
  }

  lemma FinishedIsReport(kinds: Helpers, prefixed: set<string>)
    ensures Finished(kinds, prefixed) == Report(Contributions(kinds), prefixed)
  {
  }

  /** The callees of one function, in any order: each adds what it contributes. */
  method VisitCallees(direct: Helpers, calls: Calls, before: Helpers, name: string)
    returns (kinds: Helpers, changed: bool)
    requires Iterating(direct, calls, before) && name in before && name in calls
    ensures Iterating(direct, calls, kinds) && Grown(before, kinds)
    ensures changed ==> Missing(kinds) < Missing(before)
    ensures !changed ==> kinds == before && forall callee :: PairClosed(calls, kinds, name, callee)
  {
    kinds, changed := before, false;
    var callees := calls[name] * kinds.Keys;
    while callees != {}
      invariant callees <= calls[name] * before.Keys
      invariant Iterating(direct, calls, kinds) && Grown(before, kinds)
      invariant changed ==> Missing(kinds) < Missing(before)
      invariant !changed ==> kinds == before
      invariant !changed ==> forall callee | callee !in callees :: PairClosed(calls, kinds, name, callee)
    {
      var callee :| callee in callees;
      callees := callees - {callee};
      if kinds[callee] != {} && !(Contribution(kinds[callee]) <= kinds[name]) {
        AddIterates(direct, calls, kinds, name, callee);
        AddedIsLearned(kinds, name, callee);
        kinds, changed := Added(kinds, name, callee), true;
      }
    }
  }

  /** One pass over the functions, in any order. */
  method VisitAll(direct: Helpers, calls: Calls, before: Helpers)
    returns (kinds: Helpers, changed: bool)
    requires Iterating(direct, calls, before) && calls.Keys <= direct.Keys
    ensures Iterating(direct, calls, kinds) && Grown(before, kinds)
    ensures changed ==> Missing(kinds) < Missing(before)
    ensures !changed ==> kinds == before && Closed(calls, kinds)
  {
    kinds, changed := before, false;
    var names := calls.Keys;
    while names != {}
      invariant names <= calls.Keys
      invariant Iterating(direct, calls, kinds) && Grown(before, kinds)
      invariant changed ==> Missing(kinds) < Missing(before)
      invariant !changed ==> kinds == before
      invariant !changed ==> forall name, callee | name !in names :: PairClosed(calls, kinds, name, callee)
    {
      var name :| name in names;
      names := names - {name};
      var learned: bool;
      kinds, learned := VisitCallees(direct, calls, kinds, name);
      changed := changed || learned;
    }
  }

  /**
   _asserting_helpers, once each function's own checks and callees are known.  `prefixed` holds the
   names that begin like a helper's.  Whatever order the sets are walked in, the loop ends and the
   answer is the one least solution, plus a real check for each checkless function so named.
   */
  method AssertingHelpers(direct: Helpers, calls: Calls, prefixed: set<string>) returns (result: Helpers)
    requires calls.Keys <= direct.Keys
    ensures exists least :: IsLeastSolution(direct, calls, least)
    ensures forall least | IsLeastSolution(direct, calls, least) :: result == Report(least, prefixed)
  {
    var kinds, changed := direct, true;
    StartIterates(direct, calls);
    while changed
      invariant Iterating(direct, calls, kinds)
      invariant !changed ==> Closed(calls, kinds)
      decreases Missing(kinds), changed
    {
      kinds, changed := VisitAll(direct, calls, kinds);
    }
    ClosedIsLeast(direct, calls, kinds);
    hide *;
    result := Finished(kinds, prefixed);
    FinishedIsReport(kinds, prefixed);
    forall least | IsLeastSolution(direct, calls, least) ensures result == Report(least, prefixed) {
      LeastSolutionIsUnique(direct, calls, least, Contributions(kinds));
    }
  }
}
