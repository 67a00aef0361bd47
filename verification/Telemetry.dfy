/**
 src/config/telemetry.py: accounting for nested measured spans, operation scopes and phases.
 A run is a tree of instrumented actions.  The probe and the operation name are ambient: entering a
 span or a scope sets them, leaving it, by return or by exception, puts back what was there.
 */
module Telemetry {

  const BARE_OPERATION: string := "_bare"
  const NS_PER_MS: int := 1_000_000

  /** One instrumented action of a program.  Clock readings are part of the script. */
  datatype Action =
    | Statement(ns: int)
    | ApiCall(ns: int)
    | Span(started: int, ended: int, body: seq<Action>)
    | Scope(name: string, body: seq<Action>)
    | Phase(name: string, started: int, ended: int, body: seq<Action>)
    | Caught(body: seq<Action>)
    | Raise

  /** What one probe is told. */
  datatype Record =
    | Executed(operation: string, ns: int)
    | Called(ns: int)
    | Spent(phase: string, ns: int)

  datatype Tally = Tally(name: string, count: int, ns: int)

  /** The contents of a probe, apart from its wall time.  A dict keeps its insertion order. */
  datatype Account = Account(statements: int, dbNs: int, apiCalls: int, apiNs: int,
                             byOperation: seq<Tally>, phases: map<string, int>)

  const EMPTY: Account := Account(0, 0, 0, 0, [], map[])

  // ------------------------------------------------------------ what a run means

  /** Whether an exception leaves the script. */
  predicate Raises(script: seq<Action>) {
    script != [] && (ActionRaises(script[0]) || Raises(script[1..]))
  }

  predicate ActionRaises(action: Action) {
    match action
    case Statement(_) => false
    case ApiCall(_) => false
    case Span(_, _, body) => Raises(body)
    case Scope(_, body) => Raises(body)
    case Phase(_, _, _, body) => Raises(body)
    case Caught(_) => false
    case Raise => true
  }

  /** The operation in force inside a scope. */
  function Inside(operation: string, name: string): string {
    if operation != BARE_OPERATION then operation else name
  }

  /** What the probe that is ambient when the script starts is told. */
  function Observed(script: seq<Action>, operation: string): seq<Record> {
    if script == [] then [] else
      ObservedOne(script[0], operation) +
      (if ActionRaises(script[0]) then [] else Observed(script[1..], operation))
  }

  function ObservedOne(action: Action, operation: string): seq<Record> {
    match action
    case Statement(ns) => [Executed(operation, ns)]
    case ApiCall(ns) => [Called(ns)]
    case Span(_, _, _) => []
    case Scope(name, body) => Observed(body, Inside(operation, name))
    case Phase(name, started, ended, body) => Observed(body, operation) + [Spent(name, ended - started)]
    case Caught(body) => Observed(body, operation)
    case Raise => []
  }

  /** What the probes opened inside the script are told, one tape for each span, in order of opening. */
  function Inner(script: seq<Action>, operation: string): seq<seq<Record>> {
    if script == [] then [] else
      InnerOne(script[0], operation) +
      (if ActionRaises(script[0]) then [] else Inner(script[1..], operation))
  }

  function InnerOne(action: Action, operation: string): seq<seq<Record>> {
    match action
    case Statement(_) => []
    case ApiCall(_) => []
    case Span(_, _, body) => [Observed(body, operation)] + Inner(body, operation)
    case Scope(name, body) => Inner(body, Inside(operation, name))
    case Phase(_, _, _, body) => Inner(body, operation)
    case Caught(body) => Inner(body, operation)
    case Raise => []
  }

  /** What can be added up over a run. */
  datatype Meter = StatementCount | StatementTime | CallCount | CallTime | TimeIn(phase: string)

  /** What the script does by one meter, whichever probe is told. */
  function Issued(m: Meter, script: seq<Action>): int {
    if script == [] then 0 else
      IssuedOne(m, script[0]) + (if ActionRaises(script[0]) then 0 else Issued(m, script[1..]))
  }

  function IssuedOne(m: Meter, action: Action): int {
    match action
    case Statement(ns) => if m == StatementCount then 1 else if m == StatementTime then ns else 0
    case ApiCall(ns) => if m == CallCount then 1 else if m == CallTime then ns else 0
    case Span(_, _, body) => Issued(m, body)
    case Scope(_, body) => Issued(m, body)
    case Phase(name, started, ended, body) => Issued(m, body) + (if m == TimeIn(name) then ended - started else 0)
    case Caught(body) => Issued(m, body)
    case Raise => 0
  }

  // ------------------------------------------------------------ tapes

  function Weight(m: Meter, r: Record): int {
    match r
    case Executed(_, ns) => if m == StatementCount then 1 else if m == StatementTime then ns else 0
    case Called(ns) => if m == CallCount then 1 else if m == CallTime then ns else 0
    case Spent(phase, ns) => if m == TimeIn(phase) then ns else 0
  }

  function Metered(m: Meter, tape: seq<Record>): int {
    if tape == [] then 0 else Weight(m, tape[0]) + Metered(m, tape[1..])
  }

  function MeteredAll(m: Meter, tapes: seq<seq<Record>>): int {
    if tapes == [] then 0 else Metered(m, tapes[0]) + MeteredAll(m, tapes[1..])
  }

  /** The statements of a tape that are credited to one operation. */
  function CreditedTo(tape: seq<Record>, operation: string): seq<Record> {
    if tape == [] then []
    else if tape[0].Executed? && tape[0].operation == operation then [tape[0]] + CreditedTo(tape[1..], operation)
    else CreditedTo(tape[1..], operation)
  }

  lemma {:induction false} MeteredConcat(m: Meter, a: seq<Record>, b: seq<Record>)
    ensures Metered(m, a + b) == Metered(m, a) + Metered(m, b)
  {
    if a == [] {
      assert a + b == b;
    } else {
      assert (a + b)[1..] == a[1..] + b;
      MeteredConcat(m, a[1..], b);
    }
  }

  lemma {:induction false} MeteredAllConcat(m: Meter, a: seq<seq<Record>>, b: seq<seq<Record>>)
    ensures MeteredAll(m, a + b) == MeteredAll(m, a) + MeteredAll(m, b)
  {
    if a == [] {
      assert a + b == b;
    } else {
      assert (a + b)[1..] == a[1..] + b;
      MeteredAllConcat(m, a[1..], b);
    }
  }

  /**
   Conservation: statements and API calls, their number and their time, and the time of each phase are
   told to exactly one probe, the innermost open one.
   */
  lemma {:induction false} EverythingIsToldOnce(m: Meter, script: seq<Action>, operation: string)
    ensures Issued(m, script) == Metered(m, Observed(script, operation)) + MeteredAll(m, Inner(script, operation))
    decreases script
  {
    if script != [] {
      ActionIsToldOnce(m, script[0], operation);
      if !ActionRaises(script[0]) {
        EverythingIsToldOnce(m, script[1..], operation);
        MeteredConcat(m, ObservedOne(script[0], operation), Observed(script[1..], operation));
        MeteredAllConcat(m, InnerOne(script[0], operation), Inner(script[1..], operation));
      } else {
        assert ObservedOne(script[0], operation) + [] == ObservedOne(script[0], operation);
        assert InnerOne(script[0], operation) + [] == InnerOne(script[0], operation);
      }
    }
  }

  lemma {:induction false} ActionIsToldOnce(m: Meter, action: Action, operation: string)
    ensures IssuedOne(m, action)
         == Metered(m, ObservedOne(action, operation)) + MeteredAll(m, InnerOne(action, operation))
    decreases action
  {
    hide Metered, MeteredAll, Observed, Inner, Issued;
    NothingTold(m);
    match action
    case Statement(ns) =>
      OneRecord(m, Executed(operation, ns));
    case ApiCall(ns) =>
      OneRecord(m, Called(ns));
    case Span(_, _, body) =>
      EverythingIsToldOnce(m, body, operation);
      MeteredAllConcat(m, [Observed(body, operation)], Inner(body, operation));
      OneTape(m, Observed(body, operation));
    case Scope(name, body) =>
      EverythingIsToldOnce(m, body, Inside(operation, name));
    case Phase(name, started, ended, body) =>
      EverythingIsToldOnce(m, body, operation);
      MeteredConcat(m, Observed(body, operation), [Spent(name, ended - started)]);
      OneRecord(m, Spent(name, ended - started));
    case Caught(body) =>
      EverythingIsToldOnce(m, body, operation);
    case Raise =>
  }

  lemma NothingTold(m: Meter)
    ensures Metered(m, []) == 0 && MeteredAll(m, []) == 0
  {
  }

  lemma OneRecord(m: Meter, r: Record)
    ensures Metered(m, [r]) == Weight(m, r)
  {
    assert [r][1..] == [];
  }

  lemma OneTape(m: Meter, tape: seq<Record>)
    ensures MeteredAll(m, [tape]) == Metered(m, tape)
  {
    assert [tape][1..] == [];
  }

  // ------------------------------------------------------------ the outermost scope takes the credit

  predicate AllCredited(tape: seq<Record>, operation: string) {
    forall r | r in tape && r.Executed? :: r.operation == operation
  }

  /** Inside a named operation every statement of the same span is credited to it, however scopes nest. */
  lemma {:induction false} OutermostScopeWins(script: seq<Action>, operation: string)
    requires operation != BARE_OPERATION
    ensures AllCredited(Observed(script, operation), operation)
    ensures forall i | 0 <= i < |Inner(script, operation)| :: AllCredited(Inner(script, operation)[i], operation)
    decreases script
  {
    if script != [] {
      OutermostScopeWinsOne(script[0], operation);
      if !ActionRaises(script[0]) {
        OutermostScopeWins(script[1..], operation);
      }
    }
  }

  lemma {:induction false} OutermostScopeWinsOne(action: Action, operation: string)
    requires operation != BARE_OPERATION
    ensures AllCredited(ObservedOne(action, operation), operation)
    ensures forall i | 0 <= i < |InnerOne(action, operation)| :: AllCredited(InnerOne(action, operation)[i], operation)
    decreases action
  {
    match action
    case Span(_, _, body) => OutermostScopeWins(body, operation);
    case Scope(name, body) => OutermostScopeWins(body, operation);
    case Phase(_, _, _, body) => OutermostScopeWins(body, operation);
    case Caught(body) => OutermostScopeWins(body, operation);
    case _ =>
  }

  /** A scope met outside any other credits all of its statements, those of inner spans included. */
  lemma ScopeTakesTheCredit(name: string, body: seq<Action>)
    requires name != BARE_OPERATION
    ensures AllCredited(ObservedOne(Scope(name, body), BARE_OPERATION), name)
    ensures forall i | 0 <= i < |InnerOne(Scope(name, body), BARE_OPERATION)| ::
              AllCredited(InnerOne(Scope(name, body), BARE_OPERATION)[i], name)
  {
    OutermostScopeWins(body, name);
  }

  // ------------------------------------------------------------ an account

  /** by_operation[name] = (count + 1, total + ns): in place, or appended when the name is new. */
  function Credit(tallies: seq<Tally>, name: string, ns: int): seq<Tally> {
    if tallies == [] then [Tally(name, 1, ns)]
    else if tallies[0].name == name then [Tally(name, tallies[0].count + 1, tallies[0].ns + ns)] + tallies[1..]
    else [tallies[0]] + Credit(tallies[1..], name, ns)
  }

  function After(a: Account, r: Record): Account {
    match r
    case Executed(operation, ns) =>
      a.(statements := a.statements + 1, dbNs := a.dbNs + ns, byOperation := Credit(a.byOperation, operation, ns))
    case Called(ns) => a.(apiCalls := a.apiCalls + 1, apiNs := a.apiNs + ns)
    case Spent(phase, ns) => a.(phases := a.phases[phase := PhaseNs(a, phase) + ns])
  }

  function PhaseNs(a: Account, phase: string): int {
    if phase in a.phases then a.phases[phase] else 0
  }

  function AfterAll(a: Account, tape: seq<Record>): Account
    decreases tape
  {
    if tape == [] then a else AfterAll(After(a, tape[0]), tape[1..])
  }

  lemma {:induction false} AfterAllConcat(a: Account, x: seq<Record>, y: seq<Record>)
    ensures AfterAll(a, x + y) == AfterAll(AfterAll(a, x), y)
    decreases x
  {
    if x == [] {
      assert x + y == y;
    } else {
      assert (x + y)[1..] == x[1..] + y;
      AfterAllConcat(After(a, x[0]), x[1..], y);
    }
  }

  function Counts(tallies: seq<Tally>): int {
    if tallies == [] then 0 else tallies[0].count + Counts(tallies[1..])
  }

  function Times(tallies: seq<Tally>): int {
    if tallies == [] then 0 else tallies[0].ns + Times(tallies[1..])
  }

  predicate Listed(tallies: seq<Tally>, name: string) {
    tallies != [] && (tallies[0].name == name || Listed(tallies[1..], name))
  }

  predicate DistinctNames(tallies: seq<Tally>) {
    tallies == [] || (!Listed(tallies[1..], tallies[0].name) && DistinctNames(tallies[1..]))
  }

  predicate NoneEmpty(tallies: seq<Tally>) {
    tallies == [] || (tallies[0].count >= 1 && NoneEmpty(tallies[1..]))
  }

  /** What by_operation says of one operation. */
  function CountFor(tallies: seq<Tally>, name: string): int {
    if tallies == [] then 0
    else (if tallies[0].name == name then tallies[0].count else 0) + CountFor(tallies[1..], name)
  }

  function TimeFor(tallies: seq<Tally>, name: string): int {
    if tallies == [] then 0 else (if tallies[0].name == name then tallies[0].ns else 0) + TimeFor(tallies[1..], name)
  }

  /** The invariant of a probe: one tally for each operation, none empty, together making up the totals. */
  predicate Balanced(a: Account) {
    && Counts(a.byOperation) == a.statements
    && Times(a.byOperation) == a.dbNs
    && DistinctNames(a.byOperation)
    && NoneEmpty(a.byOperation)
  }

  lemma {:induction false} CreditLists(tallies: seq<Tally>, name: string, ns: int, other: string)
    ensures Listed(Credit(tallies, name, ns), other) <==> Listed(tallies, other) || other == name
  {
    if tallies != [] && tallies[0].name != name {
      CreditLists(tallies[1..], name, ns, other);
      assert Credit(tallies, name, ns)[1..] == Credit(tallies[1..], name, ns);
    } else if tallies != [] {
      assert Credit(tallies, name, ns)[1..] == tallies[1..];
    }
  }

  lemma {:induction false} CreditAddsUp(tallies: seq<Tally>, name: string, ns: int)
    requires DistinctNames(tallies) && NoneEmpty(tallies)
    ensures Counts(Credit(tallies, name, ns)) == Counts(tallies) + 1
    ensures Times(Credit(tallies, name, ns)) == Times(tallies) + ns
    ensures DistinctNames(Credit(tallies, name, ns)) && NoneEmpty(Credit(tallies, name, ns))
  {
    if tallies != [] && tallies[0].name != name {
      CreditAddsUp(tallies[1..], name, ns);
      CreditLists(tallies[1..], name, ns, tallies[0].name);
      assert Credit(tallies, name, ns)[1..] == Credit(tallies[1..], name, ns);
    } else if tallies != [] {
      assert Credit(tallies, name, ns)[1..] == tallies[1..];
    }
  }

  lemma {:induction false} CreditIsForOne(tallies: seq<Tally>, name: string, ns: int, other: string)
    ensures CountFor(Credit(tallies, name, ns), other) == CountFor(tallies, other) + (if other == name then 1 else 0)
    ensures TimeFor(Credit(tallies, name, ns), other) == TimeFor(tallies, other) + (if other == name then ns else 0)
  {
    if tallies != [] && tallies[0].name != name {
      CreditIsForOne(tallies[1..], name, ns, other);
      assert Credit(tallies, name, ns)[1..] == Credit(tallies[1..], name, ns);
    } else if tallies != [] {
      assert Credit(tallies, name, ns)[1..] == tallies[1..];
    }
  }

  lemma {:induction false} AccountsBalance(a: Account, tape: seq<Record>)
    requires Balanced(a)
    ensures Balanced(AfterAll(a, tape))
    decreases tape
  {
    if tape != [] {
      if tape[0].Executed? {
        CreditAddsUp(a.byOperation, tape[0].operation, tape[0].ns);
      }
      AccountsBalance(After(a, tape[0]), tape[1..]);
    }
  }

  /** A probe that has been told a tape reports exactly that tape, in total and operation by operation. */
  lemma {:induction false} AccountReportsTape(a: Account, tape: seq<Record>, name: string)
    ensures var z := AfterAll(a, tape);
      && z.statements == a.statements + Metered(StatementCount, tape)
      && z.dbNs == a.dbNs + Metered(StatementTime, tape)
      && z.apiCalls == a.apiCalls + Metered(CallCount, tape) && z.apiNs == a.apiNs + Metered(CallTime, tape)
      && CountFor(z.byOperation, name) == CountFor(a.byOperation, name) + |CreditedTo(tape, name)|
      && TimeFor(z.byOperation, name) == TimeFor(a.byOperation, name) + Metered(StatementTime, CreditedTo(tape, name))
      && PhaseNs(z, name) == PhaseNs(a, name) + Metered(TimeIn(name), tape)
    decreases tape
  {
    if tape != [] {
      if tape[0].Executed? {
        CreditIsForOne(a.byOperation, tape[0].operation, tape[0].ns, name);
        assert ([tape[0]] + CreditedTo(tape[1..], name))[1..] == CreditedTo(tape[1..], name);
      }
      AccountReportsTape(After(a, tape[0]), tape[1..], name);
    }
  }

  // ------------------------------------------------------------ the recorder

  class ChunkProbe {
    var statements: int
    var dbNs: int
    var apiCalls: int
    var apiNs: int
    var byOperation: seq<Tally>
    var phases: map<string, int>
    var wallNs: int

    constructor ()
      ensures View() == EMPTY
    {
      statements, dbNs, apiCalls, apiNs := 0, 0, 0, 0;
      byOperation, phases, wallNs := [], map[], 0;
    }

    function View(): Account
      reads this
    {
      Account(statements, dbNs, apiCalls, apiNs, byOperation, phases)
    }
  }

  /** The two context variables. */
  class Context {
    var probe: ChunkProbe?
    var operation: string

    constructor ()
      ensures probe == null && operation == "_bare"
    {
      probe, operation := null, BARE_OPERATION;
    }

    /** The measuring probe, if any. */
    function Ambient(): set<ChunkProbe>
      reads this
    {
      if probe == null then {} else {probe}
    }

    /** The ambient probe was told `tape` and nothing else. */
    twostate predicate Told(tape: seq<Record>)
      reads this, Ambient()
    {
      && probe == old(probe)
      && operation == old(operation)
      && (probe != null ==> probe.View() == AfterAll(old(probe.View()), tape) && probe.wallNs == old(probe.wallNs))
    }

    method RecordStatement(elapsedNs: int)
      modifies Ambient()
      ensures Told([Executed(operation, elapsedNs)])
    {
      if probe == null {
        return;
      }
      probe.statements := probe.statements + 1;
      probe.dbNs := probe.dbNs + elapsedNs;
      probe.byOperation := Credit(probe.byOperation, operation, elapsedNs);
    }

    method RecordApiCall(elapsedNs: int)
      modifies Ambient()
      ensures Told([Called(elapsedNs)])
    {
      if probe == null {
        return;
      }
      probe.apiCalls := probe.apiCalls + 1;
      probe.apiNs := probe.apiNs + elapsedNs;
    }

    /** The `finally` part of phase(). */
    method RecordPhase(name: string, elapsedNs: int)
      modifies Ambient()
      ensures Told([Spent(name, elapsedNs)])
    {
      if probe == null {
        return;
      }
      var before := if name in probe.phases then probe.phases[name] else 0;
      probe.phases := probe.phases[name := before + elapsedNs];
    }

    /** measure_chunk: the body gets its own probe and the outer one resumes untouched. */
    method MeasureChunk(started: int, ended: int, body: seq<Action>) returns (measured: ChunkProbe, raised: bool)
      modifies this
      ensures fresh(measured) && measured.View() == AfterAll(EMPTY, Observed(body, operation))
      ensures Balanced(measured.View()) && measured.wallNs == ended - started
      ensures Told([]) && raised == Raises(body)
      decreases body, 2
    {
      var token := probe;
      measured := new ChunkProbe();
      probe := measured;
      raised := Run(body);
      measured.wallNs := ended - started;
      probe := token;
      AccountsBalance(EMPTY, Observed(body, operation));
    }

    method PhaseOf(name: string, started: int, ended: int, body: seq<Action>) returns (raised: bool)
      modifies this, Ambient()
      ensures Told(Observed(body, operation) + [Spent(name, ended - started)]) && raised == Raises(body)
      decreases body, 2
    {
      raised := Run(body);
      label Done:
      RecordPhase(name, ended - started);
      if probe != null {
        AfterAllConcat(old(probe.View()), Observed(body, operation), [Spent(name, ended - started)]);
      }
    }

    method OperationScope(name: string, body: seq<Action>) returns (raised: bool)
      modifies this, Ambient()
      ensures Told(Observed(body, Inside(operation, name))) && raised == Raises(body)
      decreases body, 2
    {
      if operation != BARE_OPERATION {
        raised := Run(body);
        return;
      }
      var token := operation;
      operation := name;
      raised := Run(body);
      operation := token;
    }

    /** One action, whichever way it ends. */
    method Perform(action: Action) returns (raised: bool)
      modifies this, Ambient()
      ensures Told(ObservedOne(action, operation)) && raised == ActionRaises(action)
      decreases action, 0
    {
      raised := false;
      match action
      case Statement(ns) => RecordStatement(ns);
      case ApiCall(ns) => RecordApiCall(ns);
      case Span(started, ended, body) =>
        var measured;
        measured, raised := MeasureChunk(started, ended, body);
      case Scope(name, body) => raised := OperationScope(name, body);
      case Phase(name, started, ended, body) => raised := PhaseOf(name, started, ended, body);
      case Caught(body) => var ignored := Run(body);
      case Raise => raised := true;
    }

    /** A whole script: what every action of it makes of the ambient probe. */
    method Run(script: seq<Action>) returns (raised: bool)
      modifies this, Ambient()
      ensures Told(Observed(script, operation)) && raised == Raises(script)
      decreases script, 1
    {
      if script == [] {
        return false;
      }
      raised := Perform(script[0]);
      if raised {
        assert ObservedOne(script[0], operation) + [] == ObservedOne(script[0], operation);
      } else {
        raised := Run(script[1..]);
        if probe != null {
          AfterAllConcat(old(probe.View()), ObservedOne(script[0], operation), Observed(script[1..], operation));
        }
      }
    }
  }

  // ------------------------------------------------------------ top_operations

  datatype Line = Line(name: string, count: int, ms: int)

  /** Python's round(ns / 1_000_000): to the nearest whole number, halves to even. */
  function RoundMs(ns: int): int {
    var q, r := ns / NS_PER_MS, ns % NS_PER_MS;
    if 2 * r < NS_PER_MS || (2 * r == NS_PER_MS && q % 2 == 0) then q else q + 1
  }

  /** sorted(..., key=-ns): costliest first, equal ones in their old order. */
  function Ranked(tallies: seq<Tally>): seq<Tally> {
    if tallies == [] then [] else Insert(tallies[0], Ranked(tallies[1..]))
  }

  function Insert(t: Tally, ranked: seq<Tally>): seq<Tally> {
    if ranked == [] || t.ns >= ranked[0].ns then [t] + ranked
    else [ranked[0]] + Insert(t, ranked[1..])
  }

  /** Where Python's [:limit] cuts a list of n, negative limits counting from the end. */
  function Cut(n: nat, limit: int): (k: nat)
    ensures k <= n
  {
    if limit >= 0 then (if limit < n then limit else n)
    else if n + limit > 0 then n + limit else 0
  }

  function Lines(tallies: seq<Tally>): seq<Line> {
    if tallies == [] then []
    else [Line(tallies[0].name, tallies[0].count, RoundMs(tallies[0].ns))] + Lines(tallies[1..])
  }

  /** top[name] = line: in place when the key is there, appended otherwise. */
  function Put(lines: seq<Line>, line: Line): seq<Line> {
    if lines == [] then [line]
    else if lines[0].name == line.name then [line] + lines[1..]
    else [lines[0]] + Put(lines[1..], line)
  }

  function TopOperations(tallies: seq<Tally>, limit: int): seq<Line> {
    var ranked := Ranked(tallies);
    var cut := Cut(|ranked|, limit);
    var rest := ranked[cut..];
    if rest == [] then Lines(ranked[..cut])
    else Put(Lines(ranked[..cut]), Line("other", Counts(rest), RoundMs(Times(rest))))
  }

  function LineCounts(lines: seq<Line>): int {
    if lines == [] then 0 else lines[0].count + LineCounts(lines[1..])
  }

  function LineTimes(lines: seq<Line>): int {
    if lines == [] then 0 else lines[0].ms + LineTimes(lines[1..])
  }

  lemma {:induction false} InsertKeeps(t: Tally, ranked: seq<Tally>)
    ensures multiset(Insert(t, ranked)) == multiset(ranked) + multiset{t}
    ensures Counts(Insert(t, ranked)) == Counts(ranked) + t.count
    ensures Times(Insert(t, ranked)) == Times(ranked) + t.ns
    ensures Sorted(ranked) ==> Sorted(Insert(t, ranked))
    ensures Insert(t, ranked)[0].ns == t.ns || (ranked != [] && Insert(t, ranked)[0] == ranked[0])
  {
    if ranked == [] || t.ns >= ranked[0].ns {
      assert ([t] + ranked)[1..] == ranked;
    } else {
      InsertKeeps(t, ranked[1..]);
      assert ranked == [ranked[0]] + ranked[1..];
      assert Insert(t, ranked)[1..] == Insert(t, ranked[1..]);
    }
  }

  /** Costliest first. */
  predicate Sorted(ranked: seq<Tally>) {
    |ranked| <= 1 || (ranked[0].ns >= ranked[1].ns && Sorted(ranked[1..]))
  }

  lemma {:induction false} RankedKeeps(tallies: seq<Tally>)
    ensures multiset(Ranked(tallies)) == multiset(tallies) && |Ranked(tallies)| == |tallies|
    ensures Counts(Ranked(tallies)) == Counts(tallies) && Times(Ranked(tallies)) == Times(tallies)
    ensures Sorted(Ranked(tallies))
  {
    if tallies != [] {
      RankedKeeps(tallies[1..]);
      RankedStep(tallies, Ranked(tallies[1..]));
    }
  }

  lemma RankedStep(tallies: seq<Tally>, rest: seq<Tally>)
    requires tallies != [] && multiset(rest) == multiset(tallies[1..]) && |rest| == |tallies| - 1
    ensures multiset(Insert(tallies[0], rest)) == multiset(tallies) && |Insert(tallies[0], rest)| == |tallies|
    ensures Counts(Insert(tallies[0], rest)) == tallies[0].count + Counts(rest)
    ensures Times(Insert(tallies[0], rest)) == tallies[0].ns + Times(rest)
    ensures Sorted(rest) ==> Sorted(Insert(tallies[0], rest))
  {
    hide Insert, Sorted, Counts, Times;
    InsertKeeps(tallies[0], rest);
    assert tallies == [tallies[0]] + tallies[1..];
    assert |multiset(Insert(tallies[0], rest))| == |multiset(tallies)|;
  }

  lemma {:induction false} SortedAt(ranked: seq<Tally>, i: nat, j: nat)
    requires Sorted(ranked) && i <= j < |ranked|
    ensures ranked[i].ns >= ranked[j].ns
  {
    if i < j {
      if i > 0 {
        SortedAt(ranked[1..], i - 1, j - 1);
      } else {
        SortedAt(ranked[1..], 0, j - 1);
      }
    }
  }

  lemma {:induction false} SplitAddsUp(tallies: seq<Tally>, k: nat)
    requires k <= |tallies|
    ensures Counts(tallies) == Counts(tallies[..k]) + Counts(tallies[k..])
    ensures Times(tallies) == Times(tallies[..k]) + Times(tallies[k..])
  {
    if k == 0 {
      assert tallies[0..] == tallies;
    } else {
      SplitAddsUp(tallies[1..], k - 1);
      assert tallies[..k][1..] == tallies[1..][..k - 1] && tallies[k..] == tallies[1..][k - 1..];
    }
  }

  lemma RoundingError(ns: int)
    ensures -500_000 <= RoundMs(ns) * NS_PER_MS - ns <= 500_000
  {
  }

  lemma {:induction false} LinesKeep(tallies: seq<Tally>)
    ensures |Lines(tallies)| == |tallies| && LineCounts(Lines(tallies)) == Counts(tallies)
    ensures -500_000 * |tallies| <= LineTimes(Lines(tallies)) * NS_PER_MS - Times(tallies) <= 500_000 * |tallies|
    ensures forall i | 0 <= i < |tallies| :: Lines(tallies)[i].name == tallies[i].name
  {
    if tallies != [] {
      LinesKeep(tallies[1..]);
      assert Lines(tallies)[1..] == Lines(tallies[1..]);
      RoundingError(tallies[0].ns);
    }
  }

  lemma {:induction false} PutReplaces(tallies: seq<Tally>, line: Line)
    requires DistinctNames(tallies)
    ensures LineCounts(Put(Lines(tallies), line)) == Counts(tallies) - CountFor(tallies, line.name) + line.count
    ensures !Listed(tallies, line.name) ==> Put(Lines(tallies), line) == Lines(tallies) + [line]
    ensures Listed(tallies, line.name) ==> |Put(Lines(tallies), line)| == |tallies|
  {
    if tallies != [] {
      assert Lines(tallies)[1..] == Lines(tallies[1..]);
      if tallies[0].name == line.name {
        UnlistedCountsNothing(tallies[1..], line.name);
        LinesKeep(tallies[1..]);
        assert ([line] + Lines(tallies[1..]))[1..] == Lines(tallies[1..]);
      } else {
        PutReplaces(tallies[1..], line);
        assert Put(Lines(tallies), line)[1..] == Put(Lines(tallies[1..]), line);
      }
    }
  }

  lemma {:induction false} UnlistedCountsNothing(tallies: seq<Tally>, name: string)
    ensures !Listed(tallies, name) ==> CountFor(tallies, name) == 0
    ensures Listed(tallies, name) && NoneEmpty(tallies) ==> CountFor(tallies, name) >= 1
  {
    if tallies != [] {
      UnlistedCountsNothing(tallies[1..], name);
      if NoneEmpty(tallies) {
        CountsAreNotNegative(tallies[1..], name);
      }
    }
  }

  lemma {:induction false} CountsAreNotNegative(tallies: seq<Tally>, name: string)
    requires NoneEmpty(tallies)
    ensures CountFor(tallies, name) >= 0
  {
    if tallies != [] {
      CountsAreNotNegative(tallies[1..], name);
    }
  }

  /** A prefix of a list of distinct, non-empty tallies is one too. */
  lemma {:induction false} PrefixIsDistinct(tallies: seq<Tally>, k: nat)
    requires k <= |tallies| && DistinctNames(tallies) && NoneEmpty(tallies)
    ensures DistinctNames(tallies[..k]) && NoneEmpty(tallies[..k])
  {
    if k > 0 {
      PrefixIsDistinct(tallies[1..], k - 1);
      assert tallies[..k][1..] == tallies[1..][..k - 1];
      PrefixLists(tallies[1..], k - 1, tallies[0].name);
    }
  }

  lemma {:induction false} PrefixLists(tallies: seq<Tally>, k: nat, name: string)
    requires k <= |tallies| && !Listed(tallies, name)
    ensures !Listed(tallies[..k], name)
  {
    if k > 0 {
      assert tallies[..k][1..] == tallies[1..][..k - 1];
      PrefixLists(tallies[1..], k - 1, name);
    }
  }

  lemma {:induction false} InsertIsDistinct(t: Tally, ranked: seq<Tally>, name: string)
    requires DistinctNames(ranked) && NoneEmpty(ranked) && !Listed(ranked, t.name) && t.count >= 1
    ensures DistinctNames(Insert(t, ranked)) && NoneEmpty(Insert(t, ranked))
    ensures Listed(Insert(t, ranked), name) <==> Listed(ranked, name) || t.name == name
  {
    if ranked == [] || t.ns >= ranked[0].ns {
      assert ([t] + ranked)[1..] == ranked;
    } else {
      assert Insert(t, ranked)[1..] == Insert(t, ranked[1..]);
      InsertIsDistinct(t, ranked[1..], name);
      InsertIsDistinct(t, ranked[1..], ranked[0].name);
    }
  }

  lemma {:induction false} RankedIsDistinct(tallies: seq<Tally>, name: string)
    requires DistinctNames(tallies) && NoneEmpty(tallies)
    ensures DistinctNames(Ranked(tallies)) && NoneEmpty(Ranked(tallies))
    ensures Listed(Ranked(tallies), name) <==> Listed(tallies, name)
  {
    if tallies != [] {
      RankedIsDistinct(tallies[1..], name);
      RankedIsDistinct(tallies[1..], tallies[0].name);
      InsertIsDistinct(tallies[0], Ranked(tallies[1..]), name);
    }
  }

  /** The summary is lossy exactly when a listed operation is itself called "other" and gets overwritten. */
  ghost predicate OverwritesOther(tallies: seq<Tally>, limit: int) {
    var ranked := Ranked(tallies);
    var cut := Cut(|ranked|, limit);
    cut < |ranked| && Listed(ranked[..cut], "other")
  }

  /** top_operations keeps the number of statements, if and only if it overwrites nothing. */
  lemma TopOperationsKeepsTheCount(tallies: seq<Tally>, limit: int)
    requires DistinctNames(tallies) && NoneEmpty(tallies)
    ensures LineCounts(TopOperations(tallies, limit)) == Counts(tallies) <==> !OverwritesOther(tallies, limit)
  {
    hide Ranked, DistinctNames, NoneEmpty, Listed, Lines, Put, RoundMs, LineCounts, Times, Counts, CountFor;
    var ranked := Ranked(tallies);
    var cut := Cut(|ranked|, limit);
    RankedKeeps(tallies);
    RankedIsDistinct(tallies, "other");
    SplitAddsUp(ranked, cut);
    PrefixIsDistinct(ranked, cut);
    LinesKeep(ranked[..cut]);
    if cut < |ranked| {
      PutReplaces(ranked[..cut], Line("other", Counts(ranked[cut..]), RoundMs(Times(ranked[cut..]))));
      UnlistedCountsNothing(ranked[..cut], "other");
    } else {
      assert ranked[..cut] == ranked && ranked[cut..] == [];
    }
  }

  /** An operation named "other" can cost the summary a statement. */
  lemma OverwritingLosesCounts()
    ensures var tallies := [Tally("other", 1, 5), Tally("find", 1, 3)];
      && DistinctNames(tallies) && NoneEmpty(tallies) && Counts(tallies) == 2
      && LineCounts(TopOperations(tallies, 1)) == 1
  {
    var first, second := Tally("other", 1, 5), Tally("find", 1, 3);
    assert [first, second][1..] == [second];
    assert [second][1..] == [] && Ranked([second]) == [second];
    assert Ranked([first, second]) == Insert(first, [second]) == [first, second];
    assert [first][1..] == [] && Lines([first]) == [Line("other", 1, 0)];
    assert [first, second][..1] == [first];
    assert Put([Line("other", 1, 0)], Line("other", 1, 0)) == [Line("other", 1, 0)];
    assert Counts([second]) == 1 && Times([second]) == 3;
    assert TopOperations([first, second], 1) == [Line("other", 1, 0)];
  }

  /** Half a millisecond of rounding for each line of the summary, and never more lines than limit + 1. */
  lemma TopOperationsKeepsTheTime(tallies: seq<Tally>, limit: int)
    requires DistinctNames(tallies) && NoneEmpty(tallies) && !OverwritesOther(tallies, limit)
    ensures var top := TopOperations(tallies, limit);
      && -500_000 * |top| <= LineTimes(top) * NS_PER_MS - Times(tallies) <= 500_000 * |top|
      && (limit >= 0 ==> |top| <= limit + 1)
  {
    hide Ranked, DistinctNames, NoneEmpty, Listed, Lines, Put, RoundMs, LineTimes, Times, Counts;
    var ranked := Ranked(tallies);
    var cut := Cut(|ranked|, limit);
    RankedKeeps(tallies);
    SplitAddsUp(ranked, cut);
    LinesKeep(ranked[..cut]);
    if cut < |ranked| {
      RankedIsDistinct(tallies, "other");
      PrefixIsDistinct(ranked, cut);
      RestAddsALine(ranked[..cut], Line("other", Counts(ranked[cut..]), RoundMs(Times(ranked[cut..]))));
      RoundingError(Times(ranked[cut..]));
    } else {
      assert ranked[..cut] == ranked && ranked[cut..] == [];
    }
  }

  lemma RestAddsALine(shown: seq<Tally>, other: Line)
    requires DistinctNames(shown) && !Listed(shown, other.name)
    ensures |Put(Lines(shown), other)| == |shown| + 1
    ensures LineTimes(Put(Lines(shown), other)) == LineTimes(Lines(shown)) + other.ms
  {
    hide DistinctNames, Listed, Lines, Put;
    PutReplaces(shown, other);
    LinesKeep(shown);
    LineTimesConcat(Lines(shown), [other]);
    assert [other][1..] == [];
  }

  lemma {:induction false} LineTimesConcat(a: seq<Line>, b: seq<Line>)
    ensures LineTimes(a + b) == LineTimes(a) + LineTimes(b)
  {
    if a == [] {
      assert a + b == b;
    } else {
      assert (a + b)[1..] == a[1..] + b;
      LineTimesConcat(a[1..], b);
    }
  }

  /** Nothing folded into "other" took longer than a line that is listed by name. */
  lemma TopOperationsAreTheCostliest(tallies: seq<Tally>, limit: int, i: nat, j: nat)
    requires i < Cut(|tallies|, limit) <= j < |tallies|
    ensures multiset(Ranked(tallies)) == multiset(tallies) && |Ranked(tallies)| == |tallies|
    ensures Ranked(tallies)[i].ns >= Ranked(tallies)[j].ns
  {
    RankedKeeps(tallies);
    SortedAt(Ranked(tallies), i, j);
  }

  // ------------------------------------------------------------ the summary, line by line

  /** The line is about the tally; its own milliseconds are off by half a millisecond at most, halves going to even. */
  ghost predicate Shows(line: Line, t: Tally) {
    line.name == t.name && line.count == t.count &&
    -500_000 <= line.ms * 1_000_000 - t.ns <= 500_000 &&
    (line.ms * 1_000_000 - t.ns in {-500_000, 500_000} ==> line.ms % 2 == 0)
  }

  lemma RoundedShows(t: Tally)
    ensures Shows(Line(t.name, t.count, RoundMs(t.ns)), t)
  {
  }

  lemma {:induction false} LinesShow(tallies: seq<Tally>, i: nat)
    requires i < |tallies|
    ensures |Lines(tallies)| == |tallies| && Shows(Lines(tallies)[i], tallies[i])
    decreases i
  {
    LinesKeep(tallies);
    RoundedShows(tallies[0]);
    if i > 0 {
      LinesShow(tallies[1..], i - 1);
      assert Lines(tallies)[i] == Lines(tallies[1..])[i - 1];
    }
  }

  lemma {:induction false} PutAt(lines: seq<Line>, line: Line)
    ensures |lines| <= |Put(lines, line)| <= |lines| + 1 && line in Put(lines, line)
    ensures forall i | 0 <= i < |lines| && lines[i].name != line.name :: Put(lines, line)[i] == lines[i]
    ensures (forall i | 0 <= i < |lines| :: lines[i].name != line.name) ==> |Put(lines, line)| == |lines| + 1
  {
    if lines != [] && lines[0].name != line.name {
      PutAt(lines[1..], line);
      assert Put(lines, line)[1..] == Put(lines[1..], line);
    }
  }

  /** What the list is cut to: the first `limit` tallies, or all but the last `-limit`. */
  ghost predicate IsCut(n: nat, limit: int, k: nat) {
    k <= n && if limit >= 0 then k == limit || k == n < limit else k == n + limit || n + limit <= k == 0
  }

  ghost predicate HasLine(top: seq<Line>, t: Tally) {
    exists line | line in top :: Shows(line, t)
  }

  /** A line for each of the first `cut` tallies, unless it gave way, and one named other for all the rest. */
  ghost predicate IsSummary(top: seq<Line>, ranked: seq<Tally>, cut: nat) {
    cut <= |ranked| && cut <= |top| <= cut + 1 &&
    (forall i | 0 <= i < cut && (cut == |ranked| || ranked[i].name != "other") :: Shows(top[i], ranked[i])) &&
    (cut < |ranked| ==> HasLine(top, Tally("other", Counts(ranked[cut..]), Times(ranked[cut..]))))
  }

  lemma LinesShowAll(shown: seq<Tally>)
    ensures |Lines(shown)| == |shown| && forall i | 0 <= i < |shown| :: Shows(Lines(shown)[i], shown[i])
  {
    LinesKeep(shown);
    forall i | 0 <= i < |shown| ensures Shows(Lines(shown)[i], shown[i]) {
      LinesShow(shown, i);
    }
  }

  lemma RestIsShown(ranked: seq<Tally>, cut: nat)
    requires cut < |ranked|
    ensures var t := Tally("other", Counts(ranked[cut..]), Times(ranked[cut..]));
      IsSummary(Put(Lines(ranked[..cut]), Line("other", t.count, RoundMs(t.ns))), ranked, cut)
  {
    hide Shows, Put, Lines, RoundMs, Counts, Times;
    var t := Tally("other", Counts(ranked[cut..]), Times(ranked[cut..]));
    var line := Line("other", t.count, RoundMs(t.ns));
    var lines := Lines(ranked[..cut]);
    LinesShowAll(ranked[..cut]);
    RoundedShows(t);
    PutAt(lines, line);
    forall i | 0 <= i < cut && ranked[i].name != "other" ensures Shows(Put(lines, line)[i], ranked[i]) {
      ShowsName(lines[i], ranked[..cut][i]);
    }
  }

  lemma ShowsName(line: Line, t: Tally)
    requires Shows(line, t)
    ensures line.name == t.name
  {
  }

  /** Every line with a name of its own shows its tally, and one line named other shows all that was cut off. */
  lemma TopOperationsLineByLine(tallies: seq<Tally>, limit: int)
    ensures exists cut: nat ::
      IsCut(|tallies|, limit, cut) && IsSummary(TopOperations(tallies, limit), Ranked(tallies), cut)
  {
    hide Shows, Put, Lines, RoundMs, Ranked, Counts, Times;
    var ranked := Ranked(tallies);
    RankedKeeps(tallies);
    var cut := Cut(|ranked|, limit);
    if cut < |ranked| {
      RestIsShown(ranked, cut);
    } else {
      LinesShowAll(ranked[..cut]);
    }
    assert IsCut(|tallies|, limit, cut) && IsSummary(TopOperations(tallies, limit), ranked, cut);
  }

  /** The tallies of one cost, in their order. */
  function Costing(tallies: seq<Tally>, ns: int): seq<Tally> {
    if tallies == [] then []
    else (if tallies[0].ns == ns then [tallies[0]] else []) + Costing(tallies[1..], ns)
  }

  /** The sort is stable: equally costly operations keep the order in which they were first met. */
  lemma {:induction false} RankingIsStable(tallies: seq<Tally>, ns: int)
    ensures Costing(Ranked(tallies), ns) == Costing(tallies, ns)
  {
    if tallies != [] {
      RankingIsStable(tallies[1..], ns);
      RankedKeeps(tallies[1..]);
      InsertGoesFirst(tallies[0], Ranked(tallies[1..]), ns);
    }
  }

  lemma {:induction false} InsertGoesFirst(t: Tally, ranked: seq<Tally>, ns: int)
    requires Sorted(ranked)
    ensures Costing(Insert(t, ranked), ns) == (if t.ns == ns then [t] else []) + Costing(ranked, ns)
  {
    if ranked == [] || t.ns >= ranked[0].ns {
      assert ([t] + ranked)[1..] == ranked;
    } else {
      InsertGoesFirst(t, ranked[1..], ns);
      assert Insert(t, ranked)[1..] == Insert(t, ranked[1..]);
    }
  }
}
