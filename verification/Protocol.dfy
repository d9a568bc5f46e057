/**
  What the server makes of one client's messages: its phases, its test record, and what is added
  to the statistics. Then the verdict of a whole run.
 */
module Protocol {
  import opened Phases
  import opened Stats

  datatype DeathResult = Crash | Normal | Unknown

  datatype Severity = Info | Warning | Error

  /** The payload of a message; `NoValue` is a payload no handler is registered for. */
  datatype Data =
    | Birth
    | PhaseChange(kind: Kind)
    | Death(result: DeathResult, status: int)
    | AssertDone(passed: bool)
    | Statistic(assertsPassed: bool, num: nat)
    | Log(severity: Severity)
    | NoValue

  datatype Client = Client(phases: Stack, alive: bool, test: TestView)

  datatype Reaction = Reaction(client: Client, added: Counters, warnings: nat, errors: nat, ok: bool)

  /** A spawned or newly added client. */
  function NewClient(wantSignal: int, wantExit: int): Client {
    Client(START, false, NewTest(wantSignal, wantExit))
  }

  /** The events one message pushes, in order. */
  datatype Events = Nothing | One(first: Event) | Two(first: Event, second: Event)

  function TestAfterAll(t: TestView, es: Events): TestView {
    match es
    case Nothing => t
    case One(e) => TestAfter(t, e)
    case Two(e, f) => TestAfter(TestAfter(t, e), f)
  }

  function AddedByAll(t: TestView, es: Events): Counters {
    match es
    case Nothing => Zero()
    case One(e) => Added(t, e)
    case Two(e, f) => Add(Added(t, e), Added(TestAfter(t, e), f))
  }

  // ---- One message ---------------------------------------------------------------------------

  /** What a phase message records on the test before any event. Subtests record nothing. */
  function Noted(st: Stack, t: TestView, kind: Kind): TestView {
    if |st| != 1 then t
    else match kind
      case ABORT => t.(status := Failed)
      case TIMEOUT => t.(timedOut := true)
      case SKIP => t.(status := Skipped)
      case _ => t
  }

  /** The events of an accepted phase message. Subtests push none. */
  function PhaseEvents(st: Stack, kind: Kind): Events {
    if |st| != 1 then Nothing
    else match kind
      case SETUP => if st == START then One(PreInit) else Nothing
      case MAIN => One(PreTest)
      case TEARDOWN => One(PostTest)
      case END => One(PostFini)
      case ABORT => if st[0] == Setup || st[0] == Main then Two(PostTest, PostFini) else One(PostFini)
      case TIMEOUT => Two(PostTest, PostFini)
      case SKIP => Two(PostTest, PostFini)
  }

  function DeathNoted(st: Stack, t: TestView, result: DeathResult, status: int): TestView
    requires st != []
  {
    var top := st[|st| - 1];
    match result
    case Crash => if top == Main then t.(signal := status) else t
    case Normal => if top == Teardown || st == START then t else t.(exitCode := status)
    case Unknown => t
  }

  function DeathEvents(st: Stack, t: TestView, result: DeathResult): Events
    requires st != []
  {
    var top := st[|st| - 1];
    match result
    case Crash =>
      if top == Main then (if t.wantSignal == 0 then One(TestCrash) else Two(PostTest, PostFini))
      else if st == START then One(TestCrash)
      else Nothing
    case Normal =>
      if st == START then One(TestCrash)
      else if st == [Main] then Two(PostTest, PostFini)
      else Nothing
    case Unknown => Nothing
  }

  /** The reaction that notes `t` on the record, then pushes `es`. */
  function Pushing(st: Stack, alive: bool, t: TestView, es: Events, warnings: nat): Reaction {
    Reaction(Client(st, alive, TestAfterAll(t, es)), AddedByAll(t, es), warnings, 0, true)
  }

  function React(c: Client, d: Data): Reaction
    requires c.phases != []
  {
    match d
    case Birth => Reaction(c.(alive := true), Zero(), 0, 0, true)
    case PhaseChange(kind) =>
      var m := StackMove(c.phases, kind);
      if m == Refused then Reaction(c, Zero(), 0, 0, false)
      else Pushing(m.stack, c.alive, Noted(c.phases, c.test, kind), PhaseEvents(c.phases, kind), 0)
    case Death(result, status) =>
      var t := DeathNoted(c.phases, c.test, result, status);
      Pushing(c.phases, false, t, DeathEvents(c.phases, t, result),
              if result == Crash && c.phases[|c.phases| - 1] != Main then 1 else 0)
    case AssertDone(passed) => Pushing(c.phases, c.alive, c.test, One(Assert(passed)), 0)
    case Statistic(asserts, num) =>
      if asserts then
        Reaction(c.(test := c.test.(passedAsserts := c.test.passedAsserts + num)),
                 Zero().(assertsPassed := num, nbAsserts := num), 0, 0, true)
      else Reaction(c, Zero(), 0, 0, true)
    case Log(severity) =>
      Reaction(c, Zero(), if severity == Warning then 1 else 0, if severity == Error then 1 else 0, true)
    case NoValue => Reaction(c, Zero(), 0, 0, true)
  }

  /** Only a phase message that is no move of the stack is answered negatively. */
  lemma AcksExactly(c: Client, d: Data)
    requires c.phases != []
    ensures React(c, d).ok <==> !(d.PhaseChange? && StackMove(c.phases, d.kind) == Refused)
  {
  }

  lemma ReactReachable(c: Client, d: Data)
    requires Reachable(c.phases)
    ensures Reachable(React(c, d).client.phases)
  {
    if d.PhaseChange? {
      PackedRefinesStack(c.phases, d.kind);
    }
  }

  // ---- A run of one client --------------------------------------------------------------------

  /** A client, all its messages added so far, and how often three things happened. */
  datatype Tally = Tally(
    client: Client,
    total: Counters,
    /** `SETUP` taken with nothing but setup on the stack. */
    announced: nat,
    /** `SKIP` or `TIMEOUT` taken in the test's teardown, after its verdict. */
    lateEnds: nat,
    /** `ABORT` taken in the test's teardown. */
    lateAborts: nat)

  function Count(t: Tally, m: Data): Tally
    requires t.client.phases != []
  {
    var st := t.client.phases;
    Tally(
      React(t.client, m).client,
      Add(t.total, React(t.client, m).added),
      t.announced + (if m == PhaseChange(SETUP) && st == START then 1 else 0),
      t.lateEnds + (if (m == PhaseChange(SKIP) || m == PhaseChange(TIMEOUT)) && st == [Teardown] then 1 else 0),
      t.lateAborts + (if m == PhaseChange(ABORT) && st == [Teardown] then 1 else 0))
  }

  /** More messages, oldest first. The step is two calls down, so that proofs unfold it only on request. */
  function Continue(t: Tally, ms: seq<Data>): (r: Tally)
    requires Reachable(t.client.phases)
    ensures Reachable(r.client.phases) && (ms == [] ==> r == t)
    decreases ms, 2
  {
    ContinueSealed(t, ms)
  }

  function ContinueSealed(t: Tally, ms: seq<Data>): (r: Tally)
    requires Reachable(t.client.phases)
    ensures Reachable(r.client.phases) && (ms == [] ==> r == t)
    decreases ms, 1
  {
    ContinueStep(t, ms)
  }

  function ContinueStep(t: Tally, ms: seq<Data>): (r: Tally)
    requires Reachable(t.client.phases)
    ensures Reachable(r.client.phases) && (ms == [] ==> r == t)
    decreases ms, 0
  {
    if ms == [] then t
    else
      var before := Continue(t, ms[..|ms| - 1]);
      ReactReachable(before.client, ms[|ms| - 1]);
      Count(before, ms[|ms| - 1])
  }

  lemma ContinueUnfold(t: Tally, ms: seq<Data>)
    requires Reachable(t.client.phases)
    ensures Continue(t, ms) == ContinueStep(t, ms)
  {
    assert ContinueSealed(t, ms) == ContinueStep(t, ms);
  }

  /** All the messages of one client. */
  function Run(c: Client, ms: seq<Data>): (t: Tally)
    requires Reachable(c.phases)
    ensures Reachable(t.client.phases)
  {
    Continue(Tally(c, Zero(), 0, 0, 0), ms)
  }

  lemma ContinueSnoc(t: Tally, ms: seq<Data>, m: Data)
    requires Reachable(t.client.phases)
    ensures Continue(t, ms + [m]) == Count(Continue(t, ms), m)
  {
    assert (ms + [m])[..|ms|] == ms;
    ContinueUnfold(t, ms + [m]);
  }

  lemma RunSnoc(c: Client, ms: seq<Data>, m: Data)
    requires Reachable(c.phases)
    ensures Run(c, ms + [m]) == Count(Run(c, ms), m)
  {
    ContinueSnoc(Tally(c, Zero(), 0, 0, 0), ms, m);
  }

  lemma {:induction false} ContinueAppend(t: Tally, a: seq<Data>, b: seq<Data>)
    requires Reachable(t.client.phases)
    ensures Continue(t, a + b) == Continue(Continue(t, a), b)
  {
    if b == [] {
      assert a + b == a;
    } else {
      var n := |b| - 1;
      ContinueAppend(t, a, b[..n]);
      assert a + b == (a + b[..n]) + [b[n]];
      ContinueSnoc(t, a + b[..n], b[n]);
      ContinueUnfold(Continue(t, a), b);
    }
  }

  /** Every one of the messages is acknowledged positively. Sealed in the same way. */
  predicate AllAcked(t: Tally, ms: seq<Data>): (r: bool)
    requires Reachable(t.client.phases)
    ensures ms == [] ==> r
    decreases ms, 2
  {
    AllAckedSealed(t, ms)
  }

  predicate AllAckedSealed(t: Tally, ms: seq<Data>): (r: bool)
    requires Reachable(t.client.phases)
    ensures ms == [] ==> r
    decreases ms, 1
  {
    AllAckedStep(t, ms)
  }

  predicate AllAckedStep(t: Tally, ms: seq<Data>): (r: bool)
    requires Reachable(t.client.phases)
    ensures ms == [] ==> r
    decreases ms, 0
  {
    ms == [] || (AllAcked(t, ms[..|ms| - 1]) && React(Continue(t, ms[..|ms| - 1]).client, ms[|ms| - 1]).ok)
  }

  lemma AllAckedUnfold(t: Tally, ms: seq<Data>)
    requires Reachable(t.client.phases)
    ensures AllAcked(t, ms) <==> AllAckedStep(t, ms)
  {
    assert AllAckedSealed(t, ms) <==> AllAckedStep(t, ms);
  }

  lemma {:induction false} AllAckedAppend(t: Tally, a: seq<Data>, b: seq<Data>)
    requires Reachable(t.client.phases) && AllAcked(t, a) && AllAcked(Continue(t, a), b)
    ensures AllAcked(t, a + b)
  {
    if b == [] {
      assert a + b == a;
    } else {
      var n := |b| - 1;
      AllAckedUnfold(Continue(t, a), b);
      AllAckedUnfold(t, a + b);
      AllAckedAppend(t, a, b[..n]);
      ContinueAppend(t, a, b[..n]);
      assert (a + b)[..|a + b| - 1] == a + b[..n];
    }
  }

  predicate Deathless(ms: seq<Data>) {
    forall i :: 0 <= i < |ms| ==> !ms[i].Death?
  }

  /** The test itself is over: its verdict has been counted. */
  predicate Judged(st: Stack) {
    st == [Teardown] || st == [End]
  }

  /** The one verdict counted is this status. */
  predicate CountedAs(n: Counters, s: Status) {
    var v := Verdict(s);
    n.testsPassed == v.testsPassed && n.testsFailed == v.testsFailed && n.testsSkipped == v.testsSkipped
  }

  /** Neither ended nor timed out. */
  predicate Undisturbed(t: TestView) {
    t.signal == 0 && t.exitCode == 0 && !t.timedOut
  }

  /** What holds of a client that has not died: one verdict once judged, and one more for a late end. */
  predicate InLedger(t: Tally) {
    var st, n := t.client.phases, t.total;
    && Reachable(st)
    && n.nbTests == t.announced
    && n.testsCrashed == 0
    && Verdicts(n) == t.lateEnds + (if Judged(st) then 1 else 0)
    && t.lateEnds <= 1
    && (st != [End] ==> t.lateEnds == t.lateAborts == 0)
    && (t.lateAborts > 0 ==> t.client.test.status == Failed)
    && (!Judged(st) ==> t.client.test.status == Passed && Undisturbed(t.client.test))
    && (Judged(st) && t.lateEnds == t.lateAborts == 0 ==> CountedAs(n, t.client.test.status))
  }

  lemma LedgerStep(t: Tally, m: Data)
    requires InLedger(t) && !m.Death?
    ensures InLedger(Count(t, m))
  {
    ReactReachable(t.client, m);
    if m.PhaseChange? {
      if |t.client.phases| == 1 {
        LedgerAtTop(t, t.client.phases[0], m.kind);
      } else {
        LedgerNested(t, m.kind);
      }
    }
  }

  lemma LedgerNested(t: Tally, kind: Kind)
    requires InLedger(t) && |t.client.phases| == 2
    ensures InLedger(Count(t, PhaseChange(kind)))
  {
    ReactReachable(t.client, PhaseChange(kind));
    var st := t.client.phases;
    assert st[..1] == [Main];
  }

  lemma LedgerAtTop(t: Tally, p: Phase, kind: Kind)
    requires InLedger(t) && t.client.phases == [p]
    ensures InLedger(Count(t, PhaseChange(kind)))
  {
    var st := t.client.phases;
    assert st[..0] == [];
    if StackMove(st, kind) == Refused {
    } else if kind == ABORT || kind == TIMEOUT || kind == SKIP {
      LedgerCutShort(t, p, kind);
    } else if kind == TEARDOWN {
      LedgerJudges(t);
    } else if kind == SETUP {
      assert StackMove(st, kind) == Moved(if p == Setup then [Setup] else [Main, Setup]);
    } else {
      assert StackMove(st, kind) == Moved(if kind == MAIN then [Main] else [End]);
    }
  }

  /** A post-test event counts one verdict, the status it leaves on the record. */
  lemma PostTestJudges(n: Counters, t: TestView)
    ensures var n' := Add(n, Added(t, PostTest));
            && Verdicts(n') == Verdicts(n) + 1
            && n'.nbTests == n.nbTests && n'.testsCrashed == n.testsCrashed
            && (Verdicts(n) == 0 ==> CountedAs(n', TestAfter(t, PostTest).status))
  {
  }

  lemma LedgerJudges(t: Tally)
    requires InLedger(t) && t.client.phases == [Main]
    ensures InLedger(Count(t, PhaseChange(TEARDOWN)))
  {
    assert StackMove([Main], TEARDOWN) == Moved([Teardown]) by { assert [Main][..0] == []; }
    assert Count(t, PhaseChange(TEARDOWN)).total == Add(t.total, Added(t.client.test, PostTest));
    PostTestJudges(t.total, t.client.test);
  }

  /** `ABORT`, `TIMEOUT` and `SKIP` end the test where it is, with a verdict if there was none, or with a second one. */
  lemma LedgerCutShort(t: Tally, p: Phase, kind: Kind)
    requires InLedger(t) && t.client.phases == [p] && p != End
    requires kind == ABORT || kind == TIMEOUT || kind == SKIP
    ensures InLedger(Count(t, PhaseChange(kind)))
  {
    CutShort(t, p, kind);
    PostTestJudges(t.total, Noted([p], t.client.test, kind));
  }

  lemma CutShort(t: Tally, p: Phase, kind: Kind)
    requires t.client.phases == [p] && p != End
    requires kind == ABORT || kind == TIMEOUT || kind == SKIP
    ensures var noted := Noted([p], t.client.test, kind);
            var r := Count(t, PhaseChange(kind));
            && r.client.phases == [End]
            && (if kind == ABORT && p == Teardown then r.total == t.total && r.client.test.status == Failed
                else r.total == Add(t.total, Added(noted, PostTest)) && r.client.test == TestAfter(noted, PostTest))
            && r.announced == t.announced
            && r.lateEnds == t.lateEnds + (if kind != ABORT && p == Teardown then 1 else 0)
            && r.lateAborts == t.lateAborts + (if kind == ABORT && p == Teardown then 1 else 0)
  {
    assert StackMove([p], kind) == Moved([End]) by { assert [p][..0] == []; }
    var noted := Noted([p], t.client.test, kind);
    assert Added(TestAfter(noted, PostTest), PostFini) == Zero();
    assert Add(t.total, Zero()) == t.total;
    assert Add(Added(noted, PostTest), Zero()) == Added(noted, PostTest);
  }

  lemma {:induction false} LedgerKept(wantSignal: int, wantExit: int, ms: seq<Data>)
    requires Deathless(ms)
    ensures InLedger(Run(NewClient(wantSignal, wantExit), ms))
  {
    if ms != [] {
      var n := |ms| - 1;
      LedgerKept(wantSignal, wantExit, ms[..n]);
      LedgerStep(Run(NewClient(wantSignal, wantExit), ms[..n]), ms[n]);
      assert ms == ms[..n] + [ms[n]];
      RunSnoc(NewClient(wantSignal, wantExit), ms[..n], ms[n]);
    }
  }

  // ---- The verdict of a run -------------------------------------------------------------------

  /** The death leaves the test with a verdict, given it found the test in these phases. */
  predicate Settles(st: Stack, result: DeathResult) {
    || Judged(st)
    || ((st == [Setup] || st == [Main]) && result != Unknown)
    || (st == [Main, Main] && result == Crash)
  }

  /**
    One verdict per test. Over any messages and then a death, the test is announced as often as
    `SETUP` was taken at top level, and it gets exactly one verdict if and only if no `SKIP` or
    `TIMEOUT` was taken in teardown and the death settles the phases it finds. The verdict counted
    is the test's final status if and only if no `ABORT` was taken in teardown, or the test had
    failed already.
   */
  lemma OneVerdictExactly(wantSignal: int, wantExit: int, ms: seq<Data>, result: DeathResult, status: int)
    requires Deathless(ms)
    ensures var c := NewClient(wantSignal, wantExit);
            var before, end := Run(c, ms), Run(c, ms + [Death(result, status)]);
            && end.total.nbTests == before.announced
            && (Verdicts(end.total) == 1 <==> before.lateEnds == 0 && Settles(before.client.phases, result))
            && (Verdicts(end.total) == 0 <==> !Settles(before.client.phases, result))
            && (Verdicts(end.total) == 1 ==>
                (CountedAs(end.total, end.client.test.status) <==>
                 before.lateAborts == 0 || before.total.testsFailed == 1))
  {
    LedgerKept(wantSignal, wantExit, ms);
    RunSnoc(NewClient(wantSignal, wantExit), ms, Death(result, status));
    DeathJudges(Run(NewClient(wantSignal, wantExit), ms), result, status);
  }

  lemma DeathJudges(t: Tally, result: DeathResult, status: int)
    requires InLedger(t)
    ensures var end := Count(t, Death(result, status));
            && end.total.nbTests == t.announced
            && Verdicts(end.total) == t.lateEnds + (if Settles(t.client.phases, result) then 1 else 0)
            && (Verdicts(end.total) == 1 <==> t.lateEnds == 0 && Settles(t.client.phases, result))
            && (Verdicts(end.total) == 0 <==> !Settles(t.client.phases, result))
            && (Verdicts(end.total) == 1 ==>
                (CountedAs(end.total, end.client.test.status) <==> t.lateAborts == 0 || t.total.testsFailed == 1))
  {
    var st, end := t.client.phases, Count(t, Death(result, status));
    var noted := DeathNoted(st, t.client.test, result, status);
    var es := DeathEvents(st, noted, result);
    PostTestJudges(t.total, noted);
    CrashJudges(t.total, noted);
    if es == Nothing {
      assert end.total == Add(t.total, Zero()) == t.total;
    } else if es == One(TestCrash) {
      assert end.total == Add(t.total, Added(noted, TestCrash));
    } else {
      assert es == Two(PostTest, PostFini);
      assert Add(Added(noted, PostTest), Zero()) == Added(noted, PostTest);
      assert end.total == Add(t.total, Added(noted, PostTest));
    }
  }

  /** So does a crash event: a failure. */
  lemma CrashJudges(n: Counters, t: TestView)
    ensures var n' := Add(n, Added(t, TestCrash));
            && Verdicts(n') == Verdicts(n) + 1 && n'.nbTests == n.nbTests
            && (Verdicts(n) == 0 ==> CountedAs(n', TestAfter(t, TestCrash).status))
  {
  }

  /** `SKIP` or `TIMEOUT` in teardown gives the test a second verdict, from every such run. */
  lemma LateEndsCountTwice(wantSignal: int, wantExit: int, ms: seq<Data>, kind: Kind)
    requires Deathless(ms) && (kind == SKIP || kind == TIMEOUT)
    requires Run(NewClient(wantSignal, wantExit), ms).client.phases == [Teardown]
    ensures Verdicts(Run(NewClient(wantSignal, wantExit), ms + [PhaseChange(kind)]).total) == 2
  {
    var t := Run(NewClient(wantSignal, wantExit), ms);
    LedgerKept(wantSignal, wantExit, ms);
    RunSnoc(NewClient(wantSignal, wantExit), ms, PhaseChange(kind));
    CutShort(t, Teardown, kind);
    PostTestJudges(t.total, Noted([Teardown], t.client.test, kind));
  }

  /** `ABORT` in teardown fails the test and counts nothing, from every such run. */
  lemma LateAbortsCountNothing(wantSignal: int, wantExit: int, ms: seq<Data>)
    requires Deathless(ms) && Run(NewClient(wantSignal, wantExit), ms).client.phases == [Teardown]
    ensures var c := NewClient(wantSignal, wantExit);
            var before, after := Run(c, ms), Run(c, ms + [PhaseChange(ABORT)]);
            && after.total == before.total && Verdicts(after.total) == 1
            && after.client.test.status == Failed && after.lateAborts == 1
  {
    var t := Run(NewClient(wantSignal, wantExit), ms);
    LedgerKept(wantSignal, wantExit, ms);
    RunSnoc(NewClient(wantSignal, wantExit), ms, PhaseChange(ABORT));
    assert [Teardown][..0] == [];
    AddRules(t.total, t.total, t.total);
  }

  lemma RunClient(c: Client, ms: seq<Data>, n: nat)
    requires Reachable(c.phases) && n < |ms|
    ensures Run(c, ms[..n + 1]).client == React(Run(c, ms[..n]).client, ms[n]).client
  {
    assert ms[..n + 1] == ms[..n] + [ms[n]];
    RunSnoc(c, ms[..n], ms[n]);
  }

  lemma QuietSteps(c: Client)
    requires c.test == NewTest(0, 0)
    ensures c.phases == START ==> React(c, PhaseChange(SETUP)).client == c
    ensures c.phases == START ==> React(c, PhaseChange(MAIN)).client == c.(phases := [Main])
    ensures c.phases == [Main] ==> React(c, PhaseChange(TEARDOWN)).client == c.(phases := [Teardown])
  {
    assert [Setup][..0] == [] && [Main][..0] == [];
  }

  /** A test that does nothing, up to its teardown. */
  lemma ReachesTeardown(c: Client, ms: seq<Data>)
    requires c == NewClient(0, 0)
    requires ms == [PhaseChange(SETUP), PhaseChange(MAIN), PhaseChange(TEARDOWN)]
    ensures Run(c, ms).client == c.(phases := [Teardown])
  {
    RunClient(c, ms, 0);
    RunClient(c, ms, 1);
    RunClient(c, ms, 2);
    QuietSteps(c);
    QuietSteps(c.(phases := [Main]));
    assert ms[..3] == ms && ms[..0] == [];
  }

  /** A test counted as passed that ends failed: the input on which the two differ. */
  lemma PassedThenFailed(wantSignal: int, wantExit: int, ms: seq<Data>)
    requires wantSignal == wantExit == 0
    requires ms == [PhaseChange(SETUP), PhaseChange(MAIN), PhaseChange(TEARDOWN)]
    ensures var t := Run(NewClient(wantSignal, wantExit), ms + [PhaseChange(ABORT)]);
            t.total.testsPassed == 1 && t.client.test.status == Failed
  {
    ReachesTeardown(NewClient(wantSignal, wantExit), ms);
    LedgerKept(wantSignal, wantExit, ms);
    LateAbortsCountNothing(wantSignal, wantExit, ms);
  }

  /** A normal death inside an open subtest counts no verdict, from every such run. */
  lemma NormalDeathInSubtestUncounted(wantSignal: int, wantExit: int, ms: seq<Data>, status: int)
    requires Deathless(ms) && |Run(NewClient(wantSignal, wantExit), ms).client.phases| == 2
    ensures Verdicts(Run(NewClient(wantSignal, wantExit), ms + [Death(Normal, status)]).total) == 0
  {
    OneVerdictExactly(wantSignal, wantExit, ms, Normal, status);
  }

  /**
    A timeout inside a subtest goes unnoticed: the subtest is closed, the death that follows finds
    the test in main, and a test without failed asserts is counted as passed, from every such run.
   */
  lemma TimeoutInSubtestUnnoticed(wantSignal: int, wantExit: int, ms: seq<Data>)
    requires Deathless(ms) && wantSignal == wantExit == 0
    requires |Run(NewClient(wantSignal, wantExit), ms).client.phases| == 2
    requires Run(NewClient(wantSignal, wantExit), ms).client.test.failedAsserts == 0
    ensures var end := Run(NewClient(wantSignal, wantExit), ms + [PhaseChange(TIMEOUT)] + [Death(Normal, 0)]);
            end.client.test.status == Passed && !end.client.test.timedOut && CountedAs(end.total, Passed)
  {
    var c := NewClient(wantSignal, wantExit);
    var t := Run(c, ms);
    LedgerKept(wantSignal, wantExit, ms);
    WantsKept(wantSignal, wantExit, ms);
    RunSnoc(c, ms, PhaseChange(TIMEOUT));
    RunSnoc(c, ms + [PhaseChange(TIMEOUT)], Death(Normal, 0));
    var m := Count(t, PhaseChange(TIMEOUT));
    assert t.client.phases[..1] == [Main];
    assert m.client == t.client.(phases := [Main]);
    LedgerNested(t, TIMEOUT);
    UneventfulDeath(m);
  }

  /** A timeout is recorded exactly when it finds the test at top level, and not over. */
  lemma TimeoutRecordedExactly(c: Client)
    requires Reachable(c.phases)
    ensures React(c, PhaseChange(TIMEOUT)).client.test.timedOut <==>
            c.test.timedOut || (|c.phases| == 1 && c.phases != [End])
  {
    assert c.phases == [End] <==> |c.phases| == 1 && c.phases[0] == End;
  }

  lemma QuietEnd(c: Client)
    requires c.phases == [Main] && !Unexpected(c.test) && c.test.wantExit == 0
    ensures React(c, Death(Normal, 0)).client.test == c.test.(exitCode := 0)
  {
  }

  lemma UneventfulDeath(t: Tally)
    requires InLedger(t) && t.client.phases == [Main] && !Unexpected(t.client.test)
    requires t.client.test.wantExit == 0
    ensures var end := Count(t, Death(Normal, 0));
            end.client.test.status == Passed && !end.client.test.timedOut && CountedAs(end.total, Passed)
  {
    DeathJudges(t, Normal, 0);
    QuietEnd(t.client);
  }

  predicate SameWants(t: TestView, u: TestView) {
    t.wantSignal == u.wantSignal && t.wantExit == u.wantExit
  }

  lemma EventsKeepWants(t: TestView, es: Events)
    ensures SameWants(t, TestAfterAll(t, es))
  {
  }

  lemma WantsStep(c: Client, d: Data)
    requires c.phases != []
    ensures SameWants(c.test, React(c, d).client.test)
  {
    var st := c.phases;
    match d
    case PhaseChange(kind) => EventsKeepWants(Noted(st, c.test, kind), PhaseEvents(st, kind));
    case Death(result, status) =>
      var noted := DeathNoted(st, c.test, result, status);
      EventsKeepWants(noted, DeathEvents(st, noted, result));
    case AssertDone(passed) => EventsKeepWants(c.test, One(Assert(passed)));
    case _ =>
  }

  /** What the author of the test declared never changes. */
  lemma {:induction false} WantsKept(wantSignal: int, wantExit: int, ms: seq<Data>)
    ensures var t := Run(NewClient(wantSignal, wantExit), ms).client.test;
            t.wantSignal == wantSignal && t.wantExit == wantExit
  {
    if ms != [] {
      var n := |ms| - 1;
      WantsKept(wantSignal, wantExit, ms[..n]);
      RunClient(NewClient(wantSignal, wantExit), ms, n);
      WantsStep(Run(NewClient(wantSignal, wantExit), ms[..n]).client, ms[n]);
      assert ms[..n + 1] == ms;
    }
  }
}
