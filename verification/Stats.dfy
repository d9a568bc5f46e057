/**
  Statistics: test, suite and global records, and the events that update the three of them
  together. Every event adds the same amounts to the suite and to the global counters.
 */
module Stats {

  datatype Status = Passed | Failed | Skipped

  /** The per-test and per-assert counters a suite and the whole run both keep. */
  datatype Counters = Counters(
    nbTests: nat, nbAsserts: nat,
    testsSkipped: nat, testsFailed: nat, testsCrashed: nat, testsPassed: nat,
    assertsFailed: nat, assertsPassed: nat)

  function Zero(): Counters {
    Counters(0, 0, 0, 0, 0, 0, 0, 0)
  }

  function Add(a: Counters, b: Counters): Counters {
    Counters(
      a.nbTests + b.nbTests, a.nbAsserts + b.nbAsserts,
      a.testsSkipped + b.testsSkipped, a.testsFailed + b.testsFailed,
      a.testsCrashed + b.testsCrashed, a.testsPassed + b.testsPassed,
      a.assertsFailed + b.assertsFailed, a.assertsPassed + b.assertsPassed)
  }

  lemma AddRules(a: Counters, b: Counters, c: Counters)
    ensures Add(Add(a, b), c) == Add(a, Add(b, c))
    ensures Add(Add(a, b), c) == Add(Add(a, c), b)
    ensures Add(a, Zero()) == a
  {
  }

  /** What passing over `k` disabled tests adds to the counters. */
  function SkipCounts(k: nat): Counters {
    Zero().(nbTests := k, testsSkipped := k)
  }

  lemma NoSkips(n: Counters)
    ensures Add(n, SkipCounts(0)) == n
  {
  }

  lemma SkipsAdd(n: Counters, a: nat, b: nat)
    ensures Add(Add(n, SkipCounts(a)), SkipCounts(b)) == Add(n, SkipCounts(a + b))
  {
  }

  /** How many times a verdict was counted. */
  function Verdicts(n: Counters): nat {
    n.testsPassed + n.testsFailed + n.testsSkipped
  }

  datatype Event = PreSuite | PreInit | PreTest | Assert(passed: bool) | TestCrash | PostTest | PostFini

  /** The value of a test record; `asserts` holds one flag per recorded assert, newest first. */
  datatype TestView = TestView(
    asserts: seq<bool>, status: Status, passedAsserts: nat, failedAsserts: nat,
    signal: int, exitCode: int, timedOut: bool, crashed: bool,
    wantSignal: int, wantExit: int)

  /** A record as allocated: no verdict, nothing recorded. */
  function NewTest(wantSignal: int, wantExit: int): TestView {
    TestView([], Passed, 0, 0, 0, 0, false, false, wantSignal, wantExit)
  }

  /** The test did not end as its author declared. */
  predicate Unexpected(t: TestView) {
    t.failedAsserts > 0 || t.timedOut || t.signal != t.wantSignal || t.exitCode != t.wantExit
  }

  function TestAfter(t: TestView, e: Event): TestView {
    match e
    case Assert(true) => t.(asserts := [true] + t.asserts, passedAsserts := t.passedAsserts + 1)
    case Assert(false) => t.(asserts := [false] + t.asserts, failedAsserts := t.failedAsserts + 1)
    case TestCrash => t.(status := Failed, crashed := true)
    case PostTest => if Unexpected(t) then t.(status := Failed) else t
    case _ => t
  }

  /** One verdict, counted under the given status. */
  function Verdict(s: Status): Counters {
    match s
    case Passed => Zero().(testsPassed := 1)
    case Failed => Zero().(testsFailed := 1)
    case Skipped => Zero().(testsSkipped := 1)
  }

  /** What an event adds, to the suite and to the run alike. */
  function Added(t: TestView, e: Event): Counters {
    match e
    case PreInit => Zero().(nbTests := 1, testsSkipped := if t.status == Skipped then 1 else 0)
    case Assert(true) => Zero().(assertsPassed := 1)
    case Assert(false) => Zero().(assertsFailed := 1)
    case TestCrash => Zero().(testsFailed := 1, testsCrashed := 1)
    case PostTest => Verdict(TestAfter(t, e).status)
    case _ => Zero()
  }

  class TestStats {
    const wantSignal: int
    const wantExit: int
    var asserts: seq<bool>
    var status: Status
    var passedAsserts: nat
    var failedAsserts: nat
    var signal: int
    var exitCode: int
    var timedOut: bool
    var crashed: bool
    /** The record announced in its suite before this one. */
    var next: TestStats?

    function View(): TestView
      reads this
    {
      TestView(asserts, status, passedAsserts, failedAsserts, signal, exitCode, timedOut, crashed, wantSignal, wantExit)
    }

    constructor (wantSignal: int, wantExit: int)
      ensures View() == NewTest(wantSignal, wantExit)
    {
      this.wantSignal, this.wantExit := wantSignal, wantExit;
      asserts, status, passedAsserts, failedAsserts := [], Passed, 0, 0;
      signal, exitCode, timedOut, crashed := 0, 0, false, false;
      next := null;
    }
  }

  class SuiteStats {
    /** The number of its suite; the external one has none. */
    const suite: int
    /** The record announced last; the others follow by `next`. */
    var tests: TestStats?
    var n: Counters

    constructor (suite: int)
      ensures this.suite == suite && tests == null && n == Zero()
    {
      this.suite, tests, n := suite, null, Zero();
    }
  }

  class GlobalStats {
    var suites: seq<SuiteStats>
    var nbSuites: nat
    var n: Counters
    var errors: nat
    var warnings: nat

    constructor ()
      ensures suites == [] && nbSuites == 0 && n == Zero() && errors == warnings == 0
    {
      suites, nbSuites, n, errors, warnings := [], 0, Zero(), 0, 0;
    }
  }

  /** A suite starts: it is linked into the run. */
  method PushPreSuite(stats: GlobalStats, suite: SuiteStats)
    modifies stats
    ensures stats.suites == [suite] + old(stats.suites) && stats.nbSuites == old(stats.nbSuites) + 1
    ensures stats.n == old(stats.n) && stats.errors == old(stats.errors) && stats.warnings == old(stats.warnings)
  {
    stats.suites := [suite] + stats.suites;
    stats.nbSuites := stats.nbSuites + 1;
  }

  /** A test is announced, and linked in front of its suite's. Announced twice in a row, it is linked to itself. */
  method PushPreInit(stats: GlobalStats, suite: SuiteStats, test: TestStats)
    modifies stats`n, suite, test`next
    ensures stats.n == Add(old(stats.n), Added(test.View(), PreInit))
    ensures suite.n == Add(old(suite.n), Added(test.View(), PreInit))
    ensures suite.tests == test && test.next == old(suite.tests) && test.View() == old(test.View())
  {
    test.next := suite.tests;
    suite.tests := test;
    stats.n := stats.n.(nbTests := stats.n.nbTests + 1);
    suite.n := suite.n.(nbTests := suite.n.nbTests + 1);
    if test.status == Skipped {
      stats.n := stats.n.(testsSkipped := stats.n.testsSkipped + 1);
      suite.n := suite.n.(testsSkipped := suite.n.testsSkipped + 1);
    }
  }

  method PushAssert(stats: GlobalStats, suite: SuiteStats, test: TestStats, passed: bool)
    modifies stats`n, suite`n, test
    ensures stats.n == Add(old(stats.n), Added(old(test.View()), Assert(passed)))
    ensures suite.n == Add(old(suite.n), Added(old(test.View()), Assert(passed)))
    ensures test.View() == TestAfter(old(test.View()), Assert(passed))
    ensures test.next == old(test.next)
  {
    test.asserts := [passed] + test.asserts;
    if passed {
      stats.n := stats.n.(assertsPassed := stats.n.assertsPassed + 1);
      suite.n := suite.n.(assertsPassed := suite.n.assertsPassed + 1);
      test.passedAsserts := test.passedAsserts + 1;
    } else {
      stats.n := stats.n.(assertsFailed := stats.n.assertsFailed + 1);
      suite.n := suite.n.(assertsFailed := suite.n.assertsFailed + 1);
      test.failedAsserts := test.failedAsserts + 1;
    }
  }

  method PushPostTest(stats: GlobalStats, suite: SuiteStats, test: TestStats)
    modifies stats`n, suite`n, test
    ensures stats.n == Add(old(stats.n), Added(old(test.View()), PostTest))
    ensures suite.n == Add(old(suite.n), Added(old(test.View()), PostTest))
    ensures test.View() == TestAfter(old(test.View()), PostTest)
    ensures test.next == old(test.next)
  {
    if test.failedAsserts > 0 || test.timedOut || test.signal != test.wantSignal || test.exitCode != test.wantExit {
      test.status := Failed;
    }
    match test.status {
      case Failed =>
        stats.n := stats.n.(testsFailed := stats.n.testsFailed + 1);
        suite.n := suite.n.(testsFailed := suite.n.testsFailed + 1);
      case Passed =>
        stats.n := stats.n.(testsPassed := stats.n.testsPassed + 1);
        suite.n := suite.n.(testsPassed := suite.n.testsPassed + 1);
      case Skipped =>
        stats.n := stats.n.(testsSkipped := stats.n.testsSkipped + 1);
        suite.n := suite.n.(testsSkipped := suite.n.testsSkipped + 1);
    }
  }

  method PushTestCrash(stats: GlobalStats, suite: SuiteStats, test: TestStats)
    modifies stats`n, suite`n, test
    ensures stats.n == Add(old(stats.n), Added(old(test.View()), TestCrash))
    ensures suite.n == Add(old(suite.n), Added(old(test.View()), TestCrash))
    ensures test.View() == TestAfter(old(test.View()), TestCrash)
    ensures test.next == old(test.next)
  {
    test.status := Failed;
    test.crashed := true;
    suite.n := suite.n.(testsFailed := suite.n.testsFailed + 1);
    suite.n := suite.n.(testsCrashed := suite.n.testsCrashed + 1);
    stats.n := stats.n.(testsFailed := stats.n.testsFailed + 1);
    stats.n := stats.n.(testsCrashed := stats.n.testsCrashed + 1);
  }

  /** The dispatch over the events that concern a test. */
  method PushTestEvent(stats: GlobalStats, suite: SuiteStats, test: TestStats, e: Event)
    requires e != PreSuite
    modifies stats`n, suite, test
    ensures stats.n == Add(old(stats.n), Added(old(test.View()), e))
    ensures suite.n == Add(old(suite.n), Added(old(test.View()), e))
    ensures test.View() == TestAfter(old(test.View()), e)
    ensures suite.tests == if e == PreInit then test else old(suite.tests)
    ensures test.next == if e == PreInit then old(suite.tests) else old(test.next)
  {
    match e {
      case PreInit => PushPreInit(stats, suite, test);
      case Assert(passed) => PushAssert(stats, suite, test, passed);
      case TestCrash => PushTestCrash(stats, suite, test);
      case PostTest => PushPostTest(stats, suite, test);
      case _ =>
    }
  }

  /** The dispatch over all events. Only the start of a suite comes without a test. */
  method StatPushEvent(stats: GlobalStats, suite: SuiteStats, test: TestStats?, e: Event)
    requires e != PreSuite ==> test != null
    modifies stats, suite, test
    ensures e == PreSuite ==>
              && stats.suites == [suite] + old(stats.suites) && stats.nbSuites == old(stats.nbSuites) + 1
              && stats.n == old(stats.n) && unchanged(suite) && (test != null ==> unchanged(test))
    ensures e != PreSuite ==>
              && stats.n == Add(old(stats.n), Added(old(test.View()), e))
              && suite.n == Add(old(suite.n), Added(old(test.View()), e))
              && test.View() == TestAfter(old(test.View()), e)
              && suite.tests == (if e == PreInit then test else old(suite.tests))
              && test.next == (if e == PreInit then old(suite.tests) else old(test.next))
              && stats.suites == old(stats.suites) && stats.nbSuites == old(stats.nbSuites)
    ensures stats.errors == old(stats.errors) && stats.warnings == old(stats.warnings)
  {
    if e == PreSuite {
      PushPreSuite(stats, suite);
    } else {
      PushTestEvent(stats, suite, test, e);
    }
  }
}
