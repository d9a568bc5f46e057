/**
  The resumable enumeration of the tests to run. Each call resumes where the last one returned,
  starts one more test instance, and returns nothing once, and ever after, when all are started.
 */
module Coroutine {
  import opened Stats
  import opened Books
  import opened Conservation

  datatype Option<T> = None | Some(value: T)

  /** A test; a parameterized one carries the number of its parameters. */
  datatype Test = Test(disabled: bool, params: Option<nat>, wantSignal: int, wantExit: int)

  /** A suite; without a test set, it is passed over. */
  datatype Suite = Suite(disabled: bool, tests: Option<seq<Test>>)

  type TestSet = seq<Suite>

  /** One process to start: a test, and its parameter if it has any. */
  datatype Instance = Instance(suite: nat, test: nat, param: Option<nat>)

  predicate IsDisabled(t: Test, s: Suite) {
    t.disabled || s.disabled
  }

  // ---- What there is to run, in order -----------------------------------------------------------

  function ParamsFrom(s: nat, t: nat, i: nat, n: nat): seq<Instance>
    decreases n - i
  {
    if i >= n then [] else [Instance(s, t, Some(i))] + ParamsFrom(s, t, i + 1, n)
  }

  function InstancesOf(suite: Suite, s: nat, test: Test, t: nat): seq<Instance> {
    if IsDisabled(test, suite) then []
    else match test.params
      case None => [Instance(s, t, None)]
      case Some(n) => ParamsFrom(s, t, 0, n)
  }

  /** What is still to run, and how many disabled tests are still to be passed over. */
  datatype Plan = Plan(list: seq<Instance>, skips: nat)

  /** A position in the nested loops: at a suite, or, with `t`, at a test of suite `s`. */
  predicate Position(tests: TestSet, s: nat, t: Option<nat>) {
    if t == None then s <= |tests|
    else s < |tests| && tests[s].tests.Some? && t.value <= |tests[s].tests.value|
  }

  /** The plan from a position on. Its step is two calls down, so that proofs unfold it only on request. */
  function Rest(tests: TestSet, s: nat, t: Option<nat>): Plan
    requires Position(tests, s, t)
    decreases |tests| - s, t == None, if t == None then 0 else |tests[s].tests.value| - t.value, 2
  {
    RestSealed(tests, s, t)
  }

  function RestSealed(tests: TestSet, s: nat, t: Option<nat>): Plan
    requires Position(tests, s, t)
    decreases |tests| - s, t == None, if t == None then 0 else |tests[s].tests.value| - t.value, 1
  {
    RestStep(tests, s, t)
  }

  function RestStep(tests: TestSet, s: nat, t: Option<nat>): Plan
    requires Position(tests, s, t)
    decreases |tests| - s, t == None, if t == None then 0 else |tests[s].tests.value| - t.value, 0
  {
    if t == None then
      if s == |tests| then Plan([], 0)
      else if tests[s].tests == None then Rest(tests, s + 1, None)
      else Rest(tests, s, Some(0))
    else if t.value == |tests[s].tests.value| then Rest(tests, s + 1, None)
    else
      var test := tests[s].tests.value[t.value];
      var later := Rest(tests, s, Some(t.value + 1));
      Plan(InstancesOf(tests[s], s, test, t.value) + later.list,
           (if IsDisabled(test, tests[s]) then 1 else 0) + later.skips)
  }

  lemma Unfold(tests: TestSet, s: nat, t: Option<nat>)
    requires Position(tests, s, t)
    ensures Rest(tests, s, t) == RestStep(tests, s, t)
  {
    assert RestSealed(tests, s, t) == RestStep(tests, s, t);
  }

  /** Everything to run, in order. */
  function All(tests: TestSet): Plan {
    Rest(tests, 0, None)
  }

  // ---- The enumeration is exact ---------------------------------------------------------------

  predicate Enabled(tests: TestSet, x: Instance) {
    && x.suite < |tests| && !tests[x.suite].disabled && tests[x.suite].tests.Some?
    && var ts := tests[x.suite].tests.value;
       && x.test < |ts| && !ts[x.test].disabled
       && (if ts[x.test].params == None then x.param == None
           else x.param.Some? && x.param.value < ts[x.test].params.value)
  }

  /** By suite, then by test, then by parameter. */
  predicate Before(x: Instance, y: Instance) {
    || x.suite < y.suite
    || (x.suite == y.suite && x.test < y.test)
    || (x.suite == y.suite && x.test == y.test && x.param.Some? && y.param.Some? && x.param.value < y.param.value)
  }

  predicate Ascending(xs: seq<Instance>) {
    forall i, j :: 0 <= i < j < |xs| ==> Before(xs[i], xs[j])
  }

  predicate Distinct(xs: seq<Instance>) {
    forall i, j :: 0 <= i < j < |xs| ==> xs[i] != xs[j]
  }

  lemma AscendingAppend(a: seq<Instance>, b: seq<Instance>)
    requires Ascending(a) && Ascending(b) && forall x, y :: x in a && y in b ==> Before(x, y)
    ensures Ascending(a + b)
  {
    var c := a + b;
    forall i, j | 0 <= i < j < |c|
      ensures Before(c[i], c[j])
    {
      if i < |a| <= j {
        assert a[i] in a && b[j - |a|] in b;
      }
    }
  }

  lemma {:induction false} ParamsExact(s: nat, t: nat, i: nat, n: nat)
    ensures Ascending(ParamsFrom(s, t, i, n))
    ensures forall x :: x in ParamsFrom(s, t, i, n) <==>
                          x.suite == s && x.test == t && x.param.Some? && i <= x.param.value < n
    decreases n - i
  {
    if i < n {
      ParamsExact(s, t, i + 1, n);
      AscendingAppend([Instance(s, t, Some(i))], ParamsFrom(s, t, i + 1, n));
    }
  }

  lemma InstancesExact(suite: Suite, s: nat, test: Test, t: nat)
    ensures Ascending(InstancesOf(suite, s, test, t))
    ensures forall x :: x in InstancesOf(suite, s, test, t) <==>
                          && x.suite == s && x.test == t && !test.disabled && !suite.disabled
                          && (if test.params == None then x.param == None
                              else x.param.Some? && x.param.value < test.params.value)
  {
    if test.params.Some? {
      ParamsExact(s, t, 0, test.params.value);
    }
  }

  /** The plan from a position on: in order, exactly the enabled tests with each of their parameters. */
  lemma {:induction false} RestExact(tests: TestSet, s: nat, t: Option<nat>)
    requires Position(tests, s, t)
    ensures Ascending(Rest(tests, s, t).list)
    ensures forall x :: x in Rest(tests, s, t).list <==>
                          Enabled(tests, x) && (x.suite > s || (x.suite == s && (t == None || x.test >= t.value)))
    decreases |tests| - s, t == None, if t == None then 0 else |tests[s].tests.value| - t.value
  {
    Unfold(tests, s, t);
    if t == None {
      if s < |tests| {
        if tests[s].tests == None {
          RestExact(tests, s + 1, None);
        } else {
          RestExact(tests, s, Some(0));
        }
      }
    } else if t.value == |tests[s].tests.value| {
      RestExact(tests, s + 1, None);
    } else {
      var test := tests[s].tests.value[t.value];
      RestExact(tests, s, Some(t.value + 1));
      InstancesExact(tests[s], s, test, t.value);
      AscendingAppend(InstancesOf(tests[s], s, test, t.value), Rest(tests, s, Some(t.value + 1)).list);
    }
  }

  /** The instances to start are in order, and exactly the enabled tests with each of their parameters. */
  lemma AllExact(tests: TestSet)
    ensures Ascending(All(tests).list) && Distinct(All(tests).list)
    ensures forall x :: x in All(tests).list <==> Enabled(tests, x)
  {
    RestExact(tests, 0, None);
  }

  /** The tests of a suite that are disabled, by themselves or with it. */
  function DisabledIn(tests: seq<Test>, suite: bool): nat {
    if tests == [] then 0
    else (if tests[0].disabled || suite then 1 else 0) + DisabledIn(tests[1..], suite)
  }

  function DisabledTests(tests: TestSet): nat {
    if tests == [] then 0
    else (if tests[0].tests == None then 0 else DisabledIn(tests[0].tests.value, tests[0].disabled)) +
         DisabledTests(tests[1..])
  }

  lemma {:induction false} RestSkips(tests: TestSet, s: nat, t: Option<nat>)
    requires Position(tests, s, t)
    ensures Rest(tests, s, t).skips ==
            if t == None then DisabledTests(tests[s..])
            else DisabledIn(tests[s].tests.value[t.value..], tests[s].disabled) + DisabledTests(tests[s + 1..])
    decreases |tests| - s, t == None, if t == None then 0 else |tests[s].tests.value| - t.value
  {
    Unfold(tests, s, t);
    if t == None {
      if s < |tests| {
        assert tests[s..][1..] == tests[s + 1..];
        if tests[s].tests == None {
          RestSkips(tests, s + 1, None);
        } else {
          RestSkips(tests, s, Some(0));
          assert tests[s].tests.value[0..] == tests[s].tests.value;
        }
      }
    } else if t.value == |tests[s].tests.value| {
      RestSkips(tests, s + 1, None);
    } else {
      var ts := tests[s].tests.value;
      RestSkips(tests, s, Some(t.value + 1));
      assert ts[t.value..][1..] == ts[t.value + 1..];
    }
  }

  /** What is passed over are the tests disabled by themselves or with their suite. */
  lemma AllSkips(tests: TestSet)
    ensures All(tests).skips == DisabledTests(tests)
  {
    RestSkips(tests, 0, None);
    assert tests[0..] == tests;
  }

  /** The numbers of the suites before `n` that have a test set. */
  function SetsBefore(tests: TestSet, n: nat): seq<nat>
    requires n <= |tests|
  {
    if n == 0 then [] else SetsBefore(tests, n - 1) + if tests[n - 1].tests == None then [] else [n - 1]
  }

  /** The records are of the suites before `n` that have a test set, in order. */
  predicate Enlisted(begun: seq<SuiteStats>, tests: TestSet, n: nat)
    requires n <= |tests|
  {
    if n == 0 then begun == []
    else if tests[n - 1].tests == None then Enlisted(begun, tests, n - 1)
    else begun != [] && begun[|begun| - 1].suite == n - 1 && Enlisted(begun[..|begun| - 1], tests, n - 1)
  }

  lemma {:induction false} EnlistedSets(begun: seq<SuiteStats>, tests: TestSet, n: nat)
    requires n <= |tests|
    ensures Enlisted(begun, tests, n) <==>
            |begun| == |SetsBefore(tests, n)| &&
            forall k :: 0 <= k < |begun| ==> begun[k].suite == SetsBefore(tests, n)[k]
  {
    if n > 0 {
      if tests[n - 1].tests == None {
        EnlistedSets(begun, tests, n - 1);
      } else if begun != [] {
        EnlistedSets(begun[..|begun| - 1], tests, n - 1);
      }
    }
  }

  lemma EnlistedOn(begun: seq<SuiteStats>, suite: SuiteStats, tests: TestSet, n: nat)
    requires n < |tests| && tests[n].tests.Some? && Enlisted(begun, tests, n) && suite.suite == n
    ensures Enlisted(begun + [suite], tests, n + 1)
  {
    assert (begun + [suite])[..|begun|] == begun;
  }

  // ---- The coroutine ---------------------------------------------------------------------------

  /** Where the next call resumes. */
  datatype Line = Beginning | AfterInit | AfterParam | AfterTest

  class RunNext {
    /** The context is allocated. The other fields mean nothing while it is not. */
    var active: bool
    var line: Line
    var tests: Option<TestSet>
    var stats: GlobalStats?
    var suiteStats: SuiteStats?
    var ns: nat
    var nt: nat
    var i: nat
    /** The suites started, oldest first, as the statistics link them. */
    var begun: seq<SuiteStats>

    constructor ()
      ensures !active && suiteStats == null && begun == []
    {
      active, line, tests, stats, suiteStats, ns, nt, i := false, Beginning, None, null, null, 0, 0, 0;
      begun := [];
    }

    /** The suites' counters are those of the world's suites, after the first, the external one. */
    ghost predicate Booked(w: World)
      reads this`begun, this`suiteStats, set s | s in begun
    {
      && Good(w) && |w.suites| == |begun| + 1
      && (forall k :: 0 <= k < |begun| ==> begun[k].n == w.suites[k + 1])
      && (forall j, k :: 0 <= j < k < |begun| ==> begun[j] != begun[k])
      && (suiteStats != null ==> begun != [] && suiteStats == begun[|begun| - 1])
    }

    /** The moves lead from `w` to a world that these are the counters of, and leave the external suite alone. */
    ghost predicate Led(w: World, ms: seq<Shift>)
      requires Good(w) && w.suites != []
      reads this`begun, this`suiteStats, set s | s in begun
    {
      Booked(Applied(w, ms)) && Applied(w, ms).suites[0] == w.suites[0]
    }

    /** Suites were only added, and those are new. */
    twostate predicate Started()
      reads this`begun
    {
      && |begun| >= |old(begun)| && begun[..|old(begun)|] == old(begun)
      && forall s :: s in begun ==> s in old(begun) || fresh(s)
    }

    predicate Valid()
      reads this
    {
      active ==>
        && (tests.Some? <==> stats != null)
        && line != Beginning
        && (line == AfterInit && tests.Some? ==> Enlisted(begun, tests.value, 0))
        && (line == AfterParam || line == AfterTest ==>
              && tests.Some? && suiteStats != null && suiteStats.suite == ns
              && ns < |tests.value| && tests.value[ns].tests.Some?
              && nt < |tests.value[ns].tests.value| && Enlisted(begun, tests.value, ns + 1)
              && !IsDisabled(tests.value[ns].tests.value[nt], tests.value[ns]))
        && (line == AfterParam ==>
              var p := tests.value[ns].tests.value[nt].params; p.Some? && i < p.value)
    }

    /** What later calls will start, and pass over. */
    function Pending(): Plan
      requires Valid()
      reads this
    {
      if !active || tests == None then Plan([], 0)
      else match line
        case AfterInit => All(tests.value)
        case AfterTest => Rest(tests.value, ns, Some(nt + 1))
        case AfterParam =>
          var later := Rest(tests.value, ns, Some(nt + 1));
          later.(list := ParamsFrom(ns, nt, i + 1, tests.value[ns].tests.value[nt].params.value) + later.list)
    }

    /** Nothing comes any more. */
    predicate Exhausted()
      reads this
    {
      !active || tests == None
    }

    function Remaining(): seq<Instance>
      requires Valid()
      reads this
    {
      Pending().list
    }

    /** The call with the set and the statistics: it only takes them in. */
    method Init(pSet: TestSet, pStats: GlobalStats)
      requires !active
      modifies this
      ensures Valid() && active && stats == pStats && tests == Some(pSet) && suiteStats == old(suiteStats)
      ensures begun == []
      ensures Pending() == All(pSet)
    {
      active, line := true, Beginning;
      tests, stats := Some(pSet), pStats;
      begun := [];
      line := AfterInit;
    }

    /** Passes over a disabled test: it counts as a test, and as skipped. */
    method SkipDisabled(ghost w: World) returns (skipped: bool, ghost ms: seq<Shift>)
      requires active && tests.Some? && stats != null && suiteStats != null && Booked(w)
      requires ns < |tests.value| && tests.value[ns].tests.Some? && nt < |tests.value[ns].tests.value|
      modifies stats`n, suiteStats
      ensures skipped <==> IsDisabled(tests.value[ns].tests.value[nt], tests.value[ns])
      ensures stats.n == Add(old(stats.n), SkipCounts(if skipped then 1 else 0))
      ensures suiteStats.n == Add(old(suiteStats.n), SkipCounts(if skipped then 1 else 0))
      ensures Led(w, ms) && PassesIn(ms) == if skipped then 1 else 0
    {
      var test := tests.value[ns].tests.value[nt];
      if IsDisabled(test, tests.value[ns]) {
        var testStats := new TestStats(test.wantSignal, test.wantExit);
        testStats.status := Skipped;
        PushTestEvent(stats, suiteStats, testStats, PreInit);
        AppliedOne(w, Passes);
        return true, [Passes];
      }
      NoSkips(stats.n);
      NoSkips(suiteStats.n);
      return false, [];
    }

    /** Starts the next suite. */
    method EnterSuite(ghost w: World) returns (ghost ms: seq<Shift>)
      requires stats != null && Booked(w) && tests.Some? && ns < |tests.value| && tests.value[ns].tests.Some?
      requires Enlisted(begun, tests.value, ns)
      modifies this`suiteStats, this`begun, stats
      ensures Enlisted(begun, tests.value, ns + 1) && suiteStats != null && suiteStats.suite == ns
      ensures stats.n == old(stats.n) && suiteStats != null && fresh(suiteStats)
      ensures Led(w, ms) && Started() && PassesIn(ms) == 0
    {
      suiteStats := new SuiteStats(ns);
      StatPushEvent(stats, suiteStats, null, PreSuite);
      EnlistedOn(begun, suiteStats, tests.value, ns);
      begun := begun + [suiteStats];
      AppliedOne(w, Starts);
      ms := [Starts];
    }

    /**
      A later call, which passes no set. It starts the first of the remaining instances and
      leaves the rest, passing over and counting the disabled tests before it; when none remains
      it returns nothing and frees the context, and the calls after that find nothing either.
     */
    method Next(ghost w: World) returns (inst: Option<Instance>, ghost ms: seq<Shift>)
      requires Valid() && Booked(w)
      modifies this, stats, suiteStats
      ensures Valid()
      ensures old(Remaining()) == [] ==> inst == None && Remaining() == []
      ensures old(Remaining()) != [] ==> inst == Some(old(Remaining())[0]) && Remaining() == old(Remaining())[1..]
      ensures inst != None ==> At(inst.value)
      ensures (stats == old(stats) && tests == old(tests)) || (stats == null && tests == None)
      ensures suiteStats == old(suiteStats) || (suiteStats != null && fresh(suiteStats))
      ensures (inst == None ==> Exhausted()) && (old(Exhausted()) ==> Exhausted())
      ensures old(stats) != null ==> old(stats).n == Add(old(stats.n), SkipCounts(PassesIn(ms)))
      ensures Led(w, ms) && Started()
      ensures PassesIn(ms) == old(Pending().skips) - Pending().skips
      ensures old(Exhausted()) ==> begun == old(begun)
      ensures !old(Exhausted()) && inst == None ==> Enlisted(begun, old(tests.value), |old(tests.value)|)
    {
      ms := [];
      if stats != null {
        NoSkips(stats.n);
      }
      if !active {
        active, line := true, Beginning;
      }
      if line == Beginning || (line == AfterInit && tests == None && stats == null) {
        tests, stats := None, null;
        line := AfterInit;
        return None, [];
      }
      inst, ms := Continue(w);
    }

    /** Resumes after the last instance started, or before the first suite. */
    method Continue(ghost w: World) returns (inst: Option<Instance>, ghost ms: seq<Shift>)
      requires Valid() && active && stats != null && Booked(w)
      modifies this, stats, suiteStats
      ensures Valid()
      ensures if old(Remaining()) == []
              then inst == None && !active && tests.Some? && Enlisted(begun, tests.value, |tests.value|)
              else inst != None && At(inst.value) && old(Remaining()) == [inst.value] + Remaining()
      ensures Passed(old(Pending()), if inst == None then 0 else Pending().skips)
      ensures Led(w, ms) && Started()
      ensures PassesIn(ms) == old(Pending()).skips - if inst == None then 0 else Pending().skips
    {
      var inSuite;
      inst, inSuite := Reposition();
      if inst == None {
        inst, ms := Resume(inSuite, w);
      } else {
        NoSkips(stats.n);
        ms := [];
      }
    }

    /** The next parameter of the test at hand, or on to the loops, at the first suite or the next test. */
    method Reposition() returns (inst: Option<Instance>, inSuite: bool)
      requires Valid() && active && stats != null
      modifies this`ns, this`nt, this`i
      ensures inst != None ==>
                && Valid() && At(inst.value) && Pending().skips == old(Pending()).skips
                && old(Remaining()) == [inst.value] + Remaining()
      ensures inst == None ==> Positioned(inSuite) && Ahead(inSuite) == old(Pending())
    {
      inst, inSuite := None, line != AfterInit;
      if line == AfterInit {
        ns := 0;
      } else if line == AfterParam {
        i := i + 1;
        if i < tests.value[ns].tests.value[nt].params.value {
          return Some(Instance(ns, nt, Some(i))), true;
        }
        nt := nt + 1;
      } else {
        nt := nt + 1;
      }
    }

    /** The coroutine stands at the test it just started an instance of. */
    predicate At(x: Instance)
      reads this
    {
      && active && (line == AfterParam || line == AfterTest) && tests.Some? && stats != null && suiteStats != null
      && ns < |tests.value| && tests.value[ns].tests.Some? && nt < |tests.value[ns].tests.value|
      && x.suite == ns == suiteStats.suite && x.test == nt && Enlisted(begun, tests.value, ns + 1)
    }

    /** At the head of the loop over tests, or of the loop over suites. */
    predicate Positioned(inSuite: bool)
      reads this
    {
      && active && tests.Some? && stats != null && (inSuite ==> suiteStats != null && suiteStats.suite == ns)
      && Position(tests.value, ns, if inSuite then Some(nt) else None)
      && Enlisted(begun, tests.value, if inSuite then ns + 1 else ns)
    }

    function Ahead(inSuite: bool): Plan
      requires Positioned(inSuite)
      reads this
    {
      Rest(tests.value, ns, if inSuite then Some(nt) else None)
    }

    /** The plan moved on from `before` to what is left, counting the tests passed over. */
    twostate predicate Passed(before: Plan, left: nat)
      requires old(stats != null)
      reads this, stats
    {
      && stats == old(stats) && tests == old(tests) && stats != null
      && (suiteStats == old(suiteStats) || (suiteStats != null && fresh(suiteStats)))
      && left <= before.skips
      && stats.n == Add(old(stats.n), SkipCounts(before.skips - left))
    }

    /** From a position in the nested loops on: to the next instance, or to the end. */
    method Resume(inside: bool, ghost w: World) returns (inst: Option<Instance>, ghost ms: seq<Shift>)
      requires Positioned(inside) && Booked(w)
      modifies this, stats, suiteStats
      ensures Valid()
      ensures inst == None ==> !active && old(Ahead(inside)).list == []
      ensures inst == None ==> tests.Some? && Enlisted(begun, tests.value, |tests.value|)
      ensures inst != None ==> At(inst.value) && old(Ahead(inside)).list == [inst.value] + Remaining()
      ensures Passed(old(Ahead(inside)), if inst == None then 0 else Pending().skips)
      ensures Led(w, ms) && Started()
      ensures PassesIn(ms) == old(Ahead(inside)).skips - if inst == None then 0 else Pending().skips
    {
      var inSuite := inside;
      ghost var begin, plan := stats.n, Ahead(inside);
      NoSkips(begin);
      ms := [];
      while inSuite || ns < |tests.value|
        invariant Positioned(inSuite) && Ahead(inSuite).list == plan.list
        invariant PassesIn(ms) + Ahead(inSuite).skips == plan.skips
        invariant stats == old(stats) && tests == old(tests) && stats.n == Add(begin, SkipCounts(PassesIn(ms)))
        invariant suiteStats == old(suiteStats) || (suiteStats != null && fresh(suiteStats))
        invariant Led(w, ms) && Started()
        decreases Left(inSuite).0, Left(inSuite).1, Left(inSuite).2
      {
        inst, inSuite, ms := TurnAfter(inSuite, w, begin, ms);
        if inst != None {
          return;
        }
      }
      Finish(Applied(w, ms));
      inst := None;
    }

    /** The loops are done, and the context is freed. */
    method Finish(ghost w: World)
      requires Positioned(false) && ns == |tests.value| && Booked(w)
      modifies this`active
      ensures Booked(w) && Valid() && !active && Enlisted(begun, tests.value, |tests.value|)
      ensures old(Ahead(false)) == Plan([], 0)
    {
      Unfold(tests.value, ns, None);
      active := false;
    }

    /** One more turn, on top of the moves made so far. */
    method TurnAfter(inSuite: bool, ghost w: World, ghost begin: Counters, ghost was: seq<Shift>)
      returns (inst: Option<Instance>, inside: bool, ghost ms: seq<Shift>)
      requires Positioned(inSuite) && (inSuite || ns < |tests.value|)
      requires Good(w) && w.suites != [] && Led(w, was) && stats.n == Add(begin, SkipCounts(PassesIn(was)))
      modifies this, stats, suiteStats
      ensures stats == old(stats) && tests == old(tests) && stats != null
      ensures suiteStats == old(suiteStats) || (suiteStats != null && fresh(suiteStats))
      ensures inst == None ==>
                && Positioned(inside) && Ahead(inside).list == old(Ahead(inSuite)).list
                && Nearer(old(Left(inSuite)), Left(inside))
      ensures inst != None ==> Valid() && At(inst.value) && old(Ahead(inSuite)).list == [inst.value] + Remaining()
      ensures Led(w, ms) && Started() && stats.n == Add(begin, SkipCounts(PassesIn(ms)))
      ensures PassesIn(ms) + (if inst == None then Ahead(inside).skips else Pending().skips) ==
              PassesIn(was) + old(Ahead(inSuite)).skips
    {
      ghost var more;
      inst, inside, more := Turn(inSuite, Applied(w, was));
      AppliedBoth(w, was, more);
      SkipsAdd(begin, PassesIn(was), PassesIn(more));
      ms := was + more;
    }

    /** What is left of the loops: suites, whether a suite is still to be entered, tests. */
    ghost function Left(inSuite: bool): (nat, bool, nat)
      requires Positioned(inSuite)
      reads this
    {
      (|tests.value| - ns, !inSuite, if inSuite then |tests.value[ns].tests.value| - nt else 0)
    }

    static predicate Nearer(l: (nat, bool, nat), m: (nat, bool, nat)) {
      m.0 < l.0 || (m.0 == l.0 && ((!m.1 && l.1) || (m.1 == l.1 && m.2 < l.2)))
    }

    /** One turn of the nested loops. */
    method Turn(inSuite: bool, ghost w: World) returns (inst: Option<Instance>, inside: bool, ghost ms: seq<Shift>)
      requires Positioned(inSuite) && (inSuite || ns < |tests.value|) && Booked(w)
      modifies this, stats, suiteStats
      ensures inst == None ==>
                && Positioned(inside) && Ahead(inside).list == old(Ahead(inSuite)).list
                && Passed(old(Ahead(inSuite)), Ahead(inside).skips)
                && Nearer(old(Left(inSuite)), Left(inside))
      ensures inst != None ==>
                && Valid() && At(inst.value)
                && old(Ahead(inSuite)).list == [inst.value] + Remaining()
                && Passed(old(Ahead(inSuite)), Pending().skips)
      ensures Led(w, ms) && Started()
      ensures PassesIn(ms) == old(Ahead(inSuite)).skips - if inst == None then Ahead(inside).skips else Pending().skips
    {
      ms := [];
      Unfold(tests.value, ns, if inSuite then Some(nt) else None);
      NoSkips(stats.n);
      inst, inside := None, inSuite;
      if !inSuite {
        if tests.value[ns].tests == None {
          ns := ns + 1;
        } else {
          ms := EnterSuite(w);
          nt := 0;
          inside := true;
        }
      } else if nt == |tests.value[ns].tests.value| {
        inside := false;
        ns := ns + 1;
      } else {
        inst, ms := AtTest(w);
      }
    }

    /** The test at hand: passed over, or its first instance started. */
    method AtTest(ghost w: World) returns (inst: Option<Instance>, ghost ms: seq<Shift>)
      requires Positioned(true) && nt < |tests.value[ns].tests.value| && Booked(w)
      modifies this`line, this`nt, this`i, stats`n, suiteStats
      ensures inst == None ==>
                && Positioned(true) && Ahead(true).list == old(Ahead(true)).list && nt == old(nt) + 1
                && Passed(old(Ahead(true)), Ahead(true).skips)
      ensures inst != None ==>
                && Valid() && At(inst.value)
                && old(Ahead(true)).list == [inst.value] + Remaining()
                && Passed(old(Ahead(true)), Pending().skips)
      ensures Led(w, ms)
      ensures PassesIn(ms) == old(Ahead(true)).skips - if inst == None then Ahead(true).skips else Pending().skips
    {
      Unfold(tests.value, ns, Some(nt));
      var skipped;
      skipped, ms := SkipDisabled(w);
      if skipped {
        nt := nt + 1;
        inst := None;
      } else {
        inst := StartHere(Applied(w, ms));
      }
    }

    /** The first instance of an enabled test, if it has one. */
    method StartHere(ghost w: World) returns (inst: Option<Instance>)
      requires Positioned(true) && nt < |tests.value[ns].tests.value|
      requires !IsDisabled(tests.value[ns].tests.value[nt], tests.value[ns]) && Booked(w)
      modifies this`line, this`nt, this`i
      ensures Booked(w)
      ensures inst == None ==> Positioned(true) && Ahead(true) == old(Ahead(true)) && nt == old(nt) + 1
      ensures inst != None ==>
                && Valid() && At(inst.value)
                && old(Ahead(true)) == Plan([inst.value] + Remaining(), Pending().skips)
    {
      Unfold(tests.value, ns, Some(nt));
      inst := None;
      if tests.value[ns].tests.value[nt].params.Some? {
        i := 0;
        if i < tests.value[ns].tests.value[nt].params.value {
          line := AfterParam;
          return Some(Instance(ns, nt, Some(i)));
        }
        nt := nt + 1;
      } else {
        line := AfterTest;
        return Some(Instance(ns, nt, None));
      }
    }
  }
}
