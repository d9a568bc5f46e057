/**
  When a test passes, fails or is skipped. The verdict is given by one message, the first after which
  the test is over, or else by the death; this module says from the messages which one it is.
 */
module Passing {
  import opened Phases
  import opened Stats
  import opened Protocol

  /** All that the events of phases and deaths do to a record is to set its status. */
  predicate OnlyStatus(t: TestView, u: TestView) {
    u == t.(status := u.status, crashed := u.crashed)
  }

  lemma EventsOnlyStatus(t: TestView, es: Events)
    requires es.Nothing? || !es.first.Assert?
    requires es.Two? ==> !es.second.Assert?
    ensures OnlyStatus(t, TestAfterAll(t, es))
  {
  }

  lemma FailedStep(c: Client, d: Data)
    requires c.phases != []
    ensures React(c, d).client.test.failedAsserts ==
            c.test.failedAsserts + if d == AssertDone(false) then 1 else 0
  {
    var st := c.phases;
    match d
    case PhaseChange(kind) => EventsOnlyStatus(Noted(st, c.test, kind), PhaseEvents(st, kind));
    case Death(result, status) =>
      var noted := DeathNoted(st, c.test, result, status);
      EventsOnlyStatus(noted, DeathEvents(st, noted, result));
    case _ =>
  }

  /** A record has failed asserts exactly when a failed assert was reported. */
  lemma {:induction false} FailedExactly(wantSignal: int, wantExit: int, ms: seq<Data>)
    ensures Run(NewClient(wantSignal, wantExit), ms).client.test.failedAsserts > 0 <==> AssertDone(false) in ms
  {
    if ms != [] {
      var n := |ms| - 1;
      FailedExactly(wantSignal, wantExit, ms[..n]);
      RunClient(NewClient(wantSignal, wantExit), ms, n);
      FailedStep(Run(NewClient(wantSignal, wantExit), ms[..n]).client, ms[n]);
      assert ms == ms[..n] + [ms[n]] && ms[..n + 1] == ms;
    }
  }

  // ---- The message that judges ----------------------------------------------------------------------

  /** The message at `v` is the first after which the test is over. */
  ghost predicate JudgedBy(wantSignal: int, wantExit: int, ms: seq<Data>, v: nat) {
    var c := NewClient(wantSignal, wantExit);
    && v < |ms|
    && !Judged(Run(c, ms[..v]).client.phases)
    && Judged(Run(c, ms[..v + 1]).client.phases)
  }

  lemma StaysJudged(t: Tally, m: Data)
    requires Reachable(t.client.phases) && Judged(t.client.phases)
    ensures Judged(Count(t, m).client.phases)
  {
    assert [Teardown][..0] == [];
  }

  lemma {:induction false} JudgedOnce(wantSignal: int, wantExit: int, ms: seq<Data>)
    ensures Judged(Run(NewClient(wantSignal, wantExit), ms).client.phases) <==>
            exists v :: JudgedBy(wantSignal, wantExit, ms, v)
  {
    var c := NewClient(wantSignal, wantExit);
    if ms != [] {
      var n := |ms| - 1;
      JudgedOnce(wantSignal, wantExit, ms[..n]);
      assert ms[..n] + [ms[n]] == ms && ms[..n + 1] == ms;
      RunSnoc(c, ms[..n], ms[n]);
      if Judged(Run(c, ms[..n]).client.phases) {
        StaysJudged(Run(c, ms[..n]), ms[n]);
        var v :| JudgedBy(wantSignal, wantExit, ms[..n], v);
        Earlier(wantSignal, wantExit, ms, n, v);
      } else if Judged(Run(c, ms).client.phases) {
        assert JudgedBy(wantSignal, wantExit, ms, n);
      } else if v: nat :| JudgedBy(wantSignal, wantExit, ms, v) {
        Earlier(wantSignal, wantExit, ms, n, v);
      }
    }
  }

  lemma Earlier(wantSignal: int, wantExit: int, ms: seq<Data>, n: nat, v: nat)
    requires v < n <= |ms| || (v == n < |ms|)
    ensures v < n ==> (JudgedBy(wantSignal, wantExit, ms[..n], v) <==> JudgedBy(wantSignal, wantExit, ms, v))
    ensures v == n && JudgedBy(wantSignal, wantExit, ms, v) ==>
              Judged(Run(NewClient(wantSignal, wantExit), ms[..n + 1]).client.phases)
  {
    if v < n {
      assert ms[..n][..v] == ms[..v] && ms[..n][..v + 1] == ms[..v + 1];
    }
  }

  // ---- What each message gives ------------------------------------------------------------------------

  /** Only a teardown and the three early ends bring a test from before its verdict to after it. */
  lemma MovesThatJudge(st: Stack, kind: Kind)
    requires Reachable(st) && !Judged(st)
    requires StackMove(st, kind).Moved? && Judged(StackMove(st, kind).stack)
    ensures |st| == 1 && st[0] != End
    ensures kind == ABORT || kind == TIMEOUT || kind == SKIP || (kind == TEARDOWN && st == [Main])
  {
    if |st| == 1 {
      assert st == [st[0]] && st[..0] == [];
    } else {
      NestedMovesOn(st, kind);
    }
  }

  lemma NestedMovesOn(st: Stack, kind: Kind)
    requires Reachable(st) && |st| == 2
    ensures StackMove(st, kind).Moved? ==> !Judged(StackMove(st, kind).stack)
  {
    assert st[..1] == [Main];
  }

  lemma StepPhases(t: Tally, m: Data)
    requires t.client.phases != []
    ensures Count(t, m).client.phases ==
            if m.PhaseChange? && StackMove(t.client.phases, m.kind).Moved? then StackMove(t.client.phases, m.kind).stack
            else t.client.phases
  {
  }

  /** One verdict more, under this status, or none. */
  predicate Given(n: Counters, m: Counters, verdict: bool, s: Status) {
    && m.testsPassed == n.testsPassed + (if verdict && s == Passed then 1 else 0)
    && m.testsFailed == n.testsFailed + (if verdict && s == Failed then 1 else 0)
    && m.testsSkipped == n.testsSkipped + (if verdict && s == Skipped then 1 else 0)
  }

  lemma PostTestGives(n: Counters, t: TestView)
    ensures Given(n, Add(n, Added(t, PostTest)), true, if Unexpected(t) then Failed else t.status)
  {
  }

  /** The message gives a verdict: a teardown in main, or a test cut short at top level, unless aborted in teardown. */
  predicate Decides(st: Stack, m: Data) {
    && m.PhaseChange? && |st| == 1 && st != [End]
    && match m.kind
       case TEARDOWN => st == [Main]
       case ABORT => st != [Teardown]
       case SKIP => true
       case TIMEOUT => true
       case _ => false
  }

  /** The verdict that such a message gives: failed, if anything was unexpected so far. */
  function StatusBy(kind: Kind, clean: bool): Status {
    if !clean then Failed else if kind == TEARDOWN then Passed else if kind == SKIP then Skipped else Failed
  }

  predicate Clean(t: TestView) {
    t.failedAsserts == 0 && t.wantSignal == 0 && t.wantExit == 0
  }

  /** No end of the process is known while the test is not over. */
  predicate Running(t: Tally) {
    t.client.phases != [End] ==> Undisturbed(t.client.test)
  }

  lemma RunningStep(t: Tally, m: Data)
    requires InLedger(t) && Running(t) && !m.Death?
    ensures Running(Count(t, m))
  {
    StepPhases(t, m);
    if m.PhaseChange? && StackMove(t.client.phases, m.kind).Moved? {
      var st := t.client.phases;
      EventsOnlyStatus(Noted(st, t.client.test, m.kind), PhaseEvents(st, m.kind));
      if |st| == 1 && m.kind == TIMEOUT {
        assert st[..0] == [];
      }
    }
  }

  lemma {:induction false} KeptRunning(wantSignal: int, wantExit: int, ms: seq<Data>)
    requires Deathless(ms)
    ensures Running(Run(NewClient(wantSignal, wantExit), ms))
  {
    if ms != [] {
      var n := |ms| - 1;
      KeptRunning(wantSignal, wantExit, ms[..n]);
      LedgerKept(wantSignal, wantExit, ms[..n]);
      RunningStep(Run(NewClient(wantSignal, wantExit), ms[..n]), ms[n]);
      assert ms == ms[..n] + [ms[n]];
      RunSnoc(NewClient(wantSignal, wantExit), ms[..n], ms[n]);
    }
  }

  /** What a message gives. */
  lemma VerdictStep(t: Tally, m: Data)
    requires InLedger(t) && Running(t) && !m.Death?
    ensures Given(t.total, Count(t, m).total, Decides(t.client.phases, m),
                  if m.PhaseChange? then StatusBy(m.kind, Clean(t.client.test)) else Passed)
  {
    var st := t.client.phases;
    if Decides(st, m) && m.kind != TEARDOWN {
      CutShort(t, st[0], m.kind);
      PostTestGives(t.total, Noted(st, t.client.test, m.kind));
    } else if Decides(st, m) {
      TeardownGives(t);
    } else if m.PhaseChange? {
      NoVerdict(t, m.kind);
    }
  }

  lemma TeardownGives(t: Tally)
    requires InLedger(t) && Running(t) && t.client.phases == [Main]
    ensures Given(t.total, Count(t, PhaseChange(TEARDOWN)).total, true, StatusBy(TEARDOWN, Clean(t.client.test)))
  {
    assert StackMove([Main], TEARDOWN) == Moved([Teardown]) by { assert [Main][..0] == []; }
    assert Count(t, PhaseChange(TEARDOWN)).total == Add(t.total, Added(t.client.test, PostTest));
    PostTestGives(t.total, t.client.test);
  }

  lemma NoVerdict(t: Tally, kind: Kind)
    requires InLedger(t) && !Decides(t.client.phases, PhaseChange(kind))
    ensures Given(t.total, Count(t, PhaseChange(kind)).total, false, Passed)
  {
    var st := t.client.phases;
    if |st| == 1 && StackMove(st, kind).Moved? {
      assert st == [st[0]];
      assert kind == SETUP || kind == MAIN || kind == END || (kind == ABORT && st == [Teardown]);
    }
  }

  // ---- What a death gives ------------------------------------------------------------------------------

  /** The death ends a test in main as its author declared. */
  predicate EndsAsDeclared(st: Stack, wantSignal: int, wantExit: int, result: DeathResult, status: int)
    requires st != []
  {
    match result
    case Normal => st == [Main] && wantSignal == 0 && status == wantExit
    case Crash => st[|st| - 1] == Main && wantSignal == status != 0 && wantExit == 0
    case Unknown => false
  }

  /** The same of the record itself. */
  predicate DiesWell(st: Stack, t: TestView, result: DeathResult, status: int)
    requires st != []
  {
    EndsAsDeclared(st, t.wantSignal, t.wantExit, result, status) && t.failedAsserts == 0
  }

  /** What a death leaves on the record of how the test ended. */
  lemma DeathRecorded(c: Client, result: DeathResult, status: int)
    requires c.phases != []
    ensures var test, top := React(c, Death(result, status)).client.test, c.phases[|c.phases| - 1];
            && test.signal == (if result == Crash && top == Main then status else c.test.signal)
            && test.exitCode ==
               (if result == Normal && top != Teardown && c.phases != START then status else c.test.exitCode)
  {
    var noted := DeathNoted(c.phases, c.test, result, status);
    EventsOnlyStatus(noted, DeathEvents(c.phases, noted, result));
  }

  /** The death is a crash: before the test began, or in main by a signal when none was declared. */
  predicate Crashes(st: Stack, wantSignal: int, result: DeathResult)
    requires st != []
  {
    match result
    case Normal => st == START
    case Crash => st == START || (st[|st| - 1] == Main && wantSignal == 0)
    case Unknown => false
  }

  lemma DyingStep(t: Tally, result: DeathResult, status: int)
    requires InLedger(t) && !Judged(t.client.phases)
    ensures var st, test, end := t.client.phases, t.client.test, Count(t, Death(result, status));
            && Given(t.total, end.total, Settles(st, result),
                     if DiesWell(st, test, result, status) then Passed else Failed)
            && end.total.testsCrashed == (if Crashes(st, test.wantSignal, result) then 1 else 0)
            && (end.client.test.crashed <==> test.crashed || Crashes(st, test.wantSignal, result))
  {
    var noted := DeathNoted(t.client.phases, t.client.test, result, status);
    DeclaredExactly(t.client.phases, t.client.test, result, status);
    DeathGives(t, DeathEvents(t.client.phases, noted, result), noted, result, status);
  }

  /** Of the records a death may find before the verdict, those it judges, and those it judges as passed. */
  lemma DeclaredExactly(st: Stack, t: TestView, result: DeathResult, status: int)
    requires Reachable(st) && !Judged(st) && t.status == Passed && Undisturbed(t)
    ensures var noted := DeathNoted(st, t, result, status);
            var es := DeathEvents(st, noted, result);
            && (es.One? <==> Crashes(st, t.wantSignal, result))
            && (es != Nothing <==> Settles(st, result))
            && (es.Two? ==> (!Unexpected(noted) <==> DiesWell(st, t, result, status)))
            && (!es.Two? ==> !DiesWell(st, t, result, status)) && noted.status == Passed
  {
    assert |st| == 1 ==> st == [st[0]];
  }

  lemma DeathGives(t: Tally, es: Events, noted: TestView, result: DeathResult, status: int)
    requires t.client.phases != [] && noted.status == Passed
    requires noted == DeathNoted(t.client.phases, t.client.test, result, status)
    requires es == DeathEvents(t.client.phases, noted, result)
    ensures var end := Count(t, Death(result, status));
            && Given(t.total, end.total, es != Nothing, if es.Two? && !Unexpected(noted) then Passed else Failed)
            && end.total.testsCrashed == t.total.testsCrashed + (if es.One? then 1 else 0)
            && (end.client.test.crashed <==> t.client.test.crashed || es.One?)
  {
    EventsGive(t.total, es, noted);
    assert Count(t, Death(result, status)).total == Add(t.total, AddedByAll(noted, es));
  }

  /** The events of a death, on a record and on counters. */
  lemma EventsGive(n: Counters, es: Events, t: TestView)
    requires es == Nothing || es == One(TestCrash) || es == Two(PostTest, PostFini)
    requires t.status == Passed
    ensures var m := Add(n, AddedByAll(t, es));
            && Given(n, m, es != Nothing, if es.Two? && !Unexpected(t) then Passed else Failed)
            && m.testsCrashed == n.testsCrashed + (if es.One? then 1 else 0)
            && (TestAfterAll(t, es).crashed <==> t.crashed || es.One?)
  {
    if es == Nothing {
      AddRules(n, n, n);
    } else if es.One? {
      CrashFails(n, t);
    } else {
      AddRules(Added(t, PostTest), n, n);
      assert AddedByAll(t, es) == Added(t, PostTest);
      PostTestGives(n, t);
      PostTestCrashesNothing(n, t);
    }
  }

  lemma PostTestCrashesNothing(n: Counters, t: TestView)
    ensures Add(n, Added(t, PostTest)).testsCrashed == n.testsCrashed && TestAfter(t, PostTest).crashed == t.crashed
  {
  }

  lemma CrashFails(n: Counters, t: TestView)
    ensures var m := Add(n, Added(t, TestCrash)); Given(n, m, true, Failed) && m.testsCrashed == n.testsCrashed + 1
  {
  }

  /** A death after the verdict gives none. */
  lemma LateDeath(t: Tally, result: DeathResult, status: int)
    requires Judged(t.client.phases)
    ensures Count(t, Death(result, status)).total == t.total
  {
    AddRules(t.total, t.total, t.total);
  }

  // ---- A whole run -----------------------------------------------------------------------------------------

  /**
    The status that the message at `k` gives its test, if it gives a verdict: failed, if an assert was reported
    as failed before, or if the author declared a signal or an exit code, neither of which is known while the
    test still runs; else passed by a teardown, skipped by a skip, and failed by an abort or a timeout.
   */
  function StatusAt(wantSignal: int, wantExit: int, ms: seq<Data>, k: nat): Status
    requires k < |ms|
  {
    if AssertDone(false) in ms[..k] || wantSignal != 0 || wantExit != 0 then Failed
    else if ms[k] == PhaseChange(TEARDOWN) then Passed
    else if ms[k] == PhaseChange(SKIP) then Skipped
    else Failed
  }

  /** The verdicts counted are these statuses. */
  predicate Counted(n: Counters, statuses: seq<Status>) {
    && n.testsPassed == Times(statuses, Passed)
    && n.testsFailed == Times(statuses, Failed)
    && n.testsSkipped == Times(statuses, Skipped)
  }

  function Times(statuses: seq<Status>, s: Status): nat {
    if statuses == [] then 0
    else Times(statuses[..|statuses| - 1], s) + if statuses[|statuses| - 1] == s then 1 else 0
  }

  lemma CountOne(n: Counters, m: Counters, statuses: seq<Status>, verdict: bool, s: Status)
    requires Counted(n, statuses) && Given(n, m, verdict, s)
    ensures Counted(m, if verdict then statuses + [s] else statuses)
  {
    assert (statuses + [s])[..|statuses|] == statuses;
  }

  lemma TimesOf(s: Status, more: Status, k: Status)
    ensures Times([s], k) == if s == k then 1 else 0
    ensures Times([s, more], k) == (if s == k then 1 else 0) + if more == k then 1 else 0
  {
    assert [s][..0] == [] && [s, more][..1] == [s];
  }

  /** One message more, in terms of the messages before it. */
  lemma RunGives(wantSignal: int, wantExit: int, ms: seq<Data>, k: nat)
    requires Deathless(ms) && k < |ms|
    ensures var c := NewClient(wantSignal, wantExit);
            Given(Run(c, ms[..k]).total, Run(c, ms[..k + 1]).total,
                  Decides(Run(c, ms[..k]).client.phases, ms[k]), StatusAt(wantSignal, wantExit, ms, k))
  {
    var c := NewClient(wantSignal, wantExit);
    assert ms[..k + 1] == ms[..k] + [ms[k]];
    RunSnoc(c, ms[..k], ms[k]);
    LedgerKept(wantSignal, wantExit, ms[..k]);
    KeptRunning(wantSignal, wantExit, ms[..k]);
    VerdictStep(Run(c, ms[..k]), ms[k]);
    WantsKept(wantSignal, wantExit, ms[..k]);
    FailedExactly(wantSignal, wantExit, ms[..k]);
  }

  /** The message at `u` ends the test late, after its verdict: a skip or a timeout in teardown. */
  ghost predicate LateBy(wantSignal: int, wantExit: int, ms: seq<Data>, u: nat) {
    && u < |ms| && (ms[u] == PhaseChange(SKIP) || ms[u] == PhaseChange(TIMEOUT))
    && Run(NewClient(wantSignal, wantExit), ms[..u]).client.phases == [Teardown]
  }

  /** Before the test is over, nothing has been counted; the message that ends it counts its status. */
  lemma JudgingCounts(wantSignal: int, wantExit: int, ms: seq<Data>, v: nat)
    requires Deathless(ms) && JudgedBy(wantSignal, wantExit, ms, v)
    ensures Counted(Run(NewClient(wantSignal, wantExit), ms[..v + 1]).total, [StatusAt(wantSignal, wantExit, ms, v)])
    ensures Run(NewClient(wantSignal, wantExit), ms[..v + 1]).lateEnds == 0
  {
    var c := NewClient(wantSignal, wantExit);
    var before := Run(c, ms[..v]);
    LedgerKept(wantSignal, wantExit, ms[..v]);
    assert ms[..v + 1] == ms[..v] + [ms[v]];
    RunSnoc(c, ms[..v], ms[v]);
    StepPhases(before, ms[v]);
    MovesThatJudge(before.client.phases, ms[v].kind);
    RunGives(wantSignal, wantExit, ms, v);
    CountOne(before.total, Run(c, ms[..v + 1]).total, [], true, StatusAt(wantSignal, wantExit, ms, v));
  }

  /** The test was counted under the status at `v`, and, after a late end, under that at `u` too. */
  ghost predicate CountedAt(wantSignal: int, wantExit: int, ms: seq<Data>, v: nat, u: nat)
    requires v < |ms|
  {
    var t, s := Run(NewClient(wantSignal, wantExit), ms), StatusAt(wantSignal, wantExit, ms, v);
    if t.lateEnds == 0 then Counted(t.total, [s])
    else v < u && LateBy(wantSignal, wantExit, ms, u) && Counted(t.total, [s, StatusAt(wantSignal, wantExit, ms, u)])
  }

  /** After that, only a late end counts once more. */
  lemma {:induction false} CountedSince(wantSignal: int, wantExit: int, ms: seq<Data>, v: nat) returns (u: nat)
    requires Deathless(ms) && JudgedBy(wantSignal, wantExit, ms, v)
    ensures Judged(Run(NewClient(wantSignal, wantExit), ms).client.phases) && CountedAt(wantSignal, wantExit, ms, v, u)
    decreases |ms|
  {
    var c, n := NewClient(wantSignal, wantExit), |ms| - 1;
    u := n;
    assert ms[..n + 1] == ms && ms[..n] + [ms[n]] == ms;
    if v == n {
      JudgingCounts(wantSignal, wantExit, ms, v);
    } else {
      Earlier(wantSignal, wantExit, ms, n, v);
      u := CountedSince(wantSignal, wantExit, ms[..n], v);
      LedgerKept(wantSignal, wantExit, ms[..n]);
      RunSnoc(c, ms[..n], ms[n]);
      StaysJudged(Run(c, ms[..n]), ms[n]);
      if Decides(Run(c, ms[..n]).client.phases, ms[n]) {
        LateStep(wantSignal, wantExit, ms, v, u);
        u := n;
      } else {
        QuietStep(wantSignal, wantExit, ms, v, u);
      }
    }
  }

  /** The last message is a late end. */
  lemma LateStep(wantSignal: int, wantExit: int, ms: seq<Data>, v: nat, u: nat)
    requires Deathless(ms) && v + 1 < |ms| && CountedAt(wantSignal, wantExit, ms[..|ms| - 1], v, u)
    requires var before := Run(NewClient(wantSignal, wantExit), ms[..|ms| - 1]);
             Judged(before.client.phases) && Decides(before.client.phases, ms[|ms| - 1])
    ensures CountedAt(wantSignal, wantExit, ms, v, |ms| - 1)
  {
    var c, n := NewClient(wantSignal, wantExit), |ms| - 1;
    var s, last := StatusAt(wantSignal, wantExit, ms, v), StatusAt(wantSignal, wantExit, ms, n);
    assert ms[..n + 1] == ms && ms[..n] + [ms[n]] == ms && ms[..n][..v] == ms[..v];
    LedgerKept(wantSignal, wantExit, ms[..n]);
    RunSnoc(c, ms[..n], ms[n]);
    RunGives(wantSignal, wantExit, ms, n);
    LateEnd(Run(c, ms[..n]), ms[n]);
    CountTwo(Run(c, ms[..n]).total, Run(c, ms).total, s, last);
  }

  lemma LateEnd(t: Tally, m: Data)
    requires InLedger(t) && Judged(t.client.phases) && Decides(t.client.phases, m)
    ensures t.client.phases == [Teardown] && (m == PhaseChange(SKIP) || m == PhaseChange(TIMEOUT))
    ensures t.lateEnds == 0 && Count(t, m).lateEnds == 1
  {
  }

  lemma CountTwo(n: Counters, m: Counters, s: Status, last: Status)
    requires Counted(n, [s]) && Given(n, m, true, last)
    ensures Counted(m, [s, last])
  {
    CountOne(n, m, [s], true, last);
    assert [s] + [last] == [s, last];
  }

  /** The last message gives no verdict. */
  lemma QuietStep(wantSignal: int, wantExit: int, ms: seq<Data>, v: nat, u: nat)
    requires Deathless(ms) && v + 1 < |ms| && CountedAt(wantSignal, wantExit, ms[..|ms| - 1], v, u)
    requires var before := Run(NewClient(wantSignal, wantExit), ms[..|ms| - 1]);
             Judged(before.client.phases) && !Decides(before.client.phases, ms[|ms| - 1])
    ensures CountedAt(wantSignal, wantExit, ms, v, u)
  {
    var c, n := NewClient(wantSignal, wantExit), |ms| - 1;
    var s, last := StatusAt(wantSignal, wantExit, ms, v), StatusAt(wantSignal, wantExit, ms, n);
    assert ms[..n + 1] == ms && ms[..n] + [ms[n]] == ms && ms[..n][..v] == ms[..v];
    RunSnoc(c, ms[..n], ms[n]);
    RunGives(wantSignal, wantExit, ms, n);
    var before := Run(c, ms[..n]);
    assert Run(c, ms).lateEnds == before.lateEnds;
    if before.lateEnds == 0 {
      CountOne(before.total, Run(c, ms).total, [s], false, last);
    } else {
      assert ms[..n][..u] == ms[..u];
      CountOne(before.total, Run(c, ms).total, [s, StatusAt(wantSignal, wantExit, ms, u)], false, last);
    }
  }

  /**
    Which verdict, given by a message. Whatever follows the message that judges, up to and with the death, the
    test is counted once, under the status of that message, unless a skip or a timeout comes in teardown; then
    it is counted once more, under the status of that.
   */
  lemma VerdictByMessageExactly(
    wantSignal: int, wantExit: int, ms: seq<Data>, v: nat, result: DeathResult, status: int)
    requires Deathless(ms) && JudgedBy(wantSignal, wantExit, ms, v)
    ensures var c, s := NewClient(wantSignal, wantExit), StatusAt(wantSignal, wantExit, ms, v);
            var n := Run(c, ms + [Death(result, status)]).total;
            && (Run(c, ms).lateEnds == 0 ==> Counted(n, [s]))
            && (Run(c, ms).lateEnds > 0 ==>
                exists u :: v < u && LateBy(wantSignal, wantExit, ms, u) &&
                            Counted(n, [s, StatusAt(wantSignal, wantExit, ms, u)]))
  {
    var c := NewClient(wantSignal, wantExit);
    var u := CountedSince(wantSignal, wantExit, ms, v);
    RunSnoc(c, ms, Death(result, status));
    LateDeath(Run(c, ms), result, status);
  }

  /**
    When a test passes, judged by a message. It is counted as passed if and only if that message is the
    test's own teardown, no failed assert came before it, and its author declared neither a signal nor an
    exit code.
   */
  lemma PassedByMessageExactly(
    wantSignal: int, wantExit: int, ms: seq<Data>, v: nat, result: DeathResult, status: int)
    requires Deathless(ms) && JudgedBy(wantSignal, wantExit, ms, v)
    ensures Run(NewClient(wantSignal, wantExit), ms + [Death(result, status)]).total.testsPassed ==
            if ms[v] == PhaseChange(TEARDOWN) && AssertDone(false) !in ms[..v] && wantSignal == wantExit == 0
            then 1 else 0
  {
    VerdictByMessageExactly(wantSignal, wantExit, ms, v, result, status);
    var c, s := NewClient(wantSignal, wantExit), StatusAt(wantSignal, wantExit, ms, v);
    TimesOf(s, s, Passed);
    if Run(c, ms).lateEnds > 0 {
      var u :| v < u && LateBy(wantSignal, wantExit, ms, u) &&
               Counted(Run(c, ms + [Death(result, status)]).total, [s, StatusAt(wantSignal, wantExit, ms, u)]);
      TimesOf(s, StatusAt(wantSignal, wantExit, ms, u), Passed);
    }
  }

  /**
    Which verdict, given by the death. It is never a skip; it is a pass if and only if the test ended in main as
    its author declared, and no failed assert was reported at all; it is a failure if and only if the death
    settles the phases it finds otherwise; and it is a crash, too, exactly if nobody declared it.
   */
  lemma VerdictByDeathExactly(wantSignal: int, wantExit: int, ms: seq<Data>, result: DeathResult, status: int)
    requires Deathless(ms) && forall v: nat :: !JudgedBy(wantSignal, wantExit, ms, v)
    ensures var c := NewClient(wantSignal, wantExit);
            var st, end := Run(c, ms).client.phases, Run(c, ms + [Death(result, status)]);
            var passes := EndsAsDeclared(st, wantSignal, wantExit, result, status) && AssertDone(false) !in ms;
            && end.total.testsPassed == (if passes then 1 else 0)
            && end.total.testsFailed == (if Settles(st, result) && !passes then 1 else 0)
            && end.total.testsSkipped == 0
            && end.total.testsCrashed == (if Crashes(st, wantSignal, result) then 1 else 0)
  {
    var c := NewClient(wantSignal, wantExit);
    JudgedOnce(wantSignal, wantExit, ms);
    LedgerKept(wantSignal, wantExit, ms);
    RunSnoc(c, ms, Death(result, status));
    DyingStep(Run(c, ms), result, status);
    WantsKept(wantSignal, wantExit, ms);
    FailedExactly(wantSignal, wantExit, ms);
    WellSettles(Run(c, ms).client.phases, wantSignal, wantExit, result, status);
  }

  lemma WellSettles(st: Stack, wantSignal: int, wantExit: int, result: DeathResult, status: int)
    requires Reachable(st)
    ensures EndsAsDeclared(st, wantSignal, wantExit, result, status) ==> Settles(st, result)
  {
    assert |st| == 1 ==> st == [st[0]];
  }

  /**
    An assert that fails in teardown comes too late: it is counted and recorded, and leaves the test's status
    and its verdict alone, from every such run.
   */
  lemma LateFailureUnjudged(wantSignal: int, wantExit: int, ms: seq<Data>)
    requires Deathless(ms) && Run(NewClient(wantSignal, wantExit), ms).client.phases == [Teardown]
    ensures var c := NewClient(wantSignal, wantExit);
            var before, after := Run(c, ms), Run(c, ms + [AssertDone(false)]);
            && after.client.test.failedAsserts > 0 && after.total.assertsFailed == before.total.assertsFailed + 1
            && after.client.test.status == before.client.test.status
            && CountedAs(after.total, after.client.test.status)
  {
    LedgerKept(wantSignal, wantExit, ms);
    RunSnoc(NewClient(wantSignal, wantExit), ms, AssertDone(false));
    LateFailure(Run(NewClient(wantSignal, wantExit), ms));
  }

  lemma LateFailure(t: Tally)
    requires t.client.phases == [Teardown] && CountedAs(t.total, t.client.test.status)
    ensures var after := Count(t, AssertDone(false));
            && after.client.test.failedAsserts > 0 && after.total.assertsFailed == t.total.assertsFailed + 1
            && after.client.test.status == t.client.test.status
            && CountedAs(after.total, after.client.test.status)
  {
  }
}
