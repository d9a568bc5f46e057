/**
  What a test comes to on the server, in terms of what its author wrote: the asserts its functions make, and
  what was declared of its end.
 */
module Results {
  import opened Phases
  import opened Stats
  import opened Protocol
  import opened Theories
  import opened Worker
  import opened Lives
  import opened Passing

  function Fails(asserts: seq<bool>): nat {
    if asserts == [] then 0 else Fails(asserts[..|asserts| - 1]) + if asserts[|asserts| - 1] then 0 else 1
  }

  function NewestFirst(asserts: seq<bool>): seq<bool> {
    if asserts == [] then [] else [asserts[|asserts| - 1]] + NewestFirst(asserts[..|asserts| - 1])
  }

  // ---- What any messages leave on the record -----------------------------------------------------------

  /** The outcomes reported one by one. */
  function Outcomes(ms: seq<Data>): seq<bool> {
    if ms == [] then []
    else
      var last := ms[|ms| - 1];
      Outcomes(ms[..|ms| - 1]) + if last.AssertDone? then [last.passed] else []
  }

  /** The passed asserts reported all at once. */
  function Bulk(ms: seq<Data>): nat {
    if ms == [] then 0
    else
      var last := ms[|ms| - 1];
      Bulk(ms[..|ms| - 1]) + if last.Statistic? && last.assertsPassed then last.num else 0
  }

  /** The record after one message, and what the message adds to the suite and to the run. */
  lemma RecordStep(c: Client, d: Data)
    requires c.phases != []
    ensures var r := React(c, d);
            && r.client.test.asserts == (if d.AssertDone? then [d.passed] else []) + c.test.asserts
            && r.client.test.failedAsserts == c.test.failedAsserts + r.added.assertsFailed
            && r.client.test.passedAsserts == c.test.passedAsserts + r.added.assertsPassed
            && r.added.assertsFailed == (if d == AssertDone(false) then 1 else 0)
            && r.added.nbAsserts == (if d.Statistic? && d.assertsPassed then d.num else 0)
            && r.added.assertsPassed == r.added.nbAsserts + (if d == AssertDone(true) then 1 else 0)
  {
    var st := c.phases;
    match d
    case PhaseChange(kind) => QuietEvents(Noted(st, c.test, kind), PhaseEvents(st, kind));
    case Death(result, status) =>
      var noted := DeathNoted(st, c.test, result, status);
      QuietEvents(noted, DeathEvents(st, noted, result));
    case _ =>
  }

  lemma QuietEvents(t: TestView, es: Events)
    requires es.Nothing? || !es.first.Assert?
    requires es.Two? ==> !es.second.Assert?
    ensures OnlyStatus(t, TestAfterAll(t, es))
    ensures var n := AddedByAll(t, es); n.assertsPassed == n.assertsFailed == n.nbAsserts == 0
  {
  }

  /**
    The record of a test after any messages, and what they added to the counters: every assert reported, newest
    first, and the counts; the number of all asserts counts those reported in bulk alone.
   */
  lemma {:induction false} RecordTells(wantSignal: int, wantExit: int, ms: seq<Data>)
    ensures var t := Run(NewClient(wantSignal, wantExit), ms);
            && t.client.test.asserts == NewestFirst(Outcomes(ms))
            && t.client.test.failedAsserts == Fails(Outcomes(ms)) == t.total.assertsFailed
            && t.client.test.passedAsserts == Passes(Outcomes(ms)) + Bulk(ms) == t.total.assertsPassed
            && t.total.nbAsserts == Bulk(ms)
  {
    if ms != [] {
      var c, n := NewClient(wantSignal, wantExit), |ms| - 1;
      RecordTells(wantSignal, wantExit, ms[..n]);
      RecordStep(Run(c, ms[..n]).client, ms[n]);
      assert ms == ms[..n] + [ms[n]];
      RunSnoc(c, ms[..n], ms[n]);
      if ms[n].AssertDone? {
        CountsOn(Outcomes(ms[..n]), ms[n].passed);
      } else {
        assert Outcomes(ms[..n]) + [] == Outcomes(ms[..n]);
      }
    }
  }

  lemma CountsOn(asserts: seq<bool>, outcome: bool)
    ensures NewestFirst(asserts + [outcome]) == [outcome] + NewestFirst(asserts)
    ensures Fails(asserts + [outcome]) == Fails(asserts) + if outcome then 0 else 1
    ensures Passes(asserts + [outcome]) == Passes(asserts) + if outcome then 1 else 0
  {
    assert (asserts + [outcome])[..|asserts|] == asserts;
  }

  // ---- What any messages are worth to the log ------------------------------------------------------------

  /** The warnings, and the errors, that the messages raise. */
  function Raised(c: Client, ms: seq<Data>): (r: (nat, nat))
    requires Reachable(c.phases)
  {
    if ms == [] then (0, 0)
    else
      var n := |ms| - 1;
      var before, r := Raised(c, ms[..n]), React(Run(c, ms[..n]).client, ms[n]);
      (before.0 + r.warnings, before.1 + r.errors)
  }

  function CountOf(ms: seq<Data>, d: Data): nat {
    if ms == [] then 0 else CountOf(ms[..|ms| - 1], d) + if ms[|ms| - 1] == d then 1 else 0
  }

  /** Each warning and each error logged is counted, and nothing else but a crash outside main, a warning. */
  lemma {:induction false} LogsCounted(c: Client, ms: seq<Data>)
    requires Reachable(c.phases) && Deathless(ms)
    ensures Raised(c, ms) == (CountOf(ms, Log(Warning)), CountOf(ms, Log(Error)))
  {
    if ms != [] {
      LogsCounted(c, ms[..|ms| - 1]);
    }
  }

  lemma CrashWarns(c: Client, result: DeathResult, status: int)
    requires c.phases != []
    ensures var r := React(c, Death(result, status));
            && r.warnings == (if result == Crash && c.phases[|c.phases| - 1] != Main then 1 else 0) && r.errors == 0
  {
  }

  // ---- What a worker's messages say -----------------------------------------------------------------------

  lemma {:induction false} TellingAppend(a: seq<Data>, b: seq<Data>)
    ensures Outcomes(a + b) == Outcomes(a) + Outcomes(b) && Bulk(a + b) == Bulk(a) + Bulk(b)
  {
    if b == [] {
      assert a + b == a;
    } else {
      TellingAppend(a, b[..|b| - 1]);
      assert (a + b)[..|a + b| - 1] == a + b[..|b| - 1];
    }
  }

  lemma TellingOn(ms: seq<Data>, m: Data)
    ensures Outcomes(ms + [m]) == Outcomes(ms) + if m.AssertDone? then [m.passed] else []
    ensures Bulk(ms + [m]) == Bulk(ms) + if m.Statistic? && m.assertsPassed then m.num else 0
  {
    assert (ms + [m])[..|ms|] == ms;
  }

  lemma TellsNothing(ms: seq<Data>, m: Data)
    requires m == Birth || m.PhaseChange?
    ensures Outcomes(ms + [m]) == Outcomes(ms) && Bulk(ms + [m]) == Bulk(ms)
  {
    TellingOn(ms, m);
  }

  lemma TellingOne(m: Data)
    ensures Outcomes([m]) == if m.AssertDone? then [m.passed] else []
    ensures Bulk([m]) == if m.Statistic? && m.assertsPassed then m.num else 0
  {
    assert [m][..0] == [];
  }

  lemma {:induction false} AssertsTell(asserts: seq<bool>)
    ensures Outcomes(AssertsTrace(asserts)) == asserts && Bulk(AssertsTrace(asserts)) == 0
  {
    if asserts != [] {
      var n := |asserts| - 1;
      AssertsTell(asserts[..n]);
      TellingOn(AssertsTrace(asserts[..n]), AssertDone(asserts[n]));
      assert asserts[..n] + [asserts[n]] == asserts;
    }
  }

  lemma RoundTells(b: Body)
    ensures Outcomes(RoundTrace(b)) == b.asserts && Bulk(RoundTrace(b)) == 0
  {
    var start: seq<Data> := [PhaseChange(SETUP), PhaseChange(MAIN)];
    var end: seq<Data> :=
      if b.ending == AssertionFails then [PhaseChange(ABORT)] else [PhaseChange(TEARDOWN), PhaseChange(END)];
    PhasesTell(start);
    PhasesTell(end);
    AssertsTell(b.asserts);
    TellingAppend(start, AssertsTrace(b.asserts));
    TellingAppend(start + AssertsTrace(b.asserts), end);
    assert [] + b.asserts + [] == b.asserts;
  }

  lemma {:induction false} PhasesTell(ms: seq<Data>)
    requires forall i :: 0 <= i < |ms| ==> ms[i].PhaseChange?
    ensures Outcomes(ms) == [] && Bulk(ms) == 0
  {
    if ms != [] {
      PhasesTell(ms[..|ms| - 1]);
    }
  }

  lemma {:induction false} TheoryTells(lens: seq<nat>, body: seq<nat> -> Body, n: nat)
    requires Positive(lens)
    ensures Outcomes(TheoryTrace(lens, body, n)) == MadeIn(lens, body, n) && Bulk(TheoryTrace(lens, body, n)) == 0
  {
    if n > 0 {
      var b := body(Digits(n - 1, lens));
      TheoryTells(lens, body, n - 1);
      RoundTells(b);
      TellingAppend(TheoryTrace(lens, body, n - 1), RoundTrace(b));
    }
  }

  lemma BodyTells(fn: TestFunction)
    requires Runnable(fn)
    ensures Outcomes(BodyTrace(fn)) == Made(fn) && Bulk(BodyTrace(fn)) == 0
  {
    match fn
    case Plain(asserts) => AssertsTell(asserts);
    case Theory(lens, body) => TheoryTells(lens, body, Product(lens));
  }

  // ---- What is reported ------------------------------------------------------------------------------------

  lemma {:induction false} ReportedAppend(a: seq<bool>, b: seq<bool>, full: bool)
    ensures Reported(a + b, full) == Reported(a, full) + Reported(b, full)
  {
    if b == [] {
      assert a + b == a;
    } else {
      ReportedAppend(a, b[..|b| - 1], full);
      assert (a + b)[..|a + b| - 1] == a + b[..|b| - 1];
    }
  }

  lemma {:induction false} MadeReported(lens: seq<nat>, body: seq<nat> -> Body, n: nat, full: bool)
    requires Positive(lens)
    ensures MadeIn(lens, ShownBy(body, full), n) == Reported(MadeIn(lens, body, n), full)
  {
    if n > 0 {
      MadeReported(lens, body, n - 1, full);
      ReportedAppend(MadeIn(lens, body, n - 1), body(Digits(n - 1, lens)).asserts, full);
      ShownAt(body, full, Digits(n - 1, lens));
    }
  }

  lemma ShownAt(body: seq<nat> -> Body, full: bool, d: seq<nat>)
    ensures ShownBy(body, full)(d).asserts == Reported(body(d).asserts, full)
  {
  }

  lemma FnReported(fn: TestFunction, full: bool)
    requires Runnable(fn)
    ensures Made(Reporting(fn, full)) == Reported(Made(fn), full)
  {
    if fn.Theory? {
      MadeReported(fn.lens, fn.body, Product(fn.lens), full);
    }
  }

  lemma {:induction false} ReportedFully(asserts: seq<bool>)
    ensures Reported(asserts, true) == asserts
  {
    if asserts != [] {
      ReportedFully(asserts[..|asserts| - 1]);
    }
  }

  lemma {:induction false} ReportedFailures(asserts: seq<bool>)
    ensures var r := Reported(asserts, false);
            |r| == Fails(asserts) == Fails(r) && Passes(r) == 0 && true !in r
  {
    if asserts != [] {
      var n := |asserts| - 1;
      var r := Reported(asserts[..n], false);
      ReportedFailures(asserts[..n]);
      if asserts[n] {
        assert r + [] == r;
      } else {
        CountsOn(r, false);
      }
    }
  }

  /** Under full statistics everything is reported; else the failed asserts, all of them. */
  lemma ReportedCounts(asserts: seq<bool>, full: bool)
    ensures full ==> Reported(asserts, full) == asserts
    ensures Fails(Reported(asserts, full)) == Fails(asserts)
    ensures !full ==> |Reported(asserts, full)| == Fails(asserts) && true !in Reported(asserts, full)
    ensures Passes(Reported(asserts, full)) == if full then Passes(asserts) else 0
  {
    ReportedFully(asserts);
    ReportedFailures(asserts);
  }

  // ---- The end of a job ----------------------------------------------------------------------------------

  /** The asserts made before the test's teardown. */
  function MadeBefore(job: Job): seq<bool>
    requires Runnable(job.fn)
  {
    job.init + Made(job.fn)
  }

  /** All asserts made, in the order of setup, the test function, round by round, and teardown. */
  function MadeByAll(job: Job): seq<bool>
    requires Runnable(job.fn)
  {
    MadeBefore(job) + job.fini
  }

  /** What comes before the message that tells of teardown. */
  function BeforeTeardown(job: Job): seq<Data>
    requires Runnable(job.fn)
  {
    [Birth] + [PhaseChange(SETUP)] + AssertsTrace(Init(job)) + [PhaseChange(MAIN)] + BodyTrace(Fn(job)) +
    Statistics(job)
  }

  lemma TraceParts(job: Job)
    requires Runnable(job.fn)
    ensures WorkerTrace(job) ==
            BeforeTeardown(job) + [PhaseChange(TEARDOWN)] + AssertsTrace(Fini(job)) + [PhaseChange(END)]
  {
    Ungroup([Birth], [PhaseChange(SETUP)], AssertsTrace(Init(job)), [PhaseChange(MAIN)], BodyTrace(Fn(job)),
            Statistics(job), [PhaseChange(TEARDOWN)], AssertsTrace(Fini(job)), [PhaseChange(END)]);
  }

  lemma Ungroup(birth: seq<Data>, setup: seq<Data>, init: seq<Data>, main: seq<Data>, body: seq<Data>,
                stat: seq<Data>, down: seq<Data>, fini: seq<Data>, end: seq<Data>)
    ensures birth + setup + (init + (main + (body + (stat + (down + (fini + end)))))) ==
            birth + setup + init + main + body + stat + down + fini + end
  {
  }

  lemma TeardownAt(job: Job)
    requires Runnable(job.fn)
    ensures var ms, v := WorkerTrace(job), |BeforeTeardown(job)|;
            v < |ms| && ms[v] == PhaseChange(TEARDOWN) && ms[..v] == BeforeTeardown(job)
  {
    TraceParts(job);
    PartsAt(BeforeTeardown(job), PhaseChange(TEARDOWN), AssertsTrace(Fini(job)), [PhaseChange(END)]);
  }

  lemma PartsAt(a: seq<Data>, m: Data, b: seq<Data>, c: seq<Data>)
    ensures var ms := a + [m] + b + c; |a| < |ms| && ms[|a|] == m && ms[..|a|] == a
  {
  }

  /** Up to the message that tells of main. */
  lemma SetupTells(init: seq<bool>)
    ensures var ms := [Birth] + [PhaseChange(SETUP)] + AssertsTrace(init) + [PhaseChange(MAIN)];
            Outcomes(ms) == init && Bulk(ms) == 0
  {
    var start: seq<Data> := [Birth] + [PhaseChange(SETUP)];
    TellingOne(Birth);
    TellsNothing([Birth], PhaseChange(SETUP));
    AssertsTell(init);
    TellingAppend(start, AssertsTrace(init));
    TellsNothing(start + AssertsTrace(init), PhaseChange(MAIN));
    assert [] + init == init;
  }

  lemma StatisticTells(fullStats: bool, passed: nat)
    ensures Outcomes(StatisticTrace(fullStats, passed)) == []
    ensures Bulk(StatisticTrace(fullStats, passed)) == if fullStats then 0 else passed
  {
    TellingOne(Statistic(true, passed));
  }

  lemma BeforeTells(job: Job)
    requires Runnable(job.fn)
    ensures Outcomes(BeforeTeardown(job)) == Reported(MadeBefore(job), job.fullStats)
    ensures Bulk(BeforeTeardown(job)) == if job.fullStats then 0 else Passes(MadeBefore(job))
  {
    var start := [Birth] + [PhaseChange(SETUP)] + AssertsTrace(Init(job)) + [PhaseChange(MAIN)];
    var body := BodyTrace(Fn(job));
    SetupTells(Init(job));
    BodyTells(Fn(job));
    TellingAppend(start, body);
    StatisticTells(job.fullStats, Passes(job.init) + Passes(Made(job.fn)));
    TellingAppend(start + body, Statistics(job));
    FnReported(job.fn, job.fullStats);
    ReportedAppend(job.init, Made(job.fn), job.fullStats);
    PassesAppend(job.init, Made(job.fn));
    assert Outcomes(start + body) + [] == Outcomes(start + body);
  }

  lemma WorkerTells(job: Job)
    requires Runnable(job.fn)
    ensures Outcomes(WorkerTrace(job)) == Reported(MadeByAll(job), job.fullStats)
    ensures Bulk(WorkerTrace(job)) == if job.fullStats then 0 else Passes(MadeBefore(job))
  {
    TraceParts(job);
    BeforeTells(job);
    EndTells(BeforeTeardown(job), Fini(job));
    ReportedAppend(MadeBefore(job), job.fini, job.fullStats);
  }

  lemma EndTells(before: seq<Data>, fini: seq<bool>)
    ensures var ms := before + [PhaseChange(TEARDOWN)] + AssertsTrace(fini) + [PhaseChange(END)];
            Outcomes(ms) == Outcomes(before) + fini && Bulk(ms) == Bulk(before)
  {
    var a := before + [PhaseChange(TEARDOWN)];
    TellsNothing(before, PhaseChange(TEARDOWN));
    AssertsTell(fini);
    TellingAppend(a, AssertsTrace(fini));
    TellsNothing(a + AssertsTrace(fini), PhaseChange(END));
  }

  /**
    The record of a test that ran to its end, from the asserts its functions made. All that failed are on it. Under
    full statistics all are, newest first, and all that passed are counted; else those that passed in teardown are
    not counted anywhere.
   */
  lemma JobRecorded(wantSignal: int, wantExit: int, job: Job)
    requires Runnable(job.fn)
    ensures var test := Run(NewClient(wantSignal, wantExit), WorkerTrace(job)).client.test;
            && test.failedAsserts == Fails(MadeByAll(job))
            && (job.fullStats ==>
                  test.asserts == NewestFirst(MadeByAll(job)) && test.passedAsserts == Passes(MadeByAll(job)))
            && (!job.fullStats ==>
                  && |test.asserts| == Fails(MadeByAll(job)) && true !in test.asserts
                  && test.passedAsserts == Passes(MadeBefore(job)))
  {
    RecordTells(wantSignal, wantExit, WorkerTrace(job));
    WorkerTells(job);
    ReportedCounts(MadeByAll(job), job.fullStats);
    NewestFirstHolds(Reported(MadeByAll(job), job.fullStats));
  }

  lemma {:induction false} NewestFirstHolds(asserts: seq<bool>)
    ensures |NewestFirst(asserts)| == |asserts|
    ensures forall x :: x in NewestFirst(asserts) <==> x in asserts
  {
    if asserts != [] {
      var n := |asserts| - 1;
      NewestFirstHolds(asserts[..n]);
      assert asserts == asserts[..n] + [asserts[n]];
    }
  }

  lemma {:induction false} FailsExactly(ms: seq<Data>)
    ensures AssertDone(false) in ms <==> Fails(Outcomes(ms)) > 0
  {
    if ms != [] {
      var n := |ms| - 1;
      FailsExactly(ms[..n]);
      assert ms == ms[..n] + [ms[n]];
      if ms[n].AssertDone? {
        CountsOn(Outcomes(ms[..n]), ms[n].passed);
      } else {
        assert Outcomes(ms[..n]) + [] == Outcomes(ms[..n]);
      }
    }
  }

  /** The message that judges a test which runs to its end is that of its teardown. */
  lemma TeardownJudges(wantSignal: int, wantExit: int, job: Job)
    requires Runnable(job.fn)
    ensures var v := |BeforeTeardown(job)|;
            && JudgedBy(wantSignal, wantExit, WorkerTrace(job), v)
            && WorkerTrace(job)[v] == PhaseChange(TEARDOWN) && WorkerTrace(job)[..v] == BeforeTeardown(job)
  {
    var c, v := NewClient(wantSignal, wantExit), |BeforeTeardown(job)|;
    TeardownAt(job);
    PhasesAfter(c, job, v);
    PhasesAfter(c, job, v + 1);
    TeardownSpots(job);
    JudgedAt(wantSignal, wantExit, WorkerTrace(job), v);
  }

  lemma JudgedAt(wantSignal: int, wantExit: int, ms: seq<Data>, v: nat)
    requires v < |ms| && Run(NewClient(wantSignal, wantExit), ms[..v]).client.phases == [Main]
    requires Run(NewClient(wantSignal, wantExit), ms[..v + 1]).client.phases == [Teardown]
    ensures JudgedBy(wantSignal, wantExit, ms, v)
  {
  }

  lemma PhasesAfter(c: Client, job: Job, k: nat)
    requires c.phases == START && Runnable(job.fn) && k <= |WorkerTrace(job)|
    ensures Run(c, WorkerTrace(job)[..k]).client.phases == Spot(job, k)
  {
    WorkerCut(c, job, k);
  }

  lemma TeardownSpots(job: Job)
    requires Runnable(job.fn)
    ensures Spot(job, |BeforeTeardown(job)|) == [Main] && Spot(job, |BeforeTeardown(job)| + 1) == [Teardown]
  {
    AssertsCut(Init(job), |Init(job)|);
    BodySpotEnds(Fn(job));
  }

  /** After its last message a test function has left the test in main. */
  lemma BodySpotEnds(fn: TestFunction)
    requires Runnable(fn)
    ensures BodySpot(fn, |BodyTrace(fn)|) == [Main]
  {
    if fn.Theory? {
      var n := Product(fn.lens);
      ProductPositive(fn.lens);
      assert TheoryTrace(fn.lens, fn.body, n) ==
             TheoryTrace(fn.lens, fn.body, n - 1) + RoundTrace(fn.body(Digits(n - 1, fn.lens)));
    }
  }

  /**
    The verdict of a test that ran to its end, from the asserts its functions made: whatever its process then dies
    of, it is counted once, as passed if no assert failed before teardown and neither a signal nor an exit code
    was declared, and else as failed.
   */
  lemma JobJudged(wantSignal: int, wantExit: int, job: Job, result: DeathResult, status: int)
    requires Runnable(job.fn)
    ensures var n := Run(NewClient(wantSignal, wantExit), WorkerTrace(job) + [Death(result, status)]).total;
            var passes := Fails(MadeBefore(job)) == 0 && wantSignal == wantExit == 0;
            && n.nbTests == 1 && n.testsSkipped == n.testsCrashed == 0
            && n.testsPassed == (if passes then 1 else 0) && n.testsFailed == (if passes then 0 else 1)
  {
    var c, v := NewClient(wantSignal, wantExit), |BeforeTeardown(job)|;
    WorkerDeathless(job);
    TeardownJudges(wantSignal, wantExit, job);
    WorkerAndServerAgree(c, job);
    VerdictByMessageExactly(wantSignal, wantExit, WorkerTrace(job), v, result, status);
    BeforeTells(job);
    FailsExactly(BeforeTeardown(job));
    ReportedCounts(MadeBefore(job), job.fullStats);
    var s := StatusAt(wantSignal, wantExit, WorkerTrace(job), v);
    TimesOf(s, s, Passed);
    TimesOf(s, s, Failed);
    TimesOf(s, s, Skipped);
    OneVerdictExactly(wantSignal, wantExit, WorkerTrace(job), result, status);
    LateDeathCrashesNothing(wantSignal, wantExit, WorkerTrace(job), result, status);
  }

  lemma LateDeathCrashesNothing(wantSignal: int, wantExit: int, ms: seq<Data>, result: DeathResult, status: int)
    requires Deathless(ms) && Judged(Run(NewClient(wantSignal, wantExit), ms).client.phases)
    ensures Run(NewClient(wantSignal, wantExit), ms + [Death(result, status)]).total.testsCrashed == 0
  {
    var c := NewClient(wantSignal, wantExit);
    RunSnoc(c, ms, Death(result, status));
    LedgerKept(wantSignal, wantExit, ms);
    LateDeath(Run(c, ms), result, status);
  }

  // ---- The end of a life -----------------------------------------------------------------------------------

  /** A process that ended by itself ended as declared. */
  predicate FateAsDeclared(fate: Fate, wantSignal: int, wantExit: int) {
    if fate.signal != 0 then wantSignal == fate.signal && wantExit == 0
    else wantSignal == 0 && fate.exitCode == wantExit
  }

  /**
    The verdict of a process that ends before its test is over, outside any round of a theory. If it skips its test,
    the test is skipped, unless an assert had failed or an end was declared; if it dies of an error of its own, or is
    stopped for taking too long, the test fails; else it passes exactly in main, as declared, with no failed assert.
   */
  lemma LifeJudged(wantSignal: int, wantExit: int, job: Job, life: nat, word: LastWord, fate: Fate)
    requires Runnable(job.fn) && life <= |WorkerTrace(job)|
    requires Spot(job, life) == START || Spot(job, life) == [Main]
    ensures var sent := WorkerTrace(job)[..life];
            var n := Run(NewClient(wantSignal, wantExit), LifeTrace(job, life, word, fate)).total;
            var quiet := AssertDone(false) !in sent;
            && n.testsPassed + n.testsFailed + n.testsSkipped == 1
            && (n.testsSkipped == 1 <==> word == Skips && quiet && wantSignal == 0 && wantExit == 0)
            && (n.testsPassed == 1 <==>
                && word == Silent && !fate.timedOut && Spot(job, life) == [Main] && quiet
                && FateAsDeclared(fate, wantSignal, wantExit))
  {
    LifeVerdicts(wantSignal, wantExit, job, life, word, fate);
    HeardDeathless(job, life, word, fate);
    assert Heard(WorkerTrace(job), life) == WorkerTrace(job)[..life];
    PhasesAfter(NewClient(wantSignal, wantExit), job, life);
    if word == Silent && !fate.timedOut {
      SilentLife(wantSignal, wantExit, WorkerTrace(job)[..life], fate);
    } else {
      StoppedLife(wantSignal, wantExit, WorkerTrace(job)[..life], word, fate);
    }
  }

  lemma SilentLife(wantSignal: int, wantExit: int, sent: seq<Data>, fate: Fate)
    requires Deathless(sent) && !fate.timedOut
    requires var st := Run(NewClient(wantSignal, wantExit), sent).client.phases; st == START || st == [Main]
    ensures var ms := sent + WordTrace(Silent) + TimeoutTrace(fate) + [DeathOf(fate)];
            var n := Run(NewClient(wantSignal, wantExit), ms).total;
            && n.testsSkipped == 0
            && (n.testsPassed == 1 <==>
                && Run(NewClient(wantSignal, wantExit), sent).client.phases == [Main] && AssertDone(false) !in sent
                && FateAsDeclared(fate, wantSignal, wantExit))
  {
    assert sent + WordTrace(Silent) + TimeoutTrace(fate) == sent;
    JudgedOnce(wantSignal, wantExit, sent);
    VerdictByDeathExactly(wantSignal, wantExit, sent, DeathOf(fate).result, DeathOf(fate).status);
  }

  lemma StoppedLife(wantSignal: int, wantExit: int, sent: seq<Data>, word: LastWord, fate: Fate)
    requires word != Silent || fate.timedOut
    requires Deathless(sent + WordTrace(word) + TimeoutTrace(fate)) && Deathless(sent)
    requires var st := Run(NewClient(wantSignal, wantExit), sent).client.phases; st == START || st == [Main]
    requires var ms := sent + WordTrace(word) + TimeoutTrace(fate) + [DeathOf(fate)];
             Verdicts(Run(NewClient(wantSignal, wantExit), ms).total) == 1
    ensures var ms := sent + WordTrace(word) + TimeoutTrace(fate) + [DeathOf(fate)];
            var n := Run(NewClient(wantSignal, wantExit), ms).total;
            && n.testsPassed == 0
            && (n.testsSkipped == 1 <==>
                word == Skips && AssertDone(false) !in sent && wantSignal == 0 && wantExit == 0)
  {
    var c, all, v := NewClient(wantSignal, wantExit), sent + WordTrace(word) + TimeoutTrace(fate), |sent|;
    var kind := if word == Skips then SKIP else if word == Dies then ABORT else TIMEOUT;
    assert all[v] == PhaseChange(kind) && all[..v] == sent && all[..v + 1] == sent + [PhaseChange(kind)];
    RunSnoc(c, sent, PhaseChange(kind));
    LedgerKept(wantSignal, wantExit, sent);
    SteppedPhases(Run(c, sent), kind);
    assert JudgedBy(wantSignal, wantExit, all, v);
    VerdictByMessageExactly(wantSignal, wantExit, all, v, DeathOf(fate).result, DeathOf(fate).status);
    CountedOnce(wantSignal, wantExit, all, v, DeathOf(fate));
  }

  /** One verdict in all is that of the message that judges. */
  lemma CountedOnce(wantSignal: int, wantExit: int, ms: seq<Data>, v: nat, death: Data)
    requires v < |ms|
    requires var n := Run(NewClient(wantSignal, wantExit), ms + [death]).total; Verdicts(n) == 1
    requires var n := Run(NewClient(wantSignal, wantExit), ms + [death]).total;
             var s := StatusAt(wantSignal, wantExit, ms, v);
             Counted(n, [s]) || exists u: nat :: u < |ms| && Counted(n, [s, StatusAt(wantSignal, wantExit, ms, u)])
    ensures var n, s := Run(NewClient(wantSignal, wantExit), ms + [death]).total, StatusAt(wantSignal, wantExit, ms, v);
            && n.testsPassed == (if s == Passed then 1 else 0)
            && n.testsSkipped == (if s == Skipped then 1 else 0)
  {
    var n, s := Run(NewClient(wantSignal, wantExit), ms + [death]).total, StatusAt(wantSignal, wantExit, ms, v);
    if !Counted(n, [s]) {
      var u: nat :| u < |ms| && Counted(n, [s, StatusAt(wantSignal, wantExit, ms, u)]);
      CountsTwo(n, s, StatusAt(wantSignal, wantExit, ms, u));
    }
    TimesOf(s, s, Passed);
    TimesOf(s, s, Skipped);
  }

  lemma CountsTwo(n: Counters, s: Status, more: Status)
    requires Counted(n, [s, more])
    ensures Verdicts(n) == 2
  {
    TimesOf(s, more, Passed);
    TimesOf(s, more, Failed);
    TimesOf(s, more, Skipped);
  }
}
