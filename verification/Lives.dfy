/**
  The lives of workers: a worker may end after any of its messages, by a signal, an exit, a
  timeout, a skip, or an error of the framework's own. This module says where each end finds the
  test, and exactly how many verdicts it gets.
 */
module Lives {
  import opened Phases
  import opened Stats
  import opened Protocol
  import opened Theories
  import opened Worker
  import Books

  /** The message a process ends on, if it ends itself. */
  datatype LastWord = Silent | Skips | Dies

  /** How the system sees it end. A process stopped for taking too long has a signal too. */
  datatype Fate = Fate(signal: int, exitCode: int, timedOut: bool)

  function WordTrace(word: LastWord): seq<Data> {
    match word
    case Silent => []
    case Skips => [PhaseChange(SKIP)]
    case Dies => [PhaseChange(ABORT)]
  }

  /** A process stopped for taking too long has not died of it. */
  function DeathOf(fate: Fate): Data {
    if fate.timedOut then Death(Normal, 0)
    else if fate.signal != 0 then Death(Crash, fate.signal)
    else Death(Normal, fate.exitCode)
  }

  function TimeoutTrace(fate: Fate): seq<Data> {
    if fate.timedOut then [PhaseChange(TIMEOUT)] else []
  }

  /** Everything the server hears of a worker that sends `life` messages of its own. */
  function LifeTrace(job: Job, life: nat, word: LastWord, fate: Fate): seq<Data>
    requires Runnable(job.fn)
  {
    Heard(WorkerTrace(job), life) + WordTrace(word) + TimeoutTrace(fate) + [DeathOf(fate)]
  }

  /** A skip, or an error: one message, and the process exits. */
  method Leave(sent: seq<Data>, word: LastWord) returns (r: seq<Data>)
    ensures word == Silent ==> r == sent
    ensures word == Skips ==> r == sent + [PhaseChange(SKIP)]
    ensures word == Dies ==> r == sent + [PhaseChange(ABORT)]
  {
    r := sent;
    if word == Skips {
      r := r + [PhaseChange(SKIP)];
    } else if word == Dies {
      r := r + [PhaseChange(ABORT)];
    }
  }

  /** The runner's callback: a timeout overrides the signal that came with it. */
  method DeathCallback(sent: seq<Data>, fate: Fate) returns (r: seq<Data>)
    ensures fate.timedOut ==> r == sent + [PhaseChange(TIMEOUT), Death(Normal, 0)]
    ensures !fate.timedOut && fate.signal != 0 ==> r == sent + [Death(Crash, fate.signal)]
    ensures !fate.timedOut && fate.signal == 0 ==> r == sent + [Death(Normal, fate.exitCode)]
  {
    r := sent;
    var result := if fate.signal != 0 then Crash else Normal;
    var code := if fate.signal != 0 then fate.signal else fate.exitCode;
    if fate.timedOut {
      r := r + [PhaseChange(TIMEOUT)];
      result, code := Normal, 0;
    }
    r := r + [Death(result, code)];
  }

  /** A whole life. */
  method Live(job: Job, life: nat, word: LastWord, fate: Fate) returns (r: seq<Data>)
    requires Runnable(job.fn)
    ensures r == LifeTrace(job, life, word, fate)
  {
    var link := new Link(life);
    RunTestChild(link, job);
    assert link.said == WorkerTrace(job);
    r := Leave(link.sent, word);
    r := DeathCallback(r, fate);
  }

  // ---- Where a worker's messages take the test -----------------------------------------------------

  /** After so many messages of a round. */
  function RoundSpot(b: Body, k: nat): Stack {
    if k == 0 || k == |RoundTrace(b)| then [Main]
    else if k == 1 then [Main, Setup]
    else if k <= 2 + |b.asserts| then [Main, Main]
    else [Main, Teardown]
  }

  function TheorySpot(lens: seq<nat>, body: seq<nat> -> Body, n: nat, k: nat): Stack
    requires Positive(lens)
  {
    if n == 0 then [Main]
    else
      var before := |TheoryTrace(lens, body, n - 1)|;
      if k <= before then TheorySpot(lens, body, n - 1, k) else RoundSpot(body(Digits(n - 1, lens)), k - before)
  }

  function BodySpot(fn: TestFunction, k: nat): Stack
    requires Runnable(fn)
  {
    match fn
    case Plain(_) => [Main]
    case Theory(lens, body) => TheorySpot(lens, body, Product(lens), k)
  }

  // After so many messages of each of the ends of a worker's trace.

  function FiniSpot(job: Job, k: nat): Stack {
    if k <= |Fini(job)| then [Teardown] else [End]
  }

  function StatisticSpot(job: Job, k: nat): Stack
    requires Runnable(job.fn)
  {
    var stat := |Statistics(job)|;
    if k <= stat then [Main] else FiniSpot(job, k - stat - 1)
  }

  function BodyOnSpot(job: Job, k: nat): Stack
    requires Runnable(job.fn)
  {
    var body := |BodyTrace(Fn(job))|;
    if k <= body then BodySpot(Fn(job), k) else StatisticSpot(job, k - body)
  }

  /** After so many messages of a worker: two, and the asserts of setup; main and the rest. */
  function Spot(job: Job, k: nat): Stack
    requires Runnable(job.fn)
  {
    var init := 2 + |Init(job)|;
    if k <= init then START else BodyOnSpot(job, k - init - 1)
  }

  lemma ReachesNone(t: Tally)
    requires Reachable(t.client.phases)
    ensures Reaches(t, [], t.client.phases)
  {
  }

  /** A cut in the second of two parts. */
  lemma CutLater(t: Tally, a: seq<Data>, st: Stack, b: seq<Data>, k: nat, st': Stack)
    requires Reachable(t.client.phases) && Reaches(t, a, st) && |a| <= k <= |a| + |b|
    requires Reaches(Continue(t, a), b[..k - |a|], st')
    ensures Reaches(t, (a + b)[..k], st')
  {
    ReachesAppend(t, a, st, b[..k - |a|], st');
    assert (a + b)[..k] == a + b[..k - |a|];
  }

  lemma CutEarlier(a: seq<Data>, b: seq<Data>, k: nat)
    requires k <= |a|
    ensures (a + b)[..k] == a[..k]
  {
  }

  lemma {:induction false} AssertsCut(asserts: seq<bool>, k: nat)
    requires k <= |asserts|
    ensures |AssertsTrace(asserts)| == |asserts| && AssertsTrace(asserts)[..k] == AssertsTrace(asserts[..k])
  {
    if asserts != [] {
      var init := asserts[..|asserts| - 1];
      if k == |asserts| {
        AssertsCut(init, |init|);
        assert asserts[..k] == asserts;
      } else {
        AssertsCut(init, k);
        assert asserts[..k] == init[..k];
      }
    }
  }

  lemma RoundCut(t: Tally, b: Body, k: nat)
    requires t.client.phases == [Main] && k <= |RoundTrace(b)|
    ensures Reaches(t, RoundTrace(b)[..k], RoundSpot(b, k))
  {
    var ms := RoundTrace(b);
    var n := |b.asserts|;
    AssertsCut(b.asserts, n);
    if k == |ms| {
      RoundReaches(t, b);
      assert ms[..k] == ms;
    } else if k == 0 {
      ReachesNone(t);
    } else if k == 1 {
      assert ms[..1] == [PhaseChange(SETUP)];
      assert [Main][..0] == [];
      ReachesPhase(t, SETUP, [Main, Setup]);
    } else if k <= 2 + n {
      RoundOpen(t, b, k - 2);
      assert ms[..k] == [PhaseChange(SETUP), PhaseChange(MAIN)] + AssertsTrace(b.asserts)[..k - 2];
      AssertsCut(b.asserts, k - 2);
    } else {
      RoundOpen(t, b, n);
      var open := [PhaseChange(SETUP), PhaseChange(MAIN)] + AssertsTrace(b.asserts);
      assert b.asserts[..n] == b.asserts && ms[..k] == open + [PhaseChange(TEARDOWN)];
      assert [Main, Main][..1] == [Main];
      ReachesPhase(Continue(t, open), TEARDOWN, [Main, Teardown]);
      ReachesAppend(t, open, [Main, Main], [PhaseChange(TEARDOWN)], [Main, Teardown]);
    }
  }

  lemma RoundOpen(t: Tally, b: Body, n: nat)
    requires t.client.phases == [Main] && n <= |b.asserts|
    ensures Reaches(t, [PhaseChange(SETUP), PhaseChange(MAIN)] + AssertsTrace(b.asserts[..n]), [Main, Main])
  {
    var start: seq<Data> := [PhaseChange(SETUP), PhaseChange(MAIN)];
    assert [Main, Setup][..1] == [Main];
    ReachesTwo(t, SETUP, [Main, Setup], MAIN, [Main, Main]);
    AssertsReach(Continue(t, start), b.asserts[..n]);
    ReachesAppend(t, start, [Main, Main], AssertsTrace(b.asserts[..n]), [Main, Main]);
  }

  lemma {:induction false} TheoryCut(t: Tally, lens: seq<nat>, body: seq<nat> -> Body, n: nat, k: nat)
    requires t.client.phases == [Main] && Positive(lens) && k <= |TheoryTrace(lens, body, n)|
    ensures Reaches(t, TheoryTrace(lens, body, n)[..k], TheorySpot(lens, body, n, k))
    decreases n
  {
    if n == 0 {
      ReachesNone(t);
    } else {
      var before, b := TheoryTrace(lens, body, n - 1), body(Digits(n - 1, lens));
      if k <= |before| {
        TheoryCut(t, lens, body, n - 1, k);
        CutEarlier(before, RoundTrace(b), k);
      } else {
        TheoryReaches(t, lens, body, n - 1);
        LastRoundCut(t, before, b, k);
      }
    }
  }

  lemma LastRoundCut(t: Tally, before: seq<Data>, b: Body, k: nat)
    requires Reachable(t.client.phases) && Reaches(t, before, [Main]) && |before| <= k <= |before| + |RoundTrace(b)|
    ensures Reaches(t, (before + RoundTrace(b))[..k], RoundSpot(b, k - |before|))
  {
    RoundCut(Continue(t, before), b, k - |before|);
    CutLater(t, before, [Main], RoundTrace(b), k, RoundSpot(b, k - |before|));
  }

  lemma BodyCut(t: Tally, fn: TestFunction, k: nat)
    requires t.client.phases == [Main] && Runnable(fn) && k <= |BodyTrace(fn)|
    ensures Reaches(t, BodyTrace(fn)[..k], BodySpot(fn, k))
  {
    match fn
    case Plain(asserts) =>
      AssertsCut(asserts, |asserts|);
      AssertsCut(asserts, k);
      AssertsReach(t, asserts[..k]);
    case Theory(lens, body) => TheoryCut(t, lens, body, Product(lens), k);
  }

  lemma FiniCut(t: Tally, job: Job, k: nat)
    requires t.client.phases == [Teardown] && k <= |FiniTrace(job)|
    ensures Reaches(t, FiniTrace(job)[..k], FiniSpot(job, k))
  {
    var fini := AssertsTrace(Fini(job));
    AssertsCut(Fini(job), |Fini(job)|);
    if k <= |fini| {
      AssertsCut(Fini(job), k);
      AssertsReach(t, Fini(job)[..k]);
      CutEarlier(fini, [PhaseChange(END)], k);
    } else {
      AssertsReach(t, Fini(job));
      LastMoves();
      ReachesPhase(Continue(t, fini), END, [End]);
      assert [PhaseChange(END)][..1] == [PhaseChange(END)];
      CutLater(t, fini, [Teardown], [PhaseChange(END)], k, [End]);
    }
  }

  lemma TeardownCut(t: Tally, job: Job, k: nat)
    requires t.client.phases == [Main] && 0 < k <= |TeardownTrace(job)|
    ensures Reaches(t, TeardownTrace(job)[..k], FiniSpot(job, k - 1))
  {
    LastMoves();
    ReachesPhase(t, TEARDOWN, [Teardown]);
    FiniCut(Continue(t, [PhaseChange(TEARDOWN)]), job, k - 1);
    CutLater(t, [PhaseChange(TEARDOWN)], [Teardown], FiniTrace(job), k, FiniSpot(job, k - 1));
  }

  lemma StatisticCut(t: Tally, job: Job, k: nat)
    requires t.client.phases == [Main] && Runnable(job.fn) && k <= |Statistics(job)| + |TeardownTrace(job)|
    ensures Reaches(t, (Statistics(job) + TeardownTrace(job))[..k], StatisticSpot(job, k))
  {
    var stat := Statistics(job);
    StatisticReaches(t, job.fullStats, Passes(job.init) + Passes(Made(job.fn)));
    if k == 0 {
      ReachesNone(t);
    } else if k <= |stat| {
      CutEarlier(stat, TeardownTrace(job), k);
      assert stat[..k] == stat;
    } else {
      TeardownCut(Continue(t, stat), job, k - |stat|);
      CutLater(t, stat, [Main], TeardownTrace(job), k, StatisticSpot(job, k));
    }
  }

  lemma BodyOnCut(t: Tally, job: Job, k: nat)
    requires t.client.phases == [Main] && Runnable(job.fn) && k <= |BodyOnTrace(job)|
    ensures Reaches(t, BodyOnTrace(job)[..k], BodyOnSpot(job, k))
  {
    var body, rest := BodyTrace(Fn(job)), Statistics(job) + TeardownTrace(job);
    if k <= |body| {
      BodyCut(t, Fn(job), k);
      CutEarlier(body, rest, k);
    } else {
      BodyReaches(t, Fn(job));
      StatisticCut(Continue(t, body), job, k - |body|);
      CutLater(t, body, [Main], rest, k, BodyOnSpot(job, k));
    }
  }

  lemma MainCut(t: Tally, job: Job, k: nat)
    requires t.client.phases == START && Runnable(job.fn) && 0 < k <= |MainTrace(job)|
    ensures Reaches(t, MainTrace(job)[..k], BodyOnSpot(job, k - 1))
  {
    assert START[..0] == [];
    ReachesPhase(t, MAIN, [Main]);
    BodyOnCut(Continue(t, [PhaseChange(MAIN)]), job, k - 1);
    CutLater(t, [PhaseChange(MAIN)], [Main], BodyOnTrace(job), k, BodyOnSpot(job, k - 1));
  }

  lemma InitCut(t: Tally, job: Job, k: nat)
    requires t.client.phases == START && Runnable(job.fn) && k <= |InitTrace(job)|
    ensures Reaches(t, InitTrace(job)[..k], Spot(job, k + 2))
  {
    var n := |Init(job)|;
    AssertsCut(Init(job), n);
    if k <= n {
      InitPart(t, job, k);
    } else {
      var init := AssertsTrace(Init(job));
      AssertsReach(t, Init(job));
      MainCut(Continue(t, init), job, k - n);
      CutLater(t, init, START, MainTrace(job), k, BodyOnSpot(job, k - n - 1));
      SpotInMain(job, k - n);
    }
  }

  lemma InitPart(t: Tally, job: Job, k: nat)
    requires t.client.phases == START && Runnable(job.fn) && k <= |Init(job)| && k <= |InitTrace(job)|
    ensures Reaches(t, InitTrace(job)[..k], START)
  {
    AssertsCut(Init(job), |Init(job)|);
    AssertsCut(Init(job), k);
    AssertsReach(t, Init(job)[..k]);
    CutEarlier(AssertsTrace(Init(job)), MainTrace(job), k);
  }

  lemma SpotInMain(job: Job, k: nat)
    requires Runnable(job.fn) && k > 0
    ensures Spot(job, 2 + |Init(job)| + k) == BodyOnSpot(job, k - 1)
  {
  }

  /** After so many of a worker's messages: all acknowledged, the test at its spot, announced by the second. */
  ghost predicate CutAt(t: Tally, job: Job, k: nat)
    requires Reachable(t.client.phases) && Runnable(job.fn) && k <= |WorkerTrace(job)|
  {
    var ms := WorkerTrace(job)[..k];
    var r := Continue(t, ms);
    && AllAcked(t, ms)
    && r.client.phases == Spot(job, k)
    && r.announced == t.announced + (if k >= 2 then 1 else 0) && r.lateEnds == t.lateEnds
  }

  lemma WorkerCutFrom(t: Tally, job: Job, k: nat)
    requires t.client.phases == START && Runnable(job.fn) && k <= |WorkerTrace(job)|
    ensures CutAt(t, job, k)
  {
    var all := WorkerTrace(job);
    var start: seq<Data> := [Birth] + [PhaseChange(SETUP)];
    if k <= 1 {
      BirthReaches(t);
      ReachesNone(t);
      assert all[..1] == [Birth] && all[..0] == [];
    } else {
      BirthAnnounces(t);
      InitCut(Continue(t, start), job, k - 2);
      assert all[..k] == start + InitTrace(job)[..k - 2];
      ContinueAppend(t, start, InitTrace(job)[..k - 2]);
      AllAckedAppend(t, start, InitTrace(job)[..k - 2]);
    }
  }

  /**
    After any number of its messages, all of them were acknowledged positively and the test stands
    at its spot; it was announced by the second message, and no end came late.
   */
  lemma WorkerCut(c: Protocol.Client, job: Job, k: nat)
    requires c.phases == START && Runnable(job.fn) && k <= |WorkerTrace(job)|
    ensures CutAt(Tally(c, Zero(), 0, 0, 0), job, k)
  {
    WorkerCutFrom(Tally(c, Zero(), 0, 0, 0), job, k);
  }

  /**
    Worker and server agree: whatever the test does, every message of the worker is acknowledged
    positively, the phases end at the end, and the test was announced exactly once.
   */
  lemma WorkerAndServerAgree(c: Protocol.Client, job: Job)
    requires c.phases == START && Runnable(job.fn)
    ensures AllAcked(Tally(c, Zero(), 0, 0, 0), WorkerTrace(job))
    ensures var r := Run(c, WorkerTrace(job)); r.client.phases == [End] && r.announced == 1 && r.lateEnds == 0
  {
    var n := |WorkerTrace(job)|;
    WorkerCut(c, job, n);
    AssertsCut(Init(job), |Init(job)|);
    AssertsCut(Fini(job), |Fini(job)|);
    assert WorkerTrace(job)[..n] == WorkerTrace(job);
  }

  // ---- The verdicts of a life -----------------------------------------------------------------------

  /**
    A skip, or a timeout of a process that did not end itself, in teardown: two verdicts. A process
    that just ends inside a round of a theory, unless by a signal in the round's main: none.
    Every other end: one.
   */
  function VerdictsOf(spot: Stack, word: LastWord, fate: Fate): nat {
    if spot == [Teardown] && (word == Skips || (word == Silent && fate.timedOut)) then 2
    else if |spot| == 2 && word == Silent && !fate.timedOut && !(spot == [Main, Main] && fate.signal != 0) then 0
    else 1
  }

  /** The tally after the process's last word, and after the runner's timeout message. */
  function Ended(t: Tally, word: LastWord, fate: Fate): (r: Tally)
    requires Reachable(t.client.phases)
    ensures Reachable(r.client.phases)
  {
    var worded := match word
                  case Silent => t
                  case Skips => Stepped(t, SKIP)
                  case Dies => Stepped(t, ABORT);
    if fate.timedOut then Stepped(worded, TIMEOUT) else worded
  }

  function Stepped(t: Tally, kind: Kind): (r: Tally)
    requires Reachable(t.client.phases)
    ensures Reachable(r.client.phases)
  {
    ReactReachable(t.client, PhaseChange(kind));
    Count(t, PhaseChange(kind))
  }

  /** What an early end does to the phases. */
  lemma SteppedPhases(t: Tally, kind: Kind)
    requires InLedger(t) && (kind == SKIP || kind == ABORT || kind == TIMEOUT)
    ensures var st, r := t.client.phases, Stepped(t, kind);
            && InLedger(r)
            && r.client.phases == (if |st| == 2 then [Main] else [End])
            && r.announced == t.announced
            && r.lateEnds == t.lateEnds + (if st == [Teardown] && kind != ABORT then 1 else 0)
  {
    var st := t.client.phases;
    LedgerStep(t, PhaseChange(kind));
    if |st| == 2 {
      assert st[..1] == [Main];
    } else {
      assert st[..0] == [];
    }
  }

  lemma EndedVerdicts(t: Tally, word: LastWord, fate: Fate)
    requires InLedger(t) && t.lateEnds == 0
    ensures var r := Ended(t, word, fate);
            InLedger(r) && r.announced == t.announced
            && r.lateEnds + (if Settles(r.client.phases, DeathOf(fate).result) then 1 else 0) ==
               VerdictsOf(t.client.phases, word, fate)
  {
    var kind := if word == Skips then SKIP else ABORT;
    var worded := t;
    if word != Silent {
      SteppedPhases(t, kind);
      worded := Stepped(t, kind);
    }
    if fate.timedOut {
      SteppedPhases(worded, TIMEOUT);
    }
    var st := t.client.phases;
    if |st| == 1 {
      assert st == [st[0]];
      assert st[0] == Setup || st[0] == Main || st[0] == Teardown || st[0] == End;
    }
  }

  lemma EndedRuns(c: Protocol.Client, ms: seq<Data>, word: LastWord, fate: Fate)
    requires Reachable(c.phases)
    ensures Run(c, ms + WordTrace(word) + TimeoutTrace(fate)) == Ended(Run(c, ms), word, fate)
  {
    var worded := ms + WordTrace(word);
    if word == Skips {
      RunSnoc(c, ms, PhaseChange(SKIP));
    } else if word == Dies {
      RunSnoc(c, ms, PhaseChange(ABORT));
    } else {
      assert worded == ms;
    }
    if fate.timedOut {
      RunSnoc(c, worded, PhaseChange(TIMEOUT));
    } else {
      assert worded + TimeoutTrace(fate) == worded;
    }
  }

  lemma HeardDeathless(job: Job, life: nat, word: LastWord, fate: Fate)
    requires Runnable(job.fn)
    ensures Deathless(Heard(WorkerTrace(job), life))
    ensures Deathless(Heard(WorkerTrace(job), life) + WordTrace(word) + TimeoutTrace(fate))
  {
    WorkerDeathless(job);
  }

  /**
    Every life of a worker, exactly: it is announced if it sent two messages, and it gets no, one or
    two verdicts by where its last message left the test, how it ended itself, and how it was ended.
   */
  lemma LifeVerdicts(wantSignal: int, wantExit: int, job: Job, life: nat, word: LastWord, fate: Fate)
    requires Runnable(job.fn) && life <= |WorkerTrace(job)|
    ensures var n := Run(NewClient(wantSignal, wantExit), LifeTrace(job, life, word, fate)).total;
            && n.nbTests == (if life >= 2 then 1 else 0)
            && Verdicts(n) == VerdictsOf(Spot(job, life), word, fate)
  {
    var c := NewClient(wantSignal, wantExit);
    var heard := Heard(WorkerTrace(job), life);
    assert heard == WorkerTrace(job)[..life];
    WorkerCut(c, job, life);
    HeardDeathless(job, life, word, fate);
    LedgerKept(wantSignal, wantExit, heard);
    EndedVerdicts(Run(c, heard), word, fate);
    EndedRuns(c, heard, word, fate);
    var all := heard + WordTrace(word) + TimeoutTrace(fate);
    RunSnoc(c, all, DeathOf(fate));
    DeathJudges(Run(c, all), DeathOf(fate).result, DeathOf(fate).status);
  }

  /** So a life is orderly exactly when it was announced and gets one verdict. */
  lemma LifeOrderlyExactly(wantSignal: int, wantExit: int, job: Job, life: nat, word: LastWord, fate: Fate)
    requires Runnable(job.fn) && life <= |WorkerTrace(job)|
    ensures Books.Orderly(NewClient(wantSignal, wantExit), LifeTrace(job, life, word, fate)) <==>
            life >= 2 && VerdictsOf(Spot(job, life), word, fate) == 1
  {
    var c := NewClient(wantSignal, wantExit);
    var heard := Heard(WorkerTrace(job), life);
    assert heard == WorkerTrace(job)[..life];
    var all := heard + WordTrace(word) + TimeoutTrace(fate);
    WorkerCut(c, job, life);
    HeardDeathless(job, life, word, fate);
    LedgerKept(wantSignal, wantExit, heard);
    EndedVerdicts(Run(c, heard), word, fate);
    EndedRuns(c, heard, word, fate);
    assert (all + [DeathOf(fate)])[..|all|] == all;
  }
}
