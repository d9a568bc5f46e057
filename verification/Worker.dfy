/**
  The worker's side: the messages a test sends from birth to end, theories included, and the
  proof that the server acknowledges every one of them and judges the test exactly once.
 */
module Worker {
  import opened Phases
  import opened Stats
  import opened Protocol
  import opened Theories

  /** What gets through of what a process has to say, if it lives to send so many messages. */
  function Heard(said: seq<Data>, life: nat): seq<Data> {
    if |said| <= life then said else said[..life]
  }

  // ---- Asserts -----------------------------------------------------------------------------------

  function Passes(asserts: seq<bool>): nat {
    if asserts == [] then 0 else Passes(asserts[..|asserts| - 1]) + if asserts[|asserts| - 1] then 1 else 0
  }

  /** The asserts that are reported one by one: all of them under full statistics, else those that failed. */
  function Reported(asserts: seq<bool>, fullStats: bool): seq<bool> {
    if asserts == [] then []
    else
      var n := |asserts| - 1;
      Reported(asserts[..n], fullStats) + if asserts[n] && !fullStats then [] else [asserts[n]]
  }

  /**
    The process: its pipe to the runner, and its count. A process that is gone sends nothing more, whatever its
    code would still say.
   */
  class Link {
    const life: nat
    var sent: seq<Data>
    ghost var said: seq<Data>
    /** The process's count of its passed asserts. */
    var passed: nat

    ghost predicate Valid()
      reads this
    {
      sent == Heard(said, life)
    }

    constructor (life: nat)
      ensures Valid() && said == [] && this.life == life && passed == 0
    {
      this.life, sent, said, passed := life, [], [], 0;
    }

    method Send(d: Data)
      requires Valid()
      modifies this`sent, this`said
      ensures Valid() && said == old(said) + [d]
    {
      if |sent| < life {
        sent := sent + [d];
      }
      said := said + [d];
    }

    /** What one assert does: it is reported if it failed, or under full statistics; if it passed, it is counted. */
    method Assert(outcome: bool, fullStats: bool)
      requires Valid()
      modifies this
      ensures Valid() && said == old(said) + if outcome && !fullStats then [] else [AssertDone(outcome)]
      ensures passed == old(passed) + if outcome then 1 else 0
    {
      if !outcome || fullStats {
        Send(AssertDone(outcome));
      }
      if outcome {
        passed := passed + 1;
      }
    }

    method SendAsserts(asserts: seq<bool>, fullStats: bool)
      requires Valid()
      modifies this
      ensures Valid() && said == old(said) + AssertsTrace(Reported(asserts, fullStats))
      ensures passed == old(passed) + Passes(asserts)
    {
      for i := 0 to |asserts|
        invariant Valid() && said == old(said) + AssertsTrace(Reported(asserts[..i], fullStats))
        invariant passed == old(passed) + Passes(asserts[..i])
      {
        AssertsOn(asserts, i, fullStats);
        Assert(asserts[i], fullStats);
      }
      assert asserts[..|asserts|] == asserts;
    }
  }

  lemma AssertsOn(asserts: seq<bool>, i: nat, fullStats: bool)
    requires i < |asserts|
    ensures AssertsTrace(Reported(asserts[..i + 1], fullStats)) ==
            AssertsTrace(Reported(asserts[..i], fullStats)) +
            if asserts[i] && !fullStats then [] else [AssertDone(asserts[i])]
    ensures Passes(asserts[..i + 1]) == Passes(asserts[..i]) + if asserts[i] then 1 else 0
  {
    assert asserts[..i + 1][..i] == asserts[..i];
    var before := Reported(asserts[..i], fullStats);
    assert (before + [asserts[i]])[..|before|] == before;
    assert before + [] == before;
  }

  function AssertsTrace(asserts: seq<bool>): seq<Data> {
    if asserts == [] then [] else AssertsTrace(asserts[..|asserts| - 1]) + [AssertDone(asserts[|asserts| - 1])]
  }

  // ---- Theories ----------------------------------------------------------------------------

  /** One round of a theory: a subtest, aborted only by a failed assertion. */
  function RoundTrace(b: Body): seq<Data> {
    [PhaseChange(SETUP), PhaseChange(MAIN)] + AssertsTrace(b.asserts) +
    if b.ending == AssertionFails then [PhaseChange(ABORT)] else [PhaseChange(TEARDOWN), PhaseChange(END)]
  }

  /** A round begins as a subtest does, tells its asserts, and ends as one, unless an assertion stopped it. */
  lemma RoundSays(b: Body)
    ensures var ms, n := RoundTrace(b), |RoundTrace(b)|;
            && n > 2 && ms[0] == PhaseChange(SETUP) && ms[1] == PhaseChange(MAIN)
            && ms[2..n - (if b.ending == AssertionFails then 1 else 2)] == AssertsTrace(b.asserts)
            && (b.ending == AssertionFails ==> ms[n - 1] == PhaseChange(ABORT))
            && (b.ending != AssertionFails ==> ms[n - 2] == PhaseChange(TEARDOWN) && ms[n - 1] == PhaseChange(END))
  {
  }

  /** The first `n` rounds, on the tuples in counting order. */
  function TheoryTrace(lens: seq<nat>, body: seq<nat> -> Body, n: nat): seq<Data>
    requires Positive(lens)
  {
    if n == 0 then [] else TheoryTrace(lens, body, n - 1) + RoundTrace(body(Digits(n - 1, lens)))
  }

  /** What is reported of a round. */
  function Shown(b: Body, fullStats: bool): Body {
    b.(asserts := Reported(b.asserts, fullStats))
  }

  function ShownBy(body: seq<nat> -> Body, fullStats: bool): seq<nat> -> Body {
    d => Shown(body(d), fullStats)
  }

  /** The asserts made in the first `n` rounds. */
  function MadeIn(lens: seq<nat>, body: seq<nat> -> Body, n: nat): seq<bool>
    requires Positive(lens)
  {
    if n == 0 then [] else MadeIn(lens, body, n - 1) + body(Digits(n - 1, lens)).asserts
  }

  lemma {:induction false} PassesAppend(a: seq<bool>, b: seq<bool>)
    ensures Passes(a + b) == Passes(a) + Passes(b)
  {
    if b == [] {
      assert a + b == a;
    } else {
      PassesAppend(a, b[..|b| - 1]);
      assert (a + b)[..|a + b| - 1] == a + b[..|b| - 1];
    }
  }

  lemma {:induction false} DigitsOfZero(lens: seq<nat>)
    requires Positive(lens)
    ensures forall i :: 0 <= i < |lens| ==> Digits(0, lens)[i] == 0
  {
    if lens != [] {
      DigitsOfZero(lens[1..]);
    }
  }

  /** Every index before `j` is at its last. */
  predicate CarriesTo(d: seq<nat>, lens: seq<nat>, j: nat)
    requires |d| == |lens| && j <= |d|
  {
    forall i :: 0 <= i < j ==> d[i] + 1 == lens[i]
  }

  /** A tick, digit by digit. */
  lemma {:induction false} TickDigit(d: seq<nat>, lens: seq<nat>, j: nat)
    requires |d| == |lens| && j < |d|
    ensures |Tick(d, lens)| == |d|
    ensures Tick(d, lens)[j] ==
            if !CarriesTo(d, lens, j) then d[j] else if d[j] + 1 == lens[j] then 0 else d[j] + 1
  {
    if d[0] + 1 == lens[0] && |d| > 1 {
      TickDigit(d[1..], lens[1..], if j > 0 then j - 1 else 0);
      if j > 0 {
        CarriesOn(d, lens, j);
      }
    }
  }

  lemma CarriesOn(d: seq<nat>, lens: seq<nat>, j: nat)
    requires |d| == |lens| && 0 < j <= |d| && d[0] + 1 == lens[0]
    ensures CarriesTo(d, lens, j) <==> CarriesTo(d[1..], lens[1..], j - 1)
  {
    if CarriesTo(d[1..], lens[1..], j - 1) {
      forall i | 0 <= i < j
        ensures d[i] + 1 == lens[i]
      {
        if i > 0 {
          assert d[1..][i - 1] + 1 == lens[1..][i - 1];
        }
      }
    }
  }

  /** Moves the index array to the next tuple; false when every index was at its last. */
  method Advance(indices: array<nat>, lens: seq<nat>) returns (hasNext: bool)
    requires indices.Length == |lens| > 0 && Positive(lens)
    modifies indices
    ensures indices[..] == Tick(old(indices[..]), lens)
    ensures hasNext <==> !AtLast(old(indices[..]), lens)
  {
    hasNext := true;
    ghost var before := indices[..];
    var i := 0;
    while i < indices.Length
      invariant 0 <= i <= indices.Length && CarriesTo(before, lens, i)
      invariant forall j :: i <= j < indices.Length ==> indices[j] == before[j]
      invariant forall j :: 0 <= j < i ==> indices[j] == 0
      invariant hasNext == (i < indices.Length)
    {
      if indices[i] == lens[i] - 1 {
        indices[i] := 0;
        hasNext := i != indices.Length - 1;
        i := i + 1;
      } else {
        indices[i] := indices[i] + 1;
        break;
      }
    }
    forall j | 0 <= j < indices.Length
      ensures |Tick(before, lens)| == |before| && indices[j] == Tick(before, lens)[j]
    {
      TickDigit(before, lens, j);
    }
    assert |Tick(before, lens)| == |before| by { TickDigit(before, lens, 0); }
  }

  /** The theory driver: exactly one round for every tuple of datapoints. */
  method TheoryMain(link: Link, lens: seq<nat>, body: seq<nat> -> Body, fullStats: bool)
    requires lens != [] && Positive(lens) && link.Valid()
    modifies link
    ensures link.Valid()
    ensures link.said == old(link.said) + TheoryTrace(lens, ShownBy(body, fullStats), Product(lens))
    ensures link.passed == old(link.passed) + Passes(MadeIn(lens, body, Product(lens)))
  {
    var indices := new nat[|lens|](_ => 0);
    DigitsOfZero(lens);
    ProductPositive(lens);
    ghost var k: nat := 0;
    assert indices[..] == Digits(0, lens);
    var hasNext := true;
    while hasNext
      invariant fresh(indices) && indices.Length == |lens|
      invariant hasNext <==> k < Product(lens)
      invariant k <= Product(lens)
      invariant hasNext ==> indices[..] == Digits(k, lens)
      invariant link.Valid() && link.said == old(link.said) + TheoryTrace(lens, ShownBy(body, fullStats), k)
      invariant link.passed == old(link.passed) + Passes(MadeIn(lens, body, k))
      decreases Product(lens) - k
    {
      hasNext := NextRound(link, indices, lens, body, fullStats, k, old(link.said));
      k := k + 1;
    }
  }

  /** One round, and the step to the next. */
  method NextRound(
    link: Link, indices: array<nat>, lens: seq<nat>, body: seq<nat> -> Body, fullStats: bool,
    ghost k: nat, ghost before: seq<Data>)
    returns (hasNext: bool)
    requires lens != [] && Positive(lens) && link.Valid() && k < Product(lens)
    requires indices.Length == |lens| && indices[..] == Digits(k, lens)
    requires link.said == before + TheoryTrace(lens, ShownBy(body, fullStats), k)
    modifies link, indices
    ensures link.Valid() && link.said == before + TheoryTrace(lens, ShownBy(body, fullStats), k + 1)
    ensures link.passed + Passes(MadeIn(lens, body, k)) == old(link.passed) + Passes(MadeIn(lens, body, k + 1))
    ensures hasNext <==> k + 1 < Product(lens)
    ensures hasNext ==> indices[..] == Digits(k + 1, lens)
  {
    TheoryRound(link, body(indices[..]), fullStats);
    TraceSnoc(before, lens, ShownBy(body, fullStats), k);
    PassesAppend(MadeIn(lens, body, k), body(Digits(k, lens)).asserts);
    TickCounts(k, lens);
    hasNext := Advance(indices, lens);
  }

  lemma TraceSnoc(before: seq<Data>, lens: seq<nat>, body: seq<nat> -> Body, k: nat)
    requires Positive(lens)
    ensures before + TheoryTrace(lens, body, k) + RoundTrace(body(Digits(k, lens))) ==
            before + TheoryTrace(lens, body, k + 1)
  {
  }

  method TheoryRound(link: Link, b: Body, fullStats: bool)
    requires link.Valid()
    modifies link
    ensures link.Valid() && link.said == old(link.said) + RoundTrace(Shown(b, fullStats))
    ensures link.passed == old(link.passed) + Passes(b.asserts)
  {
    link.Send(PhaseChange(SETUP));
    link.Send(PhaseChange(MAIN));
    var theoryAborted := false;
    link.SendAsserts(b.asserts, fullStats);
    if b.ending == AssertionFails {
      theoryAborted := true;
      link.Send(PhaseChange(ABORT));
    }
    if !theoryAborted {
      link.Send(PhaseChange(TEARDOWN));
      link.Send(PhaseChange(END));
    }
    RoundJoins(old(link.said), Shown(b, fullStats));
  }

  lemma RoundJoins(said: seq<Data>, b: Body)
    ensures var ms := said + [PhaseChange(SETUP)] + [PhaseChange(MAIN)] + AssertsTrace(b.asserts);
            said + RoundTrace(b) == if b.ending == AssertionFails then ms + [PhaseChange(ABORT)]
                                    else ms + [PhaseChange(TEARDOWN)] + [PhaseChange(END)]
  {
  }

  // ---- A test --------------------------------------------------------------------------------

  /** What a test function does: report asserts, ending by a return or an abort; or drive a theory. */
  datatype TestFunction =
    | Plain(asserts: seq<bool>)
    | Theory(lens: seq<nat>, body: seq<nat> -> Body)

  predicate Runnable(fn: TestFunction) {
    fn.Theory? ==> fn.lens != [] && Positive(fn.lens)
  }

  /** The asserts a test function makes. */
  function Made(fn: TestFunction): seq<bool>
    requires Runnable(fn)
  {
    match fn
    case Plain(asserts) => asserts
    case Theory(lens, body) => MadeIn(lens, body, Product(lens))
  }

  /** What is reported of it. */
  function Reporting(fn: TestFunction, fullStats: bool): TestFunction {
    match fn
    case Plain(asserts) => Plain(Reported(asserts, fullStats))
    case Theory(lens, body) => Theory(lens, ShownBy(body, fullStats))
  }

  function BodyTrace(fn: TestFunction): seq<Data>
    requires Runnable(fn)
  {
    match fn
    case Plain(asserts) => AssertsTrace(asserts)
    case Theory(lens, body) => TheoryTrace(lens, body, Product(lens))
  }

  function StatisticTrace(fullStats: bool, passed: nat): seq<Data> {
    if fullStats then [] else [Statistic(true, passed)]
  }

  /** A test with the asserts of its setup and teardown functions, and the run's setting. */
  datatype Job = Job(init: seq<bool>, fn: TestFunction, fini: seq<bool>, fullStats: bool)

  // What is reported of a job.

  function Init(job: Job): seq<bool> {
    Reported(job.init, job.fullStats)
  }

  function Fn(job: Job): TestFunction {
    Reporting(job.fn, job.fullStats)
  }

  function Fini(job: Job): seq<bool> {
    Reported(job.fini, job.fullStats)
  }

  /** The passed asserts up to the end of main, all at once, unless they were reported one by one. */
  function Statistics(job: Job): seq<Data>
    requires Runnable(job.fn)
  {
    StatisticTrace(job.fullStats, Passes(job.init) + Passes(Made(job.fn)))
  }

  // What a worker still sends, from the asserts of its teardown functions on, and from ever earlier on.

  function FiniTrace(job: Job): seq<Data> {
    AssertsTrace(Fini(job)) + [PhaseChange(END)]
  }

  function TeardownTrace(job: Job): seq<Data> {
    [PhaseChange(TEARDOWN)] + FiniTrace(job)
  }

  function BodyOnTrace(job: Job): seq<Data>
    requires Runnable(job.fn)
  {
    BodyTrace(Fn(job)) + (Statistics(job) + TeardownTrace(job))
  }

  function MainTrace(job: Job): seq<Data>
    requires Runnable(job.fn)
  {
    [PhaseChange(MAIN)] + BodyOnTrace(job)
  }

  function InitTrace(job: Job): seq<Data>
    requires Runnable(job.fn)
  {
    AssertsTrace(Init(job)) + MainTrace(job)
  }

  /** Everything a worker sends when its test runs to the end. */
  function WorkerTrace(job: Job): seq<Data>
    requires Runnable(job.fn)
  {
    [Birth] + [PhaseChange(SETUP)] + InitTrace(job)
  }

  method TestSetup(link: Link, job: Job)
    requires link.Valid()
    modifies link
    ensures link.Valid() && link.said == old(link.said) + ([PhaseChange(SETUP)] + AssertsTrace(Init(job)))
    ensures link.passed == old(link.passed) + Passes(job.init)
  {
    link.Send(PhaseChange(SETUP));
    link.SendAsserts(job.init, job.fullStats);
  }

  method TestBody(link: Link, fn: TestFunction, fullStats: bool)
    requires Runnable(fn) && link.Valid()
    modifies link
    ensures link.Valid() && link.said == old(link.said) + BodyTrace(Reporting(fn, fullStats))
    ensures link.passed == old(link.passed) + Passes(Made(fn))
  {
    match fn {
      case Plain(asserts) => link.SendAsserts(asserts, fullStats);
      case Theory(lens, body) => TheoryMain(link, lens, body, fullStats);
    }
  }

  method TestMain(link: Link, job: Job)
    requires Runnable(job.fn) && link.Valid() && link.passed == Passes(job.init)
    modifies link
    ensures link.Valid()
    ensures link.said ==
            old(link.said) + ([PhaseChange(MAIN)] + BodyTrace(Fn(job)) + Statistics(job) + [PhaseChange(TEARDOWN)])
  {
    link.Send(PhaseChange(MAIN));
    TestBody(link, job.fn, job.fullStats);
    if !job.fullStats {
      link.Send(Statistic(true, link.passed));
    }
    link.Send(PhaseChange(TEARDOWN));
  }

  method TestTeardown(link: Link, job: Job)
    requires link.Valid()
    modifies link
    ensures link.Valid() && link.said == old(link.said) + FiniTrace(job)
  {
    link.SendAsserts(job.fini, job.fullStats);
    link.Send(PhaseChange(END));
  }

  lemma Regroup(said: seq<Data>, birth: seq<Data>, setup: seq<Data>, init: seq<Data>, main: seq<Data>,
                body: seq<Data>, stat: seq<Data>, down: seq<Data>, fini: seq<Data>)
    ensures said + birth + (setup + init) + (main + body + stat + down) + fini ==
            said + (birth + setup + (init + (main + (body + (stat + (down + fini))))))
  {
  }

  /** The child process: birth, then setup, main and teardown of the test. */
  method RunTestChild(link: Link, job: Job)
    requires Runnable(job.fn) && link.Valid() && link.passed == 0
    modifies link
    ensures link.Valid() && link.said == old(link.said) + WorkerTrace(job)
  {
    link.Send(Birth);
    TestSetup(link, job);
    TestMain(link, job);
    TestTeardown(link, job);
    Regroup(old(link.said), [Birth], [PhaseChange(SETUP)], AssertsTrace(Init(job)), [PhaseChange(MAIN)],
            BodyTrace(Fn(job)), Statistics(job), [PhaseChange(TEARDOWN)], FiniTrace(job));
  }

  // ---- The server agrees -----------------------------------------------------------------------

  /** The messages are all acknowledged, and bring the phases to `st`, announcing and ending nothing on the way. */
  ghost predicate Reaches(t: Tally, ms: seq<Data>, st: Stack)
    requires Reachable(t.client.phases)
  {
    var r := Continue(t, ms);
    && AllAcked(t, ms)
    && r.client.phases == st
    && r.announced == t.announced && r.lateEnds == t.lateEnds
  }

  lemma ReachesAppend(t: Tally, a: seq<Data>, st: Stack, b: seq<Data>, st': Stack)
    requires Reachable(t.client.phases) && Reaches(t, a, st) && Reaches(Continue(t, a), b, st')
    ensures Reaches(t, a + b, st')
  {
    ContinueAppend(t, a, b);
    AllAckedAppend(t, a, b);
  }

  lemma ReachesOne(t: Tally, m: Data)
    requires Reachable(t.client.phases) && React(t.client, m).ok
    ensures AllAcked(t, [m]) && Continue(t, [m]) == Count(t, m)
  {
    assert [m][..0] == [];
    ContinueUnfold(t, [m]);
    AllAckedUnfold(t, [m]);
  }

  /** One phase message, away from the start and from the end of the test. */
  lemma ReachesPhase(t: Tally, kind: Kind, st: Stack)
    requires Reachable(t.client.phases) && StackMove(t.client.phases, kind) == Moved(st)
    requires t.client.phases != START || kind != SETUP
    requires t.client.phases != [Teardown] || (kind != SKIP && kind != TIMEOUT)
    ensures Reaches(t, [PhaseChange(kind)], st)
  {
    ReachesOne(t, PhaseChange(kind));
  }

  lemma {:induction false} AssertsReach(t: Tally, asserts: seq<bool>)
    requires Reachable(t.client.phases)
    ensures Reaches(t, AssertsTrace(asserts), t.client.phases)
  {
    if asserts != [] {
      var n := |asserts| - 1;
      AssertsReach(t, asserts[..n]);
      ReachesOne(Continue(t, AssertsTrace(asserts[..n])), AssertDone(asserts[n]));
      ReachesAppend(t, AssertsTrace(asserts[..n]), t.client.phases, [AssertDone(asserts[n])], t.client.phases);
    }
  }

  lemma ReachesTwo(t: Tally, a: Kind, st: Stack, b: Kind, st': Stack)
    requires Reachable(t.client.phases) && StackMove(t.client.phases, a) == Moved(st)
    requires Reachable(st) && StackMove(st, b) == Moved(st')
    requires t.client.phases != START && st != START
    requires a != SKIP && a != TIMEOUT && b != SKIP && b != TIMEOUT
    ensures Reaches(t, [PhaseChange(a), PhaseChange(b)], st')
  {
    ReachesPhase(t, a, st);
    ReachesPhase(Continue(t, [PhaseChange(a)]), b, st');
    ReachesAppend(t, [PhaseChange(a)], st, [PhaseChange(b)], st');
    assert [PhaseChange(a)] + [PhaseChange(b)] == [PhaseChange(a), PhaseChange(b)];
  }

  lemma RoundEnds(t: Tally, b: Body)
    requires t.client.phases == [Main, Main]
    ensures var end := if b.ending == AssertionFails then [PhaseChange(ABORT)]
                       else [PhaseChange(TEARDOWN), PhaseChange(END)];
            Reaches(t, end, [Main])
  {
    assert [Main, Main][..1] == [Main];
    if b.ending == AssertionFails {
      ReachesPhase(t, ABORT, [Main]);
    } else {
      assert [Main, Teardown][..1] == [Main];
      ReachesTwo(t, TEARDOWN, [Main, Teardown], END, [Main]);
    }
  }

  /** Each iteration of a theory is acknowledged throughout and leaves the test where it was, in main. */
  lemma RoundReaches(t: Tally, b: Body)
    requires t.client.phases == [Main]
    ensures Reaches(t, RoundTrace(b), [Main])
  {
    var start: seq<Data> := [PhaseChange(SETUP), PhaseChange(MAIN)];
    var asserts := AssertsTrace(b.asserts);
    assert [Main, Setup][..1] == [Main];
    ReachesTwo(t, SETUP, [Main, Setup], MAIN, [Main, Main]);
    AssertsReach(Continue(t, start), b.asserts);
    ReachesAppend(t, start, [Main, Main], asserts, [Main, Main]);
    RoundEnds(Continue(t, start + asserts), b);
    ReachesAppend(t, start + asserts, [Main, Main],
                  if b.ending == AssertionFails then [PhaseChange(ABORT)]
                  else [PhaseChange(TEARDOWN), PhaseChange(END)],
                  [Main]);
  }

  lemma {:induction false} TheoryReaches(t: Tally, lens: seq<nat>, body: seq<nat> -> Body, n: nat)
    requires t.client.phases == [Main] && Positive(lens)
    ensures Reaches(t, TheoryTrace(lens, body, n), [Main])
  {
    if n > 0 {
      var b := body(Digits(n - 1, lens));
      TheoryReaches(t, lens, body, n - 1);
      RoundReaches(Continue(t, TheoryTrace(lens, body, n - 1)), b);
      ReachesAppend(t, TheoryTrace(lens, body, n - 1), [Main], RoundTrace(b), [Main]);
    }
  }

  lemma BodyReaches(t: Tally, fn: TestFunction)
    requires t.client.phases == [Main] && Runnable(fn)
    ensures Reaches(t, BodyTrace(fn), [Main])
  {
    match fn
    case Plain(asserts) => AssertsReach(t, asserts);
    case Theory(lens, body) => TheoryReaches(t, lens, body, Product(lens));
  }

  lemma StatisticReaches(t: Tally, fullStats: bool, passed: nat)
    requires t.client.phases == [Main]
    ensures Reaches(t, StatisticTrace(fullStats, passed), [Main])
  {
    if !fullStats {
      ReachesOne(t, Statistic(true, passed));
    }
  }

  lemma {:induction false} AssertsDeathless(asserts: seq<bool>)
    ensures Deathless(AssertsTrace(asserts))
  {
    if asserts != [] {
      AssertsDeathless(asserts[..|asserts| - 1]);
    }
  }

  lemma {:induction false} TheoryDeathless(lens: seq<nat>, body: seq<nat> -> Body, n: nat)
    requires Positive(lens)
    ensures Deathless(TheoryTrace(lens, body, n))
  {
    if n > 0 {
      TheoryDeathless(lens, body, n - 1);
      AssertsDeathless(body(Digits(n - 1, lens)).asserts);
    }
  }

  lemma BodyDeathless(fn: TestFunction)
    requires Runnable(fn)
    ensures Deathless(BodyTrace(fn))
  {
    match fn
    case Plain(asserts) => AssertsDeathless(asserts);
    case Theory(lens, body) => TheoryDeathless(lens, body, Product(lens));
  }

  lemma BothDeathless(a: seq<Data>, b: seq<Data>)
    requires Deathless(a) && Deathless(b)
    ensures Deathless(a + b)
  {
  }

  lemma WorkerDeathless(job: Job)
    requires Runnable(job.fn)
    ensures Deathless(WorkerTrace(job))
  {
    AssertsDeathless(Init(job));
    BodyDeathless(Fn(job));
    AssertsDeathless(Fini(job));
    BothDeathless(AssertsTrace(Fini(job)), [PhaseChange(END)]);
    BothDeathless([PhaseChange(TEARDOWN)], FiniTrace(job));
    BothDeathless(Statistics(job), TeardownTrace(job));
    BothDeathless(BodyTrace(Fn(job)), Statistics(job) + TeardownTrace(job));
    BothDeathless([PhaseChange(MAIN)], BodyOnTrace(job));
    BothDeathless(AssertsTrace(Init(job)), MainTrace(job));
    BothDeathless([Birth] + [PhaseChange(SETUP)], InitTrace(job));
  }

  lemma BirthReaches(t: Tally)
    requires Reachable(t.client.phases)
    ensures Reaches(t, [Birth], t.client.phases)
  {
    ReachesOne(t, Birth);
  }

  /** The one announcement. */
  lemma SetupAnnounces(t: Tally)
    requires t.client.phases == START
    ensures var r := Continue(t, [PhaseChange(SETUP)]);
            && AllAcked(t, [PhaseChange(SETUP)]) && r.client.phases == START
            && r.announced == t.announced + 1 && r.lateEnds == t.lateEnds
  {
    ReachesOne(t, PhaseChange(SETUP));
  }

  /** Born, then announced. */
  lemma BirthAnnounces(t: Tally)
    requires t.client.phases == START
    ensures var ms: seq<Data> := [Birth] + [PhaseChange(SETUP)];
            var r := Continue(t, ms);
            && AllAcked(t, ms) && r.client.phases == START
            && r.announced == t.announced + 1 && r.lateEnds == t.lateEnds
  {
    BirthReaches(t);
    SetupAnnounces(Continue(t, [Birth]));
    ContinueAppend(t, [Birth], [PhaseChange(SETUP)]);
    AllAckedAppend(t, [Birth], [PhaseChange(SETUP)]);
  }

  lemma LastMoves()
    ensures StackMove([Main], TEARDOWN) == Moved([Teardown]) && StackMove([Teardown], END) == Moved([End])
  {
    assert [Main][..0] == [] && [Teardown][..0] == [];
  }
}
