/**
  Many clients at once. Their messages reach the server in any order; the statistics still add
  up, because each message adds the same to its client's suite and to the run, and touches no
  other client.
 */
module Books {
  import opened Phases
  import opened Stats
  import opened Protocol

  datatype Delivery = Delivery(to: nat, data: Data)

  /** Clients, the suite each belongs to, the counters of the suites, and those of the run. */
  datatype World = World(
    clients: seq<Client>, home: seq<nat>, suites: seq<Counters>, run: Counters,
    /** The messages taken, oldest first. */
    heard: seq<Delivery>,
    /** The disabled tests passed over. */
    skips: nat)

  predicate Good(w: World) {
    && |w.home| == |w.clients|
    && (forall i :: 0 <= i < |w.home| ==> w.home[i] < |w.suites|)
    && (forall i :: 0 <= i < |w.clients| ==> Reachable(w.clients[i].phases))
  }

  predicate Addressed(w: World, script: seq<Delivery>) {
    forall i :: 0 <= i < |script| ==> script[i].to < |w.clients|
  }

  function Deliver(w: World, m: Delivery): (r: World)
    requires Good(w) && m.to < |w.clients|
    ensures Good(r) && r.home == w.home && |r.suites| == |w.suites|
  {
    var reaction := React(w.clients[m.to], m.data);
    var k := w.home[m.to];
    ReactReachable(w.clients[m.to], m.data);
    w.(clients := w.clients[m.to := reaction.client],
       suites := w.suites[k := Add(w.suites[k], reaction.added)],
       run := Add(w.run, reaction.added),
       heard := w.heard + [m])
  }

  function DeliverAll(w: World, script: seq<Delivery>): (r: World)
    requires Good(w) && Addressed(w, script)
    ensures Good(r) && r.home == w.home && |r.suites| == |w.suites|
  {
    if script == [] then w else Deliver(DeliverAll(w, script[..|script| - 1]), script[|script| - 1])
  }

  /** The messages of one client. */
  function Inbox(script: seq<Delivery>, i: nat): seq<Data> {
    if script == [] then []
    else
      var m := script[|script| - 1];
      Inbox(script[..|script| - 1], i) + (if m.to == i then [m.data] else [])
  }

  /** What each client adds when run on its own messages alone. */
  function Totals(w: World, script: seq<Delivery>): (r: seq<Counters>)
    requires Good(w)
    ensures |r| == |w.clients|
  {
    seq(|w.clients|, i requires 0 <= i < |w.clients| => Run(w.clients[i], Inbox(script, i)).total)
  }

  /** The sum over the clients of suite `k`, or over all of them. */
  function SumOf(totals: seq<Counters>, home: seq<nat>, k: nat): Counters
    requires |totals| == |home|
  {
    if totals == [] then Zero()
    else
      var n := |totals| - 1;
      Add(SumOf(totals[..n], home[..n], k), if home[n] == k then totals[n] else Zero())
  }

  function SumAll(totals: seq<Counters>): Counters {
    if totals == [] then Zero() else Add(SumAll(totals[..|totals| - 1]), totals[|totals| - 1])
  }

  lemma {:induction false} SumUpdate(totals: seq<Counters>, home: seq<nat>, i: nat, a: Counters, k: nat)
    requires |totals| == |home| && i < |totals|
    ensures var t := totals[i := Add(totals[i], a)];
            && SumAll(t) == Add(SumAll(totals), a)
            && SumOf(t, home, k) == if home[i] == k then Add(SumOf(totals, home, k), a) else SumOf(totals, home, k)
  {
    var n := |totals| - 1;
    var t := totals[i := Add(totals[i], a)];
    if i < n {
      SumUpdate(totals[..n], home[..n], i, a, k);
      assert t[..n] == totals[..n][i := Add(totals[i], a)];
      AddRules(SumAll(totals[..n]), a, totals[n]);
      AddRules(SumOf(totals[..n], home[..n], k), a, if home[n] == k then totals[n] else Zero());
    } else {
      assert t[..n] == totals[..n];
      AddRules(SumAll(totals[..n]), totals[n], a);
      AddRules(SumOf(totals[..n], home[..n], k), totals[n], a);
    }
  }

  lemma {:induction false} SumOfZeros(totals: seq<Counters>, home: seq<nat>, k: nat)
    requires |totals| == |home| && forall i :: 0 <= i < |totals| ==> totals[i] == Zero()
    ensures SumAll(totals) == SumOf(totals, home, k) == Zero()
  {
    if totals != [] {
      SumOfZeros(totals[..|totals| - 1], home[..|totals| - 1], k);
    }
  }

  /** Each client is where its own messages alone take it, and the counters are the sums of what clients add. */
  ghost predicate AddsUp(w: World, r: World, script: seq<Delivery>, k: nat)
    requires Good(w) && k < |w.suites|
  {
    && |r.clients| == |w.clients| && |r.suites| == |w.suites|
    && (forall i :: 0 <= i < |w.clients| ==> r.clients[i] == Run(w.clients[i], Inbox(script, i)).client)
    && r.run == Add(w.run, SumAll(Totals(w, script)))
    && r.suites[k] == Add(w.suites[k], SumOf(Totals(w, script), w.home, k))
  }

  /**
    However the messages of the clients interleave, each client ends as if it had run alone, the
    run's counters grow by the sum of what the clients add, and every suite's by the sum over
    its own clients.
   */
  lemma {:induction false} InterleavingAddsUp(w: World, script: seq<Delivery>, k: nat)
    requires Good(w) && Addressed(w, script) && k < |w.suites|
    ensures AddsUp(w, DeliverAll(w, script), script, k)
  {
    if script == [] {
      SumOfZeros(Totals(w, script), w.home, k);
    } else {
      var init, m := script[..|script| - 1], script[|script| - 1];
      InterleavingAddsUp(w, init, k);
      assert init + [m] == script;
      ClientsStep(w, init, m);
      CountersStep(w, DeliverAll(w, init), init, m, k);
    }
  }

  lemma CountersStep(w: World, r: World, script: seq<Delivery>, m: Delivery, k: nat)
    requires Good(w) && Good(r) && m.to < |w.clients| && k < |w.suites| && r.home == w.home
    requires AddsUp(w, r, script, k)
    ensures var r', all := Deliver(r, m), script + [m];
            && r'.run == Add(w.run, SumAll(Totals(w, all)))
            && r'.suites[k] == Add(w.suites[k], SumOf(Totals(w, all), w.home, k))
  {
    var a := React(r.clients[m.to], m.data).added;
    var totals := Totals(w, script);
    TotalsStep(w, script, m);
    SumUpdate(totals, w.home, m.to, a, k);
    AddRules(w.run, SumAll(totals), a);
    AddRules(w.suites[k], SumOf(totals, w.home, k), a);
  }

  lemma ClientsStep(w: World, script: seq<Delivery>, m: Delivery)
    requires Good(w) && Addressed(w, script) && m.to < |w.clients|
    requires var r := DeliverAll(w, script);
             && |r.clients| == |w.clients|
             && forall i :: 0 <= i < |w.clients| ==> r.clients[i] == Run(w.clients[i], Inbox(script, i)).client
    ensures var r, all := Deliver(DeliverAll(w, script), m), script + [m];
            && |r.clients| == |w.clients|
            && forall i :: 0 <= i < |w.clients| ==> r.clients[i] == Run(w.clients[i], Inbox(all, i)).client
  {
    forall i | 0 <= i < |w.clients|
      ensures Deliver(DeliverAll(w, script), m).clients[i] == Run(w.clients[i], Inbox(script + [m], i)).client
    {
      InboxStep(script, m, i);
      if i == m.to {
        RunSnoc(w.clients[i], Inbox(script, i), m.data);
      }
    }
  }

  lemma InboxStep(script: seq<Delivery>, m: Delivery, i: nat)
    ensures Inbox(script + [m], i) == if m.to == i then Inbox(script, i) + [m.data] else Inbox(script, i)
  {
    assert (script + [m])[..|script|] == script;
  }

  /** One more message changes the total of its client alone. */
  lemma TotalsStep(w: World, script: seq<Delivery>, m: Delivery)
    requires Good(w) && m.to < |w.clients|
    ensures var a := React(Run(w.clients[m.to], Inbox(script, m.to)).client, m.data).added;
            Totals(w, script + [m]) == Totals(w, script)[m.to := Add(Totals(w, script)[m.to], a)]
  {
    var all := script + [m];
    forall i | 0 <= i < |w.clients|
      ensures i != m.to ==> Totals(w, all)[i] == Totals(w, script)[i]
    {
      InboxStep(script, m, i);
    }
    InboxStep(script, m, m.to);
    RunSnoc(w.clients[m.to], Inbox(script, m.to), m.data);
  }

  // ---- Conservation -------------------------------------------------------------------------------

  function Failures(asserts: seq<bool>): nat {
    if asserts == [] then 0 else (if asserts[0] then 0 else 1) + Failures(asserts[1..])
  }

  predicate Agrees(t: TestView, n: Counters) {
    && t.passedAsserts == n.assertsPassed
    && t.failedAsserts == n.assertsFailed == Failures(t.asserts)
    && n.testsCrashed <= n.testsFailed
  }

  /** A test's record agrees with what its messages added to the suite and to the run. */
  predicate Recorded(t: Tally) {
    Reachable(t.client.phases) && Agrees(t.client.test, t.total)
  }

  lemma EventAgrees(t: TestView, n: Counters, e: Event)
    requires Agrees(t, n)
    ensures Agrees(TestAfter(t, e), Add(n, Added(t, e)))
  {
    if e.Assert? {
      assert ([e.passed] + t.asserts)[1..] == t.asserts;
    }
  }

  lemma EventsAgree(t: TestView, n: Counters, es: Events)
    requires Agrees(t, n)
    ensures Agrees(TestAfterAll(t, es), Add(n, AddedByAll(t, es)))
  {
    if !es.Nothing? {
      EventAgrees(t, n, es.first);
      if es.Two? {
        EventAgrees(TestAfter(t, es.first), Add(n, Added(t, es.first)), es.second);
        AddRules(n, Added(t, es.first), Added(TestAfter(t, es.first), es.second));
      }
    }
  }

  lemma RecordedStep(t: Tally, m: Data)
    requires Recorded(t)
    ensures Recorded(Count(t, m))
  {
    ReactReachable(t.client, m);
    var st, test := t.client.phases, t.client.test;
    match m
    case PhaseChange(kind) =>
      if StackMove(st, kind).Moved? {
        EventsAgree(Noted(st, test, kind), t.total, PhaseEvents(st, kind));
      }
    case Death(result, status) =>
      var noted := DeathNoted(st, test, result, status);
      EventsAgree(noted, t.total, DeathEvents(st, noted, result));
    case AssertDone(passed) =>
      EventsAgree(test, t.total, One(Assert(passed)));
    case _ =>
  }

  /** Over any messages, deaths included. */
  lemma {:induction false} RecordedAlways(wantSignal: int, wantExit: int, ms: seq<Data>)
    ensures Recorded(Run(NewClient(wantSignal, wantExit), ms))
  {
    if ms != [] {
      var n := |ms| - 1;
      RecordedAlways(wantSignal, wantExit, ms[..n]);
      RecordedStep(Run(NewClient(wantSignal, wantExit), ms[..n]), ms[n]);
      assert ms == ms[..n] + [ms[n]];
      RunSnoc(NewClient(wantSignal, wantExit), ms[..n], ms[n]);
    }
  }

  /** No client has spoken, and nothing has been counted. */
  predicate Fresh(w: World) {
    && Good(w) && Unheard(w)
    && w.run == Zero()
    && (forall k :: 0 <= k < |w.suites| ==> w.suites[k] == Zero())
  }

  predicate Unheard(w: World) {
    forall i :: 0 <= i < |w.clients| ==>
      w.clients[i] == NewClient(w.clients[i].test.wantSignal, w.clients[i].test.wantExit)
  }

  /** The sum over the clients of suite `k`, or all clients, of one measure of their final records. */
  function SumWhere(clients: seq<Client>, home: seq<nat>, k: nat, failed: bool): nat
    requires |clients| == |home|
  {
    if clients == [] then 0
    else
      var n := |clients| - 1;
      var t := clients[n].test;
      SumWhere(clients[..n], home[..n], k, failed) +
      (if home[n] != k then 0 else if failed then t.failedAsserts else t.passedAsserts)
  }

  lemma {:induction false} RecordsSum(clients: seq<Client>, totals: seq<Counters>, home: seq<nat>, k: nat)
    requires |clients| == |totals| == |home|
    requires forall i :: 0 <= i < |clients| ==>
               && clients[i].test.passedAsserts == totals[i].assertsPassed
               && clients[i].test.failedAsserts == totals[i].assertsFailed
               && totals[i].testsCrashed <= totals[i].testsFailed
    ensures SumOf(totals, home, k).assertsPassed == SumWhere(clients, home, k, false)
    ensures SumOf(totals, home, k).assertsFailed == SumWhere(clients, home, k, true)
    ensures SumOf(totals, home, k).testsCrashed <= SumOf(totals, home, k).testsFailed
    ensures SumAll(totals).testsCrashed <= SumAll(totals).testsFailed
  {
    if clients != [] {
      var n := |clients| - 1;
      RecordsSum(clients[..n], totals[..n], home[..n], k);
    }
  }

  /**
    Conservation: after any messages to any clients, a suite's passed and failed assert totals are
    the sums over its tests' own records, and crashes are never more than failures.
   */
  lemma Conservation(w: World, script: seq<Delivery>, k: nat)
    requires Fresh(w) && Addressed(w, script) && k < |w.suites|
    ensures var r := DeliverAll(w, script);
            && r.suites[k].assertsPassed == SumWhere(r.clients, r.home, k, false)
            && r.suites[k].assertsFailed == SumWhere(r.clients, r.home, k, true)
            && r.suites[k].testsCrashed <= r.suites[k].testsFailed
            && r.run.testsCrashed <= r.run.testsFailed
  {
    InterleavingAddsUp(w, script, k);
    FromZero(w.run, SumAll(Totals(w, script)));
    FromZero(w.suites[k], SumOf(Totals(w, script), w.home, k));
    SumsAgree(w, script, DeliverAll(w, script), k);
  }

  lemma FromZero(z: Counters, n: Counters)
    requires z == Zero()
    ensures Add(z, n) == n
  {
  }

  lemma RecordsAgree(w: World, script: seq<Delivery>, i: nat)
    requires Good(w) && Unheard(w) && i < |w.clients|
    ensures Agrees(Run(w.clients[i], Inbox(script, i)).client.test, Totals(w, script)[i])
  {
    var c := w.clients[i];
    RecordedAlways(c.test.wantSignal, c.test.wantExit, Inbox(script, i));
  }

  lemma SumsAgree(w: World, script: seq<Delivery>, r: World, k: nat)
    requires Good(w) && Unheard(w) && |r.clients| == |w.clients|
    requires forall i :: 0 <= i < |w.clients| ==> r.clients[i] == Run(w.clients[i], Inbox(script, i)).client
    ensures var totals := Totals(w, script);
            && SumOf(totals, w.home, k).assertsPassed == SumWhere(r.clients, w.home, k, false)
            && SumOf(totals, w.home, k).assertsFailed == SumWhere(r.clients, w.home, k, true)
            && SumOf(totals, w.home, k).testsCrashed <= SumOf(totals, w.home, k).testsFailed
            && SumAll(totals).testsCrashed <= SumAll(totals).testsFailed
  {
    var totals := Totals(w, script);
    forall i | 0 <= i < |w.clients|
      ensures Agrees(r.clients[i].test, totals[i])
    {
      RecordsAgree(w, script, i);
    }
    RecordsSum(r.clients, totals, w.home, k);
  }

  /** The global counters are the sums over the suites. */
  lemma {:induction false} SuitesSum(w: World, script: seq<Delivery>)
    requires Good(w) && Addressed(w, script) && w.run == SumAll(w.suites)
    ensures DeliverAll(w, script).run == SumAll(DeliverAll(w, script).suites)
  {
    if script != [] {
      var init, m := script[..|script| - 1], script[|script| - 1];
      SuitesSum(w, init);
      var before := DeliverAll(w, init);
      SumUpdate(before.suites, seq(|before.suites|, _ => 0), before.home[m.to],
                React(before.clients[m.to], m.data).added, 0);
    }
  }

  // ---- A whole run -------------------------------------------------------------------------------

  /** The messages end in the test's death, which settles it, with one announcement and no late end. */
  predicate Orderly(c: Client, ms: seq<Data>)
    requires Reachable(c.phases)
  {
    && ms != []
    && var n := |ms| - 1;
       && ms[n].Death? && Deathless(ms[..n])
       && Run(c, ms[..n]).announced == 1
       && Run(c, ms[..n]).lateEnds == 0
       && Settles(Run(c, ms[..n]).client.phases, ms[n].result)
  }

  lemma OrderlyIsJudgedOnce(wantSignal: int, wantExit: int, ms: seq<Data>)
    requires Orderly(NewClient(wantSignal, wantExit), ms)
    ensures var n := Run(NewClient(wantSignal, wantExit), ms).total; n.nbTests == 1 == Verdicts(n)
  {
    var n := |ms| - 1;
    assert ms[..n] + [Death(ms[n].result, ms[n].status)] == ms;
    OneVerdictExactly(wantSignal, wantExit, ms[..n], ms[n].result, ms[n].status);
  }

  lemma {:induction false} OnesSum(totals: seq<Counters>)
    requires forall i :: 0 <= i < |totals| ==> totals[i].nbTests == 1 == Verdicts(totals[i])
    ensures SumAll(totals).nbTests == |totals| == Verdicts(SumAll(totals))
  {
    if totals != [] {
      OnesSum(totals[..|totals| - 1]);
    }
  }

  /**
    One verdict per test over a whole run: when every client's own messages are orderly, the run
    counts every test once, and passed, failed and skipped add up to the number of tests.
   */
  lemma EveryTestJudgedOnce(w: World, script: seq<Delivery>)
    requires Fresh(w) && Addressed(w, script) && w.suites != []
    requires forall i :: 0 <= i < |w.clients| ==> Orderly(w.clients[i], Inbox(script, i))
    ensures var r := DeliverAll(w, script); r.run.nbTests == |w.clients| == Verdicts(r.run)
  {
    InterleavingAddsUp(w, script, 0);
    var totals := Totals(w, script);
    forall i | 0 <= i < |totals|
      ensures totals[i].nbTests == 1 == Verdicts(totals[i])
    {
      OrderlyIsJudgedOnce(w.clients[i].test.wantSignal, w.clients[i].test.wantExit, Inbox(script, i));
    }
    OnesSum(totals);
  }
}
