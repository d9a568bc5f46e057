/**
  What every step of a run conserves: the run's counters are the sum of the suites', each suite's
  assert totals those of its tests' records, crashes are failures, and every client is what its own
  messages made it.
 */
module Conservation {
  import opened Phases
  import opened Stats
  import opened Protocol
  import opened Books
  import opened History

  /**
    The suites' assert totals are those of their tests, the run is the sum of the suites, crashes are failures,
    and clients and run are as the messages made them.
   */
  predicate Conserved(w: World)
    requires Good(w)
  {
    w.run == SumAll(w.suites) && ConservedUpTo(w, |w.suites|) && Told(w)
  }

  /** The first `n` suites. Sealed, to be unfolded on request. */
  predicate ConservedUpTo(w: World, n: nat)
    requires Good(w) && n <= |w.suites|
    decreases n, 2
  {
    ConservedUpToSealed(w, n)
  }

  predicate ConservedUpToSealed(w: World, n: nat)
    requires Good(w) && n <= |w.suites|
    decreases n, 1
  {
    ConservedUpToStep(w, n)
  }

  predicate ConservedUpToStep(w: World, n: nat)
    requires Good(w) && n <= |w.suites|
    decreases n, 0
  {
    n == 0 || (ConservedUpTo(w, n - 1) && SuiteConserved(w, n - 1))
  }

  lemma {:induction false} EachSuite(w: World, n: nat)
    requires Good(w) && n <= |w.suites|
    ensures ConservedUpTo(w, n) <==> forall k :: 0 <= k < n ==> SuiteConserved(w, k)
  {
    assert ConservedUpToSealed(w, n) <==> ConservedUpToStep(w, n);
    if n > 0 {
      EachSuite(w, n - 1);
    }
  }

  predicate SuiteConserved(w: World, k: nat)
    requires Good(w) && k < |w.suites|
  {
    && w.suites[k].assertsPassed == SumWhere(w.clients, w.home, k, false)
    && w.suites[k].assertsFailed == SumWhere(w.clients, w.home, k, true)
    && w.suites[k].testsCrashed <= w.suites[k].testsFailed
  }

  /** What is added to the counters is added to the record, and a crash comes only with a failure. */
  predicate Adds(t: TestView, t': TestView, n: Counters) {
    && t'.passedAsserts == t.passedAsserts + n.assertsPassed
    && t'.failedAsserts == t.failedAsserts + n.assertsFailed
    && n.testsCrashed <= n.testsFailed
  }

  lemma EventAdds(t: TestView, e: Event)
    ensures Adds(t, TestAfter(t, e), Added(t, e))
  {
  }

  lemma EventsAdd(t: TestView, es: Events)
    ensures Adds(t, TestAfterAll(t, es), AddedByAll(t, es))
  {
    if !es.Nothing? {
      EventAdds(t, es.first);
      if es.Two? {
        EventAdds(TestAfter(t, es.first), es.second);
      }
    }
  }

  lemma ReactAdds(c: Client, d: Data)
    requires Reachable(c.phases)
    ensures Adds(c.test, React(c, d).client.test, React(c, d).added)
  {
    var st := c.phases;
    match d
    case PhaseChange(kind) => EventsAdd(Noted(st, c.test, kind), PhaseEvents(st, kind));
    case Death(result, status) =>
      var noted := DeathNoted(st, c.test, result, status);
      EventsAdd(noted, DeathEvents(st, noted, result));
    case AssertDone(passed) => EventsAdd(c.test, One(Assert(passed)));
    case _ =>
  }

  lemma {:induction false} SumWhereUpdate(clients: seq<Client>, home: seq<nat>, i: nat, c: Client, k: nat)
    requires |clients| == |home| && i < |clients|
    requires c.test.passedAsserts >= clients[i].test.passedAsserts
    requires c.test.failedAsserts >= clients[i].test.failedAsserts
    ensures SumWhere(clients[i := c], home, k, false) ==
            SumWhere(clients, home, k, false) +
            if home[i] == k then c.test.passedAsserts - clients[i].test.passedAsserts else 0
    ensures SumWhere(clients[i := c], home, k, true) ==
            SumWhere(clients, home, k, true) +
            if home[i] == k then c.test.failedAsserts - clients[i].test.failedAsserts else 0
  {
    var n := |clients| - 1;
    if i < n {
      SumWhereUpdate(clients[..n], home[..n], i, c, k);
      assert clients[i := c][..n] == clients[..n][i := c];
    } else {
      assert clients[i := c][..n] == clients[..n];
    }
  }

  lemma DeliverConserves(w: World, m: Delivery)
    requires Good(w) && m.to < |w.clients| && Conserved(w)
    ensures Conserved(Deliver(w, m))
  {
    DeliverTold(w, m);
    EachSuite(w, |w.suites|);
    EachSuite(Deliver(w, m), |w.suites|);
    var r := React(w.clients[m.to], m.data);
    var w' := Deliver(w, m);
    ReactAdds(w.clients[m.to], m.data);
    SumUpdate(w.suites, seq(|w.suites|, _ => 0), w.home[m.to], r.added, 0);
    forall k | 0 <= k < |w.suites|
      ensures SuiteConserved(w', k)
    {
      assert SuiteConserved(w, k);
      SumWhereUpdate(w.clients, w.home, m.to, r.client, k);
    }
  }

  lemma JoinConserves(w: World, c: Client, k: nat)
    requires Good(w) && k < |w.suites| && Conserved(w) && c == Born(c)
    ensures Conserved(Joined(w, c, k))
  {
    JoinTold(w, c, k);
    EachSuite(w, |w.suites|);
    EachSuite(Joined(w, c, k), |w.suites|);
    var w' := Joined(w, c, k);
    forall j | 0 <= j < |w.suites|
      ensures SuiteConserved(w', j)
    {
      assert SuiteConserved(w, j);
      assert w'.clients[..|w.clients|] == w.clients && w'.home[..|w.home|] == w.home;
    }
  }

  /** A suite opens, empty. */
  function Opened(w: World): (r: World)
    requires Good(w)
    ensures Good(r)
  {
    w.(suites := w.suites + [Zero()])
  }

  lemma {:induction false} NoneAtHome(clients: seq<Client>, home: seq<nat>, k: nat, failed: bool)
    requires |clients| == |home| && forall i :: 0 <= i < |home| ==> home[i] != k
    ensures SumWhere(clients, home, k, failed) == 0
  {
    if clients != [] {
      NoneAtHome(clients[..|clients| - 1], home[..|home| - 1], k, failed);
    }
  }

  lemma OpenConserves(w: World)
    requires Good(w) && Conserved(w)
    ensures Conserved(Opened(w))
  {
    NoSkips(w.run);
    SkipsTold(w, Opened(w), 0);
    EachSuite(w, |w.suites|);
    EachSuite(Opened(w), |w.suites| + 1);
    var w' := Opened(w);
    var n := |w.suites|;
    assert w'.suites[..n] == w.suites;
    AddNothing(w.run, Zero());
    NoneAtHome(w.clients, w.home, n, false);
    NoneAtHome(w.clients, w.home, n, true);
    forall k | 0 <= k <= n
      ensures SuiteConserved(w', k)
    {
      assert k < n ==> SuiteConserved(w, k);
    }
  }

  /** A disabled test of suite `k` is passed over. */
  function PassedOver(w: World, k: nat): (r: World)
    requires Good(w) && k < |w.suites|
    ensures Good(r)
  {
    w.(suites := w.suites[k := Add(w.suites[k], SkipCounts(1))],
       run := Add(w.run, SkipCounts(1)),
       skips := w.skips + 1)
  }

  lemma PassingOverConserves(w: World, k: nat)
    requires Good(w) && k < |w.suites| && Conserved(w)
    ensures Conserved(PassedOver(w, k))
  {
    SkipsTold(w, PassedOver(w, k), 1);
    EachSuite(w, |w.suites|);
    EachSuite(PassedOver(w, k), |w.suites|);
    SumUpdate(w.suites, seq(|w.suites|, _ => 0), k, SkipCounts(1), 0);
    forall j | 0 <= j < |w.suites|
      ensures SuiteConserved(PassedOver(w, k), j)
    {
      assert SuiteConserved(w, j);
    }
  }

  lemma AddNothing(n: Counters, z: Counters)
    requires z == Zero()
    ensures Add(n, z) == n
  {
  }

  /** A rejected message is a delivery that is noted and changes nothing. */
  lemma RejectedDelivery(w: World, m: Delivery)
    requires Good(w) && m.to < |w.clients| && !React(w.clients[m.to], m.data).ok
    ensures Deliver(w, m) == w.(heard := w.heard + [m])
  {
    AddNothing(w.run, React(w.clients[m.to], m.data).added);
    AddNothing(w.suites[w.home[m.to]], React(w.clients[m.to], m.data).added);
    assert w.clients[m.to := w.clients[m.to]] == w.clients;
  }

  lemma NothingAdded(w: World, z: Counters)
    requires z == Zero()
    ensures AddedByFirst(w, 0) == z && z.assertsPassed == z.assertsFailed == z.testsCrashed == z.testsFailed == 0
  {
  }

  lemma NoClientsConserved(w: World)
    requires Good(w) && w.clients == [] && |w.suites| == 1
    requires var n := w.suites[0]; n.assertsPassed == n.assertsFailed == n.testsCrashed == n.testsFailed == 0
    ensures ConservedUpTo(w, 1)
  {
    EachSuite(w, 1);
  }

  lemma OneSuiteSum(w: World)
    requires |w.suites| == 1 && w.suites[0] == w.run
    ensures SumAll(w.suites) == w.run
  {
    assert w.suites[..0] == [];
    FromZero(SumAll(w.suites[..0]), w.run);
  }

  lemma NothingTold(w: World)
    requires w.clients == [] && w.heard == [] && w.skips == 0 && w.run == AddedByFirst(w, 0)
    ensures Told(w)
  {
    EachTold(w, 0);
    NoSkips(w.run);
  }

  lemma NothingConserved(w: World)
    requires Good(w) && w.clients == [] && w.heard == [] && w.skips == 0 && w.run == AddedByFirst(w, 0)
    requires |w.suites| == 1 && w.suites[0] == w.run
    requires var n := w.run; n.assertsPassed == n.assertsFailed == n.testsCrashed == n.testsFailed == 0
    ensures Conserved(w)
  {
    NothingTold(w);
    OneSuiteSum(w);
    NoClientsConserved(w);
  }

  /** Before anything has happened: one suite, that of the external clients, and nothing counted. */
  lemma EmptyExists(base: Counters, first: Counters) returns (w: World)
    requires first == Zero()
    ensures Good(w) && Conserved(w) && Add(base, w.run) == base
    ensures w.clients == [] && w.suites == [first] && w.heard == [] && w.skips == 0
  {
    w := NewWorld(first);
    NothingAdded(w, first);
    AddNothing(base, first);
    NothingConserved(w);
  }

  lemma NewWorld(first: Counters) returns (w: World)
    ensures Good(w) && w.clients == [] && w.suites == [first] && w.run == first && w.heard == [] && w.skips == 0
  {
    w := World([], [], [first], first, [], 0);
  }

  // ---- What starting tests does to the world ------------------------------------------------------

  /** A suite starts, or a disabled test of the last suite started is passed over. */
  datatype Shift = Starts | Passes

  function Shifted(w: World, m: Shift): (r: World)
    requires Good(w) && w.suites != []
    ensures Good(r) && r.suites != []
  {
    match m
    case Starts => Opened(w)
    case Passes => PassedOver(w, |w.suites| - 1)
  }

  /** More moves, oldest first. The step is two calls down, so that proofs unfold it only on request. */
  function Applied(w: World, ms: seq<Shift>): (r: World)
    requires Good(w) && w.suites != []
    ensures Good(r) && r.suites != [] && (ms == [] ==> r == w)
    decreases ms, 2
  {
    AppliedSealed(w, ms)
  }

  function AppliedSealed(w: World, ms: seq<Shift>): (r: World)
    requires Good(w) && w.suites != []
    ensures Good(r) && r.suites != [] && (ms == [] ==> r == w)
    decreases ms, 1
  {
    AppliedStep(w, ms)
  }

  function AppliedStep(w: World, ms: seq<Shift>): (r: World)
    requires Good(w) && w.suites != []
    ensures Good(r) && r.suites != [] && (ms == [] ==> r == w)
    decreases ms, 0
  {
    if ms == [] then w else Shifted(Applied(w, ms[..|ms| - 1]), ms[|ms| - 1])
  }

  lemma AppliedUnfold(w: World, ms: seq<Shift>)
    requires Good(w) && w.suites != []
    ensures Applied(w, ms) == AppliedStep(w, ms)
  {
    assert AppliedSealed(w, ms) == AppliedStep(w, ms);
  }

  lemma AppliedOne(w: World, m: Shift)
    requires Good(w) && w.suites != []
    ensures Applied(w, [m]) == Shifted(w, m) && PassesIn([m]) == if m == Passes then 1 else 0
  {
    AppliedUnfold(w, [m]);
    assert [m][..0] == [];
  }

  lemma {:induction false} AppliedBoth(w: World, a: seq<Shift>, b: seq<Shift>)
    requires Good(w) && w.suites != []
    ensures Applied(w, a + b) == Applied(Applied(w, a), b) && PassesIn(a + b) == PassesIn(a) + PassesIn(b)
  {
    if b == [] {
      assert a + b == a;
    } else {
      var n := |b| - 1;
      AppliedBoth(w, a, b[..n]);
      AppliedUnfold(w, a + b);
      AppliedUnfold(Applied(w, a), b);
      assert (a + b)[..|a + b| - 1] == a + b[..n];
    }
  }

  /** The tests passed over. */
  function PassesIn(ms: seq<Shift>): nat {
    if ms == [] then 0 else PassesIn(ms[..|ms| - 1]) + if ms[|ms| - 1] == Passes then 1 else 0
  }

  /** Moves conserve, move no client, and add to the run what was passed over. */
  lemma {:induction false} MovesConserve(w: World, ms: seq<Shift>)
    requires Good(w) && w.suites != []
    ensures var r := Applied(w, ms);
            && r.clients == w.clients && r.home == w.home && |w.suites| <= |r.suites|
            && r.run == Add(w.run, SkipCounts(PassesIn(ms)))
            && r.heard == w.heard && r.skips == w.skips + PassesIn(ms)
            && (Conserved(w) ==> Conserved(r))
  {
    AppliedUnfold(w, ms);
    if ms == [] {
      NoSkips(w.run);
    } else {
      var n := |ms| - 1;
      MovesConserve(w, ms[..n]);
      if Conserved(w) {
        MoveConserves(Applied(w, ms[..n]), ms[n]);
      }
      if ms[n] == Passes {
        SkipsAdd(w.run, PassesIn(ms[..n]), 1);
      }
    }
  }

  lemma MoveConserves(w: World, m: Shift)
    requires Good(w) && w.suites != [] && Conserved(w)
    ensures Conserved(Shifted(w, m))
  {
    match m
    case Starts => OpenConserves(w);
    case Passes => PassingOverConserves(w, |w.suites| - 1);
  }
}
