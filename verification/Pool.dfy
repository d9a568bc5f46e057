/**
  The runner: a bounded pool of workers fed by the coroutine, driven by the messages received.
 */
module Pool {
  import opened Phases
  import opened Stats
  import opened Protocol
  import opened Client
  import opened Server
  import opened Books
  import opened History
  import opened Conservation
  import opened Accounts
  import opened Coroutine

  // ---- The books of the pool --------------------------------------------------------------------

  /** What was to be started and what is left of it; what was started, runs under which pid, or was reaped. */
  datatype Book = Book(
    all: seq<Instance>, left: seq<Instance>, spawned: seq<Instance>,
    running: map<int, nat>, reaped: set<nat>,
    active: nat, max: nat)

  /** The books balance, with `free` slots counted active though their worker is gone. */
  ghost predicate Balanced(b: Book, free: nat) {
    && b.spawned + b.left == b.all
    && |b.running| + free == b.active <= b.max
    && |b.reaped| + |b.running| == |b.spawned|
    && (forall p :: p in b.running ==> b.running[p] < |b.spawned| && b.running[p] !in b.reaped)
    && (forall p, q :: p in b.running && q in b.running && b.running[p] == b.running[q] ==> p == q)
    && (forall k :: k in b.reaped ==> k < |b.spawned|)
    && (forall k: nat :: k < |b.spawned| && k !in b.reaped ==> exists p :: p in b.running && b.running[p] == k)
  }

  /** Slots stand empty only when nothing is left to start. */
  ghost predicate Busy(b: Book) {
    b.active < b.max ==> b.left == []
  }

  function Started(b: Book, pid: int): Book
    requires b.left != []
  {
    Placed(b.(left := b.left[1..]), b.left[0], pid)
  }

  /** The instance drawn runs under the pid. */
  function Placed(b: Book, inst: Instance, pid: int): Book {
    b.(spawned := b.spawned + [inst], running := b.running[pid := |b.spawned|])
  }

  function Reaped(b: Book, pid: int): Book
    requires pid in b.running
  {
    b.(running := b.running - {pid}, reaped := b.reaped + {b.running[pid]})
  }

  /** A free slot takes the next instance, under a pid nobody has. */
  lemma StartBalances(b: Book, pid: int, free: nat)
    requires Balanced(b, free) && free > 0 && b.left != [] && pid !in b.running
    ensures Balanced(Started(b, pid), free - 1)
  {
    var r := Started(b, pid);
    assert |r.running| == |b.running| + 1;
    forall k: nat | k < |r.spawned| && k !in r.reaped
      ensures exists p :: p in r.running && r.running[p] == k
    {
      if k == |b.spawned| {
        assert r.running[pid] == k;
      } else {
        var p :| p in b.running && b.running[p] == k;
        assert p in r.running && r.running[p] == k;
      }
    }
  }

  /** One more slot is active. */
  function Widened(b: Book): Book {
    b.(active := b.active + 1)
  }

  /** A slot is given up. */
  function Narrowed(b: Book): Book
    requires b.active > 0
  {
    b.(active := b.active - 1)
  }

  lemma StartInNewSlot(b: Book, pid: int)
    requires Balanced(b, 0) && b.active < b.max && b.left != [] && pid !in b.running
    ensures Balanced(Widened(Started(b, pid)), 0)
  {
    StartBalances(b.(active := b.active + 1), pid, 1);
  }

  /** A dead worker is reaped, which it was not before; its slot is free. */
  lemma ReapBalances(b: Book, pid: int, free: nat)
    requires Balanced(b, free) && pid in b.running
    ensures Balanced(Reaped(b, pid), free + 1) && b.running[pid] !in b.reaped
    ensures |Reaped(b, pid).reaped| == |b.reaped| + 1
  {
    var r := Reaped(b, pid);
    assert r.running.Keys == b.running.Keys - {pid};
    assert |r.running| == |b.running| - 1;
    forall k: nat | k < |r.spawned| && k !in r.reaped
      ensures exists p :: p in r.running && r.running[p] == k
    {
      var p :| p in b.running && b.running[p] == k;
      assert p in r.running && r.running[p] == k;
    }
  }

  /** Instances not started yet, and active workers. */
  function Pending(b: Book): nat {
    |b.left| + b.active
  }

  /** A worker is reaped; the next instance, if any, takes its slot, or the slot is given up. */
  function Replaced(b: Book, pid: int, next: int): Book
    requires pid in b.running && b.active > 0
  {
    var r := Reaped(b, pid);
    if b.left == [] then Narrowed(r) else Started(r, next)
  }

  lemma ReplaceBalances(b: Book, pid: int, next: int)
    requires Balanced(b, 0) && Busy(b) && pid in b.running && b.active > 0
    requires b.left != [] ==> next !in b.running - {pid}
    ensures Balanced(Replaced(b, pid, next), 0) && Busy(Replaced(b, pid, next))
    ensures Pending(Replaced(b, pid, next)) == Pending(b) - 1
  {
    ReapBalances(b, pid, 0);
    if b.left != [] {
      StartBalances(Reaped(b, pid), next, 1);
    }
  }

  ghost predicate UpTo(s: set<nat>, n: nat) {
    forall k: nat :: k in s <==> k < n
  }

  /** With nobody running and nothing left, everything was started, and every one of them was reaped. */
  lemma EmptyPoolIsDone(b: Book)
    requires Balanced(b, 0) && b.active == 0 && b.left == []
    ensures b.spawned == b.all && UpTo(b.reaped, |b.all|)
  {
  }

  /** Unstarted instances plus active workers are what has not been reaped. */
  lemma Progress(b: Book)
    requires Balanced(b, 0)
    ensures Pending(b) == |b.all| - |b.reaped|
  {
  }

  /** The book of a run that has not begun. */
  function Unstarted(tests: TestSet, nbWorkers: nat): Book {
    Book(All(tests).list, All(tests).list, [], map[], {}, 0, nbWorkers)
  }

  lemma {:induction false} BoundExists(live: set<int>) returns (bound: int)
    ensures forall p :: p in live ==> p < bound
  {
    bound := 0;
    if p :| p in live {
      bound := BoundExists(live - {p});
      bound := if p < bound then bound else p + 1;
      assert forall q :: q in live ==> q == p || q in live - {p};
    }
  }

  lemma FreePid(live: set<int>)
    ensures exists pid :: pid !in live
  {
    var bound := BoundExists(live);
    assert bound !in live;
  }

  /** The messages noted are those of the inbox, in order, the ones from nobody left out. */
  ghost predicate TakenFrom(heard: seq<Delivery>, inbox: seq<Message>) {
    if inbox == [] then heard == []
    else
      var init, n := inbox[..|inbox| - 1], |heard| - 1;
      || TakenFrom(heard, init)
      || (heard != [] && heard[n].data == inbox[|inbox| - 1].data && TakenFrom(heard[..n], init))
  }

  lemma TakenOn(heard: seq<Delivery>, inbox: seq<Message>, used: nat, more: seq<Delivery>, to: nat)
    requires used < |inbox| && TakenFrom(heard, inbox[..used])
    requires more == heard || more == heard + [Delivery(to, inbox[used].data)]
    ensures TakenFrom(more, inbox[..used + 1])
  {
    assert inbox[..used + 1][..used] == inbox[..used];
    if more != heard {
      assert more[..|more| - 1] == heard;
    }
  }

  /** The entry is that of an instance's worker: in the suite of its test, with what its author declared. */
  predicate Suits(tests: TestSet, e: Entry, x: Instance) {
    && x.suite < |tests| && tests[x.suite].tests.Some? && x.test < |tests[x.suite].tests.value|
    && var test, sets := tests[x.suite].tests.value[x.test], SetsBefore(tests, |tests|);
       && e.wantSignal == test.wantSignal && e.wantExit == test.wantExit
       && 0 < e.home <= |sets| && sets[e.home - 1] == x.suite
  }

  /** The clients but the external ones are, in order, the workers of the instances started. */
  predicate Staffed(tests: TestSet, entries: seq<Entry>, spawned: seq<Instance>) {
    if entries == [] then spawned == []
    else
      var n, m := |entries| - 1, |spawned| - 1;
      if entries[n].home == 0 then Staffed(tests, entries[..n], spawned)
      else spawned != [] && Staffed(tests, entries[..n], spawned[..m]) && Suits(tests, entries[n], spawned[m])
  }

  lemma StaffedOn(tests: TestSet, entries: seq<Entry>, spawned: seq<Instance>, e: Entry, x: Instance)
    requires Suits(tests, e, x)
    ensures Staffed(tests, entries, spawned) ==> Staffed(tests, entries + [e], spawned + [x])
  {
    assert (entries + [e])[..|entries|] == entries && (spawned + [x])[..|spawned|] == spawned;
  }

  lemma StaffedBeside(tests: TestSet, entries: seq<Entry>, spawned: seq<Instance>, e: Entry)
    requires e.home == 0
    ensures Staffed(tests, entries + [e], spawned) <==> Staffed(tests, entries, spawned)
  {
    assert (entries + [e])[..|entries|] == entries;
  }

  lemma {:induction false} StaffCounts(tests: TestSet, entries: seq<Entry>, spawned: seq<Instance>)
    requires Staffed(tests, entries, spawned)
    ensures |entries| == |spawned| + Externals(entries)
  {
    if entries != [] {
      var n, m := |entries| - 1, |spawned| - 1;
      StaffCounts(tests, entries[..n], if entries[n].home == 0 then spawned else spawned[..m]);
    }
  }

  /** The sets of the first suites come first. */
  lemma {:induction false} SetsFirst(tests: TestSet, n: nat, m: nat)
    requires n <= m <= |tests|
    ensures |SetsBefore(tests, n)| <= |SetsBefore(tests, m)|
    ensures SetsBefore(tests, m)[..|SetsBefore(tests, n)|] == SetsBefore(tests, n)
  {
    if n < m {
      SetsFirst(tests, n, m - 1);
    }
  }

  // ---- The runner -----------------------------------------------------------------------------------

  class Runner {
    const audit: Audit
    const ctx: RunNext
    const tests: TestSet
    const nbWorkers: nat
    var activeWorkers: nat

    /** The statistics are in order: those of the external suite, and of the suites the coroutine started. */
    ghost predicate Audited(w: World)
      reads audit, ctx, audit.server, audit.server.gstats, audit.Contexts(), audit.Records()
      reads set s | s in audit.suites
      reads set s | s in ctx.begun
      reads audit.server.subprocesses.Values, audit.server.clients.Values
    {
      && audit.Kept(w)
      && audit.Lists(ctx.begun)
      && ctx.Booked(w)
    }

    /** The coroutine runs over the tests of this run. */
    ghost predicate Feed()
      reads ctx
    {
      && ctx.Valid()
      && (ctx.stats != null ==> ctx.stats == audit.server.gstats)
      && (ctx.tests.Some? ==> ctx.tests.value == tests)
      && (ctx.Exhausted() ==> Enlisted(ctx.begun, tests, |tests|))
    }

    /** The book speaks of this run: its tests, its slots. */
    ghost predicate Kept(b: Book)
      reads this, audit.server, ctx
    {
      && ctx.Valid()
      && b.all == All(tests).list && b.max == nbWorkers && b.active == activeWorkers
      && b.left == ctx.Remaining()
      && b.running.Keys == audit.server.subprocesses.Keys
    }

    /** The workers of the ledger are of the instances started, and every disabled test was passed over or is ahead. */
    ghost predicate Tallied(w: World, b: Book)
      requires ctx.Valid() && Good(w)
      reads ctx
    {
      && Staffed(tests, Entries(w), b.spawned)
      && w.skips + ctx.Pending().skips == All(tests).skips
    }

    /** With a slot empty, nothing is left to start or to pass over. */
    ghost predicate Spent()
      reads this`activeWorkers, ctx
    {
      activeWorkers < nbWorkers ==> ctx.Exhausted()
    }

    ghost predicate Linked(w: World, b: Book)
      reads this, audit, ctx, audit.server, audit.server.gstats, audit.Contexts(), audit.Records()
      reads set s | s in audit.suites
      reads set s | s in ctx.begun
      reads audit.server.subprocesses.Values, audit.server.clients.Values
    {
      Audited(w) && Feed() && Kept(b)
    }

    /** The statistics are in order, the books balance, and no slot stands empty without need. */
    ghost predicate Valid(w: World, b: Book)
      reads this, audit, ctx, audit.server, audit.server.gstats, audit.Contexts(), audit.Records()
      reads set s | s in audit.suites
      reads set s | s in ctx.begun
      reads audit.server.subprocesses.Values, audit.server.clients.Values
    {
      Linked(w, b) && Balanced(b, 0) && Busy(b) && Tallied(w, b) && Spent()
    }

    constructor (tests: TestSet, stats: GlobalStats, socket: Socket, nbWorkers: nat)
      ensures Feed() && Kept(Unstarted(tests, nbWorkers)) && ctx.Pending() == All(tests)
      ensures audit.Tabled() && ctx.begun == [] && ctx.suiteStats == null && activeWorkers == 0
      ensures audit.suites == [audit.server.externStats] && audit.server.externStats.n == Zero()
      ensures this.tests == tests && this.nbWorkers == nbWorkers
      ensures fresh(audit) && fresh(audit.server) && fresh(ctx) && audit.clients == []
      ensures forall s :: s in audit.suites ==> fresh(s)
      ensures audit.server.gstats == stats && audit.server.socket == socket && audit.base == stats.n
    {
      var ledger := new Audit(socket, stats);
      var coroutine := new RunNext();
      coroutine.Init(tests, stats);
      audit, ctx, this.tests, this.nbWorkers := ledger, coroutine, tests, nbWorkers;
      activeWorkers := 0;
    }

    /** Nothing has happened yet. */
    lemma Begins() returns (w: World)
      requires audit.Tabled() && ctx.begun == [] && ctx.suiteStats == null && audit.clients == []
      requires audit.suites == [audit.server.externStats] && audit.server.externStats.n == Zero()
      requires audit.base == audit.server.gstats.n && ctx.Valid() && ctx.Pending() == All(tests)
      ensures Audited(w) && Tallied(w, Unstarted(tests, nbWorkers)) && w.heard == []
    {
      w := EmptyExists(audit.base, audit.server.externStats.n);
      audit.Begins(w);
    }

    /** The coroutine's next instance; what it did to the statistics is still to be entered. */
    method Draw(ghost w: World) returns (inst: Option<Instance>, ghost ms: seq<Shift>)
      requires Audited(w) && Feed()
      modifies ctx, audit.server.gstats, ctx.suiteStats
      ensures unchanged(audit.server.socket)
      ensures Feed() && ctx.Led(w, ms) && ctx.Started()
      ensures audit.Tabled() && unchanged(audit) && unchanged(audit.server.externStats)
      ensures audit.Mirrors(w) && audit.server.externStats !in ctx.begun
      ensures audit.server.gstats.n == Add(old(audit.server.gstats.n), SkipCounts(PassesIn(ms)))
      ensures old(ctx.Remaining()) == [] ==> inst == None && ctx.Remaining() == []
      ensures old(ctx.Remaining()) != [] ==>
                && inst == Some(old(ctx.Remaining())[0]) && ctx.Remaining() == old(ctx.Remaining())[1..]
                && ctx.At(inst.value)
      ensures PassesIn(ms) == old(ctx.Pending().skips) - ctx.Pending().skips
      ensures (inst == None ==> ctx.Exhausted()) && (old(ctx.Exhausted()) ==> ctx.Exhausted())
    {
      CurrentNotExternal(w);
      inst, ms := ctx.Next(w);
    }

    /** The next instance, with the suites started and the tests passed over on the way. */
    method Fetch(ghost w: World) returns (inst: Option<Instance>, ghost r: World)
      requires Audited(w) && Feed()
      modifies audit`suites, ctx, audit.server.gstats, ctx.suiteStats
      ensures unchanged(audit.server.socket)
      ensures Audited(r) && Feed() && audit.Grown()
      ensures old(ctx.Remaining()) == [] ==> inst == None && ctx.Remaining() == []
      ensures old(ctx.Remaining()) != [] ==>
                && inst == Some(old(ctx.Remaining())[0]) && ctx.Remaining() == old(ctx.Remaining())[1..]
                && ctx.At(inst.value)
      ensures Entries(r) == Entries(w) && r.heard == w.heard
      ensures r.skips + ctx.Pending().skips == w.skips + old(ctx.Pending().skips)
      ensures (inst == None ==> ctx.Exhausted()) && (old(ctx.Exhausted()) ==> ctx.Exhausted())
    {
      ghost var ms;
      inst, ms := Draw(w);
      r := Applied(w, ms);
      MovesConserve(w, ms);
      AddRules(audit.base, w.run, SkipCounts(PassesIn(ms)));
      forall k | 0 < k < |audit.suites|
        ensures audit.suites[k] == ctx.begun[k - 1]
      {
        assert audit.suites[k] == ctx.begun[..|old(ctx.begun)|][k - 1];
      }
      audit.Relist(ctx.begun, w, r);
      Relisted();
    }

    twostate lemma Relisted()
      requires old(audit.Lists(ctx.begun)) && audit.Lists(ctx.begun) && ctx.Started()
      requires audit.clients == old(audit.clients)
      ensures audit.Grown()
    {
      forall s | s in audit.suites
        ensures s in old(audit.suites) || fresh(s)
      {
        var k :| 0 <= k < |audit.suites| && audit.suites[k] == s;
        if k > 0 && ctx.begun[k - 1] in old(ctx.begun) {
          var j :| 0 <= j < |old(ctx.begun)| && old(ctx.begun)[j] == s;
          assert old(audit.suites)[j + 1] == s;
        }
      }
    }

    lemma CurrentNotExternal(w: World)
      requires Audited(w)
      ensures ctx.suiteStats != null ==> ctx.suiteStats != audit.server.externStats && ctx.suiteStats in audit.suites
    {
      if ctx.suiteStats != null {
        assert audit.suites[|audit.suites| - 1] == ctx.suiteStats && audit.suites[0] == audit.server.externStats;
      }
    }

    lemma CurrentAt(w: World) returns (k: nat)
      requires Audited(w) && ctx.suiteStats != null
      ensures 0 < k < |audit.suites| && ctx.suiteStats == audit.suites[k] && k == |ctx.begun|
    {
      k := |audit.suites| - 1;
    }

    /** Takes the next instance from the coroutine and registers its worker, under a pid no worker has. */
    method SpawnNextClient(ghost w: World, ghost b: Book) returns (c: ClientCtx?, ghost r: World, ghost k: Book)
      requires Linked(w, b)
      modifies audit`suites, audit`clients, ctx, audit.server`subprocesses, audit.server.gstats
      modifies ctx.suiteStats
      ensures unchanged(audit.server.socket)
      ensures if c == null then b.left == [] && k == b
              else b.left != [] && c.pid !in b.running && k == Started(b, c.pid) && Fits(c, b.left[0])
      ensures Linked(r, k) && audit.Grown() && r.heard == w.heard && (old(Tallied(w, b)) ==> Tallied(r, k))
      ensures (c == null ==> ctx.Exhausted()) && (old(ctx.Exhausted()) ==> ctx.Exhausted())
    {
      var inst;
      inst, r := Fetch(w);
      if inst == None {
        return null, r, b;
      }
      c, r, k := Place(inst.value, r, b.(left := b.left[1..]));
    }

    /** The instance drawn is started and entered in the book too. */
    method Place(inst: Instance, ghost w: World, ghost b: Book) returns (c: ClientCtx, ghost r: World, ghost k: Book)
      requires Linked(w, b) && ctx.At(inst)
      modifies audit`clients, audit.server`subprocesses
      ensures unchanged(audit.server.socket)
      ensures c.pid !in b.running && k == Placed(b, inst, c.pid) && Fits(c, inst)
      ensures Linked(r, k) && audit.Grown() && ctx.Pending() == old(ctx.Pending())
      ensures Staffed(tests, Entries(w), b.spawned) ==> Staffed(tests, Entries(r), k.spawned)
      ensures r.skips == w.skips && r.heard == w.heard
    {
      ghost var table, e := audit.server.subprocesses, Entry(0, 0, 0);
      c, r, e := Register(inst, w);
      k := Entered(b, inst, table, c);
      StaffedOn(tests, Entries(w), b.spawned, e, inst);
    }

    lemma Entered(b: Book, inst: Instance, table: map<int, ClientCtx>, c: ClientCtx) returns (k: Book)
      requires ctx.Valid() && b.all == All(tests).list && b.max == nbWorkers && b.active == activeWorkers
      requires b.left == ctx.Remaining()
      requires table.Keys == b.running.Keys && audit.server.subprocesses == table[c.pid := c]
      ensures k == Placed(b, inst, c.pid) && Kept(k) && k.spawned == b.spawned + [inst]
    {
      k := Placed(b, inst, c.pid);
    }

    /** The client is a worker of the instance: unheard of, with what its test's author declared, in its suite. */
    ghost predicate Fits(c: ClientCtx, inst: Instance)
      reads c, c.tstats
    {
      && inst.suite < |tests| && tests[inst.suite].tests.Some? && inst.test < |tests[inst.suite].tests.value|
      && var test := tests[inst.suite].tests.value[inst.test];
         c.View() == NewClient(test.wantSignal, test.wantExit) && c.sstats.suite == inst.suite
    }

    /** Starts a process for the instance, in the suite the coroutine is at, and enters it. */
    method Register(inst: Instance, ghost w: World) returns (c: ClientCtx, ghost r: World, ghost e: Entry)
      requires Audited(w) && Feed() && ctx.At(inst)
      modifies audit`clients, audit.server`subprocesses
      ensures unchanged(audit.server.socket)
      ensures unchanged(ctx) && Feed() && ctx.Pending() == old(ctx.Pending())
      ensures Audited(r) && audit.Grown() && Fits(c, inst)
      ensures Entries(r) == Entries(w) + [e] && Suits(tests, e, inst) && r.skips == w.skips && r.heard == w.heard
      ensures c.pid !in old(audit.server.subprocesses)
      ensures audit.server.subprocesses == old(audit.server.subprocesses)[c.pid := c]
    {
      ghost var k := CurrentAt(w);
      var test := tests[inst.suite].tests.value[inst.test];
      e := NewEntry(inst, k);
      // The system starts the process under a pid that no live child has.
      FreePid(audit.server.subprocesses.Keys);
      var pid :| pid !in audit.server.subprocesses.Keys;
      c, r := audit.SpawnOne(ctx.suiteStats, pid, test.wantSignal, test.wantExit, w, k);
      assert unchanged(ctx);
      Rebooked(r);
    }

    /** The entry of the instance the coroutine is at. */
    lemma NewEntry(inst: Instance, k: nat) returns (e: Entry)
      requires Feed() && ctx.At(inst) && k == |ctx.begun| > 0
      ensures var test := tests[inst.suite].tests.value[inst.test]; e == Entry(k, test.wantSignal, test.wantExit)
      ensures Suits(tests, e, inst)
    {
      var test := tests[inst.suite].tests.value[inst.test];
      e := Entry(k, test.wantSignal, test.wantExit);
      SetsFirst(tests, inst.suite + 1, |tests|);
      EnlistedSets(ctx.begun, tests, inst.suite + 1);
      assert SetsBefore(tests, inst.suite + 1)[k - 1] == inst.suite;
      assert SetsBefore(tests, |tests|)[..k][k - 1] == inst.suite;
    }

    /** The first workers, one a slot, for as long as there are instances. */
    method Fill(ghost w: World, ghost b: Book) returns (ghost r: World, ghost k: Book)
      requires Linked(w, b) && Balanced(b, 0) && Tallied(w, b) && activeWorkers == 0
      modifies this`activeWorkers, audit`suites, audit`clients, ctx, audit.server`subprocesses, audit.server.gstats
      modifies set s | s in audit.suites
      ensures Valid(r, k) && audit.Grown() && r.heard == w.heard
    {
      r, k := w, b;
      for i := 0 to nbWorkers
        invariant Linked(r, k) && Balanced(k, 0) && Tallied(r, k) && activeWorkers == i && audit.Grown()
        invariant r.heard == w.heard
      {
        var more;
        more, r, k := FillSlot(r, k);
        if !more {
          break;
        }
      }
    }

    /** One more worker, in a slot of its own. */
    method FillSlot(ghost w: World, ghost b: Book) returns (more: bool, ghost r: World, ghost k: Book)
      requires Linked(w, b) && Balanced(b, 0) && Tallied(w, b) && activeWorkers < nbWorkers
      modifies this`activeWorkers, audit`suites, audit`clients, ctx, audit.server`subprocesses, audit.server.gstats
      modifies ctx.suiteStats
      ensures Linked(r, k) && Balanced(k, 0) && Tallied(r, k) && audit.Grown() && r.heard == w.heard
      ensures if more then activeWorkers == old(activeWorkers) + 1
              else activeWorkers == old(activeWorkers) && k.left == [] && ctx.Exhausted()
    {
      ghost var pid;
      more, pid, r, k := OpenSlot(w, b);
      if more {
        StartInNewSlot(b, pid);
      }
    }

    method OpenSlot(ghost w: World, ghost b: Book)
      returns (more: bool, ghost pid: int, ghost r: World, ghost k: Book)
      requires Linked(w, b)
      modifies this`activeWorkers, audit`suites, audit`clients, ctx, audit.server`subprocesses, audit.server.gstats
      modifies ctx.suiteStats
      ensures Linked(r, k) && audit.Grown() && (old(Tallied(w, b)) ==> Tallied(r, k)) && r.heard == w.heard
      ensures if more then activeWorkers == old(activeWorkers) + 1
              else activeWorkers == old(activeWorkers) && k.left == [] && ctx.Exhausted()
      ensures if more then b.left != [] && pid !in b.running && k == Widened(Started(b, pid))
              else k == b
    {
      var c;
      c, r, k := SpawnNextClient(w, b);
      more, pid := c != null, 0;
      if more {
        pid := c.pid;
        k := TakeSlot(r, k);
      }
    }

    method TakeSlot(ghost w: World, ghost b: Book) returns (ghost k: Book)
      requires Linked(w, b)
      modifies this`activeWorkers
      ensures Linked(w, k) && activeWorkers == old(activeWorkers) + 1
      ensures k == Widened(b)
    {
      activeWorkers := activeWorkers + 1;
      k := Widened(b);
    }

    /** The message is answered, and noted; its sender, if it is a worker and not alive after it, is to be replaced. */
    method Hear(msg: Message, ghost w: World, ghost b: Book)
      returns (client: ClientCtx?, ended: bool, ghost to: nat, ghost r: World)
      requires Linked(w, b) && !audit.server.Faults(msg)
      modifies audit`clients, audit.server`clients, audit.server.socket, audit.server.gstats
      modifies audit.Contexts(), audit.Records(), set s | s in audit.suites
      ensures unchanged(ctx) && Linked(r, b) && audit.Grown()
      ensures (old(Tallied(w, b)) ==> Tallied(r, b)) && (old(Spent()) ==> Spent())
      ensures Audit.Noted(w, r, client, to, msg.data)
      ensures audit.server.socket.acks == old(audit.server.socket.acks) + [old(audit.server.Accepted(msg))]
      ensures ended <==> old(audit.Ends(msg))
      ensures ended ==>
                client != null && msg.id.Pid? && client.pid == msg.id.pid && client.pid in audit.server.subprocesses
      ensures client != null <==> old(audit.server.Identified(msg))
      ensures to < |old(audit.clients)| ==> old(audit.SentBy(msg, to))
    {
      client, ended, to, r := audit.HearOne(msg, w);
      assert unchanged(ctx) && ctx.Pending() == old(ctx.Pending());
      Rebooked(r);
      StaffedBeside(tests, Entries(w), b.spawned, Entry(0, 0, 0));
    }

    lemma Rebooked(w: World)
      requires audit.Bound(w) && audit.Lists(ctx.begun)
      requires ctx.suiteStats != null ==> ctx.begun != [] && ctx.suiteStats == ctx.begun[|ctx.begun| - 1]
      ensures ctx.Booked(w)
    {
      forall k | 0 <= k < |ctx.begun|
        ensures ctx.begun[k].n == w.suites[k + 1]
      {
        assert audit.suites[k + 1] == ctx.begun[k];
      }
    }

    /** The dead worker leaves the table. */
    method Reap(client: ClientCtx, ghost w: World, ghost b: Book)
      requires Linked(w, b) && client.pid in audit.server.subprocesses
      modifies audit.server`subprocesses
      ensures client.pid in b.running && Linked(w, Reaped(b, client.pid))
    {
      audit.RemoveOne(client.pid, w);
    }

    method GiveUpSlot(ghost w: World, ghost b: Book) returns (ghost k: Book)
      requires Linked(w, b) && activeWorkers > 0
      modifies this`activeWorkers
      ensures b.active > 0 && k == Narrowed(b) && Linked(w, k)
      ensures (old(Tallied(w, b)) ==> Tallied(w, k)) && (old(ctx.Exhausted()) ==> ctx.Exhausted())
    {
      activeWorkers := activeWorkers - 1;
      k := Narrowed(b);
    }

    /** The next instance takes the free slot, or the slot is given up. */
    method Refill(ghost w: World, ghost b: Book) returns (ghost next: int, ghost r: World, ghost k: Book)
      requires Linked(w, b) && activeWorkers > 0
      modifies this`activeWorkers, audit`suites, audit`clients, ctx, audit.server`subprocesses, audit.server.gstats
      modifies ctx.suiteStats
      ensures b.active > 0 && (b.left != [] ==> next !in b.running)
      ensures k == if b.left == [] then Narrowed(b) else Started(b, next)
      ensures unchanged(audit.server.socket)
      ensures Linked(r, k) && audit.Grown() && r.heard == w.heard
      ensures (old(Tallied(w, b)) ==> Tallied(r, k)) && (old(Spent()) ==> Spent())
    {
      var c;
      c, r, k := SpawnNextClient(w, b);
      if c == null {
        k := GiveUpSlot(r, k);
        next := 0;
      } else {
        next := c.pid;
      }
    }

    lemma HasSlot(b: Book, pid: int)
      requires Kept(b) && Balanced(b, 0) && pid in audit.server.subprocesses
      ensures activeWorkers > 0
    {
    }

    /** The dead worker is reaped; the next instance takes its slot, or the slot is given up. */
    method Replace(client: ClientCtx, ghost w: World, ghost b: Book)
      returns (ghost next: int, ghost r: World, ghost k: Book)
      requires Linked(w, b) && Balanced(b, 0) && client.pid in audit.server.subprocesses
      modifies this`activeWorkers, audit`suites, audit`clients, ctx, audit.server`subprocesses, audit.server.gstats
      modifies ctx.suiteStats
      ensures b.active > 0 && client.pid in b.running && (b.left != [] ==> next !in b.running - {client.pid})
      ensures k == Replaced(b, client.pid, next)
      ensures Linked(r, k) && audit.Grown() && unchanged(audit.server.socket) && r.heard == w.heard
      ensures (old(Tallied(w, b)) ==> Tallied(r, k)) && (old(Spent()) ==> Spent())
    {
      HasSlot(b, client.pid);
      Reap(client, w, b);
      next, r, k := Refill(w, Reaped(b, client.pid));
    }

    /** The book after a message: a worker that it ends is replaced. */
    ghost predicate Turned(ends: bool, id: Id, next: int, b: Book, k: Book) {
      if ends then
        && b.active > 0 && id.Pid? && id.pid in b.running && (b.left != [] ==> next !in b.running - {id.pid})
        && k == Replaced(b, id.pid, next)
      else k == b
    }

    /**
      One turn of the main loop: the message is answered, and noted under the client it is from; a worker that
      it ends is reaped and its slot refilled, or given up when nothing is left to start.
     */
    method HandleMessage(msg: Message, ghost w: World, ghost b: Book)
      returns (ghost next: int, ghost to: nat, ghost r: World, ghost k: Book)
      requires Linked(w, b) && Balanced(b, 0) && !audit.server.Faults(msg)
      modifies this`activeWorkers, audit`suites, audit`clients, ctx
      modifies audit.server`subprocesses, audit.server`clients, audit.server.socket, audit.server.gstats
      modifies audit.Contexts(), audit.Records(), set s | s in audit.suites
      ensures Linked(r, k) && audit.Grown() && (old(Tallied(w, b)) ==> Tallied(r, k)) && (old(Spent()) ==> Spent())
      ensures audit.server.socket.acks == old(audit.server.socket.acks) + [old(audit.server.Accepted(msg))]
      ensures r.heard == if old(audit.server.Identified(msg)) then w.heard + [Delivery(to, msg.data)] else w.heard
      ensures to < |old(audit.clients)| ==> old(audit.SentBy(msg, to))
      ensures Turned(old(audit.Ends(msg)), msg.id, next, b, k)
    {
      next, k := 0, b;
      var client, ended;
      client, ended, to, r := Hear(msg, w, b);
      if ended {
        next, r, k := Replace(client, r, b);
      }
    }

    /** A turn keeps the books balanced and the slots busy. */
    method Turn(msg: Message, ghost w: World, ghost b: Book) returns (ghost to: nat, ghost r: World, ghost k: Book)
      requires Valid(w, b) && !audit.server.Faults(msg)
      modifies this`activeWorkers, audit`suites, audit`clients, ctx
      modifies audit.server`subprocesses, audit.server`clients, audit.server.socket, audit.server.gstats
      modifies audit.Contexts(), audit.Records(), set s | s in audit.suites
      ensures Valid(r, k) && audit.Grown()
      ensures |audit.server.socket.acks| == |old(audit.server.socket.acks)| + 1
      ensures r.heard == w.heard || r.heard == w.heard + [Delivery(to, msg.data)]
    {
      ghost var ends := audit.Ends(msg);
      ghost var next;
      next, to, r, k := HandleMessage(msg, w, b);
      if ends {
        ReplaceBalances(b, msg.id.pid, next);
      }
    }

    /** A worker is replaced on its death, or on any message but a birth while it is not known to be alive. */
    lemma EndsExactly(msg: Message)
      requires audit.Tabled()
      ensures audit.Ends(msg) <==>
              && msg.version == PROTOCOL_V1 && msg.id.Pid? && msg.id.pid in audit.server.subprocesses
              && (msg.data.Death? || (msg.data != Birth && !audit.server.subprocesses[msg.id.pid].alive))
    {
    }

    /** The main loop: message after message, until no worker is active, none is left to read, or one faults. */
    method Serve(inbox: seq<Message>, ghost w: World, ghost b: Book)
      returns (used: nat, ghost r: World, ghost k: Book)
      requires Valid(w, b) && w.heard == []
      modifies this`activeWorkers, audit`suites, audit`clients, ctx
      modifies audit.server`subprocesses, audit.server`clients, audit.server.socket, audit.server.gstats
      modifies audit.Contexts(), audit.Records(), set s | s in audit.suites
      ensures Valid(r, k) && audit.Grown() && used <= |inbox| && TakenFrom(r.heard, inbox[..used])
      ensures used <= |inbox| && (used < |inbox| ==> activeWorkers == 0 || audit.server.Faults(inbox[used]))
      ensures |audit.server.socket.acks| == |old(audit.server.socket.acks)| + used
    {
      used, r, k := 0, w, b;
      while activeWorkers != 0 && used < |inbox| && !audit.server.Faults(inbox[used])
        invariant Valid(r, k) && audit.Grown()
        invariant used <= |inbox| && |audit.server.socket.acks| == |old(audit.server.socket.acks)| + used
        invariant TakenFrom(r.heard, inbox[..used])
        decreases |inbox| - used
      {
        ghost var to, heard := 0, r.heard;
        to, r, k := Turn(inbox[used], r, k);
        TakenOn(heard, inbox, used, r.heard, to);
        used := used + 1;
      }
    }

    /** The pool is filled, and the loop runs. */
    method Run(inbox: seq<Message>, ghost w: World, ghost b: Book)
      returns (used: nat, ghost r: World, ghost k: Book)
      requires Linked(w, b) && Balanced(b, 0) && Tallied(w, b) && activeWorkers == 0 < nbWorkers && w.heard == []
      modifies this`activeWorkers, audit`suites, audit`clients, ctx
      modifies audit.server`subprocesses, audit.server`clients, audit.server.socket, audit.server.gstats
      modifies audit.Contexts(), audit.Records(), set s | s in audit.suites
      ensures Valid(r, k) && Outcome(r, k) && used <= |inbox| && TakenFrom(r.heard, inbox[..used])
      ensures used <= |inbox| && (used < |inbox| ==> activeWorkers == 0 || audit.server.Faults(inbox[used]))
      ensures |audit.server.socket.acks| == |old(audit.server.socket.acks)| + used
    {
      r, k := Fill(w, b);
      used, r, k := Serve(inbox, r, k);
      ValidOutcome(r, k);
    }

    // ---- What a run comes to ------------------------------------------------------------------------

    /** With the last active worker gone: every enabled test was started once, in order, and reaped once. */
    ghost predicate Done(b: Book) {
      && b.spawned == All(tests).list && UpTo(b.reaped, |b.spawned|)
      && Ascending(b.spawned) && Distinct(b.spawned)
      && forall x :: x in b.spawned <==> Enabled(tests, x)
    }

    /**
      The run counted every instance started, every disabled test and every external client as a test, once, and
      gave each exactly one verdict.
     */
    ghost predicate Judged(w: World)
      requires Good(w)
      reads audit.server.gstats
    {
      var n := |All(tests).list| + DisabledTests(tests) + Externals(Entries(w));
      && audit.server.gstats.n.nbTests == audit.base.nbTests + n
      && Verdicts(audit.server.gstats.n) == Verdicts(audit.base) + n
    }

    ghost predicate Outcome(w: World, b: Book)
      reads this, audit, ctx, audit.server, audit.server.gstats, audit.Contexts(), audit.Records()
      reads set s | s in audit.suites
    {
      && Good(w) && Staffed(tests, Entries(w), b.spawned)
      && (activeWorkers == 0 ==> Done(b) && Enlisted(ctx.begun, tests, |tests|) && (AllOrderly(w) ==> Judged(w)))
      && Pending(b) + |b.reaped| == |All(tests).list| && b.active == activeWorkers
      && audit.Lists(ctx.begun)
      && audit.server.gstats.n == Add(audit.base, audit.SuiteTotal(|audit.suites|))
      && (forall k :: 0 <= k < |audit.suites| ==> audit.AddsUp(audit.suites[k]))
      && audit.Truthful()
    }

    lemma ValidOutcome(w: World, b: Book)
      requires Valid(w, b) && nbWorkers > 0
      ensures Outcome(w, b)
    {
      Progress(b);
      AllExact(tests);
      audit.AllAddUp(w);
      if activeWorkers == 0 {
        EmptyPoolIsDone(b);
        if AllOrderly(w) {
          ToldOrderly(w);
          AllSkips(tests);
          StaffCounts(tests, Entries(w), b.spawned);
        }
      }
    }
  }

  /** A runner that has done nothing yet. */
  method NewRunner(tests: TestSet, stats: GlobalStats, socket: Socket, nbWorkers: nat)
    returns (runner: Runner, ghost w: World)
    ensures fresh(runner) && fresh(runner.audit) && fresh(runner.audit.server) && fresh(runner.ctx)
    ensures runner.audit.clients == [] && forall s :: s in runner.audit.suites ==> fresh(s)
    ensures runner.tests == tests && runner.nbWorkers == nbWorkers && runner.activeWorkers == 0
    ensures runner.audit.server.gstats == stats && runner.audit.server.socket == socket && runner.audit.base == stats.n
    ensures var b := Unstarted(tests, nbWorkers); runner.Linked(w, b) && runner.Tallied(w, b) && w.heard == []
  {
    runner := new Runner(tests, stats, socket, nbWorkers);
    w := runner.Begins();
  }

  /**
    A whole run over the tests, with `nbWorkers` slots, on any messages. It ends with the last
    active worker, with the messages, or at a message that faults. When the last active worker is
    gone, every enabled test with each of its parameters was started exactly once, in order, and
    reaped exactly once; at any end, what is left, what runs and what was reaped add up. At any end
    too, what the run added to its counters is the sum over its suites, the external one included,
    every suite's assert totals are the sums over the records of its tests, and the workers on record
    are, in order, those of the instances started, each in the suite of its test and with what its
    author declared.
   */
  method RunTestsAsync(tests: TestSet, stats: GlobalStats, socket: Socket, nbWorkers: nat, inbox: seq<Message>)
    returns (runner: Runner, used: nat, ghost w: World, ghost b: Book)
    requires nbWorkers > 0
    modifies stats, socket
    ensures fresh(runner) && runner.Valid(w, b) && runner.tests == tests && runner.nbWorkers == nbWorkers
    ensures used <= |inbox| && |socket.acks| == |old(socket.acks)| + used
    ensures used < |inbox| ==> runner.activeWorkers == 0 || runner.audit.server.Faults(inbox[used])
    ensures runner.audit.server.gstats == stats && runner.audit.base == old(stats.n)
    ensures runner.Outcome(w, b) && TakenFrom(w.heard, inbox[..used])
  {
    runner, w := NewRunner(tests, stats, socket, nbWorkers);
    b := Unstarted(tests, nbWorkers);
    used, w, b := runner.Run(inbox, w, b);
  }
}
