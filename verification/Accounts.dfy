/**
  The statistics objects as the server leaves them. The objects of the server are an instance of
  the world of `Books`: every message delivers to it, and what the books conserve holds of the
  counters in the heap, with clients joining and leaving on the way.
 */
module Accounts {
  import opened Phases
  import opened Stats
  import opened Protocol
  import opened Client
  import opened Server
  import opened Books
  import opened History
  import opened Conservation

  /** What can happen to the statistics: a message, a worker spawned or removed, a suite started, a test passed over. */
  datatype Op =
    | Hear(msg: Message)
    | Spawn(suite: nat, pid: int, wantSignal: int, wantExit: int)
    | Remove(pid: int)
    | Start(number: int)
    | PassOver(suite: nat, wantSignal: int, wantExit: int)

  // ---- The objects of a server ----------------------------------------------------------------------

  class Audit {
    const server: ServerCtx
    /** What the run's counters held to begin with. */
    ghost const base: Counters

    /** Every client there ever was. */
    ghost var clients: seq<ClientCtx>
    /** The suites: the external one, and those started, oldest first. */
    var suites: seq<SuiteStats>

    /** No two clients share a context or a record, and no two suites a record. */
    ghost predicate Apart()
      reads this`clients, this`suites
    {
      && (forall i, j :: 0 <= i < j < |clients| ==> clients[i] != clients[j] && clients[i].tstats != clients[j].tstats)
      && (forall i, j :: 0 <= i < j < |suites| ==> suites[i] != suites[j])
    }

    ghost predicate Shaped(w: World)
      reads this`clients, this`suites
    {
      && Good(w) && |clients| == |w.clients| && |suites| == |w.suites|
      && (forall i :: 0 <= i < |clients| ==>
            clients[i].gstats == server.gstats && clients[i].sstats == suites[w.home[i]])
      && suites != [] && suites[0] == server.externStats
    }

    ghost function Contexts(): set<ClientCtx>
      reads this`clients
    {
      set c | c in clients
    }

    ghost function Records(): set<TestStats>
      reads this`clients
    {
      set c | c in clients :: c.tstats
    }

    ghost predicate Mirrors(w: World)
      reads this`clients, Contexts(), Records()
    {
      && |clients| == |w.clients|
      && (forall i :: 0 <= i < |clients| ==> clients[i].Valid() && clients[i].View() == w.clients[i])
    }

    ghost predicate Counts(w: World)
      reads this`suites, server.gstats, set s | s in suites
    {
      && |suites| == |w.suites| && server.gstats.n == Add(base, w.run)
      && (forall k :: 0 <= k < |suites| ==> suites[k].n == w.suites[k])
    }

    /** The server's tables hold clients of the ledger. */
    ghost predicate Tabled()
      reads this`clients, server, server.subprocesses.Values, server.clients.Values
    {
      && (forall p :: p in server.subprocesses ==> server.subprocesses[p] in clients)
      && (forall u :: u in server.clients ==> server.clients[u] in clients)
      && server.Valid()
    }

    /** The objects are an instance of the world. */
    ghost predicate Bound(w: World)
      reads this, server.gstats, Contexts(), Records(), set s | s in suites
    {
      Apart() && Shaped(w) && Mirrors(w) && Counts(w)
    }

    constructor (socket: Socket, gstats: GlobalStats)
      ensures base == gstats.n && clients == [] && suites == [server.externStats] && server.externStats.n == Zero()
      ensures Tabled() && server.socket == socket && server.gstats == gstats
      ensures fresh(server) && fresh(server.externStats) && server.subprocesses == map[]
    {
      base := gstats.n;
      server := new ServerCtx(socket, gstats);
      clients := [];
      new;
      suites := [server.externStats];
    }

    lemma Begins(w: World)
      requires clients == [] && suites == [server.externStats] && server.gstats.n == base
      requires Good(w) && w.clients == [] && w.suites == [server.externStats.n] && Add(base, w.run) == base
      ensures Bound(w)
    {
    }

    /** The client at `i` reacted to `d`, and nothing else in the ledger moved. */
    twostate predicate Moved(i: nat, d: Data)
      requires i < |clients| && old(i < |clients| && clients[i].Valid())
      reads this`clients, this`suites, Contexts(), Records(), set s | s in suites
      reads set c | c in clients :: c.gstats
      reads set c | c in clients :: c.sstats
    {
      && clients == old(clients) && suites == old(suites)
      && clients[i].Reacted(d)
      && (forall j :: 0 <= j < |clients| && j != i ==> unchanged(clients[j]) && unchanged(clients[j].tstats))
      && (forall k :: 0 <= k < |suites| && suites[k] != clients[i].sstats ==> unchanged(suites[k]))
    }

    twostate lemma ReactionMirrors(w: World, new i: nat, new d: Data)
      requires old(Bound(w)) && i < |clients| && i < old(|clients|) && Moved(i, d)
      ensures Bound(Deliver(w, Delivery(i, d)))
    {
      AddRules(base, w.run, React(w.clients[i], d).added);
    }

    /** The world after a new external client's birth. */
    static function Welcomed(w: World): (r: World)
      requires Good(w) && w.suites != []
      ensures Good(r)
    {
      Deliver(Joined(w, NewClient(0, 0), 0), Delivery(|w.clients|, Birth))
    }

    static lemma WelcomeAddsNothing(w: World)
      requires Good(w) && w.suites != []
      ensures var joined := Joined(w, NewClient(0, 0).(alive := true), 0);
              Welcomed(w) == joined.(heard := w.heard + [Delivery(|w.clients|, Birth)])
    {
      var j := Joined(w, NewClient(0, 0), 0);
      var r := React(j.clients[|w.clients|], Birth);
      AddNothing(w.run, r.added);
      AddNothing(w.suites[0], r.added);
      assert j.clients[|w.clients| := r.client] == w.clients + [r.client];
    }

    static lemma WelcomeEntries(w: World)
      requires Good(w) && w.suites != []
      ensures Entries(Welcomed(w)) == Entries(w) + [Entry(0, 0, 0)]
    {
      JoinEntries(w, NewClient(0, 0), 0);
      DeliverKeepsEntries(Joined(w, NewClient(0, 0), 0), Delivery(|w.clients|, Birth));
    }

    static lemma WelcomeConserves(w: World)
      requires Good(w) && w.suites != [] && Conserved(w)
      ensures Conserved(Welcomed(w))
    {
      JoinConserves(w, NewClient(0, 0), 0);
      DeliverConserves(Joined(w, NewClient(0, 0), 0), Delivery(|w.clients|, Birth));
    }

    twostate lemma WelcomeMirrors(w: World, new client: ClientCtx)
      requires old(Bound(w))
      requires fresh(client) && fresh(client.tstats) && client.Valid()
      requires client.View() == NewClient(0, 0).(alive := true)
      requires client.gstats == server.gstats && client.sstats == server.externStats
      requires clients == old(clients) + [client] && suites == old(suites)
      requires forall c :: c in old(clients) ==> unchanged(c) && unchanged(c.tstats)
      requires unchanged(server.gstats) && forall s :: s in suites ==> unchanged(s)
      ensures Bound(Welcomed(w))
    {
      WelcomeAddsNothing(w);
      forall k | 0 <= k < |suites|
        ensures suites[k].n == w.suites[k]
      {
        assert suites[k] in suites;
      }
    }

    /** The message comes, in the right version, from the client at `to`. */
    ghost predicate SentBy(msg: Message, to: nat)
      reads this`clients, server
    {
      msg.version == PROTOCOL_V1 && to < |clients| && clients[to] == server.Lookup(msg.id)
    }

    /** A message from a known client: it reacts. */
    method FromKnown(msg: Message, ghost to: nat) returns (client: ClientCtx)
      requires Tabled() && !server.Faults(msg) && SentBy(msg, to)
      modifies server`clients, server.socket, clients[to], server.gstats, clients[to].sstats, clients[to].tstats
      ensures server.subprocesses == old(server.subprocesses)
      ensures client == clients[to] && client.Reacted(msg.data) && Tabled()
      ensures server.socket.acks == old(server.socket.acks) + [old(server.Accepted(msg))]
    {
      client := AnswerKnown(msg, clients[to]);
    }

    method AnswerKnown(msg: Message, ghost c: ClientCtx) returns (client: ClientCtx)
      requires server.Valid() && !server.Faults(msg) && msg.version == PROTOCOL_V1 && server.Lookup(msg.id) == c
      modifies server`clients, server.socket, c, server.gstats, c.sstats, c.tstats
      ensures server.Valid() && server.clients == old(server.clients) && server.subprocesses == old(server.subprocesses)
      ensures client == c && client.Reacted(msg.data)
      ensures server.socket.acks == old(server.socket.acks) + [old(server.Accepted(msg))]
    {
      assert c.gstats == server.gstats;
      client := server.ProcessClientMessage(msg);
    }

    /** Nothing the ledger speaks of moved. */
    twostate predicate Still()
      reads this`clients, this`suites, Contexts(), Records(), server.gstats, set s | s in suites
    {
      && clients == old(clients) && suites == old(suites)
      && (forall c :: c in old(clients) ==> unchanged(c) && unchanged(c.tstats))
      && unchanged(server.gstats) && (forall s :: s in old(suites) ==> unchanged(s))
    }

    /** A message from nobody known: a new external client's birth, or nothing moves. */
    method FromStranger(msg: Message) returns (client: ClientCtx?)
      requires Tabled() && (server.Lookup(msg.id) == null || msg.version != PROTOCOL_V1) && !server.Faults(msg)
      modifies server`clients, server.socket, server.gstats, server.externStats
      ensures server.socket.acks == old(server.socket.acks) + [old(server.Accepted(msg))]
      ensures Still() && server.Valid() && (client != null <==> old(server.Identified(msg)))
      ensures client == null ==> server.clients == old(server.clients)
      ensures client != null ==>
                && fresh(client) && fresh(client.tstats) && client.View() == NewClient(0, 0).(alive := true)
                && msg.id.Uid? && server.clients == old(server.clients)[msg.id.uid := client]
                && msg.data == Birth
                && client.Valid() && client.gstats == server.gstats && client.sstats == server.externStats
    {
      client := server.ProcessClientMessage(msg);
      assert unchanged(server.gstats) && unchanged(server.externStats);
      if client != null {
        assert server.clients[msg.id.uid] == client;
      }
    }

    twostate lemma StillMirrors(w: World)
      requires old(Bound(w)) && Still()
      ensures Bound(w)
    {
      forall k | 0 <= k < |suites|
        ensures suites[k].n == w.suites[k]
      {
        assert suites[k] in suites;
      }
    }

    method ProcessKnown(msg: Message, ghost to: nat, ghost w: World) returns (client: ClientCtx)
      requires Bound(w) && Tabled() && !server.Faults(msg) && SentBy(msg, to)
      modifies server`clients, server.socket, clients[to], server.gstats, clients[to].sstats, clients[to].tstats
      ensures server.subprocesses == old(server.subprocesses)
      ensures Bound(Deliver(w, Delivery(to, msg.data))) && Tabled() && clients == old(clients) && client == clients[to]
      ensures client.View() == React(old(clients[to].View()), msg.data).client
      ensures server.socket.acks == old(server.socket.acks) + [old(server.Accepted(msg))]
    {
      client := FromKnown(msg, to);
      ReactionMirrors(w, to, msg.data);
    }

    method ProcessStranger(msg: Message, ghost w: World) returns (client: ClientCtx?)
      requires Bound(w) && Tabled() && !server.Faults(msg)
      requires server.Lookup(msg.id) == null || msg.version != PROTOCOL_V1
      modifies this`clients, server`clients, server.socket, server.gstats, server.externStats
      ensures Tabled() && server.socket.acks == old(server.socket.acks) + [old(server.Accepted(msg))]
      ensures clients == if client == null then old(clients) else old(clients) + [client]
      ensures client != null ==> fresh(client) && fresh(client.tstats) && client.alive && msg.data == Birth
      ensures client != null ==> msg.id.Uid?
      ensures Bound(if client == null then w else Welcomed(w)) && (client != null <==> old(server.Identified(msg)))
    {
      client := FromStranger(msg);
      if client != null {
        clients := clients + [client];
        WelcomeMirrors(w, client);
      } else {
        StillMirrors(w);
      }
    }

    lemma SenderIndex(msg: Message) returns (to: nat)
      requires Tabled() && server.Lookup(msg.id) != null && msg.version == PROTOCOL_V1
      ensures SentBy(msg, to)
    {
      to :| to < |clients| && clients[to] == server.Lookup(msg.id);
    }

    /** The world after a message from the client at `to`, from a new client, or from nobody. */
    static ghost function After(w: World, client: ClientCtx?, to: int, d: Data): (r: World)
      requires Good(w) && w.suites != [] && to < |w.clients|
      ensures Good(r)
    {
      if client == null then w else if to < 0 then Welcomed(w) else Deliver(w, Delivery(to, d))
    }

    /**
      Any message keeps the ledger: the server's objects stay an instance of the world, which takes
      the message as a delivery to its sender, takes in a new external client, or stays as it is.
     */
    method Process(msg: Message, ghost w: World) returns (client: ClientCtx?, ghost to: int)
      requires Bound(w) && Tabled() && !server.Faults(msg)
      modifies this`clients, server`clients, server.socket, server.gstats, Contexts(), Records(), set s | s in suites
      ensures Tabled() && server.socket.acks == old(server.socket.acks) + [old(server.Accepted(msg))]
      ensures to < old(|clients|) && Bound(After(w, client, to, msg.data))
      ensures to >= 0 ==> client == old(server.Lookup(msg.id)) == old(clients[to])
      ensures clients == if client != null && to < 0 then old(clients) + [client] else old(clients)
      ensures client != null && to < 0 ==> fresh(client) && fresh(client.tstats)
      ensures client != null <==> old(server.Identified(msg))
      ensures to >= 0 ==> client.View() == React(old(clients[to].View()), msg.data).client
      ensures client != null && to < 0 ==> msg.id.Uid?
    {
      to := -1;
      if server.Lookup(msg.id) != null && msg.version == PROTOCOL_V1 {
        to := SenderIndex(msg);
        assert clients[to] in Contexts() && clients[to].tstats in Records() && clients[to].sstats in suites;
        client := ProcessKnown(msg, to, w);
      } else {
        assert server.externStats in suites;
        client := ProcessStranger(msg, w);
      }
    }

    /** Suites start and tests are passed over, and no client moves. */
    twostate lemma MovesMirror(w: World, new r: World)
      requires old(Bound(w)) && Good(r) && r.clients == w.clients && r.home == w.home
      requires clients == old(clients) && forall c :: c in clients ==> unchanged(c) && unchanged(c.tstats)
      requires |old(suites)| <= |suites| && suites[..|old(suites)|] == old(suites)
      requires forall i, j :: 0 <= i < j < |suites| ==> suites[i] != suites[j]
      requires |suites| == |r.suites| && forall k :: 0 <= k < |suites| ==> suites[k].n == r.suites[k]
      requires server.gstats.n == Add(base, r.run)
      ensures Bound(r)
    {
      assert forall k :: 0 <= k < |old(suites)| ==> suites[k] == suites[..|old(suites)|][k];
      assert forall i :: 0 <= i < |clients| ==> clients[i] in clients;
    }

    /** The external suite, and then these. */
    ghost predicate Lists(begun: seq<SuiteStats>)
      reads this`suites
    {
      && |suites| == |begun| + 1 && suites[0] == server.externStats
      && forall k :: 0 <= k < |begun| ==> suites[k + 1] == begun[k]
    }

    /** The suites started since are taken into the ledger. */
    method Relist(begun: seq<SuiteStats>, ghost w: World, ghost r: World)
      requires Apart() && Shaped(w) && Mirrors(w) && Tabled()
      requires Good(r) && r.clients == w.clients && r.home == w.home && |r.suites| == |begun| + 1
      requires |suites| <= |begun| + 1 && forall k :: 0 < k < |suites| ==> suites[k] == begun[k - 1]
      requires server.externStats !in begun && forall i, j :: 0 <= i < j < |begun| ==> begun[i] != begun[j]
      requires server.externStats.n == r.suites[0] && forall k :: 0 <= k < |begun| ==> begun[k].n == r.suites[k + 1]
      requires server.gstats.n == Add(base, r.run)
      modifies this`suites
      ensures Bound(r) && Tabled() && Lists(begun)
    {
      suites := [server.externStats] + begun;
      forall i, j | 0 <= i < j < |suites|
        ensures suites[i] != suites[j]
      {
        assert suites[j] == begun[j - 1] && (i > 0 ==> suites[i] == begun[i - 1]);
      }
      forall k | 0 <= k < |suites|
        ensures suites[k].n == r.suites[k] && (k < old(|suites|) ==> suites[k] == old(suites[k]))
      {
        assert k > 0 ==> suites[k] == begun[k - 1];
      }
    }

    // ---- The runner's side ------------------------------------------------------------------------

    /** A spawned worker joins, in the suite at `k`. */
    method AddWorker(ctx: ClientCtx, ghost w: World, ghost k: nat)
      requires Bound(w) && Tabled() && k < |suites| && server.Proper(ctx, WORKER) && ctx.sstats == suites[k]
      requires ctx !in clients && ctx.tstats !in Records()
      modifies this`clients, server`subprocesses
      ensures Bound(Joined(w, ctx.View(), k)) && Tabled() && clients == old(clients) + [ctx]
      ensures server.subprocesses == old(server.subprocesses)[ctx.pid := ctx]
    {
      server.AddClientFromWorker(ctx);
      clients := clients + [ctx];
      JoinMirrors(w, ctx, k);
    }

    twostate lemma JoinMirrors(w: World, new ctx: ClientCtx, new k: nat)
      requires old(Bound(w)) && k < |suites| && ctx.Valid() && ctx.gstats == server.gstats && ctx.sstats == suites[k]
      requires ctx !in old(clients) && ctx.tstats !in old(Records())
      requires clients == old(clients) + [ctx] && suites == old(suites)
      requires forall c :: c in old(clients) ==> unchanged(c) && unchanged(c.tstats)
      requires unchanged(server.gstats) && forall s :: s in suites ==> unchanged(s)
      ensures Bound(Joined(w, ctx.View(), k))
    {
      forall i | 0 <= i < |old(clients)|
        ensures old(clients)[i].tstats != ctx.tstats
      {
        assert old(clients)[i].tstats in old(Records());
      }
      forall k | 0 <= k < |suites|
        ensures suites[k].n == w.suites[k]
      {
        assert suites[k] in suites;
      }
    }

    /** A suite starts. */
    method OpenSuite(number: int, ghost w: World) returns (suite: SuiteStats)
      requires Bound(w) && Tabled()
      modifies this`suites, server.gstats
      ensures Bound(Opened(w)) && Tabled() && suites == old(suites) + [suite] && fresh(suite) && suite.suite == number
    {
      suite := new SuiteStats(number);
      StatPushEvent(server.gstats, suite, null, PreSuite);
      suites := suites + [suite];
      assert suites[..|old(suites)|] == old(suites);
      forall k | 0 <= k < |old(suites)|
        ensures suites[k] != suite && suites[k].n == w.suites[k]
      {
        assert suites[k] in old(suites);
      }
      MovesMirror(w, Opened(w));
    }

    /** A disabled test of the suite at `k` is passed over. */
    method SkipTest(suite: SuiteStats, test: TestStats, ghost w: World, ghost k: nat)
      requires Bound(w) && Tabled() && k < |suites| && suite == suites[k]
      requires test.status == Skipped && test !in Records()
      modifies server.gstats, suite, test
      ensures Bound(PassedOver(w, k)) && Tabled()
    {
      AddRules(base, w.run, Added(test.View(), PreInit));
      StatPushEvent(server.gstats, suite, test, PreInit);
    }

    // ---- What holds of the objects ----------------------------------------------------------------

    /** The passed or failed asserts on the records of the first `n` clients in a suite. */
    ghost function AssertsIn(suite: SuiteStats, failed: bool, n: nat): nat
      requires n <= |clients|
      reads this`clients, Records()
    {
      if n == 0 then 0
      else
        var c := clients[n - 1];
        AssertsIn(suite, failed, n - 1) +
        (if c.sstats != suite then 0 else if failed then c.tstats.failedAsserts else c.tstats.passedAsserts)
    }

    static lemma SumWhereLast(clients: seq<Protocol.Client>, home: seq<nat>, k: nat, failed: bool, n: nat)
      requires |clients| == |home| && 0 < n <= |clients|
      ensures var t := clients[n - 1].test;
              SumWhere(clients[..n], home[..n], k, failed) == SumWhere(clients[..n - 1], home[..n - 1], k, failed) +
              if home[n - 1] != k then 0 else if failed then t.failedAsserts else t.passedAsserts
    {
      assert clients[..n][..n - 1] == clients[..n - 1] && home[..n][..n - 1] == home[..n - 1];
    }

    lemma {:induction false} AssertsAreSums(w: World, k: nat, failed: bool, n: nat)
      requires Bound(w) && k < |suites| && n <= |clients|
      ensures AssertsIn(suites[k], failed, n) == SumWhere(w.clients[..n], w.home[..n], k, failed)
    {
      if n > 0 {
        AssertsAreSums(w, k, failed, n - 1);
        SumWhereLast(w.clients, w.home, k, failed, n);
        assert clients[n - 1].View() == w.clients[n - 1];
      }
    }

    /** The sum of the counters of the first `n` suites. */
    ghost function SuiteTotal(n: nat): Counters
      requires n <= |suites|
      reads this`suites, set s | s in suites
    {
      if n == 0 then Zero() else Add(SuiteTotal(n - 1), suites[n - 1].n)
    }

    lemma {:induction false} TotalIsSum(w: World, n: nat)
      requires Counts(w) && n <= |suites|
      ensures SuiteTotal(n) == SumAll(w.suites[..n])
    {
      if n > 0 {
        TotalIsSum(w, n - 1);
        assert w.suites[..n][..n - 1] == w.suites[..n - 1];
      }
    }

    /** The counters in the heap add up: the run over the suites, the suites over their tests' records. */
    lemma StatisticsAddUp(w: World, k: nat)
      requires Bound(w) && Conserved(w) && k < |suites|
      ensures server.gstats.n == Add(base, SuiteTotal(|suites|))
      ensures AddsUp(suites[k])
    {
      EachSuite(w, |w.suites|);
      assert SuiteConserved(w, k);
      AssertsAreSums(w, k, false, |clients|);
      AssertsAreSums(w, k, true, |clients|);
      assert w.clients[..|clients|] == w.clients && w.home[..|clients|] == w.home;
      TotalIsSum(w, |suites|);
      assert w.suites[..|suites|] == w.suites;
    }

    /** Every record has as many failed asserts as its list shows. */
    ghost predicate Truthful()
      reads this`clients, Records()
    {
      forall i :: 0 <= i < |clients| ==> clients[i].tstats.failedAsserts == Failures(clients[i].tstats.asserts)
    }

    lemma RecordsTruthful(w: World)
      requires Mirrors(w) && Told(w)
      ensures Truthful()
    {
      forall i | 0 <= i < |clients|
        ensures clients[i].tstats.failedAsserts == Failures(clients[i].tstats.asserts)
      {
        ToldRecords(w, i);
        assert clients[i].View() == w.clients[i];
      }
    }

    // ---- Any run of a server ------------------------------------------------------------------------

    ghost predicate Kept(w: World)
      reads this, server, server.gstats, Contexts(), Records(), set s | s in suites
      reads server.subprocesses.Values, server.clients.Values
    {
      Bound(w) && Tabled() && Conserved(w)
    }

    /** The operation can be carried out: its suite is there, and the code reads nothing that is not. */
    predicate Feasible(op: Op)
      reads this`suites, server, server.clients.Values
    {
      match op
      case Hear(msg) => !server.Faults(msg)
      case Spawn(k, _, _, _) => k < |suites|
      case PassOver(k, _, _) => k < |suites|
      case _ => true
    }

    /** The ledger takes in only new objects. */
    twostate predicate Grown()
      reads this`clients, this`suites
    {
      && (forall c :: c in clients ==> c in old(clients) || (fresh(c) && fresh(c.tstats)))
      && (forall s :: s in suites ==> s in old(suites) || fresh(s))
    }

    twostate lemma GrownByOne(new client: ClientCtx)
      requires clients == old(clients) + [client] && suites == old(suites) && fresh(client) && fresh(client.tstats)
      ensures Grown()
    {
    }

    /**
      The message leaves its sender, a worker, not alive: it is a death, or comes from a worker
      that never announced its birth.
     */
    ghost predicate Ends(msg: Message)
      requires Tabled()
      reads this`clients, server, Contexts(), Records(), server.subprocesses.Values, server.clients.Values
    {
      && msg.version == PROTOCOL_V1 && msg.id.Pid? && msg.id.pid in server.subprocesses
      && server.subprocesses[msg.id.pid] in clients
      && !React(server.subprocesses[msg.id.pid].View(), msg.data).client.alive
    }

    /** A message from a known client is taken, and the statistics stay in order. */
    method HearKnown(msg: Message, ghost to: nat, ghost w: World) returns (client: ClientCtx, ended: bool)
      requires Kept(w) && !server.Faults(msg) && SentBy(msg, to)
      modifies server`clients, server.socket, clients[to], server.gstats, clients[to].sstats, clients[to].tstats
      ensures clients == old(clients) && suites == old(suites) && client == clients[to]
      ensures server.subprocesses == old(server.subprocesses)
      ensures Kept(Deliver(w, Delivery(to, msg.data)))
      ensures server.socket.acks == old(server.socket.acks) + [old(server.Accepted(msg))]
      ensures ended <==> old(Ends(msg))
      ensures ended ==> msg.id.Pid? && client.pid == msg.id.pid && client.pid in server.subprocesses
    {
      EndsBy(msg, to);
      DeliverConserves(w, Delivery(to, msg.data));
      client := ProcessKnown(msg, to, w);
      ended := !client.alive && client.kind == WORKER;
    }

    /** A message from nobody known is taken, and the statistics stay in order. */
    method HearStranger(msg: Message, ghost w: World) returns (client: ClientCtx?, ghost r: World)
      requires Kept(w) && !server.Faults(msg) && (server.Lookup(msg.id) == null || msg.version != PROTOCOL_V1)
      modifies this`clients, server`clients, server.socket, server.gstats, server.externStats
      ensures server.subprocesses == old(server.subprocesses)
      ensures Kept(r) && Grown() && suites == old(suites)
      ensures server.socket.acks == old(server.socket.acks) + [old(server.Accepted(msg))]
      ensures client != null <==> old(server.Identified(msg))
      ensures client != null ==> client.alive && msg.data == Birth
      ensures Noted(w, r, client, |w.clients|, msg.data) && |w.clients| == |old(clients)|
      ensures clients == (if client == null then old(clients) else old(clients) + [client])
      ensures client != null ==> fresh(client)
      ensures Entries(r) == if client == null then Entries(w) else Entries(w) + [Entry(0, 0, 0)]
    {
      client := ProcessStranger(msg, w);
      if client == null {
        r := w;
      } else {
        r := Taken(w);
        GrownByOne(client);
      }
    }

    /** A new external client is taken in, and its birth noted. */
    static lemma Taken(w: World) returns (r: World)
      requires Good(w) && w.suites != [] && Conserved(w)
      ensures Good(r) && Conserved(r) && r == Welcomed(w)
      ensures r.skips == w.skips && r.heard == w.heard + [Delivery(|w.clients|, Birth)]
      ensures Entries(r) == Entries(w) + [Entry(0, 0, 0)]
    {
      r := Welcomed(w);
      WelcomeConserves(w);
      WelcomeAddsNothing(w);
      WelcomeEntries(w);
    }

    /** The message was noted, as one from the client at `to`, or from nobody. */
    static ghost predicate Noted(w: World, r: World, client: ClientCtx?, to: nat, d: Data) {
      r.skips == w.skips && r.heard == if client == null then w.heard else w.heard + [Delivery(to, d)]
    }

    /** A message from somebody known is taken, and noted under its sender. */
    method HearSender(msg: Message, ghost w: World)
      returns (client: ClientCtx, ended: bool, ghost to: nat, ghost r: World)
      requires Kept(w) && !server.Faults(msg) && server.Lookup(msg.id) != null && msg.version == PROTOCOL_V1
      modifies server`clients, server.socket, server.gstats, Contexts(), Records(), set s | s in suites
      ensures server.subprocesses == old(server.subprocesses)
      ensures clients == old(clients) && suites == old(suites) && Kept(r)
      ensures to < |clients| && client == clients[to] && Noted(w, r, client, to, msg.data)
      ensures old(SentBy(msg, to))
      ensures Entries(r) == Entries(w)
      ensures server.socket.acks == old(server.socket.acks) + [old(server.Accepted(msg))]
      ensures ended <==> old(Ends(msg))
      ensures ended ==> msg.id.Pid? && client.pid == msg.id.pid && client.pid in server.subprocesses
    {
      to := SenderIndex(msg);
      assert clients[to] in Contexts() && clients[to].tstats in Records() && clients[to].sstats in suites;
      r := DeliveryNoted(w, to, msg.data);
      client, ended := HearKnown(msg, to, w);
    }

    static lemma DeliveryNoted(w: World, to: nat, d: Data) returns (r: World)
      requires Good(w) && to < |w.clients|
      ensures r == Deliver(w, Delivery(to, d)) && Entries(r) == Entries(w)
      ensures r.skips == w.skips && r.heard == w.heard + [Delivery(to, d)]
    {
      r := Deliver(w, Delivery(to, d));
      DeliverKeepsEntries(w, Delivery(to, d));
    }

    /** A message is taken, and noted under the client it is from; the statistics stay in order. */
    method HearOne(msg: Message, ghost w: World)
      returns (client: ClientCtx?, ended: bool, ghost to: nat, ghost r: World)
      requires Kept(w) && !server.Faults(msg)
      modifies this`clients, server`clients, server.socket, server.gstats, Contexts(), Records(), set s | s in suites
      ensures server.subprocesses == old(server.subprocesses)
      ensures Kept(r) && Grown() && suites == old(suites)
      ensures server.socket.acks == old(server.socket.acks) + [old(server.Accepted(msg))]
      ensures ended <==> old(Ends(msg))
      ensures ended ==> client != null && msg.id.Pid? && client.pid == msg.id.pid && client.pid in server.subprocesses
      ensures client != null <==> old(server.Identified(msg))
      ensures client != null ==> to < |clients| && client == clients[to]
      ensures if to < |old(clients)| then old(SentBy(msg, to)) else client == null || fresh(client)
      ensures Noted(w, r, client, to, msg.data)
      ensures Entries(r) == Entries(w) || Entries(r) == Entries(w) + [Entry(0, 0, 0)]
    {
      ended, to := false, |clients|;
      if server.Lookup(msg.id) != null && msg.version == PROTOCOL_V1 {
        client, ended, to, r := HearSender(msg, w);
      } else {
        assert server.externStats in suites;
        NotEnding(msg);
        client, r := HearStranger(msg, w);
      }
    }

    lemma EndsBy(msg: Message, to: nat)
      requires Tabled() && SentBy(msg, to)
      ensures Ends(msg) <==> clients[to].kind == WORKER && !React(clients[to].View(), msg.data).client.alive
      ensures clients[to].kind == WORKER ==>
                msg.id.Pid? && clients[to].pid == msg.id.pid && msg.id.pid in server.subprocesses
    {
    }

    lemma NotEnding(msg: Message)
      requires Tabled() && (server.Lookup(msg.id) == null || msg.version != PROTOCOL_V1)
      ensures !Ends(msg)
    {
    }

    /** A spawned worker is entered, in the suite at `k`, and the statistics stay in order. */
    method Enroll(ctx: ClientCtx, ghost w: World, ghost k: nat) returns (ghost r: World)
      requires Kept(w) && k < |suites| && server.Proper(ctx, WORKER) && ctx.sstats == suites[k]
      requires ctx !in clients && ctx.tstats !in Records()
      requires ctx.View() == Born(ctx.View())
      modifies this`clients, server`subprocesses
      ensures Kept(r) && r == Joined(w, ctx.View(), k) && clients == old(clients) + [ctx]
      ensures Entries(r) == Entries(w) + [Entry(k, ctx.tstats.wantSignal, ctx.tstats.wantExit)]
      ensures server.subprocesses == old(server.subprocesses)[ctx.pid := ctx]
    {
      r := Joined(w, ctx.View(), k);
      JoinConserves(w, ctx.View(), k);
      JoinEntries(w, ctx.View(), k);
      AddWorker(ctx, w, k);
    }

    /** A worker is spawned for a test, with a fresh record, and entered. */
    method SpawnOne(suite: SuiteStats, pid: int, wantSignal: int, wantExit: int, ghost w: World, ghost k: nat)
      returns (ctx: ClientCtx, ghost r: World)
      requires Kept(w) && k < |suites| && suite == suites[k]
      modifies this`clients, server`subprocesses
      ensures Kept(r) && Grown() && ctx.pid == pid && r.suites == w.suites
      ensures ctx.View() == NewClient(wantSignal, wantExit) && ctx.sstats == suite
      ensures server.subprocesses == old(server.subprocesses)[pid := ctx]
      ensures Entries(r) == Entries(w) + [Entry(k, wantSignal, wantExit)] && r.heard == w.heard && r.skips == w.skips
    {
      var tstats := new TestStats(wantSignal, wantExit);
      ctx := new ClientCtx(WORKER, pid, server.gstats, suite, tstats);
      assert ctx.View() == NewClient(wantSignal, wantExit);
      r := Enroll(ctx, w, k);
      GrownByOne(ctx);
    }

    method RemoveOne(pid: int, ghost w: World)
      requires Kept(w)
      modifies server`subprocesses
      ensures Kept(w) && Grown() && server.subprocesses == old(server.subprocesses) - {pid}
    {
      server.RemoveClientByPid(pid);
    }

    method StartOne(number: int, ghost w: World) returns (ghost r: World)
      requires Kept(w)
      modifies this`suites, server.gstats
      ensures Kept(r) && Grown()
    {
      OpenConserves(w);
      var suite := OpenSuite(number, w);
      r := Opened(w);
    }

    method PassOverOne(k: nat, wantSignal: int, wantExit: int, ghost w: World) returns (ghost r: World)
      requires Kept(w) && k < |suites|
      modifies server.gstats, suites[k]
      ensures Kept(r) && Grown()
    {
      var test := new TestStats(wantSignal, wantExit);
      test.status := Skipped;
      PassingOverConserves(w, k);
      SkipTest(suites[k], test, w, k);
      r := PassedOver(w, k);
    }

    method Perform(op: Op, ghost w: World) returns (ghost r: World)
      requires Kept(w) && Feasible(op)
      modifies this`clients, this`suites, server`subprocesses, server`clients, server.socket, server.gstats
      modifies Contexts(), Records(), set s | s in suites
      ensures Kept(r) && Grown()
    {
      match op {
        case Hear(msg) =>
          var client, ended;
          ghost var to;
          client, ended, to, r := HearOne(msg, w);
        case Spawn(k, pid, wantSignal, wantExit) =>
          var ctx;
          ctx, r := SpawnOne(suites[k], pid, wantSignal, wantExit, w, k);
        case Remove(pid) =>
          RemoveOne(pid, w);
          r := w;
        case Start(number) => r := StartOne(number, w);
        case PassOver(k, wantSignal, wantExit) =>
          assert suites[k] in suites;
          r := PassOverOne(k, wantSignal, wantExit, w);
      }
    }

    /** Any operations, up to one that cannot be carried out. */
    method Play(ops: seq<Op>, ghost w: World) returns (done: nat, ghost r: World)
      requires Kept(w)
      modifies this`clients, this`suites, server`subprocesses, server`clients, server.socket, server.gstats
      modifies Contexts(), Records(), set s | s in suites
      ensures Kept(r) && Grown() && done <= |ops| && (done < |ops| ==> !Feasible(ops[done]))
    {
      done, r := 0, w;
      while done < |ops| && Feasible(ops[done])
        invariant done <= |ops| && Kept(r) && Grown()
        decreases |ops| - done
      {
        r := Perform(ops[done], r);
        done := done + 1;
      }
    }

    lemma AllAddUp(w: World)
      requires Bound(w) && Conserved(w)
      ensures server.gstats.n == Add(base, SuiteTotal(|suites|))
      ensures forall k :: 0 <= k < |suites| ==> AddsUp(suites[k])
      ensures Truthful()
    {
      forall k | 0 <= k < |suites|
        ensures AddsUp(suites[k])
      {
        StatisticsAddUp(w, k);
      }
      StatisticsAddUp(w, 0);
      RecordsTruthful(w);
    }

    /** A suite's assert totals are those of its tests' records, and its crashes are failures. */
    ghost predicate AddsUp(suite: SuiteStats)
      reads this`clients, Records(), suite
    {
      && suite.n.assertsPassed == AssertsIn(suite, false, |clients|)
      && suite.n.assertsFailed == AssertsIn(suite, true, |clients|)
      && suite.n.testsCrashed <= suite.n.testsFailed
    }
  }

  /**
    A server from its start on, under any operations, up to one that cannot be carried out. Whatever they are,
    the run's counters are the sum over all the suites, the assert totals of every suite the sums over its tests,
    and every test has as many failed asserts as its list shows.
   */
  method PlayServer(socket: Socket, stats: GlobalStats, ops: seq<Op>)
    returns (audit: Audit, done: nat, ghost w: World)
    modifies socket, stats
    ensures fresh(audit) && audit.server.gstats == stats && audit.base == old(stats.n)
    ensures done <= |ops| && (done < |ops| ==> !audit.Feasible(ops[done]))
    ensures stats.n == Add(old(stats.n), audit.SuiteTotal(|audit.suites|))
    ensures forall k :: 0 <= k < |audit.suites| ==> audit.AddsUp(audit.suites[k])
    ensures audit.Truthful() && audit.Kept(w)
  {
    audit := new Audit(socket, stats);
    w := EmptyExists(audit.base, audit.server.externStats.n);
    audit.Begins(w);
    done, w := audit.Play(ops, w);
    audit.AllAddUp(w);
  }
}
