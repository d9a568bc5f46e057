/**
  Where the clients of a world come from: each is what its own messages made of a client not heard of,
  and the run has counted what all their messages added, and the tests passed over.
 */
module History {
  import opened Phases
  import opened Stats
  import opened Protocol
  import opened Books

  /** The client before its first message. */
  function Born(c: Client): (b: Client)
    ensures Reachable(b.phases)
  {
    NewClient(c.test.wantSignal, c.test.wantExit)
  }

  /** The client at `i`, run on its own messages alone. */
  function Alone(w: World, i: nat): (t: Tally)
    requires i < |w.clients|
    ensures Reachable(t.client.phases)
  {
    Run(Born(w.clients[i]), Inbox(w.heard, i))
  }

  /** What the messages of the first `n` clients added. */
  function AddedByFirst(w: World, n: nat): Counters
    requires n <= |w.clients|
  {
    if n == 0 then Zero() else Add(AddedByFirst(w, n - 1), Alone(w, n - 1).total)
  }

  predicate RunTold(w: World) {
    && Addressed(w, w.heard)
    && w.run == Add(AddedByFirst(w, |w.clients|), SkipCounts(w.skips))
  }

  /** The run and the first `n` clients are as their messages made them. Sealed, to be unfolded on request. */
  predicate ToldUpTo(w: World, n: nat)
    requires n <= |w.clients|
    decreases n, 2
  {
    ToldUpToSealed(w, n)
  }

  predicate ToldUpToSealed(w: World, n: nat)
    requires n <= |w.clients|
    decreases n, 1
  {
    ToldUpToStep(w, n)
  }

  predicate ToldUpToStep(w: World, n: nat)
    requires n <= |w.clients|
    decreases n, 0
  {
    if n == 0 then RunTold(w) else ToldUpTo(w, n - 1) && w.clients[n - 1] == Alone(w, n - 1).client
  }

  predicate Told(w: World) {
    ToldUpTo(w, |w.clients|)
  }

  lemma {:induction false} EachTold(w: World, n: nat)
    requires n <= |w.clients|
    ensures ToldUpTo(w, n) <==> RunTold(w) && forall i :: 0 <= i < n ==> w.clients[i] == Alone(w, i).client
  {
    assert ToldUpToSealed(w, n) <==> ToldUpToStep(w, n);
    if n > 0 {
      EachTold(w, n - 1);
    }
  }

  // ---- What keeps it ---------------------------------------------------------------------------

  /** One more message adds to what its client's messages added, and to nothing else. */
  lemma {:induction false} AddedByOne(w: World, r: World, to: nat, a: Counters, n: nat)
    requires |r.clients| == |w.clients| && n <= |w.clients|
    requires forall i :: 0 <= i < n ==>
               Alone(r, i).total == if i == to then Add(Alone(w, i).total, a) else Alone(w, i).total
    ensures AddedByFirst(r, n) == if to < n then Add(AddedByFirst(w, n), a) else AddedByFirst(w, n)
  {
    if n > 0 {
      AddedByOne(w, r, to, a, n - 1);
      AddRules(AddedByFirst(w, n - 1), a, Alone(w, n - 1).total);
      AddRules(AddedByFirst(w, n - 1), Alone(w, n - 1).total, a);
    }
  }

  lemma AloneAfter(w: World, m: Delivery, i: nat)
    requires Good(w) && m.to < |w.clients| && i < |w.clients|
    requires w.clients[m.to] == Alone(w, m.to).client
    ensures var r := Deliver(w, m);
            && Alone(r, i) == (if i == m.to then Count(Alone(w, i), m.data) else Alone(w, i))
            && (i == m.to ==> r.clients[i] == Alone(r, i).client)
  {
    InboxStep(w.heard, m, i);
    if i == m.to {
      WantsStep(w.clients[i], m.data);
      RunSnoc(Born(w.clients[i]), Inbox(w.heard, i), m.data);
    }
  }

  lemma DeliverTold(w: World, m: Delivery)
    requires Good(w) && m.to < |w.clients| && Told(w)
    ensures Told(Deliver(w, m))
  {
    var r, n := Deliver(w, m), |w.clients|;
    var a := React(w.clients[m.to], m.data).added;
    EachTold(w, n);
    EachTold(r, n);
    forall i | 0 <= i < n
      ensures r.clients[i] == Alone(r, i).client
      ensures Alone(r, i).total == if i == m.to then Add(Alone(w, i).total, a) else Alone(w, i).total
    {
      AloneAfter(w, m, i);
    }
    AddedByOne(w, r, m.to, a, n);
    AddRules(AddedByFirst(w, n), SkipCounts(w.skips), a);
  }

  lemma {:induction false} AddedBySame(w: World, r: World, n: nat)
    requires n <= |w.clients| && n <= |r.clients|
    requires forall i :: 0 <= i < n ==> Alone(r, i) == Alone(w, i)
    ensures AddedByFirst(r, n) == AddedByFirst(w, n)
  {
    if n > 0 {
      AddedBySame(w, r, n - 1);
    }
  }

  lemma {:induction false} NoneTo(script: seq<Delivery>, i: nat)
    requires forall j :: 0 <= j < |script| ==> script[j].to < i
    ensures Inbox(script, i) == []
  {
    if script != [] {
      NoneTo(script[..|script| - 1], i);
    }
  }

  /** A client joins, in a suite; it has not spoken. */
  function Joined(w: World, c: Client, k: nat): (r: World)
    requires Good(w) && k < |w.suites| && Reachable(c.phases)
    ensures Good(r)
  {
    w.(clients := w.clients + [c], home := w.home + [k])
  }

  lemma JoinTold(w: World, c: Client, k: nat)
    requires Good(w) && k < |w.suites| && c == Born(c) && Told(w)
    ensures Told(Joined(w, c, k))
  {
    var r, n := Joined(w, c, k), |w.clients|;
    EachTold(w, n);
    EachTold(r, n + 1);
    AddedBySame(w, r, n);
    NoneTo(w.heard, n);
    AddRules(AddedByFirst(w, n), AddedByFirst(w, n), AddedByFirst(w, n));
  }

  /** Suites and the tests passed over do not matter to the clients. */
  lemma SkipsTold(w: World, r: World, k: nat)
    requires Told(w) && r.clients == w.clients && r.heard == w.heard
    requires r.skips == w.skips + k && r.run == Add(w.run, SkipCounts(k))
    ensures Told(r)
  {
    var n := |w.clients|;
    EachTold(w, n);
    EachTold(r, n);
    AddedBySame(w, r, n);
    SkipsAdd(AddedByFirst(w, n), w.skips, k);
  }

  /** What a client is born with: the suite it belongs to, and what the author of its test declared. */
  datatype Entry = Entry(home: nat, wantSignal: int, wantExit: int)

  function EntriesOf(clients: seq<Client>, home: seq<nat>): (r: seq<Entry>)
    requires |clients| == |home|
    ensures |r| == |clients|
  {
    if clients == [] then []
    else
      var n := |clients| - 1;
      EntriesOf(clients[..n], home[..n]) + [Entry(home[n], clients[n].test.wantSignal, clients[n].test.wantExit)]
  }

  function Entries(w: World): seq<Entry>
    requires Good(w)
  {
    EntriesOf(w.clients, w.home)
  }

  lemma {:induction false} EntriesSame(clients: seq<Client>, others: seq<Client>, home: seq<nat>)
    requires |clients| == |others| == |home|
    requires forall i :: 0 <= i < |clients| ==> SameWants(clients[i].test, others[i].test)
    ensures EntriesOf(others, home) == EntriesOf(clients, home)
  {
    if clients != [] {
      var n := |clients| - 1;
      EntriesSame(clients[..n], others[..n], home[..n]);
    }
  }

  /** No message changes what a client was born with. */
  lemma DeliverKeepsEntries(w: World, m: Delivery)
    requires Good(w) && m.to < |w.clients|
    ensures Entries(Deliver(w, m)) == Entries(w)
  {
    WantsStep(w.clients[m.to], m.data);
    EntriesSame(w.clients, Deliver(w, m).clients, w.home);
  }

  lemma JoinEntries(w: World, c: Client, k: nat)
    requires Good(w) && k < |w.suites| && Reachable(c.phases)
    ensures Entries(Joined(w, c, k)) == Entries(w) + [Entry(k, c.test.wantSignal, c.test.wantExit)]
  {
    var r := Joined(w, c, k);
    assert r.clients[..|w.clients|] == w.clients && r.home[..|w.home|] == w.home;
  }

  /** The clients of the first suite, that of the external clients. */
  function Externals(entries: seq<Entry>): nat {
    if entries == [] then 0
    else Externals(entries[..|entries| - 1]) + if entries[|entries| - 1].home == 0 then 1 else 0
  }

  // ---- What follows from it ----------------------------------------------------------------------

  /** A record has as many failed asserts as its list shows. */
  lemma ToldRecords(w: World, i: nat)
    requires Told(w) && i < |w.clients|
    ensures w.clients[i].test.failedAsserts == Failures(w.clients[i].test.asserts)
  {
    EachTold(w, |w.clients|);
    var c := w.clients[i];
    RecordedAlways(c.test.wantSignal, c.test.wantExit, Inbox(w.heard, i));
  }

  /** Every client's own messages are orderly. */
  predicate AllOrderly(w: World) {
    forall i :: 0 <= i < |w.clients| ==> Orderly(Born(w.clients[i]), Inbox(w.heard, i))
  }

  lemma {:induction false} OrderlyCount(w: World, n: nat)
    requires n <= |w.clients| && AllOrderly(w)
    ensures AddedByFirst(w, n).nbTests == n == Verdicts(AddedByFirst(w, n))
  {
    if n > 0 {
      OrderlyCount(w, n - 1);
      var c := w.clients[n - 1];
      OrderlyIsJudgedOnce(c.test.wantSignal, c.test.wantExit, Inbox(w.heard, n - 1));
    }
  }

  /**
    Where every client's messages were orderly, the run counted every client and every test passed over
    once, and gave as many verdicts.
   */
  lemma ToldOrderly(w: World)
    requires Told(w) && AllOrderly(w)
    ensures w.run.nbTests == |w.clients| + w.skips == Verdicts(w.run)
  {
    EachTold(w, |w.clients|);
    OrderlyCount(w, |w.clients|);
  }
}
