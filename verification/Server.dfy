/**
  The message server: the two client tables, the lookup of a message's sender, and the promise
  that every message gets exactly one answer.
 */
module Server {
  import opened Phases
  import opened Stats
  import opened Protocol
  import opened Client

  const PROTOCOL_V1 := 1

  /** Who sent a message: a child process, a named external client, or a malformed tag. */
  datatype Id = Pid(pid: int) | Uid(uid: string) | NoId

  datatype Message = Message(version: int, id: Id, data: Data)

  class ServerCtx {
    const socket: Socket
    const gstats: GlobalStats
    const externStats: SuiteStats
    var subprocesses: map<int, ClientCtx>
    var clients: map<string, ClientCtx>

    ghost predicate Valid()
      reads this, subprocesses.Values, clients.Values
    {
      && (forall p :: p in subprocesses ==> Proper(subprocesses[p], WORKER) && subprocesses[p].pid == p)
      && (forall u :: u in clients ==> Proper(clients[u], EXTERN) && clients[u].sstats == externStats)
    }

    ghost predicate Proper(c: ClientCtx, kind: ClientKind)
      reads this, c
    {
      c.Valid() && c.kind == kind && c.gstats == gstats
    }

    function Lookup(id: Id): ClientCtx?
      reads this
    {
      match id
      case Pid(p) => if p in subprocesses then subprocesses[p] else null
      case Uid(u) => if u in clients then clients[u] else null
      case NoId => null
    }

    /** The message is in the right version, and from a client that is known or that introduces itself. */
    predicate Identified(msg: Message)
      reads this
    {
      msg.version == PROTOCOL_V1 && (Lookup(msg.id) != null || (msg.id.Uid? && msg.data == Birth))
    }

    /** The message passes the version, identity and phase checks. */
    ghost predicate Accepted(msg: Message)
      requires Valid()
      reads this, subprocesses.Values, clients.Values, Record(msg.id)
    {
      Identified(msg) && (Lookup(msg.id) != null ==> React(Lookup(msg.id).View(), msg.data).ok)
    }

    ghost function Record(id: Id): set<object>
      reads this
    {
      if Lookup(id) == null then {} else {Lookup(id).tstats}
    }

    /** What the message may change: its sender, and the statistics its sender feeds. */
    ghost function Touched(msg: Message): set<object>
      reads this
    {
      var c := Lookup(msg.id);
      if !Identified(msg) then {}
      else if c == null then {gstats, externStats}
      else {c, c.gstats, c.sstats, c.tstats}
    }

    /**
      The message makes the code read the running time of a process that does not exist: a timeout
      of an external client's own test, which is not over.
     */
    predicate Faults(msg: Message)
      reads this, clients.Values
    {
      && msg.version == PROTOCOL_V1 && msg.id.Uid? && msg.id.uid in clients
      && msg.data == PhaseChange(TIMEOUT) && clients[msg.id.uid].state < CS_END
    }

    constructor (socket: Socket, gstats: GlobalStats)
      ensures Valid() && subprocesses == map[] && clients == map[]
      ensures this.socket == socket && this.gstats == gstats && fresh(externStats) && externStats.n == Zero()
    {
      this.socket, this.gstats := socket, gstats;
      externStats := new SuiteStats(-1);
      subprocesses, clients := map[], map[];
    }

    /** Registers a spawned worker under its pid. */
    method AddClientFromWorker(ctx: ClientCtx)
      requires Valid() && Proper(ctx, WORKER)
      modifies this`subprocesses
      ensures Valid() && subprocesses == old(subprocesses)[ctx.pid := ctx]
    {
      subprocesses := subprocesses[ctx.pid := ctx];
    }

    method RemoveClientByPid(pid: int)
      requires Valid()
      modifies this`subprocesses
      ensures Valid() && subprocesses == old(subprocesses) - {pid}
    {
      subprocesses := subprocesses - {pid};
    }

    method AddExternalClient(uid: string) returns (ctx: ClientCtx)
      requires Valid()
      modifies this`clients
      ensures Valid() && clients == old(clients)[uid := ctx]
      ensures fresh(ctx) && fresh(ctx.tstats) && ctx.View() == NewClient(0, 0)
      ensures Proper(ctx, EXTERN) && ctx.sstats == externStats
    {
      var tstats := new TestStats(0, 0);
      ctx := new ClientCtx(EXTERN, 0, gstats, externStats, tstats);
      clients := clients[uid := ctx];
    }

    /** The sender of a message, added if it introduces itself; a message without one is answered here. */
    method FindSender(msg: Message) returns (client: ClientCtx?)
      requires Valid()
      modifies this`clients, socket
      ensures Valid()
      ensures client != null <==> old(Identified(msg))
      ensures socket.acks == if client == null then old(socket.acks) + [false] else old(socket.acks)
      ensures client == null || old(Lookup(msg.id)) != null ==> clients == old(clients)
      ensures client != null && old(Lookup(msg.id)) != null ==> client == old(Lookup(msg.id))
      ensures client != null && old(Lookup(msg.id)) == null ==>
                && clients == old(clients)[msg.id.uid := client] && fresh(client) && fresh(client.tstats)
                && client.View() == NewClient(0, 0)
      ensures client != null ==> Proper(client, if msg.id.Pid? then WORKER else EXTERN)
      ensures client != null && msg.id.Uid? ==> client.sstats == externStats
    {
      if msg.version != PROTOCOL_V1 {
        socket.SendAck(false);
        return null;
      }
      client := null;
      match msg.id {
        case Pid(p) =>
          if p in subprocesses {
            client := subprocesses[p];
          } else {
            socket.SendAck(false);
          }
        case Uid(u) =>
          if u !in clients && msg.data == Birth {
            client := AddExternalClient(u);
          } else if u in clients {
            client := clients[u];
          } else {
            socket.SendAck(false);
          }
        case NoId =>
          socket.SendAck(false);
      }
    }

    /** The sender reacts, and the tables stay valid. */
    method Deliver(client: ClientCtx, d: Data)
      requires Valid() && client.Valid()
      modifies socket, client, client.gstats, client.sstats, client.tstats
      ensures Valid() && subprocesses == old(subprocesses) && clients == old(clients)
      ensures client.Reacted(d)
      ensures socket.acks == old(socket.acks) + [React(old(client.View()), d).ok]
      ensures !React(old(client.View()), d).ok ==> unchanged(client)
      ensures !React(old(client.View()), d).ok || d == Birth ==>
                unchanged(client.gstats) && unchanged(client.sstats) && unchanged(client.tstats)
    {
      client.ProcessClientMessageImpl(socket, d);
    }

    /**
      Takes one message. It gets exactly one answer, negative exactly when a check rejects it. A
      rejected message changes no client, test, suite or global statistic; an accepted one makes
      its sender react, and touches no other client.
     */
    method ProcessClientMessage(msg: Message) returns (client: ClientCtx?)
      requires Valid() && !Faults(msg)
      modifies this`clients, socket, Touched(msg)
      ensures Valid() && subprocesses == old(subprocesses)
      ensures socket.acks == old(socket.acks) + [old(Accepted(msg))]
      ensures client != null <==> old(Identified(msg))
      ensures !old(Accepted(msg)) ==>
                && clients == old(clients)
                && forall o :: o in old(Touched(msg)) ==> unchanged(o)
      ensures client != null ==> Proper(client, if msg.id.Pid? then WORKER else EXTERN)
      ensures msg.version == PROTOCOL_V1 && old(Lookup(msg.id)) != null ==>
                client == old(Lookup(msg.id)) && clients == old(clients) && client.Reacted(msg.data)
      ensures old(Identified(msg)) && old(Lookup(msg.id)) == null ==>
                && clients == old(clients)[msg.id.uid := client] && fresh(client) && fresh(client.tstats)
                && client.View() == NewClient(0, 0).(alive := true)
                && unchanged(gstats) && unchanged(externStats)
    {
      client := FindSender(msg);
      if client != null {
        Deliver(client, msg.data);
      }
    }
  }
}
