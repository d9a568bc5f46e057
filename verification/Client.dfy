/**
  The server's side of the protocol: client contexts with their packed phase state, the handlers,
  and the acknowledgement of every message.
 */
module Client {
  import opened Phases
  import opened Stats
  import opened Protocol

  /** The answers sent back, oldest first: true is a positive ack. */
  class Socket {
    var acks: seq<bool>

    constructor ()
      ensures acks == []
    {
      acks := [];
    }

    method SendAck(ok: bool)
      modifies this
      ensures acks == old(acks) + [ok]
    {
      acks := acks + [ok];
    }
  }

  datatype ClientKind = WORKER | EXTERN

  /** The arithmetic of the state update; `Advance` says what it means. */
  method NextState(state: bv32, kind: Kind) returns (next: bv32)
    ensures next == Next(state, kind)
  {
    if StateOf(kind) >= CS_END {
      if state >> 2 != 0 {
        next := state >> 2;
      } else {
        next := CS_END;
      }
    } else if kind == SETUP {
      next := state << 2;
    } else {
      next := state + 1;
    }
  }

  class ClientCtx {
    const kind: ClientKind
    const pid: int
    const gstats: GlobalStats
    const sstats: SuiteStats
    const tstats: TestStats
    var state: bv32
    var alive: bool
    ghost var phases: Stack

    /** The packed state is that of the phase stack. */
    ghost predicate Valid()
      reads this
    {
      Reachable(phases) && state == Pack(phases)
    }

    ghost function View(): Protocol.Client
      reads this, tstats
    {
      Protocol.Client(phases, alive, tstats.View())
    }

    constructor (kind: ClientKind, pid: int, gstats: GlobalStats, sstats: SuiteStats, tstats: TestStats)
      ensures Valid() && phases == START && !alive
      ensures this.kind == kind && this.pid == pid
      ensures this.gstats == gstats && this.sstats == sstats && this.tstats == tstats
    {
      this.kind, this.pid, this.gstats, this.sstats, this.tstats := kind, pid, gstats, sstats, tstats;
      state, alive, phases := 0, false, START;
      new;
      PackValue(START);
    }

    /** The state is a top-level one exactly when the stack has one level. */
    lemma TopLevel()
      requires Valid()
      ensures state < CS_MAX_CLIENT_STATES <==> |phases| == 1
      ensures |phases| == 1 ==> state == Code(phases[0])
      ensures |phases| == 2 ==> state == 4 | Code(phases[1])
      ensures state & (CS_MAX_CLIENT_STATES - 1) == Code(phases[|phases| - 1])
    {
      PackValue(phases);
    }

    /** The record was noted as `t`, then exactly the events `es` were pushed. */
    twostate predicate Pushed(t: TestView, es: Events)
      reads this, gstats, sstats, tstats
    {
      && tstats.View() == TestAfterAll(t, es)
      && gstats.n == Add(old(gstats.n), AddedByAll(t, es))
      && sstats.n == Add(old(sstats.n), AddedByAll(t, es))
      && sstats.tests == (if es == One(PreInit) then tstats else old(sstats.tests))
      && tstats.next == if es == One(PreInit) then old(sstats.tests) else old(tstats.next)
    }

    /** The client reacted to `d`: its context, its record and all three statistics moved as `React` says. */
    twostate predicate Reacted(d: Data)
      requires old(Valid())
      reads this, gstats, sstats, tstats
    {
      var r := React(old(View()), d);
      && Valid() && View() == r.client
      && gstats.n == Add(old(gstats.n), r.added)
      && sstats.n == Add(old(sstats.n), r.added)
      && gstats.warnings == old(gstats.warnings) + r.warnings
      && gstats.errors == old(gstats.errors) + r.errors
      && gstats.suites == old(gstats.suites) && gstats.nbSuites == old(gstats.nbSuites)
    }

    method Push(e: Event)
      requires e != PreSuite
      modifies gstats`n, sstats, tstats
      ensures Pushed(old(tstats.View()), One(e))
    {
      PushTestEvent(gstats, sstats, tstats, e);
    }

    method PushPostTestAndFini()
      modifies gstats`n, sstats, tstats
      ensures Pushed(old(tstats.View()), Two(PostTest, PostFini))
    {
      ghost var t, g, s := tstats.View(), gstats.n, sstats.n;
      Push(PostTest);
      Push(PostFini);
      AddRules(g, Added(t, PostTest), Added(TestAfter(t, PostTest), PostFini));
      AddRules(s, Added(t, PostTest), Added(TestAfter(t, PostTest), PostFini));
    }

    // ---- Phase handlers --------------------------------------------------------------------

    method HandlePreInit()
      requires Valid() && (phases == START || phases == [Main])
      modifies gstats`n, sstats, tstats
      ensures Pushed(Noted(phases, old(tstats.View()), SETUP), PhaseEvents(phases, SETUP))
    {
      TopLevel();
      if state == 0 {
        Push(PreInit);
      }
    }

    method HandlePreTest()
      requires Valid()
      modifies gstats`n, sstats, tstats
      ensures Pushed(Noted(phases, old(tstats.View()), MAIN), PhaseEvents(phases, MAIN))
    {
      TopLevel();
      if state < CS_MAX_CLIENT_STATES {
        Push(PreTest);
      }
    }

    method HandlePostTest()
      requires Valid()
      modifies gstats`n, sstats, tstats
      ensures Pushed(Noted(phases, old(tstats.View()), TEARDOWN), PhaseEvents(phases, TEARDOWN))
    {
      TopLevel();
      if state < CS_MAX_CLIENT_STATES {
        Push(PostTest);
      }
    }

    method HandlePostFini()
      requires Valid()
      modifies gstats`n, sstats, tstats
      ensures Pushed(Noted(phases, old(tstats.View()), END), PhaseEvents(phases, END))
    {
      TopLevel();
      if state < CS_MAX_CLIENT_STATES {
        Push(PostFini);
      }
    }

    method HandleAbort()
      requires Valid() && phases[|phases| - 1] != End
      modifies gstats`n, sstats, tstats
      ensures Pushed(Noted(phases, old(tstats.View()), ABORT), PhaseEvents(phases, ABORT))
    {
      TopLevel();
      var curstate := state & (CS_MAX_CLIENT_STATES - 1);
      if state < CS_MAX_CLIENT_STATES {
        tstats.status := Failed;
        if curstate < 2 {
          PushPostTestAndFini();
        } else if curstate < CS_END {
          Push(PostFini);
        }
      }
    }

    method HandleTimeout()
      requires Valid()
      modifies gstats`n, sstats, tstats
      ensures Pushed(Noted(phases, old(tstats.View()), TIMEOUT), PhaseEvents(phases, TIMEOUT))
    {
      TopLevel();
      if state < CS_MAX_CLIENT_STATES {
        tstats.timedOut := true;
        PushPostTestAndFini();
      }
    }

    method HandleSkip()
      requires Valid()
      modifies gstats`n, sstats, tstats
      ensures Pushed(Noted(phases, old(tstats.View()), SKIP), PhaseEvents(phases, SKIP))
    {
      TopLevel();
      if state < CS_MAX_CLIENT_STATES {
        tstats.status := Skipped;
        PushPostTestAndFini();
      }
    }

    /** The checks before a handler runs; a refusal is answered here. */
    method CheckPhase(sock: Socket, kind: Kind) returns (answered: bool)
      requires Valid()
      modifies sock
      ensures answered <==> StackMove(phases, kind) == Refused
      ensures sock.acks == if answered then old(sock.acks) + [false] else old(sock.acks)
    {
      PackedRefinesStack(phases, kind);
      var newState := StateOf(kind);
      var curstate := state & (CS_MAX_CLIENT_STATES - 1);
      if kind == SETUP {
        // Subtests open in main only; the second guard, on the depth, never holds on top of the first.
        if (state != 0 && state != CS_MAIN) || TooDeep(state) {
          sock.SendAck(false);
          return true;
        }
      } else if curstate == CS_END {
        sock.SendAck(false);
        return true;
      } else if curstate < CS_END && newState <= CS_END && newState != curstate + 1 {
        sock.SendAck(false);
        return true;
      }
      return false;
    }

    /** The state update after the handler: pops, pushes or steps the packed stack. */
    method Advance(kind: Kind)
      requires Valid() && StackMove(phases, kind).Moved?
      modifies this`state, this`phases
      ensures Valid() && phases == StackMove(old(phases), kind).stack
    {
      ghost var next := MoveOf(kind);
      var moved := NextState(state, kind);
      state := moved;
      phases := next;
    }

    lemma MoveOf(kind: Kind) returns (next: Stack)
      requires Valid() && StackMove(phases, kind).Moved?
      ensures next == StackMove(phases, kind).stack && Reachable(next) && Next(state, kind) == Pack(next)
    {
      PackedRefinesStack(phases, kind);
      next := StackMove(phases, kind).stack;
    }

    /** A phase message: checked, handled, and the packed state moved; answered here only when refused. */
    method HandlePhase(sock: Socket, kind: Kind) returns (answered: bool)
      requires Valid()
      modifies this`state, this`phases, sock, gstats`n, sstats, tstats
      ensures Reacted(PhaseChange(kind))
      ensures answered <==> !React(old(View()), PhaseChange(kind)).ok
      ensures sock.acks == if answered then old(sock.acks) + [false] else old(sock.acks)
      ensures answered ==> unchanged(this) && unchanged(gstats) && unchanged(sstats) && unchanged(tstats)
    {
      answered := CheckPhase(sock, kind);
      if !answered {
        RunHandler(kind);
        Advance(kind);
      }
    }

    method RunHandler(kind: Kind)
      requires Valid() && StackMove(phases, kind).Moved?
      modifies gstats`n, sstats, tstats
      ensures Pushed(Noted(phases, old(tstats.View()), kind), PhaseEvents(phases, kind))
    {
      match kind {
        case SETUP => HandlePreInit();
        case MAIN => HandlePreTest();
        case TEARDOWN => HandlePostTest();
        case END => HandlePostFini();
        case ABORT => HandleAbort();
        case TIMEOUT => HandleTimeout();
        case SKIP => HandleSkip();
      }
    }

    // ---- The other handlers ------------------------------------------------------------------

    method HandleDeath(result: DeathResult, status: int)
      requires Valid()
      modifies this`alive, gstats`n, gstats`warnings, sstats, tstats
      ensures Reacted(Death(result, status))
    {
      ghost var t := DeathNoted(phases, tstats.View(), result, status);
      alive := false;
      JudgeDeath(result, status);
      assert tstats.View() == TestAfterAll(t, DeathEvents(phases, t, result));
    }

    /** What the death means for the test, by the phase it finds. */
    method JudgeDeath(result: DeathResult, status: int)
      requires Valid()
      modifies gstats`n, gstats`warnings, sstats, tstats
      ensures var t := DeathNoted(phases, old(tstats.View()), result, status);
              Pushed(t, DeathEvents(phases, t, result))
      ensures gstats.warnings ==
              old(gstats.warnings) + if result == Crash && phases[|phases| - 1] != Main then 1 else 0
    {
      TopLevel();
      var curstate := state & (CS_MAX_CLIENT_STATES - 1);
      match result {
        case Crash =>
          if curstate != CS_MAIN {
            gstats.warnings := gstats.warnings + 1;
            if state < CS_MAIN {
              Push(TestCrash);
            }
          } else {
            tstats.signal := status;
            if tstats.wantSignal == 0 {
              Push(TestCrash);
            } else {
              PushPostTestAndFini();
            }
          }
        case Normal =>
          if curstate == 2 || state == 0 {
            if state == 0 {
              Push(TestCrash);
            }
          } else {
            tstats.exitCode := status;
            if state == CS_MAIN {
              PushPostTestAndFini();
            }
          }
        case Unknown =>
      }
    }

    method HandleStatistic(assertsPassed: bool, num: nat)
      requires Valid()
      modifies gstats`n, sstats`n, tstats
      ensures Reacted(Statistic(assertsPassed, num))
    {
      if assertsPassed {
        tstats.passedAsserts := tstats.passedAsserts + num;
        sstats.n := sstats.n.(assertsPassed := sstats.n.assertsPassed + num);
        sstats.n := sstats.n.(nbAsserts := sstats.n.nbAsserts + num);
        gstats.n := gstats.n.(assertsPassed := gstats.n.assertsPassed + num);
        gstats.n := gstats.n.(nbAsserts := gstats.n.nbAsserts + num);
      }
    }

    method HandleAssert(passed: bool)
      requires Valid()
      modifies gstats`n, sstats, tstats
      ensures Reacted(AssertDone(passed))
    {
      Push(Assert(passed));
    }

    method HandleMessage(severity: Severity)
      requires Valid()
      modifies gstats`warnings, gstats`errors
      ensures Reacted(Log(severity))
    {
      if severity == Warning {
        gstats.warnings := gstats.warnings + 1;
      }
      if severity == Error {
        gstats.errors := gstats.errors + 1;
      }
    }

    /** The dispatch of one message. A handler that did not answer is answered for, positively. */
    method ProcessClientMessageImpl(sock: Socket, d: Data)
      requires Valid()
      modifies this, sock, gstats, sstats, tstats
      ensures Reacted(d)
      ensures sock.acks == old(sock.acks) + [React(old(View()), d).ok]
      ensures !React(old(View()), d).ok ==> unchanged(this)
      ensures !React(old(View()), d).ok || d == Birth ==> unchanged(gstats) && unchanged(sstats) && unchanged(tstats)
    {
      var answered := false;
      match d {
        case Birth => alive := true;
        case PhaseChange(kind) => answered := HandlePhase(sock, kind);
        case Death(result, status) => HandleDeath(result, status);
        case AssertDone(passed) => HandleAssert(passed);
        case Statistic(asserts, num) => HandleStatistic(asserts, num);
        case Log(severity) => HandleMessage(severity);
        case NoValue =>
      }
      if !answered {
        sock.SendAck(true);
      }
    }
  }
}
