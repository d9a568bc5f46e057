/**
  The phase machine. A client's nested phases are a stack of two-bit codes packed into 32 bits;
  this module gives the stack, the packed transition, and the proof that they agree on every run.
 */
module Phases {

  datatype Phase = Setup | Main | Teardown | End

  /** The phase messages of the protocol, in the order of its states. */
  datatype Kind = SETUP | MAIN | TEARDOWN | END | ABORT | TIMEOUT | SKIP

  /** The innermost phase comes last. `[Setup]` stands both for a test not started and for one in setup. */
  type Stack = seq<Phase>

  datatype Move = Refused | Moved(stack: Stack)

  const START: Stack := [Setup]

  /** What the protocol means: subtests open inside `Main` only, phases come in order, a phase end pops. */
  function StackMove(st: Stack, kind: Kind): Move
    requires st != []
  {
    var outer, top := st[..|st| - 1], st[|st| - 1];
    match kind
    case SETUP => if st == START then Moved(START) else if st == [Main] then Moved([Main, Setup]) else Refused
    case MAIN => if top == Setup then Moved(outer + [Main]) else Refused
    case TEARDOWN => if top == Main then Moved(outer + [Teardown]) else Refused
    case END => if top == Teardown then Moved(if outer == [] then [End] else outer) else Refused
    case _ => if top == End then Refused else Moved(if outer == [] then [End] else outer)
  }

  // ---- The packed state ------------------------------------------------------------------

  function Code(p: Phase): bv32 {
    match p
    case Setup => 0
    case Main => 1
    case Teardown => 2
    case End => 3
  }

  function Pack(st: Stack): bv32 {
    if st == [] then 0 else (Pack(st[..|st| - 1]) << 2) | Code(st[|st| - 1])
  }

  function StateOf(kind: Kind): bv32 {
    match kind
    case SETUP => 0
    case MAIN => 1
    case TEARDOWN => 2
    case END => 3
    case ABORT => 4
    case TIMEOUT => 5
    case SKIP => 6
  }

  const CS_MAIN: bv32 := 1
  const CS_END: bv32 := 3
  const CS_MAX_CLIENT_STATES: bv32 := 4
  const MAX_TEST_DEPTH := 16

  /** The guard against nesting too deep: the topmost pair of bits is in use. */
  predicate TooDeep(state: bv32) {
    state & (3 << ((MAX_TEST_DEPTH - 1) * 2)) != 0
  }

  /** The checks made before any handler runs. */
  predicate Refuses(state: bv32, kind: Kind) {
    var cur := state & (CS_MAX_CLIENT_STATES - 1);
    if kind == SETUP then (state != 0 && state != CS_MAIN) || TooDeep(state)
    else cur == CS_END || (cur < CS_END && StateOf(kind) <= CS_END && StateOf(kind) != cur + 1)
  }

  /** The state update made after the handler. */
  function Next(state: bv32, kind: Kind): bv32 {
    if StateOf(kind) >= CS_END then (if state >> 2 != 0 then state >> 2 else CS_END)
    else if kind == SETUP then state << 2
    else state + 1
  }

  /** The stacks a run can reach: one level, or one subtest inside `Main`. */
  predicate Reachable(st: Stack) {
    (|st| == 1) || (|st| == 2 && st[0] == Main && st[1] != End)
  }

  lemma PackValue(st: Stack)
    requires Reachable(st)
    ensures |st| == 1 ==> Pack(st) == Code(st[0])
    ensures |st| == 2 ==> Pack(st) == 4 | Code(st[1])
    ensures Pack(st) <= 6
  {
    assert st[..0] == [];
    if |st| == 2 {
      assert st[..1] == [Main];
      assert [Main][..0] == [];
    }
  }

  /** The packed machine takes the same messages and makes the same moves as the stack, and never nests deeper. */
  lemma PackedRefinesStack(st: Stack, kind: Kind)
    requires Reachable(st)
    ensures Refuses(Pack(st), kind) <==> StackMove(st, kind) == Refused
    ensures StackMove(st, kind).Moved? ==>
              Reachable(StackMove(st, kind).stack) && Next(Pack(st), kind) == Pack(StackMove(st, kind).stack)
    ensures !TooDeep(Pack(st))
  {
    PackValue(st);
    if StackMove(st, kind).Moved? {
      PackValue(StackMove(st, kind).stack);
    }
  }

  // ---- Runs ----------------------------------------------------------------------------------

  /** A run of phase messages; a refused one changes nothing. */
  function PackedRun(state: bv32, kinds: seq<Kind>): bv32
    decreases |kinds|
  {
    if kinds == [] then state
    else PackedRun(if Refuses(state, kinds[0]) then state else Next(state, kinds[0]), kinds[1..])
  }

  function StackRun(st: Stack, kinds: seq<Kind>): (r: Stack)
    requires Reachable(st)
    ensures Reachable(r)
    decreases |kinds|
  {
    if kinds == [] then st
    else
      var m := StackMove(st, kinds[0]);
      StackRun(if m == Refused then st else m.stack, kinds[1..])
  }

  /**
    Every run from the initial state follows the stack, stays within 0..6, so that at most one
    subtest is open and the depth guard never fires, and never leaves the end state.
   */
  lemma {:induction false} PackedRunRefinesStack(st: Stack, kinds: seq<Kind>)
    requires Reachable(st)
    ensures PackedRun(Pack(st), kinds) == Pack(StackRun(st, kinds)) <= 6
    ensures !TooDeep(PackedRun(Pack(st), kinds))
    ensures st == [End] ==> PackedRun(Pack(st), kinds) == CS_END
    decreases |kinds|
  {
    PackValue(st);
    if kinds == [] {
      PackedRefinesStack(st, SETUP);
    } else {
      PackedRefinesStack(st, kinds[0]);
      var m := StackMove(st, kinds[0]);
      PackedRunRefinesStack(if m == Refused then st else m.stack, kinds[1..]);
    }
  }
}
