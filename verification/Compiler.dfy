/**
  The pattern compiler: a loop over the bytes with a fragment stack, a paren stack and two
  counters. The stacks encode the pattern read so far, so the compiler reads what the grammar
  reads, and the tree it returns is the pattern's.
 */
module Compiler {
  import opened Arithmetic
  import opened CStrings
  import opened Globs
  import opened GlobHeap
  import opened Patterns
  import opened Parser
  import opened Fragments

  // ---- The stacked trees of a pattern read so far -----------------------------------------------

  /** The atoms of a level: all joined into one tree, or the last one still on its own. */
  function AtomFrags(items: seq<Item>, atoms: nat): seq<Glob> {
    if items == [] then []
    else if |items| == 1 || atoms == 1 then [Build(items)]
    else [Build(items[..|items| - 1]), BuildItem(items[|items| - 1])]
  }

  function OpOf(outer: seq<Frame>): Byte {
    if outer == [] then '@' else outer[|outer| - 1].op
  }

  /** The stack for `z`, with up to `atoms` atoms of its level; unfolded on request, by `FragsUnfold`. */
  function FragsOf(z: Zipper, atoms: nat): seq<Glob>
    decreases |z.outer|, 3
  {
    FragsSealed(z, atoms)
  }

  function FragsSealed(z: Zipper, atoms: nat): seq<Glob>
    decreases |z.outer|, 2
  {
    FragsBody(z, atoms)
  }

  function FragsBody(z: Zipper, atoms: nat): seq<Glob>
    decreases |z.outer|, 1
  {
    OuterFrags(z.outer) + BuildAlts(OpOf(z.outer), z.alts) + AtomFrags(z.items, atoms)
  }

  /** An open frame keeps what its level had stacked, its atoms joined. */
  function OuterFrags(outer: seq<Frame>): seq<Glob>
    decreases |outer|, 0
  {
    if outer == [] then []
    else
      var f := outer[|outer| - 1];
      FragsOf(Zipper(outer[..|outer| - 1], f.alts, f.items), 1)
  }

  lemma FragsUnfold(z: Zipper, atoms: nat)
    ensures FragsOf(z, atoms) == OuterFrags(z.outer) + BuildAlts(OpOf(z.outer), z.alts) + AtomFrags(z.items, atoms)
  {
    assert FragsOf(z, atoms) == FragsSealed(z, atoms) == FragsBody(z, atoms);
  }

  /** Stack discipline: the depth is the sum of the counters over all open levels. */
  lemma {:induction false} FragsDepth(z: Zipper, atoms: nat)
    requires 1 <= atoms <= 2
    ensures |FragsOf(z, atoms)| == Depth(z, atoms)
    decreases |z.outer|
  {
    FragsUnfold(z, atoms);
    if z.outer != [] {
      var f := z.outer[|z.outer| - 1];
      FragsDepth(Zipper(z.outer[..|z.outer| - 1], f.alts, f.items), 1);
    }
  }

  lemma FragsAfterPush(z: Zipper, i: Item)
    ensures FragsOf(z, 1) + [BuildItem(i)] == FragsOf(Push(z, i), 2)
  {
    FragsUnfold(z, 1);
    FragsUnfold(Push(z, i), 2);
    var items := z.items + [i];
    assert items[..|z.items|] == z.items;
  }

  lemma FragsAfterOpen(z: Zipper, op: Byte)
    ensures FragsOf(z, 1) == FragsOf(Open(z, op), 2)
  {
    FragsUnfold(Open(z, op), 2);
    assert Open(z, op).outer[..|z.outer|] == z.outer;
  }

  /** Concatenating the stacked atoms of a level leaves one. */
  lemma FragsJoined(z: Zipper)
    ensures var n := Min(|z.items|, 2); n <= |FragsOf(z, 2)| && Joined(FragsOf(z, 2), n) == FragsOf(z, 1)
  {
    FragsUnfold(z, 1);
    FragsUnfold(z, 2);
    var lower := OuterFrags(z.outer) + BuildAlts(OpOf(z.outer), z.alts);
    assert FragsOf(z, 2)[..|lower|] == lower;
  }

  /** Closing an alternative puts the group's operator onto it. */
  lemma FragsAfterBar(z: Zipper)
    requires z.items != []
    ensures FragsOf(z, 1) != [] && Applied(OpOf(z.outer), FragsOf(z, 1)) == FragsOf(Bar(z), 2)
  {
    FragsUnfold(z, 1);
    FragsUnfold(Bar(z), 2);
    var lower := OuterFrags(z.outer) + BuildAlts(OpOf(z.outer), z.alts);
    assert FragsOf(z, 1)[..|lower|] == lower;
    assert (z.alts + [Pat(z.items)])[..|z.alts|] == z.alts;
  }

  /** Closing a group collapses its alternatives into one atom of the level outside. */
  lemma FragsAfterClose(z: Zipper)
    requires z.outer != [] && z.items != []
    ensures var t := FragsOf(Bar(z), 2);
            |t| > |z.alts| && Collapsed(OpOf(z.outer), t, |t| - |z.alts| - 1) == FragsOf(Close(z), 2)
  {
    FragsUnfold(Bar(z), 2);
    var op, lower := OpOf(z.outer), OuterFrags(z.outer);
    var each := BuildAlts(op, z.alts + [Pat(z.items)]);
    var t := FragsOf(Bar(z), 2);
    assert t == lower + each;
    assert t[..|lower|] == lower && t[|lower|..] == each;
    var init, f := z.outer[..|z.outer| - 1], z.outer[|z.outer| - 1];
    FragsAfterPush(Zipper(init, f.alts, f.items), Group(f.op, z.alts + [Pat(z.items)]));
    assert FragsOf(Zipper(init, f.alts, f.items), 1) == lower;
  }

  datatype Paren = Paren(alter: nat, atoms: nat, op: Byte)

  /** The entry of the paren stack for an open frame. */
  function ParenOf(f: Frame): Paren {
    Paren(|f.alts|, Min(|f.items|, 1), f.op)
  }

  /** The compiler's local variables. */
  class Compiler {
    const stack: FragStack
    const paren: array<Paren>
    var pa: nat
    var alter: nat
    var atoms: int
    ghost var z: Zipper

    /** The counters and both stacks stand for the pattern read so far. */
    ghost predicate Encodes()
      reads this, paren, stack, stack.h, stack.frags, stack.Cells()
    {
      && stack.Valid()
      && stack.trees == FragsOf(z, 2)
      && atoms == Min(|z.items|, 2)
      && alter == |z.alts|
      && pa == |z.outer| <= paren.Length == ARRAY_SIZE
      && forall k :: 0 <= k < pa ==> paren[k] == ParenOf(z.outer[k]) && IsOp(z.outer[k].op)
    }

    constructor (h: Heap)
      ensures Encodes() && z == START && fresh(paren) && fresh(stack) && fresh(stack.frags)
      ensures stack.h == h && stack.base == h.live && stack.frags[0] == null
    {
      stack := new FragStack(h);
      paren := new Paren[100](_ => Paren(0, 0, '@'));
      pa, alter, atoms, z := 0, 0, 0, START;
      FragsUnfold(START, 2);
    }

    method PushChar(c: Byte, ghost i: Item)
      requires Encodes() && BuildItem(i) == Chr(c) && Depth(z, 1) < ARRAY_SIZE
      modifies this, stack, stack.h, stack.frags
      ensures Encodes() && z == Push(old(z), i)
    {
      FragsDepth(z, 1);
      FragsJoined(z);
      FragsAfterPush(z, i);
      z := Push(z, i);
      atoms := stack.AddChar(atoms, c);
    }

    method PushCset(body: Str)
      requires Encodes() && Depth(z, 1) < ARRAY_SIZE
      modifies this, stack, stack.h, stack.frags
      ensures Encodes() && z == Push(old(z), Bracket(body))
    {
      FragsDepth(z, 1);
      FragsJoined(z);
      FragsAfterPush(z, Bracket(body));
      z := Push(z, Bracket(body));
      atoms := stack.AddCset(atoms, body);
    }

    method OpenGroup(op: Byte)
      requires Encodes() && IsOp(op) && pa < ARRAY_SIZE
      modifies this, paren, stack, stack.h, stack.frags
      ensures Encodes() && z == Open(old(z), op)
    {
      FragsJoined(z);
      FragsAfterOpen(z, op);
      atoms := stack.CatOne(atoms);
      paren[pa] := Paren(alter, atoms, op);
      pa, alter, atoms := pa + 1, 0, 0;
      z := Open(z, op);
    }

    method NextAlternative()
      requires Encodes() && pa > 0 && atoms > 0
      modifies this, stack, stack.h, stack.frags
      ensures Encodes() && z == Bar(old(z))
    {
      FragsJoined(z);
      FragsAfterBar(z);
      z := Bar(z);
      stack.EndAlternative(atoms, paren[pa - 1].op);
      atoms, alter := 0, alter + 1;
    }

    method CloseGroup()
      requires Encodes() && pa > 0 && atoms > 0
      modifies this, stack, stack.h, stack.frags
      ensures Encodes() && z == Close(old(z))
    {
      FragsJoined(z);
      FragsAfterBar(z);
      FragsAfterClose(z);
      z := Close(z);
      pa := pa - 1;
      stack.EndGroup(atoms, paren[pa].op, alter);
      atoms, alter := paren[pa].atoms + 1, paren[pa].alter;
    }

    /** One turn of the loop: takes one token at `i`, or finds an error there. */
    method Turn(pat: Str, i: nat) returns (next: nat, error: bool)
      requires Encodes() && i < |pat| && Step(z, pat[i..]) != Stop(Undefined)
      modifies this, paren, stack, stack.h, stack.frags
      ensures stack.Valid()
      ensures error <==> Step(old(z), pat[i..]).Stop?
      ensures !error ==> Encodes() && next <= |pat| && Step(old(z), pat[i..]) == Go(z, pat[next..])
    {
      var p := pat[i];
      error, next := false, i + 1;
      if IsOp(p) && next < |pat| && pat[next] == '(' {
        if pa >= ARRAY_SIZE {
          return next, true;
        }
        OpenGroup(p);
        next := next + 1;
      } else if p == '(' {
        error := true;
      } else if p == ')' {
        if pa == 0 || atoms == 0 {
          return next, true;
        }
        CloseGroup();
      } else if p == '[' {
        var end := IndexOf(pat[next..], ']');
        assert pat[i..][1..] == pat[next..];
        if next + end == |pat| {
          return next, true;
        }
        assert pat[next..][..end] == pat[next..next + end];
        PushCset(pat[next..next + end]);
        next := next + end + 1;
      } else if p == '|' {
        if atoms == 0 || pa == 0 {
          return next, true;
        }
        NextAlternative();
      } else if p == '\\' {
        PushChar(pat[next], Esc(pat[next]));
        next := next + 1;
      } else {
        PushChar(p, Lit(p));
      }
    }

    /** The end of the pattern: what is left is one tree, or, for the empty pattern, the null in the first slot. */
    method Finish() returns (r: Cell?)
      requires Encodes() && z.outer == [] && z.alts == []
      requires z == START ==> stack.frags[0] == null
      modifies this, stack, stack.h, stack.frags
      ensures z.items == [] ==> r == null && stack.h.live == stack.base
      ensures z.items != [] ==>
                && r != null && r.Valid() && r.tree == Build(old(z).items)
                && r.repr !! stack.base && stack.h.live == stack.base + r.repr
      ensures z == old(z)
    {
      FragsJoined(z);
      FragsUnfold(z, 1);
      atoms := stack.CatAll(atoms);
      r := stack.frags[0];
      assert stack.frag == |AtomFrags(z.items, 1)|;
      assert stack.frag == 1 ==> stack.Cells() == stack.reprs[0];
      assert stack.frag == 0 ==> stack.Cells() == {};
    }
  }

  /** There are no alternatives outside all groups. */
  predicate Rooted(z: Zipper) {
    if z.outer == [] then z.alts == [] else z.outer[0].alts == []
  }

  lemma StepRooted(z: Zipper, rest: Str)
    requires Rooted(z)
    ensures Step(z, rest).Go? ==> Rooted(Step(z, rest).z) && Step(z, rest).z != START
  {
  }

  /** `r` is the answer to `outcome`: the pattern's tree and nothing else new, or null and nothing new. */
  ghost predicate Answers(h: Heap, base: set<Cell>, outcome: Outcome, r: Cell?)
    reads h, r, if r == null then {} else r.repr
  {
    match outcome
    case Parsed(p) => r != null && r.Valid() && r.tree == Build(p) && r.repr !! base && h.live == base + r.repr
    case Rejected => r == null && h.live == base
    case Undefined => false
  }

  method Compile(h: Heap, pat: Str) returns (r: Cell?)
    requires !Parse(START, pat).Undefined?
    modifies h
    ensures Answers(h, old(h.live), Parse(START, pat), r)
  {
    var c := new Compiler(h);
    var i: nat := 0;
    assert pat[0..] == pat;
    while i < |pat|
      invariant 0 <= i <= |pat| && c.stack.h == h && c.stack.base == old(h.live)
      invariant fresh(c) && fresh(c.paren) && fresh(c.stack) && fresh(c.stack.frags)
      invariant c.Encodes() && Rooted(c.z)
      invariant c.z == START ==> c.stack.frags[0] == null
      invariant Parse(c.z, pat[i..]) == Parse(START, pat)
    {
      ParseUnfold(c.z, pat[i..]);
      StepRooted(c.z, pat[i..]);
      var error;
      i, error := c.Turn(pat, i);
      if error {
        c.stack.Cleanup();
        return null;
      }
    }
    ParseUnfold(c.z, pat[i..]);
    if c.pa != 0 {
      c.stack.Cleanup();
      return null;
    }
    r := c.Finish();
  }
}
