/**
  The compiler's fragment stack: an array of tree pointers filled from the bottom. Each routine
  says what it does to the stacked trees; the stack owns their cells, and nothing leaks.
 */
module Fragments {
  import opened CStrings
  import opened Globs
  import opened GlobHeap
  import Patterns
  import Parser

  ghost function UnionOf(reprs: seq<set<Cell>>): set<Cell> {
    set i, c | 0 <= i < |reprs| && c in reprs[i] :: c
  }

  ghost predicate Separate(reprs: seq<set<Cell>>) {
    forall i, j :: 0 <= i < j < |reprs| ==> reprs[i] !! reprs[j]
  }

  lemma UnionSnoc(reprs: seq<set<Cell>>, r: set<Cell>)
    ensures UnionOf(reprs + [r]) == UnionOf(reprs) + r
    ensures Separate(reprs) && UnionOf(reprs) !! r <==> Separate(reprs + [r])
  {
    var all := reprs + [r];
    assert all[|reprs|] == r;
    assert forall i :: 0 <= i < |reprs| ==> all[i] == reprs[i];
    if Separate(all) {
      forall i | 0 <= i < |reprs| ensures reprs[i] !! r {
        assert all[i] !! all[|reprs|];
      }
      assert forall i, j :: 0 <= i < j < |reprs| ==> all[i] !! all[j];
    }
  }

  lemma UnionUpTo(reprs: seq<set<Cell>>, k: nat)
    requires k < |reprs| && Separate(reprs)
    ensures UnionOf(reprs[..k + 1]) == UnionOf(reprs[..k]) + reprs[k]
    ensures reprs[k] <= UnionOf(reprs) && reprs[k] !! UnionOf(reprs[..k])
  {
    UnionSnoc(reprs[..k], reprs[k]);
    assert reprs[..k + 1] == reprs[..k] + [reprs[k]];
  }

  /** The slot holds a well-formed tree made of exactly these cells. */
  ghost predicate HoldsTree(slot: Cell?, repr: set<Cell>, tree: Glob)
    reads slot, repr
  {
    slot != null && slot.repr == repr && slot.Valid() && slot.tree == tree
  }

  /** The stack with its top two trees concatenated. */
  function JoinedTop(trees: seq<Glob>): seq<Glob>
    requires |trees| > 1
  {
    var n := |trees| - 2;
    trees[..n] + [MkSeq(trees[n], trees[n + 1])]
  }

  /** The stack once the atoms of the level are joined. */
  function Joined(trees: seq<Glob>, atoms: int): (r: seq<Glob>)
    requires atoms <= |trees|
    ensures |r| == if atoms > 1 then |trees| - 1 else |trees|
  {
    if atoms > 1 then JoinedTop(trees) else trees
  }

  /** The stack with the operator put onto its top tree. */
  function Applied(op: Byte, trees: seq<Glob>): (r: seq<Glob>)
    requires trees != []
    ensures |r| == |trees|
  {
    trees[..|trees| - 1] + [Patterns.Apply(op, trees[|trees| - 1])]
  }

  /** The stack with everything from slot `n` up joined as alternatives. */
  function Collapsed(op: Byte, gs: seq<Glob>, n: nat): (r: seq<Glob>)
    requires n < |gs|
    ensures |r| == n + 1
  {
    gs[..n] + [Patterns.JoinAll(op, gs[n..])]
  }

  lemma CollapseStep(op: Byte, gs: seq<Glob>, n: nat)
    requires n + 1 < |gs|
    ensures var t := Collapsed(op, gs, n + 1); t[..n] + [Patterns.Join(op, t[n], t[n + 1])] == Collapsed(op, gs, n)
  {
    assert gs[n..][1..] == gs[n + 1..];
    var t := Collapsed(op, gs, n + 1);
    assert t[..n] == gs[..n] && t[n] == gs[n];
  }

  class FragStack {
    const h: Heap
    const frags: array<Cell?>
    var frag: nat

    ghost var trees: seq<Glob>
    ghost var reprs: seq<set<Cell>>
    /** The blocks that were live before the stack existed. */
    ghost const base: set<Cell>

    ghost function Cells(): set<Cell>
      reads this
    {
      UnionOf(reprs)
    }

    /** The live blocks are the base, the stacked trees, and the trees held outside the stack. */
    ghost predicate Holds(hand: set<Cell>)
      reads this, h, frags, Cells()
    {
      && frags.Length == Parser.ARRAY_SIZE
      && |reprs| == |trees| == frag <= frags.Length
      && (forall i :: 0 <= i < frag ==> frags[i] in reprs[i] && HoldsTree(frags[i], reprs[i], trees[i]))
      && Separate(reprs)
      && base !! Cells() && base !! hand && Cells() !! hand
      && h.live == base + Cells() + hand
    }

    ghost predicate Valid()
      reads this, h, frags, Cells()
    {
      Holds({})
    }

    constructor (h: Heap)
      ensures Valid() && fresh(frags) && this.h == h && base == h.live
      ensures trees == [] && frags[0] == null
    {
      this.h := h;
      frags := new Cell?[100](_ => null);
      frag, trees, reprs := 0, [], [];
      base := h.live;
    }

    method Push(g: Cell, ghost hand: set<Cell>)
      requires Holds(hand + g.repr) && g.repr !! hand && g.Valid() && frag < Parser.ARRAY_SIZE
      modifies this, frags
      ensures Holds(hand) && trees == old(trees) + [g.tree]
    {
      assert Cells() !! g.repr && Cells() !! hand;
      UnionSnoc(reprs, g.repr);
      ghost var n, below := frag, Cells();
      frags[frag] := g;
      frag := frag + 1;
      trees, reprs := trees + [g.tree], reprs + [g.repr];
      forall i | 0 <= i < frag
        ensures frags[i] in reprs[i] && HoldsTree(frags[i], reprs[i], trees[i])
      {
        if i == n {
          g.SelfOwned();
        } else {
          assert frags[i] == old(frags[i]) && reprs[i] == old(reprs)[i] && trees[i] == old(trees)[i];
        }
      }
      assert Cells() == below + g.repr;
      assert base + Cells() + hand == base + below + (hand + g.repr);
    }

    method Pop(ghost hand: set<Cell>) returns (g: Cell)
      requires Holds(hand) && frag > 0
      modifies this
      ensures Holds(hand + g.repr) && g.Valid() && g.repr !! hand
      ensures trees == old(trees)[..old(frag) - 1] && g.tree == old(trees)[old(frag) - 1]
    {
      ghost var n := frag - 1;
      assert reprs == reprs[..n] + [reprs[n]];
      UnionSnoc(reprs[..n], reprs[n]);
      frag := frag - 1;
      g := frags[frag];
      trees, reprs := trees[..n], reprs[..n];
    }

    method PopTwo() returns (a: Cell, b: Cell)
      requires Valid() && frag > 1
      modifies this
      ensures Holds(b.repr + a.repr) && a.Valid() && b.Valid() && a.repr !! b.repr
      ensures var n := |old(trees)| - 2;
              trees == old(trees)[..n] && a.tree == old(trees)[n] && b.tree == old(trees)[n + 1]
    {
      b := Pop({});
      a := Pop(b.repr);
    }

    /** Frees a tree held outside the stack. */
    method Release(g: Cell, ghost hand: set<Cell>)
      requires Holds(hand + g.repr) && g.repr !! hand && g.Valid()
      modifies h
      ensures Holds(hand)
    {
      FreeGlob(h, g);
    }

    method MakeSeq(a: Cell, b: Cell, ghost hand: set<Cell>) returns (r: Cell)
      requires Holds(hand) && a.Valid() && b.Valid() && a.repr <= hand && b.repr <= hand
      modifies h
      ensures Holds(hand + r.repr) && r.repr !! hand && r.Valid()
      ensures r.tree == MkSeq(a.tree, b.tree)
    {
      r := GlobSeq(h, a, b);
    }

    /** Alternatives are joined by intersection under `!`, by union otherwise. */
    method MakeJoin(op: Byte, a: Cell, b: Cell, ghost hand: set<Cell>) returns (r: Cell)
      requires Holds(hand) && a.Valid() && b.Valid() && a.repr <= hand && b.repr <= hand
      modifies h
      ensures Holds(hand + r.repr) && r.repr !! hand && r.Valid()
      ensures r.tree == Patterns.Join(op, a.tree, b.tree)
    {
      if op == '!' {
        r := GlobAnd(h, a, b);
      } else {
        r := GlobOr(h, a, b);
      }
    }

    method HandleOperator(op: Byte, g: Cell, ghost hand: set<Cell>) returns (r: Cell)
      requires Holds(hand) && g.Valid() && g.repr <= hand && Patterns.IsOp(op)
      modifies h
      ensures Holds(hand + r.repr) && r.repr !! hand && r.Valid()
      ensures r.tree == Patterns.Apply(op, g.tree)
    {
      if op == '!' {
        r := GlobNot(h, g);
      } else if op == '*' {
        r := GlobStar(h, g);
      } else if op == '+' {
        r := GlobPlus(h, g);
      } else if op == '@' {
        r := GlobAt(h, g);
      } else {
        r := GlobOpt(h, g);
      }
    }

    method MakeChar(c: Byte) returns (r: Cell)
      requires Valid()
      modifies h
      ensures Holds(r.repr) && r.Valid() && r.tree == Chr(c)
    {
      r := GlobChar(h, c);
    }

    method MakeCset(cset: Str) returns (r: Cell)
      requires Valid()
      modifies h
      ensures Holds(r.repr) && r.Valid() && r.tree == Cset(cset)
    {
      r := GlobCset(h, cset);
    }

    /** Pushes the tree made from two popped trees, then frees those. */
    method PushJoined(r: Cell, a: Cell, b: Cell)
      requires Holds(b.repr + a.repr + r.repr) && a.repr !! b.repr && r.repr !! b.repr + a.repr
      requires r.Valid() && a.Valid() && b.Valid() && frag < Parser.ARRAY_SIZE
      modifies this, frags, h
      ensures Valid() && trees == old(trees) + [r.tree]
    {
      Push(r, b.repr + a.repr);
      Release(a, b.repr);
      Release(b, {});
    }

    /** The joining step of the concatenation macros: the top two trees become their sequence. */
    method Concatenate()
      requires Valid() && frag > 1
      modifies this, frags, h
      ensures Valid()
      ensures trees == JoinedTop(old(trees))
    {
      var a, b := PopTwo();
      var ab := MakeSeq(a, b, b.repr + a.repr);
      PushJoined(ab, a, b);
    }

    /** Joins the top two alternatives of a group. */
    method JoinTop(op: Byte)
      requires Valid() && frag > 1
      modifies this, frags, h
      ensures Valid()
      ensures var n := |old(trees)| - 2;
              trees == old(trees)[..n] + [Patterns.Join(op, old(trees)[n], old(trees)[n + 1])]
    {
      var a, b := PopTwo();
      var ab := MakeJoin(op, a, b, b.repr + a.repr);
      PushJoined(ab, a, b);
    }

    /** Puts the operator of a group onto the alternative at the top. */
    method ApplyTop(op: Byte)
      requires Valid() && frag > 0 && Patterns.IsOp(op)
      modifies this, frags, h
      ensures Valid()
      ensures trees == Applied(op, old(trees))
    {
      var a := Pop({});
      var r := HandleOperator(op, a, a.repr);
      Release(a, r.repr);
      Push(r, {});
    }

    /** `cat_one`: with two atoms stacked, joins them. */
    method CatOne(atoms: int) returns (left: int)
      requires Valid() && atoms <= 2 && atoms <= frag
      modifies this, frags, h
      ensures Valid()
      ensures left == if atoms > 1 then 1 else atoms
      ensures trees == Joined(old(trees), atoms)
    {
      left := atoms;
      if left > 1 {
        left := left - 1;
        Concatenate();
      }
    }

    /** `cat_all`: joins all the atoms of a level, of which there are never more than two. */
    method CatAll(atoms: int) returns (left: int)
      requires Valid() && 0 <= atoms <= 2 && atoms <= frag
      modifies this, frags, h
      ensures Valid()
      ensures left == if atoms > 0 then 0 else -1
      ensures trees == Joined(old(trees), atoms)
      ensures atoms <= 1 ==> unchanged(frags)
    {
      left := atoms - 1;
      while left > 0
        invariant Valid() && -1 <= left <= 1 && left <= frag - 1
        invariant left == 1 ==> trees == old(trees) && atoms == 2
        invariant left == 0 ==> trees == Joined(old(trees), atoms)
        invariant left == -1 ==> trees == old(trees) && atoms == 0
        invariant atoms <= 1 ==> unchanged(frags)
        decreases left
      {
        Concatenate();
        left := left - 1;
      }
    }

    /** Joins the alternatives of a closed group, from the last one back. */
    method JoinAlternatives(op: Byte, alter: nat)
      requires Valid() && alter < frag
      modifies this, frags, h
      ensures Valid()
      ensures trees == Collapsed(op, old(trees), |old(trees)| - alter - 1)
    {
      var k := alter;
      assert trees == Collapsed(op, trees, |trees| - 1);
      while k > 0
        invariant Valid() && 0 <= k <= alter
        invariant trees == Collapsed(op, old(trees), |old(trees)| - alter - 1 + k)
        decreases k
      {
        CollapseStep(op, old(trees), |old(trees)| - alter - 2 + k);
        JoinTop(op);
        k := k - 1;
      }
    }

    /** A literal: joins what is stacked of the level, and stacks the new atom. */
    method AddChar(atoms: int, c: Byte) returns (left: int)
      requires Valid() && atoms <= 2 && atoms <= frag && |Joined(trees, atoms)| < Parser.ARRAY_SIZE
      modifies this, frags, h
      ensures Valid() && left == if atoms > 1 then 2 else atoms + 1
      ensures trees == Joined(old(trees), atoms) + [Chr(c)]
    {
      left := CatOne(atoms);
      var g := MakeChar(c);
      Push(g, {});
      left := left + 1;
    }

    method AddCset(atoms: int, body: Str) returns (left: int)
      requires Valid() && atoms <= 2 && atoms <= frag && |Joined(trees, atoms)| < Parser.ARRAY_SIZE
      modifies this, frags, h
      ensures Valid() && left == if atoms > 1 then 2 else atoms + 1
      ensures trees == Joined(old(trees), atoms) + [Cset(body)]
    {
      left := CatOne(atoms);
      var g := MakeCset(body);
      Push(g, {});
      left := left + 1;
    }

    /** The end of an alternative: its atoms joined, the operator put on it. */
    method EndAlternative(atoms: int, op: Byte)
      requires Valid() && 0 < atoms <= 2 && atoms <= frag && Patterns.IsOp(op)
      modifies this, frags, h
      ensures Valid()
      ensures trees == Applied(op, Joined(old(trees), atoms))
    {
      var left := CatAll(atoms);
      ApplyTop(op);
    }

    method EndGroup(atoms: int, op: Byte, alter: nat)
      requires Valid() && 0 < atoms <= 2 && atoms <= frag && Patterns.IsOp(op)
      requires alter < |Joined(trees, atoms)|
      modifies this, frags, h
      ensures Valid()
      ensures var ended := Applied(op, Joined(old(trees), atoms));
              trees == Collapsed(op, ended, |ended| - alter - 1)
    {
      EndAlternative(atoms, op);
      ghost var ended := trees;
      JoinAlternatives(op, alter);
      assert trees == Collapsed(op, ended, |ended| - alter - 1);
    }

    /** The error exit: every stacked tree is freed, and the heap is back to its base. */
    method Cleanup()
      requires Valid()
      modifies h
      ensures h.live == base
    {
      var start := 0;
      while start != frag
        invariant 0 <= start <= frag
        invariant forall i :: start <= i < frag ==> HoldsTree(frags[i], reprs[i], trees[i])
        invariant h.live == base + (Cells() - UnionOf(reprs[..start]))
      {
        UnionUpTo(reprs, start);
        FreeGlob(h, frags[start]);
        start := start + 1;
      }
      assert reprs[..frag] == reprs;
    }
  }
}
