/**
  Globs on the C heap. A node is a record with a type tag and three function pointers; every
  constructor copies its operands, and every derivative frees the trees it built on the way.
  Each routine is tied to the tree it denotes and to the exact set of live blocks it leaves.
 */
module GlobHeap {
  import opened CStrings
  import opened Globs
  import CharSets

  datatype Kind = KEmpty | KBlank | KChar | KCharset | KOr | KAnd | KStar | KPlus | KAt | KOpt | KSeq | KNot

  datatype NullableFn =
    | NoNullable | IsTrue | IsFalse | NullableChar | NullableOr | NullableSeq | NullableFirst | NullableNot

  datatype DeriveFn =
    | NoDerive | DeriveEmptyFn | DeriveBlankFn | DeriveCharFn | DeriveCsetFn | DeriveOrFn
    | DeriveSeqFn | DerivePlusFn | DeriveAtFn | DeriveNotFn | DeriveAndFn

  datatype CopyFn = NoCopy | CopyZero | CopyOne | CopyTwo

  datatype Tags = Tags(kind: Kind, nullable: NullableFn, derive: DeriveFn, copy: CopyFn)

  /** The tag and function pointers a tree's root must carry. */
  function TagsOf(g: Glob): Tags {
    match g
    case Empty => Tags(KEmpty, IsFalse, DeriveEmptyFn, CopyZero)
    case Blank => Tags(KBlank, IsTrue, DeriveBlankFn, CopyZero)
    case Chr(_) => Tags(KChar, NullableChar, DeriveCharFn, CopyZero)
    case Cset(_) => Tags(KCharset, IsFalse, DeriveCsetFn, CopyOne)
    case Or(_, _) => Tags(KOr, NullableOr, DeriveOrFn, CopyTwo)
    case And(_, _) => Tags(KAnd, NullableSeq, DeriveAndFn, CopyTwo)
    case Star(_) => Tags(KStar, IsTrue, DerivePlusFn, CopyOne)
    case Plus(_) => Tags(KPlus, NullableFirst, DerivePlusFn, CopyOne)
    case At(_) => Tags(KAt, NullableFirst, DeriveAtFn, CopyOne)
    case Opt(_) => Tags(KOpt, IsTrue, DeriveAtFn, CopyOne)
    case Seq(_, _) => Tags(KSeq, NullableSeq, DeriveSeqFn, CopyTwo)
    case Not(_) => Tags(KNot, NullableNot, DeriveNotFn, CopyOne)
  }

  predicate Binary(g: Glob) {
    g.Or? || g.And? || g.Seq?
  }

  predicate Unary(g: Glob) {
    g.Star? || g.Plus? || g.At? || g.Opt? || g.Not?
  }

  function Left(g: Glob): (l: Glob)
    requires Unary(g) || Binary(g)
    ensures l < g
  {
    match g
    case Or(a, _) => a
    case And(a, _) => a
    case Seq(a, _) => a
    case Star(p) => p
    case Plus(p) => p
    case At(p) => p
    case Opt(p) => p
    case Not(p) => p
  }

  function Right(g: Glob): (r: Glob)
    requires Binary(g)
    ensures r < g
  {
    match g
    case Or(_, b) => b
    case And(_, b) => b
    case Seq(_, b) => b
  }

  /** A block returned by the allocator: a glob record, or a duplicated string held in `chars`. */
  class Cell {
    var tags: Tags
    var c: Byte
    var cset: Cell?
    var first: Cell?
    var second: Cell?
    var chars: Str

    ghost var tree: Glob
    ghost var repr: set<Cell>

    ghost function Footprint(child: Cell?): set<Cell>
      reads child
    {
      if child == null then {} else child.repr
    }

    /** The cells in `repr` form exactly the tree `tree`, with no sharing inside it. */
    ghost predicate Shape()
      reads this, repr
      decreases repr, 0
    {
      && this in repr
      && tags == TagsOf(tree)
      && (first != null <==> Unary(tree) || Binary(tree))
      && (second != null <==> Binary(tree))
      && (cset != null <==> tree.Cset?)
      && (first != null ==>
            && first in repr && first.repr <= repr && this !in first.repr
            && first.tree == Left(tree) && first.Valid())
      && (second != null ==>
            && second in repr && second.repr <= repr && this !in second.repr
            && second.tree == Right(tree) && second.Valid())
      && (cset != null ==> cset in repr && cset != this && cset.chars == tree.cset)
      && (tree.Chr? ==> c == tree.c)
      && (first != null && second != null ==> first.repr !! second.repr)
      && repr == {this} + Footprint(first) + Footprint(second) + (if cset == null then {} else {cset})
    }

    /** `Shape` behind two calls, so that it is unfolded only on request, by `Open`. */
    ghost predicate Valid()
      reads this, repr
      decreases repr, 2
    {
      this in repr && Sealed()
    }

    ghost predicate Sealed()
      reads this, repr
      decreases repr, 1
    {
      Shape()
    }

    lemma Open()
      requires Valid()
      ensures Shape()
    {
      assert Sealed();
    }

    lemma SelfOwned()
      requires Valid()
      ensures this in repr
    {
    }

    lemma Tagged()
      requires Valid()
      ensures tags == TagsOf(tree)
    {
      Open();
    }

    lemma Operands()
      requires Valid() && Binary(tree)
      ensures first != null && first.Valid() && first.repr <= repr && first.tree == Left(tree)
      ensures second != null && second.Valid() && second.repr <= repr && second.tree == Right(tree)
    {
      Open();
    }

    lemma Seal()
      requires Shape()
      ensures Valid()
    {
      assert Sealed();
    }

    /** A record without operands. */
    constructor Leaf(tags: Tags, c: Byte, ghost tree: Glob)
      requires tags == TagsOf(tree) && !Unary(tree) && !Binary(tree) && !tree.Cset?
      requires tree.Chr? ==> c == tree.c
      ensures Valid() && this.tree == tree && repr == {this}
    {
      this.tags, this.c, this.chars, this.tree := tags, c, [], tree;
      first, second, cset := null, null, null;
      repr := {this};
      new;
      Seal();
    }

    /** A record owning a duplicated string. */
    constructor WithString(tags: Tags, dup: Cell, ghost tree: Glob)
      requires tags == TagsOf(tree) && tree.Cset? && dup.chars == tree.cset
      ensures Valid() && this.tree == tree && repr == {this, dup}
    {
      this.tags, this.c, this.chars, this.tree := tags, 'a', [], tree;
      first, second, cset := null, null, dup;
      repr := {this, dup};
      new;
      Seal();
    }

    constructor One(tags: Tags, pattern: Cell, ghost tree: Glob)
      requires tags == TagsOf(tree) && Unary(tree)
      requires pattern.Valid() && pattern.tree == Left(tree)
      ensures Valid() && this.tree == tree && repr == {this} + pattern.repr
    {
      this.tags, this.c, this.chars, this.tree := tags, 'a', [], tree;
      first, second, cset := pattern, null, null;
      repr := {this} + pattern.repr;
      new;
      Seal();
    }

    constructor Two(tags: Tags, a: Cell, b: Cell, ghost tree: Glob)
      requires tags == TagsOf(tree) && Binary(tree)
      requires a.Valid() && a.tree == Left(tree) && b.Valid() && b.tree == Right(tree) && a.repr !! b.repr
      ensures Valid() && this.tree == tree && repr == {this} + a.repr + b.repr
    {
      this.tags, this.c, this.chars, this.tree := tags, 'a', [], tree;
      first, second, cset := a, b, null;
      repr := {this} + a.repr + b.repr;
      new;
      Seal();
    }

    /** A duplicated string. */
    constructor Chars(s: Str)
      ensures chars == s
    {
      chars := s;
      tags, c, tree, repr := Tags(KEmpty, IsFalse, DeriveEmptyFn, CopyZero), 'a', Empty, {};
      first, second, cset := null, null, null;
    }
  }

  class Heap {
    /** The blocks allocated and not yet freed. */
    var live: set<Cell>

    /** The allocator hands out block `r`. */
    method Track(r: Cell)
      modifies this
      ensures live == old(live) + {r}
    {
      live := live + {r};
    }

    method Strdup(s: Str) returns (r: Cell)
      modifies this
      ensures fresh(r) && live == old(live) + {r} && r.chars == s
    {
      r := new Cell.Chars(s);
      live := live + {r};
    }

    /** Only a live block may be freed, so no block is freed twice. */
    method Free(r: Cell)
      requires r in live
      modifies this
      ensures live == old(live) - {r}
    {
      live := live - {r};
    }
  }

  /** A usable tree: well formed, every cell live. */
  ghost predicate Owned(h: Heap, g: Cell)
    reads h, g, g.repr
  {
    g.Valid() && g.repr <= h.live
  }

  /** The routine made `r`: a brand-new tree `t`, and no other block became or stopped being live. */
  twostate predicate Made(h: Heap, new r: Cell, t: Glob)
    reads h, r, r.repr
  {
    r.Valid() && fresh(r.repr) && r.tree == t && h.live == old(h.live) + r.repr
  }

  // ---- Freeing and copying ---------------------------------------------------------------

  method FreeGlob(h: Heap, tmp: Cell)
    requires Owned(h, tmp)
    modifies h
    ensures h.live == old(h.live) - tmp.repr
    decreases tmp.tree
  {
    tmp.Open();
    var first, second := tmp.first, tmp.second;
    if tmp.tags.kind != KChar && tmp.tags.kind != KCharset && first != null {
      FreeGlob(h, first);
    } else if tmp.tags.kind == KCharset {
      h.Free(tmp.cset);
    }
    if second != null {
      FreeGlob(h, second);
    }
    h.Free(tmp);
  }

  method CopyGlob(h: Heap, cpy: Cell) returns (tmp: Cell)
    requires Owned(h, cpy)
    modifies h
    ensures Made(h, tmp, cpy.tree)
    decreases cpy.tree
  {
    cpy.Open();
    if cpy.tags.copy == CopyZero {
      tmp := new Cell.Leaf(cpy.tags, cpy.c, cpy.tree);
    } else if cpy.tags.copy == CopyOne {
      if cpy.tags.kind != KCharset {
        var first := CopyGlob(h, cpy.first);
        tmp := new Cell.One(cpy.tags, first, cpy.tree);
      } else {
        var cset := h.Strdup(cpy.cset.chars);
        tmp := new Cell.WithString(cpy.tags, cset, cpy.tree);
      }
    } else {
      var first := CopyGlob(h, cpy.first);
      var second := CopyGlob(h, cpy.second);
      tmp := new Cell.Two(cpy.tags, first, second, cpy.tree);
    }
    h.Track(tmp);
  }

  // ---- Constructors -------------------------------------------------------------------------

  method GlobEmpty(h: Heap) returns (tmp: Cell)
    modifies h
    ensures Made(h, tmp, Empty)
  {
    tmp := new Cell.Leaf(Tags(KEmpty, IsFalse, DeriveEmptyFn, CopyZero), 'a', Empty);
    h.Track(tmp);
  }

  method GlobBlank(h: Heap) returns (tmp: Cell)
    modifies h
    ensures Made(h, tmp, Blank)
  {
    tmp := new Cell.Leaf(Tags(KBlank, IsTrue, DeriveBlankFn, CopyZero), 'a', Blank);
    h.Track(tmp);
  }

  method GlobChar(h: Heap, c: Byte) returns (tmp: Cell)
    modifies h
    ensures Made(h, tmp, Chr(c))
  {
    tmp := new Cell.Leaf(Tags(KChar, NullableChar, DeriveCharFn, CopyZero), c, Chr(c));
    h.Track(tmp);
  }

  method GlobCset(h: Heap, cset: Str) returns (tmp: Cell)
    modifies h
    ensures Made(h, tmp, Cset(cset))
  {
    var dup := h.Strdup(cset);
    tmp := new Cell.WithString(Tags(KCharset, IsFalse, DeriveCsetFn, CopyOne), dup, Cset(cset));
    h.Track(tmp);
  }

  method GlobOr(h: Heap, first: Cell, second: Cell) returns (tmp: Cell)
    requires Owned(h, first) && Owned(h, second)
    modifies h
    ensures Made(h, tmp, MkOr(first.tree, second.tree))
  {
    first.Tagged();
    second.Tagged();
    if first.tags.kind == KEmpty {
      tmp := CopyGlob(h, second);
    } else if second.tags.kind == KEmpty {
      tmp := CopyGlob(h, first);
    } else {
      var a := CopyGlob(h, first);
      var b := CopyGlob(h, second);
      tmp := new Cell.Two(Tags(KOr, NullableOr, DeriveOrFn, CopyTwo), a, b, Or(first.tree, second.tree));
      h.Track(tmp);
    }
  }

  method GlobAnd(h: Heap, first: Cell, second: Cell) returns (tmp: Cell)
    requires Owned(h, first) && Owned(h, second)
    modifies h
    ensures Made(h, tmp, MkAnd(first.tree, second.tree))
  {
    first.Tagged();
    second.Tagged();
    if first.tags.kind == KEmpty || second.tags.kind == KEmpty {
      tmp := GlobEmpty(h);
    } else {
      var a := CopyGlob(h, first);
      var b := CopyGlob(h, second);
      tmp := new Cell.Two(Tags(KAnd, NullableSeq, DeriveAndFn, CopyTwo), a, b, And(first.tree, second.tree));
      h.Track(tmp);
    }
  }

  method GlobStar(h: Heap, pattern: Cell) returns (tmp: Cell)
    requires Owned(h, pattern)
    modifies h
    ensures Made(h, tmp, Star(pattern.tree))
  {
    var p := CopyGlob(h, pattern);
    tmp := new Cell.One(Tags(KStar, IsTrue, DerivePlusFn, CopyOne), p, Star(pattern.tree));
    h.Track(tmp);
  }

  /** Built as a star and retagged: the derivative and copy pointers stay the star's. */
  method GlobPlus(h: Heap, pattern: Cell) returns (tmp: Cell)
    requires Owned(h, pattern)
    modifies h
    ensures Made(h, tmp, Plus(pattern.tree))
  {
    tmp := GlobStar(h, pattern);
    tmp.Open();
    tmp.tags := tmp.tags.(kind := KPlus, nullable := NullableFirst);
    tmp.tree := Plus(pattern.tree);
    tmp.Seal();
  }

  method GlobOpt(h: Heap, pattern: Cell) returns (tmp: Cell)
    requires Owned(h, pattern)
    modifies h
    ensures Made(h, tmp, Opt(pattern.tree))
  {
    var p := CopyGlob(h, pattern);
    tmp := new Cell.One(Tags(KOpt, IsTrue, DeriveAtFn, CopyOne), p, Opt(pattern.tree));
    h.Track(tmp);
  }

  /** Built as an option and retagged, unless it simplifies. */
  method GlobAt(h: Heap, pattern: Cell) returns (tmp: Cell)
    requires Owned(h, pattern)
    modifies h
    ensures Made(h, tmp, MkAt(pattern.tree))
  {
    pattern.Tagged();
    if pattern.tags.kind == KEmpty {
      tmp := GlobEmpty(h);
    } else if pattern.tags.kind == KBlank {
      tmp := GlobBlank(h);
    } else {
      tmp := GlobOpt(h, pattern);
      tmp.Open();
      tmp.tags := tmp.tags.(kind := KAt, nullable := NullableFirst);
      tmp.tree := At(pattern.tree);
      tmp.Seal();
    }
  }

  method GlobNot(h: Heap, pattern: Cell) returns (tmp: Cell)
    requires Owned(h, pattern)
    modifies h
    ensures Made(h, tmp, Not(pattern.tree))
  {
    var p := CopyGlob(h, pattern);
    tmp := new Cell.One(Tags(KNot, NullableNot, DeriveNotFn, CopyOne), p, Not(pattern.tree));
    h.Track(tmp);
  }

  method GlobSeq(h: Heap, first: Cell, second: Cell) returns (tmp: Cell)
    requires Owned(h, first) && Owned(h, second)
    modifies h
    ensures Made(h, tmp, MkSeq(first.tree, second.tree))
  {
    first.Tagged();
    second.Tagged();
    if first.tags.kind == KEmpty || second.tags.kind == KEmpty {
      tmp := GlobEmpty(h);
    } else if first.tags.kind == KBlank {
      tmp := CopyGlob(h, second);
    } else {
      var a := CopyGlob(h, first);
      var b := CopyGlob(h, second);
      tmp := new Cell.Two(Tags(KSeq, NullableSeq, DeriveSeqFn, CopyTwo), a, b, Seq(first.tree, second.tree));
      h.Track(tmp);
    }
  }

  // ---- Nullability and derivatives, through the function pointers -----------------------------

  method IsNullable(self: Cell) returns (b: bool)
    requires self.Valid()
    ensures b == Nullable(self.tree)
    decreases self.tree
  {
    self.Open();
    match self.tags.nullable {
      case IsFalse => b := false;
      case IsTrue => b := true;
      case NullableChar => b := self.c == '?' || self.c == '*';
      case NullableOr =>
        b := IsNullable(self.first);
        if !b { b := IsNullable(self.second); }
      case NullableSeq =>
        b := IsNullable(self.first);
        if b { b := IsNullable(self.second); }
      case NullableFirst => b := IsNullable(self.first);
      case NullableNot =>
        b := IsNullable(self.first);
        b := !b;
    }
  }

  method DeriveGlob(h: Heap, self: Cell, chr: Byte) returns (ret: Cell)
    requires Owned(h, self)
    modifies h
    ensures Made(h, ret, Derive(self.tree, chr))
    decreases self.tree, 1
  {
    self.Open();
    match self.tags.derive {
      case DeriveEmptyFn => ret := GlobEmpty(h);
      case DeriveBlankFn => ret := GlobEmpty(h);
      case DeriveCharFn => ret := DeriveChar(h, self, chr);
      case DeriveCsetFn => ret := DeriveCset(h, self, chr);
      case DeriveOrFn => ret := DeriveOr(h, self, chr);
      case DeriveSeqFn => ret := DeriveSequence(h, self, chr);
      case DerivePlusFn => ret := DerivePlus(h, self, chr);
      case DeriveAtFn => ret := DeriveAt(h, self, chr);
      case DeriveNotFn => ret := DeriveNot(h, self, chr);
      case DeriveAndFn => ret := DeriveAnd(h, self, chr);
    }
  }

  method DeriveChar(h: Heap, self: Cell, chr: Byte) returns (ret: Cell)
    requires Owned(h, self) && self.tags.derive == DeriveCharFn
    modifies h
    ensures Made(h, ret, Derive(self.tree, chr))
    decreases self.tree, 0
  {
    self.Open();
    if self.c == chr || self.c == '?' {
      ret := GlobBlank(h);
    } else if self.c == '*' {
      ret := CopyGlob(h, self);
    } else {
      ret := GlobEmpty(h);
    }
  }

  method DeriveCset(h: Heap, self: Cell, chr: Byte) returns (ret: Cell)
    requires Owned(h, self) && self.tags.derive == DeriveCsetFn
    modifies h
    ensures Made(h, ret, Derive(self.tree, chr))
    decreases self.tree, 0
  {
    self.Open();
    var hit := CharSets.ScanSet(self.cset.chars, chr);
    if hit {
      ret := GlobBlank(h);
    } else {
      ret := GlobEmpty(h);
    }
  }

  method DeriveAnd(h: Heap, self: Cell, chr: Byte) returns (ret: Cell)
    requires Owned(h, self) && self.tags.derive == DeriveAndFn
    modifies h
    ensures Made(h, ret, Derive(self.tree, chr))
    decreases self.tree, 0
  {
    self.Open();
    var d1 := DeriveGlob(h, self.first, chr);
    var d2 := DeriveGlob(h, self.second, chr);
    ret := GlobAnd(h, d1, d2);
    FreeGlob(h, d1);
    FreeGlob(h, d2);
  }

  method DeriveOr(h: Heap, self: Cell, chr: Byte) returns (ret: Cell)
    requires Owned(h, self) && self.tags.derive == DeriveOrFn
    modifies h
    ensures Made(h, ret, Derive(self.tree, chr))
    decreases self.tree, 0
  {
    self.Open();
    var d1 := DeriveGlob(h, self.first, chr);
    var d2 := DeriveGlob(h, self.second, chr);
    ret := GlobOr(h, d1, d2);
    FreeGlob(h, d1);
    FreeGlob(h, d2);
  }

  /** Shared by star and plus. */
  method DerivePlus(h: Heap, self: Cell, chr: Byte) returns (ret: Cell)
    requires Owned(h, self) && self.tags.derive == DerivePlusFn
    modifies h
    ensures Made(h, ret, Derive(self.tree, chr))
    decreases self.tree, 0
  {
    self.Open();
    var d := DeriveGlob(h, self.first, chr);
    var s := GlobStar(h, self.first);
    ret := GlobSeq(h, d, s);
    FreeGlob(h, s);
    FreeGlob(h, d);
  }

  method DeriveSequence(h: Heap, self: Cell, chr: Byte) returns (ret: Cell)
    requires Owned(h, self) && self.tags.derive == DeriveSeqFn
    modifies h
    ensures Made(h, ret, Derive(self.tree, chr))
    decreases self.tree, 0
  {
    self.Tagged();
    self.Operands();
    var nullable := IsNullable(self.first);
    var d1 := DeriveGlob(h, self.first, chr);
    if nullable {
      var d2 := DeriveGlob(h, self.second, chr);
      ret := SeqOrRest(h, d1, self.second, d2);
    } else {
      ret := GlobSeq(h, d1, self.second);
      FreeGlob(h, d1);
    }
  }

  /** Joins the two ways on for a nullable head, and frees both derivatives. */
  method SeqOrRest(h: Heap, d1: Cell, second: Cell, d2: Cell) returns (ret: Cell)
    requires Owned(h, d1) && Owned(h, second) && Owned(h, d2)
    requires d1.repr !! d2.repr
    modifies h
    ensures ret.Valid() && fresh(ret.repr) && ret.tree == MkOr(MkSeq(d1.tree, second.tree), d2.tree)
    ensures h.live == old(h.live) - d1.repr - d2.repr + ret.repr
  {
    var s := GlobSeq(h, d1, second);
    ret := GlobOr(h, s, d2);
    FreeGlob(h, s);
    FreeGlob(h, d1);
    FreeGlob(h, d2);
  }

  /** Shared by at and opt. */
  method DeriveAt(h: Heap, self: Cell, chr: Byte) returns (ret: Cell)
    requires Owned(h, self) && self.tags.derive == DeriveAtFn
    modifies h
    ensures Made(h, ret, Derive(self.tree, chr))
    decreases self.tree, 0
  {
    self.Open();
    var d := DeriveGlob(h, self.first, chr);
    ret := GlobAt(h, d);
    FreeGlob(h, d);
  }

  method DeriveNot(h: Heap, self: Cell, chr: Byte) returns (ret: Cell)
    requires Owned(h, self) && self.tags.derive == DeriveNotFn
    modifies h
    ensures Made(h, ret, Derive(self.tree, chr))
    decreases self.tree, 0
  {
    self.Open();
    var d := DeriveGlob(h, self.first, chr);
    ret := GlobNot(h, d);
    FreeGlob(h, d);
  }

  /** The matcher: decides the language of the tree and leaves the live blocks as they were. */
  method MatchGlob(h: Heap, self: Cell, s: Str) returns (ret: bool)
    requires Owned(h, self)
    modifies h
    ensures ret <==> In(self.tree, s)
    ensures h.live == old(h.live)
    decreases |s|
  {
    if |s| == 0 {
      ret := IsNullable(self);
      NullableCorrect(self.tree);
    } else {
      var tmp := DeriveGlob(h, self, s[0]);
      ret := MatchGlob(h, tmp, s[1..]);
      DeriveCorrect(self.tree, s[0], s[1..]);
      assert [s[0]] + s[1..] == s;
      FreeGlob(h, tmp);
    }
  }
}
