/**
  Globs: the trees of the derivative matcher, the language each tree denotes, and the proof
  that matching by simplified derivatives decides that language on every string.
 */
module Globs {
  import opened CStrings
  import CharSets

  datatype Glob =
    | Empty
    | Blank
    | Chr(c: Byte)
    | Cset(cset: Str)
    | Or(first: Glob, second: Glob)
    | And(first: Glob, second: Glob)
    | Star(pattern: Glob)
    | Plus(pattern: Glob)
    | At(pattern: Glob)
    | Opt(pattern: Glob)
    | Seq(first: Glob, second: Glob)
    | Not(pattern: Glob)

  // ---- Denotation ---------------------------------------------------------------------

  /** A literal denotes itself, except the two wildcards. */
  ghost predicate InChr(c: Byte, s: Str) {
    if c == '?' then |s| <= 1
    else if c == '*' then '*' !in s || (s[|s| - 1] == '*' && '*' !in s[..|s| - 1])
    else s == [c]
  }

  /** `s` is in the language of `g`. */
  ghost predicate In(g: Glob, s: Str)
    decreases g, 3
  {
    match g
    case Empty => false
    case Blank => s == []
    case Chr(c) => InChr(c, s)
    case Cset(cset) => |s| == 1 && CharSets.Accepts(cset, s[0])
    case Or(a, b) => In(a, s) || In(b, s)
    case And(a, b) => In(a, s) && In(b, s)
    case At(p) => In(p, s)
    case Opt(p) => s == [] || In(p, s)
    case Not(p) => !In(p, s)
    case _ => Divides(g, s)
  }

  /** `s` divides into parts as a sequence or a repetition asks. Its meaning is two calls down, so
      that proofs unfold it only on request. */
  ghost predicate Divides(g: Glob, s: Str)
    requires g.Seq? || g.Star? || g.Plus?
    decreases g, 2
  {
    DividesSealed(g, s)
  }

  ghost predicate DividesSealed(g: Glob, s: Str)
    requires g.Seq? || g.Star? || g.Plus?
    decreases g, 1
  {
    DividesStep(g, s)
  }

  ghost predicate DividesStep(g: Glob, s: Str)
    requires g.Seq? || g.Star? || g.Plus?
    decreases g, 0
  {
    match g
    case Seq(a, b) => exists k :: 0 <= k <= |s| && In(a, s[..k]) && In(b, s[k..])
    case Star(p) => exists parts :: Concat(parts) == s && AllIn(p, parts)
    case Plus(p) => exists parts :: parts != [] && Concat(parts) == s && AllIn(p, parts)
  }

  ghost predicate AllIn(g: Glob, parts: seq<Str>)
    decreases g, 4
  {
    forall i :: 0 <= i < |parts| ==> In(g, parts[i])
  }

  ghost predicate SameLanguage(g: Glob, h: Glob) {
    forall s :: In(g, s) <==> In(h, s)
  }

  ghost predicate SplitsAt(a: Glob, b: Glob, s: Str, k: nat) {
    k <= |s| && In(a, s[..k]) && In(b, s[k..])
  }

  ghost predicate Repeats(p: Glob, s: Str, parts: seq<Str>) {
    Concat(parts) == s && AllIn(p, parts)
  }

  lemma InSeq(a: Glob, b: Glob, s: Str)
    ensures In(Seq(a, b), s) <==> exists k :: SplitsAt(a, b, s, k)
  {
    var g := Seq(a, b);
    assert DividesSealed(g, s) <==> DividesStep(g, s);
    DividesInTwo(a, b, s);
  }

  lemma DividesInTwo(a: Glob, b: Glob, s: Str)
    ensures DividesStep(Seq(a, b), s) <==> exists k :: SplitsAt(a, b, s, k)
  {
    if k: nat :| SplitsAt(a, b, s, k) {
      assert 0 <= k <= |s| && In(a, s[..k]) && In(b, s[k..]);
    }
    if k :| 0 <= k <= |s| && In(a, s[..k]) && In(b, s[k..]) {
      assert SplitsAt(a, b, s, k);
    }
  }

  lemma InRepeat(p: Glob, s: Str)
    ensures In(Star(p), s) <==> exists parts :: Repeats(p, s, parts)
    ensures In(Plus(p), s) <==> exists parts :: parts != [] && Repeats(p, s, parts)
  {
    assert DividesSealed(Star(p), s) <==> DividesStep(Star(p), s);
    assert DividesSealed(Plus(p), s) <==> DividesStep(Plus(p), s);
    if parts :| Concat(parts) == s && AllIn(p, parts) {
      assert Repeats(p, s, parts);
    }
    if parts :| parts != [] && Concat(parts) == s && AllIn(p, parts) {
      assert Repeats(p, s, parts);
    }
  }

  // ---- The code's view: simplifying constructors, nullability, derivatives --------------

  function MkOr(a: Glob, b: Glob): Glob {
    if a.Empty? then b else if b.Empty? then a else Or(a, b)
  }

  function MkAnd(a: Glob, b: Glob): Glob {
    if a.Empty? || b.Empty? then Empty else And(a, b)
  }

  function MkAt(p: Glob): Glob {
    if p.Empty? then Empty else if p.Blank? then Blank else At(p)
  }

  function MkSeq(a: Glob, b: Glob): Glob {
    if a.Empty? || b.Empty? then Empty else if a.Blank? then b else Seq(a, b)
  }

  /** The simplifications do not change the language. */
  lemma Simplifies(a: Glob, b: Glob, s: Str)
    ensures In(MkOr(a, b), s) <==> In(a, s) || In(b, s)
    ensures In(MkAnd(a, b), s) <==> In(a, s) && In(b, s)
    ensures In(MkAt(a), s) <==> In(a, s)
    ensures In(MkSeq(a, b), s) <==> In(Seq(a, b), s)
  {
    if a.Blank? {
      InSeq(a, b, s);
      assert s[..0] == [] && s[0..] == s;
      if In(b, s) {
        assert SplitsAt(a, b, s, 0);
      }
    } else if a.Empty? || b.Empty? {
      InSeq(a, b, s);
    }
  }

  function Nullable(g: Glob): bool {
    match g
    case Empty | Cset(_) => false
    case Blank | Star(_) | Opt(_) => true
    case Chr(c) => c == '?' || c == '*'
    case Or(a, b) => Nullable(a) || Nullable(b)
    case And(a, b) => Nullable(a) && Nullable(b)
    case Seq(a, b) => Nullable(a) && Nullable(b)
    case Plus(p) => Nullable(p)
    case At(p) => Nullable(p)
    case Not(p) => !Nullable(p)
  }

  function Derive(g: Glob, chr: Byte): Glob {
    match g
    case Empty | Blank => Empty
    case Chr(c) => if c == chr || c == '?' then Blank else if c == '*' then g else Empty
    case Cset(cset) => if CharSets.Accepts(cset, chr) then Blank else Empty
    case Or(a, b) => MkOr(Derive(a, chr), Derive(b, chr))
    case And(a, b) => MkAnd(Derive(a, chr), Derive(b, chr))
    case Star(p) => MkSeq(Derive(p, chr), Star(p))
    case Plus(p) => MkSeq(Derive(p, chr), Star(p))
    case At(p) => MkAt(Derive(p, chr))
    case Opt(p) => MkAt(Derive(p, chr))
    case Seq(a, b) =>
      if Nullable(a) then MkOr(MkSeq(Derive(a, chr), b), Derive(b, chr))
      else MkSeq(Derive(a, chr), b)
    case Not(p) => Not(Derive(p, chr))
  }

  function Matches(g: Glob, s: Str): bool
    decreases |s|
  {
    if s == [] then Nullable(g) else Matches(Derive(g, s[0]), s[1..])
  }

  // ---- Matching decides the language -----------------------------------------------------

  lemma {:induction false} AllPartsEmpty(parts: seq<Str>)
    requires Concat(parts) == []
    ensures forall i :: 0 <= i < |parts| ==> parts[i] == []
  {
    if parts != [] {
      AllPartsEmpty(parts[1..]);
    }
  }

  lemma {:induction false} NullableCorrect(g: Glob)
    ensures Nullable(g) <==> In(g, [])
  {
    match g
    case Or(a, b) => NullableCorrect(a); NullableCorrect(b);
    case And(a, b) => NullableCorrect(a); NullableCorrect(b);
    case Seq(a, b) =>
      NullableCorrect(a);
      NullableCorrect(b);
      var e: Str := [];
      InSeq(a, b, e);
      assert e[..0] == [] && e[0..] == [];
      assert SplitsAt(a, b, e, 0) <==> In(a, []) && In(b, []);
    case Star(p) =>
      InRepeat(p, []);
      assert Repeats(p, [], []);
    case Plus(p) =>
      NullableCorrect(p);
      InRepeat(p, []);
      if In(p, []) {
        ConcatSingle([]);
        var parts: seq<Str> := [[]];
        assert parts != [] && Repeats(p, [], parts);
      }
      if In(g, []) {
        var parts :| parts != [] && Repeats(p, [], parts);
        AllPartsEmpty(parts);
        assert parts[0] == [];
      }
    case At(p) => NullableCorrect(p);
    case Not(p) => NullableCorrect(p);
    case _ =>
  }

  /** `a` takes the byte `c` and `k` bytes of `s`, and `b` takes the rest. */
  ghost predicate HeadAt(a: Glob, b: Glob, c: Byte, s: Str, k: nat) {
    k <= |s| && In(a, [c] + s[..k]) && In(b, s[k..])
  }

  lemma SplitAtHead(a: Glob, b: Glob, c: Byte, s: Str, k: nat)
    requires k <= |s|
    ensures SplitsAt(a, b, [c] + s, k + 1) <==> HeadAt(a, b, c, s, k)
  {
    assert ([c] + s)[..k + 1] == [c] + s[..k] && ([c] + s)[k + 1..] == s[k..];
  }

  lemma SplitAtStart(a: Glob, b: Glob, t: Str)
    ensures SplitsAt(a, b, t, 0) <==> In(a, []) && In(b, t)
  {
    assert t[..0] == [] && t[0..] == t;
  }

  /** A sequence consumes a byte in its first part, or in its second when the first is empty. */
  lemma SeqStep(a: Glob, b: Glob, c: Byte, s: Str)
    ensures In(Seq(a, b), [c] + s) <==>
              || (exists k :: HeadAt(a, b, c, s, k))
              || (In(a, []) && In(b, [c] + s))
  {
    InSeq(a, b, [c] + s);
    SplitAtStart(a, b, [c] + s);
    if k: nat :| k > 0 && SplitsAt(a, b, [c] + s, k) {
      SplitAtHead(a, b, c, s, k - 1);
    }
    if k: nat :| HeadAt(a, b, c, s, k) {
      SplitAtHead(a, b, c, s, k);
    }
  }

  /** A repetition consumes a byte in its first non-empty part. */
  lemma {:induction false} RepeatStep(p: Glob, parts: seq<Str>, c: Byte, s: Str) returns (k: nat)
    requires Concat(parts) == [c] + s && AllIn(p, parts)
    ensures k <= |s| && In(p, [c] + s[..k]) && In(Star(p), s[k..])
    decreases |parts|
  {
    var tail := parts[1..];
    assert AllIn(p, tail);
    if parts[0] == [] {
      k := RepeatStep(p, tail, c, s);
    } else {
      k := |parts[0]| - 1;
      assert parts[0] + Concat(tail) == [c] + s;
      assert parts[0] == ([c] + s)[..k + 1] == [c] + s[..k];
      assert Concat(tail) == ([c] + s)[k + 1..] == s[k..];
      assert In(p, parts[0]);
      InRepeat(p, s[k..]);
      assert Repeats(p, s[k..], tail);
    }
  }

  /** Putting one more part in front of a repetition. */
  lemma StarCons(p: Glob, head: Str, s: Str)
    requires In(p, head) && In(Star(p), s)
    ensures In(Star(p), head + s) && In(Plus(p), head + s)
  {
    InRepeat(p, s);
    var tail :| Repeats(p, s, tail);
    var parts := [head] + tail;
    assert parts[0] == head && parts[1..] == tail;
    InRepeat(p, head + s);
    assert parts != [] && Repeats(p, head + s, parts);
  }

  lemma StarStep(p: Glob, c: Byte, s: Str)
    ensures In(Star(p), [c] + s) <==> exists k :: HeadAt(p, Star(p), c, s, k)
    ensures In(Plus(p), [c] + s) <==> In(Star(p), [c] + s)
  {
    InRepeat(p, [c] + s);
    if In(Star(p), [c] + s) {
      StarHead(p, c, s);
    }
    if k: nat :| HeadAt(p, Star(p), c, s, k) {
      StarCons(p, [c] + s[..k], s[k..]);
      assert [c] + s[..k] + s[k..] == [c] + s;
    }
  }

  lemma StarHead(p: Glob, c: Byte, s: Str)
    requires In(Star(p), [c] + s)
    ensures In(Plus(p), [c] + s) && exists k :: HeadAt(p, Star(p), c, s, k)
  {
    InRepeat(p, [c] + s);
    var parts :| Repeats(p, [c] + s, parts);
    var k := RepeatStep(p, parts, c, s);
    assert HeadAt(p, Star(p), c, s, k);
  }

  lemma ChrStep(c: Byte, chr: Byte, s: Str)
    ensures In(Derive(Chr(c), chr), s) <==> InChr(c, [chr] + s)
  {
    var t := [chr] + s;
    if c == '*' {
      if s != [] {
        assert t[..|t| - 1] == [chr] + s[..|s| - 1];
        assert t[|t| - 1] == s[|s| - 1];
      }
      assert '*' in t <==> chr == '*' || '*' in s;
      if chr == '*' {
        assert t[0] == '*';
        if s != [] { assert t[..|t| - 1][0] == '*'; }
      }
    } else if s == [] {
      assert t == [chr];
    }
  }

  /** The derivative of a tree holds exactly the tails of the strings that start with the byte. */
  lemma {:induction false} DeriveCorrect(g: Glob, c: Byte, s: Str)
    ensures In(Derive(g, c), s) <==> In(g, [c] + s)
    decreases g, 3
  {
    match g
    case Empty =>
    case Blank =>
    case Chr(d) => ChrStep(d, c, s);
    case Cset(cset) =>
    case Or(a, b) =>
      DeriveCorrect(a, c, s);
      DeriveCorrect(b, c, s);
      DeriveJoins(a, b, c, s);
    case And(a, b) =>
      DeriveCorrect(a, c, s);
      DeriveCorrect(b, c, s);
      DeriveJoins(a, b, c, s);
    case At(p) =>
      DeriveCorrect(p, c, s);
      DeriveJoins(p, p, c, s);
    case Opt(p) =>
      DeriveCorrect(p, c, s);
      DeriveJoins(p, p, c, s);
    case Not(p) => DeriveCorrect(p, c, s);
    case Star(p) => DeriveStar(p, c, s);
    case Plus(p) => DeriveStar(p, c, s);
    case Seq(a, b) => DeriveSeq(a, b, c, s);
  }

  /** The step of the operators that read the same string with each operand. */
  lemma DeriveJoins(a: Glob, b: Glob, c: Byte, s: Str)
    requires In(Derive(a, c), s) <==> In(a, [c] + s)
    requires In(Derive(b, c), s) <==> In(b, [c] + s)
    ensures In(Derive(Or(a, b), c), s) <==> In(Or(a, b), [c] + s)
    ensures In(Derive(And(a, b), c), s) <==> In(And(a, b), [c] + s)
    ensures In(Derive(At(a), c), s) <==> In(At(a), [c] + s)
    ensures In(Derive(Opt(a), c), s) <==> In(Opt(a), [c] + s)
  {
    Simplifies(Derive(a, c), Derive(b, c), s);
  }

  lemma {:induction false} DeriveStar(p: Glob, c: Byte, s: Str)
    ensures In(MkSeq(Derive(p, c), Star(p)), s) <==> In(Star(p), [c] + s)
    ensures In(MkSeq(Derive(p, c), Star(p)), s) <==> In(Plus(p), [c] + s)
    decreases p, 5
  {
    StarStep(p, c, s);
    DeriveHead(p, Star(p), c, s);
    Simplifies(Derive(p, c), Star(p), s);
  }

  lemma {:induction false} DeriveSeq(a: Glob, b: Glob, c: Byte, s: Str)
    ensures In(Derive(Seq(a, b), c), s) <==> In(Seq(a, b), [c] + s)
    decreases Seq(a, b), 2
  {
    DeriveHead(a, b, c, s);
    DeriveCorrect(b, c, s);
    SeqDerived(Derive(a, c), Derive(b, c), a, b, c, s);
  }

  /** A sequence, from the derivatives `d` of its first part and `e` of its second. */
  lemma SeqDerived(d: Glob, e: Glob, a: Glob, b: Glob, c: Byte, s: Str)
    requires In(Seq(d, b), s) <==> exists k :: HeadAt(a, b, c, s, k)
    requires In(e, s) <==> In(b, [c] + s)
    ensures In(if Nullable(a) then Or(Seq(d, b), e) else Seq(d, b), s) <==> In(Seq(a, b), [c] + s)
    ensures In(if Nullable(a) then MkOr(MkSeq(d, b), e) else MkSeq(d, b), s) <==> In(Seq(a, b), [c] + s)
  {
    NullableCorrect(a);
    SeqStep(a, b, c, s);
    Simplifies(d, b, s);
    Simplifies(MkSeq(d, b), e, s);
  }

  lemma HeadSplits(d: Glob, a: Glob, b: Glob, c: Byte, s: Str)
    requires forall k :: 0 <= k <= |s| ==> (In(d, s[..k]) <==> In(a, [c] + s[..k]))
    ensures In(Seq(d, b), s) <==> exists k :: HeadAt(a, b, c, s, k)
  {
    InSeq(d, b, s);
    if k: nat :| SplitsAt(d, b, s, k) {
      assert HeadAt(a, b, c, s, k);
    }
    if k: nat :| HeadAt(a, b, c, s, k) {
      assert SplitsAt(d, b, s, k);
    }
  }

  /** The induction hypothesis on every prefix of `s`. */
  lemma {:induction false} DeriveHead(a: Glob, b: Glob, c: Byte, s: Str)
    ensures In(Seq(Derive(a, c), b), s) <==> exists k :: HeadAt(a, b, c, s, k)
    decreases a, 4
  {
    forall k | 0 <= k <= |s|
      ensures In(Derive(a, c), s[..k]) <==> In(a, [c] + s[..k])
    {
      DeriveCorrect(a, c, s[..k]);
    }
    HeadSplits(Derive(a, c), a, b, c, s);
  }

  /** Matcher correctness: on every tree and every string, the matcher's answer is membership. */
  lemma {:induction false} MatchesCorrect(g: Glob, s: Str)
    ensures Matches(g, s) <==> In(g, s)
    decreases |s|
  {
    if s == [] {
      NullableCorrect(g);
    } else {
      MatchesCorrect(Derive(g, s[0]), s[1..]);
      DeriveCorrect(g, s[0], s[1..]);
      assert [s[0]] + s[1..] == s;
    }
  }

  // ---- Simplification ------------------------------------------------------------------

  /** Derivatives as the textbook writes them, with no simplification. */
  function PlainDerive(g: Glob, chr: Byte): Glob {
    match g
    case Empty | Blank => Empty
    case Chr(c) => if c == chr || c == '?' then Blank else if c == '*' then g else Empty
    case Cset(cset) => if CharSets.Accepts(cset, chr) then Blank else Empty
    case Or(a, b) => Or(PlainDerive(a, chr), PlainDerive(b, chr))
    case And(a, b) => And(PlainDerive(a, chr), PlainDerive(b, chr))
    case Star(p) => Seq(PlainDerive(p, chr), Star(p))
    case Plus(p) => Seq(PlainDerive(p, chr), Star(p))
    case At(p) => At(PlainDerive(p, chr))
    case Opt(p) => At(PlainDerive(p, chr))
    case Seq(a, b) =>
      if Nullable(a) then Or(Seq(PlainDerive(a, chr), b), PlainDerive(b, chr)) else Seq(PlainDerive(a, chr), b)
    case Not(p) => Not(PlainDerive(p, chr))
  }

  function PlainDeriveAll(g: Glob, w: Str): Glob
    decreases |w|
  {
    if w == [] then g else PlainDeriveAll(PlainDerive(g, w[0]), w[1..])
  }

  function DeriveAll(g: Glob, w: Str): Glob
    decreases |w|
  {
    if w == [] then g else DeriveAll(Derive(g, w[0]), w[1..])
  }

  lemma {:induction false} PlainDeriveCorrect(g: Glob, c: Byte, s: Str)
    ensures In(PlainDerive(g, c), s) <==> In(g, [c] + s)
    decreases g, 3
  {
    match g
    case Empty =>
    case Blank =>
    case Chr(d) => ChrStep(d, c, s);
    case Cset(cset) =>
    case Or(a, b) =>
      PlainDeriveCorrect(a, c, s);
      PlainDeriveCorrect(b, c, s);
    case And(a, b) =>
      PlainDeriveCorrect(a, c, s);
      PlainDeriveCorrect(b, c, s);
    case At(p) => PlainDeriveCorrect(p, c, s);
    case Opt(p) => PlainDeriveCorrect(p, c, s);
    case Not(p) => PlainDeriveCorrect(p, c, s);
    case Star(p) =>
      StarStep(p, c, s);
      PlainDeriveHead(p, Star(p), c, s);
    case Plus(p) =>
      StarStep(p, c, s);
      PlainDeriveHead(p, Star(p), c, s);
    case Seq(a, b) => PlainDeriveSeq(a, b, c, s);
  }

  lemma {:induction false} PlainDeriveSeq(a: Glob, b: Glob, c: Byte, s: Str)
    ensures In(PlainDerive(Seq(a, b), c), s) <==> In(Seq(a, b), [c] + s)
    decreases Seq(a, b), 2
  {
    PlainDeriveHead(a, b, c, s);
    PlainDeriveCorrect(b, c, s);
    SeqDerived(PlainDerive(a, c), PlainDerive(b, c), a, b, c, s);
  }

  lemma {:induction false} PlainDeriveHead(a: Glob, b: Glob, c: Byte, s: Str)
    ensures In(Seq(PlainDerive(a, c), b), s) <==> exists k :: HeadAt(a, b, c, s, k)
    decreases a, 4
  {
    forall k | 0 <= k <= |s|
      ensures In(PlainDerive(a, c), s[..k]) <==> In(a, [c] + s[..k])
    {
      PlainDeriveCorrect(a, c, s[..k]);
    }
    HeadSplits(PlainDerive(a, c), a, b, c, s);
  }

  /** After any string of bytes, simplified and textbook derivatives still denote the same language. */
  lemma {:induction false} SimplificationSound(g: Glob, h: Glob, w: Str)
    requires SameLanguage(g, h)
    ensures SameLanguage(DeriveAll(g, w), PlainDeriveAll(h, w))
    decreases |w|
  {
    if w != [] {
      forall s
        ensures In(Derive(g, w[0]), s) <==> In(PlainDerive(h, w[0]), s)
      {
        DeriveCorrect(g, w[0], s);
        DeriveCorrect(h, w[0], s);
        PlainDeriveCorrect(h, w[0], s);
      }
      SimplificationSound(Derive(g, w[0]), PlainDerive(h, w[0]), w[1..]);
    }
  }

  // ---- The documented wildcards -----------------------------------------------------------

  /** Every other byte matches itself alone. */
  lemma LiteralsExactly(c: Byte, s: Str)
    requires c != '*' && c != '?'
    ensures Matches(Chr(c), s) <==> s == [c]
  {
    MatchesCorrect(Chr(c), s);
  }

  /**
    The manual says that `*` matches everything and `?` any character. `*` does so exactly on the
    strings with no `*` byte before the last position; `?` also matches the empty string.
   */
  lemma WildcardsExactly(s: Str)
    ensures Matches(Chr('*'), s) <==> s == [] || '*' !in s[..|s| - 1]
    ensures Matches(Chr('?'), s) <==> s == [] || |s| == 1
  {
    MatchesCorrect(Chr('*'), s);
    MatchesCorrect(Chr('?'), s);
    if s != [] {
      assert s == s[..|s| - 1] + [s[|s| - 1]];
    }
  }
}
