/**
  Extended glob patterns: their grammar, their meaning, the glob the compiler builds for them,
  and how the operator groups compare with the manual.
 */
module Patterns {
  import opened CStrings
  import opened Globs
  import CharSets

  datatype Pat = Pat(items: seq<Item>)

  datatype Item =
    | Lit(c: Byte)
    | Esc(c: Byte)
    | Bracket(body: Str)
    | Group(op: Byte, alts: seq<Pat>)

  predicate IsOp(c: Byte) {
    c == '!' || c == '?' || c == '@' || c == '*' || c == '+'
  }

  /** Bytes that never stand for themselves. */
  predicate Special(c: Byte) {
    c == '(' || c == ')' || c == '[' || c == '|' || c == '\\'
  }

  // ---- Grammar --------------------------------------------------------------------------

  /** Groups nest at most `depth` deep, and no alternative is empty. */
  predicate WellFormedItem(i: Item, depth: int)
    decreases i, 0
  {
    match i
    case Lit(c) => !Special(c)
    case Esc(_) => true
    case Bracket(body) => ']' !in body
    case Group(op, alts) => IsOp(op) && depth > 0 && alts != [] && WellFormedAlts(alts, depth - 1)
  }

  predicate WellFormed(items: seq<Item>, depth: int)
    decreases items, 1
  {
    items == [] || (WellFormed(items[..|items| - 1], depth) && WellFormedItem(items[|items| - 1], depth))
  }

  predicate WellFormedAlts(alts: seq<Pat>, depth: int)
    decreases alts, 2
  {
    alts == [] ||
    var last := alts[|alts| - 1].items;
    WellFormedAlts(alts[..|alts| - 1], depth) && last != [] && WellFormed(last, depth)
  }

  function ItemText(i: Item): (t: Str)
    ensures t != []
    decreases i, 0
  {
    match i
    case Lit(c) => [c]
    case Esc(c) => ['\\', c]
    case Bracket(body) => ['['] + body + [']']
    case Group(op, alts) =>
      if alts == [] then [op, '(', ')']
      else [op, '('] + (AltsText(alts[..|alts| - 1]) + (Text(alts[|alts| - 1].items) + [')']))
  }

  function Text(items: seq<Item>): Str
    decreases items, 1
  {
    if items == [] then [] else Text(items[..|items| - 1]) + ItemText(items[|items| - 1])
  }

  /** Alternatives already closed by a bar. */
  function AltsText(alts: seq<Pat>): Str
    decreases alts, 2
  {
    if alts == [] then [] else AltsText(alts[..|alts| - 1]) + Text(alts[|alts| - 1].items) + ['|']
  }

  // ---- Meaning --------------------------------------------------------------------------

  ghost predicate ItemMeans(i: Item, s: Str)
    decreases i, 0
  {
    match i
    case Lit(c) => InChr(c, s)
    case Esc(c) => InChr(c, s)
    case Bracket(body) => |s| == 1 && CharSets.Accepts(body, s[0])
    case Group(op, alts) =>
      if op == '!' then forall k :: 0 <= k < |alts| ==> !Means(alts[k].items, s)
      else exists k :: 0 <= k < |alts| && RepeatMeans(op, alts[k].items, s)
  }

  /** A string of the alternative, as many times as the operator allows. */
  ghost predicate RepeatMeans(op: Byte, items: seq<Item>, s: Str)
    decreases items, 2
  {
    if op == '*' then exists parts :: Concat(parts) == s && AllMean(items, parts)
    else if op == '+' then exists parts :: parts != [] && Concat(parts) == s && AllMean(items, parts)
    else if op == '@' then Means(items, s)
    else s == [] || Means(items, s)
  }

  ghost predicate AllMean(items: seq<Item>, parts: seq<Str>)
    decreases items, 1, 1
  {
    forall i :: 0 <= i < |parts| ==> Means(items, parts[i])
  }

  /** The string splits into one piece per item. */
  ghost predicate Means(items: seq<Item>, s: Str)
    decreases items, 1, 0
  {
    exists pieces: seq<Str> :: |pieces| == |items| && Concat(pieces) == s && PiecesMean(items, pieces)
  }

  ghost predicate PiecesMean(items: seq<Item>, pieces: seq<Str>)
    requires |pieces| == |items|
    decreases items, 0
  {
    forall i :: 0 <= i < |items| ==> ItemMeans(items[i], pieces[i])
  }

  // ---- The glob of a pattern --------------------------------------------------------------

  function Apply(op: Byte, g: Glob): Glob {
    if op == '!' then Not(g)
    else if op == '*' then Star(g)
    else if op == '+' then Plus(g)
    else if op == '@' then MkAt(g)
    else Opt(g)
  }

  function Join(op: Byte, a: Glob, b: Glob): Glob {
    if op == '!' then MkAnd(a, b) else MkOr(a, b)
  }

  function JoinAll(op: Byte, gs: seq<Glob>): Glob {
    if gs == [] then Blank
    else if |gs| == 1 then gs[0]
    else Join(op, gs[0], JoinAll(op, gs[1..]))
  }

  function BuildItem(i: Item): Glob
    decreases i, 0
  {
    match i
    case Lit(c) => Chr(c)
    case Esc(c) => Chr(c)
    case Bracket(body) => Cset(body)
    case Group(op, alts) => JoinAll(op, BuildAlts(op, alts))
  }

  function Build(items: seq<Item>): Glob
    decreases items, 1
  {
    if items == [] then Blank else MkSeq(Build(items[..|items| - 1]), BuildItem(items[|items| - 1]))
  }

  /** The operator goes onto every alternative by itself. */
  function BuildAlts(op: Byte, alts: seq<Pat>): (gs: seq<Glob>)
    ensures |gs| == |alts|
    decreases alts, 2
  {
    if alts == [] then []
    else BuildAlts(op, alts[..|alts| - 1]) + [Apply(op, Build(alts[|alts| - 1].items))]
  }

  // ---- The glob has the pattern's meaning ----------------------------------------------------

  lemma {:induction false} BuildAltsAt(op: Byte, alts: seq<Pat>, k: nat)
    requires k < |alts|
    ensures BuildAlts(op, alts)[k] == Apply(op, Build(alts[k].items))
  {
    if k < |alts| - 1 {
      BuildAltsAt(op, alts[..|alts| - 1], k);
    }
  }

  /** A joined list is the intersection of its members under `!`, and their union otherwise. */
  lemma {:induction false} JoinAllMeans(op: Byte, gs: seq<Glob>, s: Str)
    requires gs != []
    ensures op == '!' ==> (In(JoinAll(op, gs), s) <==> forall k :: 0 <= k < |gs| ==> In(gs[k], s))
    ensures op != '!' ==> (In(JoinAll(op, gs), s) <==> exists k :: 0 <= k < |gs| && In(gs[k], s))
  {
    if |gs| > 1 {
      var tail := gs[1..];
      JoinAllMeans(op, tail, s);
      Simplifies(gs[0], JoinAll(op, tail), s);
      assert forall k :: 1 <= k < |gs| ==> gs[k] == tail[k - 1];
      assert forall k :: 0 <= k < |tail| ==> tail[k] == gs[k + 1];
    }
  }

  lemma ApplyMeans(op: Byte, g: Glob, items: seq<Item>, s: Str)
    requires forall t :: In(g, t) <==> Means(items, t)
    ensures op == '!' ==> (In(Apply(op, g), s) <==> !Means(items, s))
    ensures op != '!' ==> (In(Apply(op, g), s) <==> RepeatMeans(op, items, s))
  {
    if op == '*' || op == '+' {
      RepeatApplies(op, g, items, s);
    } else {
      Simplifies(g, g, s);
    }
  }

  lemma RepeatApplies(op: Byte, g: Glob, items: seq<Item>, s: Str)
    requires op == '*' || op == '+'
    requires forall t :: In(g, t) <==> Means(items, t)
    ensures In(Apply(op, g), s) <==> RepeatMeans(op, items, s)
  {
    InRepeat(g, s);
    if parts :| Repeats(g, s, parts) && (op == '+' ==> parts != []) {
      assert AllMean(items, parts);
    }
    if parts :| Concat(parts) == s && AllMean(items, parts) && (op == '+' ==> parts != []) {
      assert Repeats(g, s, parts);
    }
  }

  ghost predicate SplitAt(init: seq<Item>, last: Item, s: Str, k: nat) {
    k <= |s| && Means(init, s[..k]) && ItemMeans(last, s[k..])
  }

  lemma MeansSplitOff(init: seq<Item>, last: Item, s: Str) returns (k: nat)
    requires Means(init + [last], s)
    ensures SplitAt(init, last, s, k)
  {
    var items, n := init + [last], |init|;
    var pieces :| |pieces| == |items| && Concat(pieces) == s && PiecesMean(items, pieces);
    var front := pieces[..n];
    ConcatAppend(front, [pieces[n]]);
    assert front + [pieces[n]] == pieces;
    ConcatSingle(pieces[n]);
    k := |Concat(front)|;
    assert s[..k] == Concat(front) && s[k..] == pieces[n];
    assert forall i :: 0 <= i < n ==> items[i] == init[i] && front[i] == pieces[i];
    assert PiecesMean(init, front);
    assert ItemMeans(items[n], pieces[n]);
  }

  lemma MeansSplitOn(init: seq<Item>, last: Item, s: Str, k: nat)
    requires SplitAt(init, last, s, k)
    ensures Means(init + [last], s)
  {
    var items, n := init + [last], |init|;
    var front: seq<Str> :| |front| == n && Concat(front) == s[..k] && PiecesMean(init, front);
    var pieces := front + [s[k..]];
    ConcatAppend(front, [s[k..]]);
    ConcatSingle(s[k..]);
    assert s[..k] + s[k..] == s;
    assert forall i :: 0 <= i < n ==> items[i] == init[i] && pieces[i] == front[i];
    assert PiecesMean(items, pieces);
  }

  /** One piece per item: pieces for all but the last item, then one for the last. */
  lemma MeansSplit(init: seq<Item>, last: Item, s: Str)
    ensures Means(init + [last], s) <==> exists k :: SplitAt(init, last, s, k)
  {
    var items := init + [last];
    if Means(items, s) {
      var k := MeansSplitOff(init, last, s);
    }
    if k: nat :| SplitAt(init, last, s, k) {
      MeansSplitOn(init, last, s, k);
    }
  }

  lemma {:induction false} BuildItemMeans(i: Item, depth: int, s: Str)
    requires WellFormedItem(i, depth)
    ensures In(BuildItem(i), s) <==> ItemMeans(i, s)
    decreases i, 0
  {
    if i.Group? {
      var gs := BuildAlts(i.op, i.alts);
      JoinAllMeans(i.op, gs, s);
      forall k | 0 <= k < |i.alts|
        ensures i.op == '!' ==> (In(gs[k], s) <==> !Means(i.alts[k].items, s))
        ensures i.op != '!' ==> (In(gs[k], s) <==> RepeatMeans(i.op, i.alts[k].items, s))
      {
        var items := i.alts[k].items;
        BuildAltsAt(i.op, i.alts, k);
        WellFormedAltsAt(i.alts, depth - 1, k);
        forall t ensures In(Build(items), t) <==> Means(items, t) {
          BuildMeans(items, depth - 1, t);
        }
        ApplyMeans(i.op, Build(items), items, s);
      }
    }
  }

  lemma {:induction false} WellFormedAltsAt(alts: seq<Pat>, depth: int, k: nat)
    requires WellFormedAlts(alts, depth) && k < |alts|
    ensures alts[k].items != [] && WellFormed(alts[k].items, depth)
  {
    if k < |alts| - 1 {
      WellFormedAltsAt(alts[..|alts| - 1], depth, k);
    }
  }

  /** The tree of a pattern denotes the pattern's meaning, piece by piece and group by group. */
  lemma {:induction false} BuildMeans(items: seq<Item>, depth: int, s: Str)
    requires WellFormed(items, depth)
    ensures In(Build(items), s) <==> Means(items, s)
    decreases items, 1
  {
    if items == [] {
      var none: seq<Str> := [];
      assert Concat(none) == [] && PiecesMean(items, none);
    } else {
      var init, last := items[..|items| - 1], items[|items| - 1];
      assert items == init + [last];
      forall k | 0 <= k <= |s|
        ensures SplitsAt(Build(init), BuildItem(last), s, k) <==> SplitAt(init, last, s, k)
      {
        BuildMeans(init, depth, s[..k]);
        BuildItemMeans(last, depth, s[k..]);
      }
      MeansSplit(init, last, s);
      InSeq(Build(init), BuildItem(last), s);
      Simplifies(Build(init), BuildItem(last), s);
    }
  }

  // ---- Groups against the manual --------------------------------------------------------------

  /** The language of a pattern list: any of its alternatives. */
  function AnyOf(alts: seq<Pat>): Glob {
    if alts == [] then Empty else Or(Build(alts[0].items), AnyOf(alts[1..]))
  }

  lemma {:induction false} AnyOfMeans(alts: seq<Pat>, s: Str)
    ensures In(AnyOf(alts), s) <==> exists k :: 0 <= k < |alts| && In(Build(alts[k].items), s)
  {
    if alts != [] {
      var tail := alts[1..];
      AnyOfMeans(tail, s);
      assert forall k :: 1 <= k < |alts| ==> alts[k] == tail[k - 1];
      assert forall k :: 0 <= k < |tail| ==> tail[k] == alts[k + 1];
    }
  }

  /** A group means its operator applied to each alternative. */
  lemma GroupMeans(op: Byte, alts: seq<Pat>, s: Str)
    requires alts != []
    ensures op == '!' ==>
              (In(BuildItem(Group(op, alts)), s) <==> forall k :: 0 <= k < |alts| ==> !In(Build(alts[k].items), s))
    ensures op != '!' ==>
              (In(BuildItem(Group(op, alts)), s) <==>
               exists k :: 0 <= k < |alts| && In(Apply(op, Build(alts[k].items)), s))
  {
    forall k | 0 <= k < |alts|
      ensures BuildAlts(op, alts)[k] == Apply(op, Build(alts[k].items))
    {
      BuildAltsAt(op, alts, k);
    }
    JoinedAlternatives(op, alts, BuildAlts(op, alts), s);
    assert BuildItem(Group(op, alts)) == JoinAll(op, BuildAlts(op, alts));
  }

  lemma JoinedAlternatives(op: Byte, alts: seq<Pat>, gs: seq<Glob>, s: Str)
    requires |gs| == |alts| > 0 && forall k :: 0 <= k < |alts| ==> gs[k] == Apply(op, Build(alts[k].items))
    ensures op == '!' ==>
              (In(JoinAll(op, gs), s) <==> forall k :: 0 <= k < |alts| ==> !In(Build(alts[k].items), s))
    ensures op != '!' ==>
              (In(JoinAll(op, gs), s) <==>
               exists k :: 0 <= k < |alts| && In(Apply(op, Build(alts[k].items)), s))
  {
    JoinAllMeans(op, gs, s);
  }

  lemma OnceApplies(op: Byte, g: Glob, s: Str)
    requires op == '?' || op == '@'
    ensures In(Apply(op, g), s) <==> In(g, s) || (op == '?' && s == [])
  {
    Simplifies(g, g, s);
  }

  lemma OnceGroupAt(op: Byte, alts: seq<Pat>, s: Str)
    requires alts != [] && (op == '?' || op == '@' || op == '!')
    ensures In(BuildItem(Group(op, alts)), s) <==> In(Apply(op, AnyOf(alts)), s)
  {
    GroupMeans(op, alts, s);
    AnyOfMeans(alts, s);
    if op != '!' {
      OnceApplies(op, AnyOf(alts), s);
      forall k | 0 <= k < |alts|
        ensures In(Apply(op, Build(alts[k].items)), s) <==> In(Build(alts[k].items), s) || (op == '?' && s == [])
      {
        OnceApplies(op, Build(alts[k].items), s);
      }
      assert op == '?' && s == [] ==> In(Apply(op, Build(alts[0].items)), s);
    }
  }

  /** What each operator does with the alternatives: how many strings of one of them in a row, or of none. */
  lemma GroupSays(op: Byte, alts: seq<Pat>, s: Str)
    requires alts != []
    ensures op == '!' ==>
              (In(BuildItem(Group(op, alts)), s) <==> forall k :: 0 <= k < |alts| ==> !In(Build(alts[k].items), s))
    ensures op == '@' ==>
              (In(BuildItem(Group(op, alts)), s) <==> exists k :: 0 <= k < |alts| && In(Build(alts[k].items), s))
    ensures op == '?' ==>
              (In(BuildItem(Group(op, alts)), s) <==>
               s == [] || exists k :: 0 <= k < |alts| && In(Build(alts[k].items), s))
    ensures op == '*' ==>
              (In(BuildItem(Group(op, alts)), s) <==>
               exists k, parts :: 0 <= k < |alts| && Repeats(Build(alts[k].items), s, parts))
    ensures op == '+' ==>
              (In(BuildItem(Group(op, alts)), s) <==>
               exists k, parts :: 0 <= k < |alts| && parts != [] && Repeats(Build(alts[k].items), s, parts))
  {
    GroupMeans(op, alts, s);
    forall k | 0 <= k < |alts|
      ensures op == '*' ==>
                (In(Apply(op, Build(alts[k].items)), s) <==> exists parts :: Repeats(Build(alts[k].items), s, parts))
      ensures op == '+' ==>
                (In(Apply(op, Build(alts[k].items)), s) <==>
                 exists parts :: parts != [] && Repeats(Build(alts[k].items), s, parts))
      ensures op == '@' || op == '?' ==>
                (In(Apply(op, Build(alts[k].items)), s) <==>
                 In(Build(alts[k].items), s) || (op == '?' && s == []))
    {
      InRepeat(Build(alts[k].items), s);
      if op == '@' || op == '?' {
        OnceApplies(op, Build(alts[k].items), s);
      }
    }
    assert op == '?' && s == [] ==> In(Apply(op, Build(alts[0].items)), s);
  }

  /** Which groups there are, and which bytes stand for themselves. */
  lemma GroupsAndLiterals(op: Byte, alts: seq<Pat>, c: Byte, depth: int)
    ensures WellFormedItem(Group(op, alts), depth) <==>
            && (op == '!' || op == '?' || op == '@' || op == '*' || op == '+') && depth > 0 && alts != []
            && forall k :: 0 <= k < |alts| ==> alts[k].items != [] && WellFormed(alts[k].items, depth - 1)
    ensures WellFormedItem(Lit(c), depth) <==> c != '(' && c != ')' && c != '[' && c != '|' && c != '\\'
  {
    AltsWellFormed(alts, depth - 1);
  }

  /** What single bytes mean, escaped or not: an escape does not make a wildcard a literal. */
  lemma BytesMean(c: Byte, s: Str)
    ensures ItemMeans(Esc(c), s) <==> ItemMeans(Lit(c), s)
    ensures c != '*' && c != '?' ==> (ItemMeans(Esc(c), s) <==> s == [c])
    ensures c == '*' ==> (ItemMeans(Esc(c), s) <==> s == [] || '*' !in s[..|s| - 1])
    ensures c == '?' ==> (ItemMeans(Esc(c), s) <==> |s| <= 1)
  {
    if c == '*' && s != [] {
      assert s == s[..|s| - 1] + [s[|s| - 1]];
    }
  }

  /** How items are written; alternatives of a group stand between bars. */
  lemma TextsSpelled(c: Byte, body: Str, op: Byte, first: Pat, second: Pat)
    ensures ItemText(Lit(c)) == [c] && ItemText(Esc(c)) == ['\\', c] && ItemText(Bracket(body)) == ['['] + body + [']']
    ensures ItemText(Group(op, [first])) == [op, '('] + Text(first.items) + [')']
    ensures ItemText(Group(op, [first, second])) == [op, '('] + Text(first.items) + ['|'] + Text(second.items) + [')']
  {
    assert [first][..0] == [] && [first, second][..1] == [first];
    assert AltsText([first]) == Text(first.items) + ['|'];
  }

  lemma {:induction false} AltsWellFormed(alts: seq<Pat>, depth: int)
    ensures WellFormedAlts(alts, depth) <==>
            forall k :: 0 <= k < |alts| ==> alts[k].items != [] && WellFormed(alts[k].items, depth)
  {
    if alts != [] {
      var n := |alts| - 1;
      AltsWellFormed(alts[..n], depth);
    }
  }

  /** For `?`, `@` and `!` the group is what the manual says: the operator on the whole pattern list. */
  lemma OnceGroupsAsDocumented(op: Byte, alts: seq<Pat>)
    requires alts != [] && (op == '?' || op == '@' || op == '!')
    ensures SameLanguage(BuildItem(Group(op, alts)), Apply(op, AnyOf(alts)))
  {
    forall s
      ensures In(BuildItem(Group(op, alts)), s) <==> In(Apply(op, AnyOf(alts)), s)
    {
      OnceGroupAt(op, alts, s);
    }
  }

  ghost predicate Concatenable(g: Glob) {
    forall u, v :: In(g, u) && In(g, v) ==> In(g, u + v)
  }

  lemma RepeatMonotone(p: Glob, q: Glob, s: Str)
    requires forall t :: In(p, t) ==> In(q, t)
    ensures In(Star(p), s) ==> In(Star(q), s)
    ensures In(Plus(p), s) ==> In(Plus(q), s)
  {
    assert forall parts :: AllIn(p, parts) ==> AllIn(q, parts);
    InRepeat(p, s);
    InRepeat(q, s);
    assert forall parts :: Repeats(p, s, parts) ==> Repeats(q, s, parts);
  }

  /** For `*` and `+` the group never accepts more than the manual says. */
  lemma RepeatGroupsWithinDocumented(op: Byte, alts: seq<Pat>, s: Str)
    requires alts != [] && (op == '*' || op == '+')
    requires In(BuildItem(Group(op, alts)), s)
    ensures In(Apply(op, AnyOf(alts)), s)
  {
    GroupMeans(op, alts, s);
    var k :| 0 <= k < |alts| && In(Apply(op, Build(alts[k].items)), s);
    forall t | In(Build(alts[k].items), t)
      ensures In(AnyOf(alts), t)
    {
      AnyOfMeans(alts, t);
    }
    RepeatMonotone(Build(alts[k].items), AnyOf(alts), s);
  }

  lemma StarsConcatenate(p: Glob, u: Str, v: Str)
    ensures In(Star(p), u) && In(Star(p), v) ==> In(Star(p), u + v)
    ensures In(Plus(p), u) && In(Plus(p), v) ==> In(Plus(p), u + v)
  {
    InRepeat(p, u);
    InRepeat(p, v);
    InRepeat(p, u + v);
    if In(Star(p), u) && In(Star(p), v) {
      var a :| Repeats(p, u, a);
      var b :| Repeats(p, v, b);
      RepeatsAppend(p, u, a, v, b);
    }
    if In(Plus(p), u) && In(Plus(p), v) {
      var a :| a != [] && Repeats(p, u, a);
      var b :| b != [] && Repeats(p, v, b);
      RepeatsAppend(p, u, a, v, b);
      assert a + b != [];
    }
  }

  lemma RepeatsAppend(p: Glob, u: Str, a: seq<Str>, v: Str, b: seq<Str>)
    requires Repeats(p, u, a) && Repeats(p, v, b)
    ensures Repeats(p, u + v, a + b)
  {
    ConcatAppend(a, b);
  }

  /** A language closed under concatenation holds every non-empty repetition of its own strings. */
  lemma {:induction false} RepeatWithin(g: Glob, parts: seq<Str>)
    requires Concatenable(g) && parts != [] && AllIn(g, parts)
    ensures In(g, Concat(parts))
    decreases |parts|
  {
    if |parts| == 1 {
      ConcatSingle(parts[0]);
      assert parts == [parts[0]];
    } else {
      var tail := parts[1..];
      assert AllIn(g, tail);
      RepeatWithin(g, tail);
      assert In(g, parts[0]);
    }
  }

  /** One string of one alternative is in the group. */
  lemma OnePartInGroup(op: Byte, alts: seq<Pat>, s: Str)
    requires alts != [] && (op == '*' || op == '+') && In(AnyOf(alts), s)
    ensures In(BuildItem(Group(op, alts)), s)
  {
    AnyOfMeans(alts, s);
    var k :| 0 <= k < |alts| && In(Build(alts[k].items), s);
    var one: seq<Str> := [s];
    ConcatSingle(s);
    InRepeat(Build(alts[k].items), s);
    assert one != [] && Repeats(Build(alts[k].items), s, one);
    assert In(Apply(op, Build(alts[k].items)), s);
    GroupMeans(op, alts, s);
  }

  /** For `*` and `+` the group is what the manual says exactly when its own language concatenates. */
  lemma RepeatGroupsAsDocumentedExactly(op: Byte, alts: seq<Pat>)
    requires alts != [] && (op == '*' || op == '+')
    ensures var g := BuildItem(Group(op, alts));
            SameLanguage(g, Apply(op, AnyOf(alts))) <==> Concatenable(g)
  {
    var g, doc := BuildItem(Group(op, alts)), Apply(op, AnyOf(alts));
    if SameLanguage(g, doc) {
      forall u, v | In(g, u) && In(g, v)
        ensures In(g, u + v)
      {
        StarsConcatenate(AnyOf(alts), u, v);
        assert In(doc, u + v);
      }
    }
    if Concatenable(g) {
      forall s
        ensures In(g, s) <==> In(doc, s)
      {
        if In(g, s) {
          RepeatGroupsWithinDocumented(op, alts, s);
        }
        if In(doc, s) {
          InRepeat(AnyOf(alts), s);
          var parts :| Repeats(AnyOf(alts), s, parts) && (op == '+' ==> parts != []);
          if parts == [] {
            InRepeat(Build(alts[0].items), []);
            assert Repeats(Build(alts[0].items), [], []);
            GroupMeans(op, alts, s);
          } else {
            forall i | 0 <= i < |parts| ensures In(g, parts[i]) { OnePartInGroup(op, alts, parts[i]); }
            RepeatWithin(g, parts);
          }
        }
      }
    }
  }

  /** The string is in some alternative's own repetition. */
  ghost predicate InSome(op: Byte, alts: seq<Pat>, s: Str) {
    exists k :: 0 <= k < |alts| && In(Apply(op, Build(alts[k].items)), s)
  }

  /**
    A string of one alternative, followed by any repetition of strings of the alternatives, is
    again in some alternative's own repetition.
   */
  ghost predicate Absorbs(op: Byte, alts: seq<Pat>) {
    forall i, u: Str, v: Str ::
      0 <= i < |alts| && In(Build(alts[i].items), u) && In(Star(AnyOf(alts)), v) ==> InSome(op, alts, u + v)
  }

  /** For `*` and `+` the group is what the manual says exactly when its alternatives absorb one another. */
  lemma RepeatGroupsByAlternatives(op: Byte, alts: seq<Pat>)
    requires alts != [] && (op == '*' || op == '+')
    ensures SameLanguage(BuildItem(Group(op, alts)), Apply(op, AnyOf(alts))) <==> Absorbs(op, alts)
  {
    var g, doc := BuildItem(Group(op, alts)), Apply(op, AnyOf(alts));
    if SameLanguage(g, doc) {
      forall i, u: Str, v: Str | 0 <= i < |alts| && In(Build(alts[i].items), u) && In(Star(AnyOf(alts)), v)
        ensures InSome(op, alts, u + v)
      {
        AnyOfMeans(alts, u);
        StarCons(AnyOf(alts), u, v);
        assert In(doc, u + v);
        GroupMeans(op, alts, u + v);
      }
    }
    if Absorbs(op, alts) {
      forall s
        ensures In(g, s) <==> In(doc, s)
      {
        if In(g, s) {
          RepeatGroupsWithinDocumented(op, alts, s);
        }
        if In(doc, s) {
          AbsorbedInGroup(op, alts, s);
        }
      }
    }
  }

  lemma AbsorbedInGroup(op: Byte, alts: seq<Pat>, s: Str)
    requires alts != [] && (op == '*' || op == '+') && Absorbs(op, alts) && In(Apply(op, AnyOf(alts)), s)
    ensures In(BuildItem(Group(op, alts)), s)
  {
    GroupMeans(op, alts, s);
    InRepeat(AnyOf(alts), s);
    var parts :| Repeats(AnyOf(alts), s, parts) && (op == '+' ==> parts != []);
    if parts == [] {
      InRepeat(Build(alts[0].items), []);
      assert Repeats(Build(alts[0].items), [], []);
      assert In(Apply(op, Build(alts[0].items)), s);
    } else {
      var u, v := parts[0], Concat(parts[1..]);
      InRepeat(AnyOf(alts), v);
      assert Repeats(AnyOf(alts), v, parts[1..]);
      AnyOfMeans(alts, u);
      assert InSome(op, alts, u + v);
    }
  }

  /** One alternative whose own repetition takes in all the others makes the group as documented. */
  lemma DominatedGroupsAsDocumented(op: Byte, alts: seq<Pat>, k: nat)
    requires (op == '*' || op == '+') && k < |alts|
    requires forall i, s: Str ::
               0 <= i < |alts| && In(Build(alts[i].items), s) ==> In(Apply(op, Build(alts[k].items)), s)
    ensures SameLanguage(BuildItem(Group(op, alts)), Apply(op, AnyOf(alts)))
  {
    var own := Apply(op, Build(alts[k].items));
    forall i, u: Str, v: Str | 0 <= i < |alts| && In(Build(alts[i].items), u) && In(Star(AnyOf(alts)), v)
      ensures InSome(op, alts, u + v)
    {
      InRepeat(AnyOf(alts), v);
      var rest :| Repeats(AnyOf(alts), v, rest);
      var parts := [u] + rest;
      forall j | 0 <= j < |parts|
        ensures In(own, parts[j])
      {
        AnyOfMeans(alts, parts[j]);
      }
      forall x, y | In(own, x) && In(own, y)
        ensures In(own, x + y)
      {
        StarsConcatenate(Build(alts[k].items), x, y);
      }
      RepeatWithin(own, parts);
      assert parts[1..] == rest;
      assert In(own, u + v);
    }
    RepeatGroupsByAlternatives(op, alts);
  }

  /** A single byte that is no wildcard. */
  predicate IsByte(p: Pat) {
    |p.items| == 1 && p.items[0].Lit? && p.items[0].c != '*' && p.items[0].c != '?'
  }

  lemma {:induction false} BytesOnly(c: Byte, parts: seq<Str>)
    requires c != '*' && c != '?' && AllIn(Chr(c), parts)
    ensures forall b :: b in Concat(parts) ==> b == c
  {
    if parts != [] {
      assert In(Chr(c), parts[0]);
      assert AllIn(Chr(c), parts[1..]);
      BytesOnly(c, parts[1..]);
    }
  }

  /** A group of bytes is as documented exactly when they are all the same byte. */
  lemma ByteGroupsAsDocumentedExactly(op: Byte, alts: seq<Pat>)
    requires alts != [] && (op == '*' || op == '+') && forall i :: 0 <= i < |alts| ==> IsByte(alts[i])
    ensures SameLanguage(BuildItem(Group(op, alts)), Apply(op, AnyOf(alts))) <==>
            forall i :: 0 <= i < |alts| ==> alts[i] == alts[0]
  {
    if forall i :: 0 <= i < |alts| ==> alts[i] == alts[0] {
      forall s: Str | In(Build(alts[0].items), s)
        ensures In(Apply(op, Build(alts[0].items)), s)
      {
        ConcatSingle(s);
        InRepeat(Build(alts[0].items), s);
        var one: seq<Str> := [s];
        assert one != [] && Repeats(Build(alts[0].items), s, one);
      }
      DominatedGroupsAsDocumented(op, alts, 0);
    }
    if j :| 0 <= j < |alts| && alts[j] != alts[0] {
      DifferentBytesNotAbsorbed(op, alts, j);
      RepeatGroupsByAlternatives(op, alts);
    }
  }

  lemma DifferentBytesNotAbsorbed(op: Byte, alts: seq<Pat>, j: nat)
    requires (op == '*' || op == '+') && j < |alts| && alts[j] != alts[0]
    requires forall i :: 0 <= i < |alts| ==> IsByte(alts[i])
    ensures !Absorbs(op, alts)
  {
    var a, b := alts[0].items[0].c, alts[j].items[0].c;
    forall i | 0 <= i < |alts|
      ensures Build(alts[i].items) == Chr(alts[i].items[0].c)
    {
      BuildOneByte(alts[i].items[0].c);
      assert alts[i].items == [Lit(alts[i].items[0].c)];
    }
    assert alts[0].items == [Lit(a)] && alts[j].items == [Lit(b)];
    assert alts[0] == Pat([Lit(a)]) && alts[j] == Pat([Lit(b)]);
    var u: Str, v: Str := [a], [b];
    AnyOfMeans(alts, v);
    InStarOnce(AnyOf(alts), v);
    if InSome(op, alts, u + v) {
      var k :| 0 <= k < |alts| && In(Apply(op, Build(alts[k].items)), u + v);
      MixedNotRepeated(op, alts[k].items[0].c, u + v);
    }
    assert In(Build(alts[0].items), u);
  }

  lemma InStarOnce(p: Glob, s: Str)
    requires In(p, s)
    ensures In(Star(p), s)
  {
    var one: seq<Str> := [s];
    ConcatSingle(s);
    InRepeat(p, s);
    assert Repeats(p, s, one);
  }

  lemma MixedNotRepeated(op: Byte, c: Byte, s: Str)
    requires (op == '*' || op == '+') && c != '*' && c != '?'
    requires |s| == 2 && s[0] != s[1]
    ensures !In(Apply(op, Chr(c)), s)
  {
    assert s[0] in s && s[1] in s;
    InRepeat(Chr(c), s);
    if parts :| Repeats(Chr(c), s, parts) {
      BytesOnly(c, parts);
    }
  }

  /** With a single alternative every operator is as documented. */
  lemma SingleAlternativeAsDocumented(op: Byte, alt: Pat)
    requires IsOp(op)
    ensures SameLanguage(BuildItem(Group(op, [alt])), Apply(op, AnyOf([alt])))
  {
    var g := BuildItem(Group(op, [alt]));
    if op == '*' || op == '+' {
      forall u, v | In(g, u) && In(g, v)
        ensures In(g, u + v)
      {
        GroupMeans(op, [alt], u);
        GroupMeans(op, [alt], v);
        GroupMeans(op, [alt], u + v);
        StarsConcatenate(Build(alt.items), u, v);
      }
      RepeatGroupsAsDocumentedExactly(op, [alt]);
    } else {
      OnceGroupsAsDocumented(op, [alt]);
    }
  }

  /** The group `*(a|b)` rejects `ab`, which the manual's reading accepts. */
  lemma RepeatGroupShortfall()
    ensures var alts := [Pat([Lit('a')]), Pat([Lit('b')])];
            !Matches(BuildItem(Group('*', alts)), "ab") && In(Apply('*', AnyOf(alts)), "ab")
  {
    var alts := [Pat([Lit('a')]), Pat([Lit('b')])];
    BuildOneByte('a');
    BuildOneByte('b');
    DocumentedTakesBoth(alts);
    var g := BuildItem(Group('*', alts));
    MatchesCorrect(g, "ab");
    GroupMeans('*', alts, "ab");
    forall k | 0 <= k < 2
      ensures !In(Star(Build(alts[k].items)), "ab")
    {
      MatchesCorrect(Star(Build(alts[k].items)), "ab");
      StarOfOneByte(if k == 0 then 'a' else 'b');
    }
  }

  lemma BuildOneByte(c: Byte)
    ensures Build([Lit(c)]) == Chr(c)
  {
    assert [Lit(c)][..0] == [];
  }

  lemma DocumentedTakesBoth(alts: seq<Pat>)
    requires |alts| == 2 && Build(alts[0].items) == Chr('a') && Build(alts[1].items) == Chr('b')
    ensures In(Apply('*', AnyOf(alts)), "ab")
  {
    var parts: seq<Str> := ["a", "b"];
    assert parts[1..] == ["b"];
    ConcatSingle("b");
    assert Concat(parts) == "ab";
    AnyOfMeans(alts, "a");
    AnyOfMeans(alts, "b");
    assert In(Build(alts[0].items), "a") && In(Build(alts[1].items), "b");
    InRepeat(AnyOf(alts), "ab");
    assert Repeats(AnyOf(alts), "ab", parts);
  }

  lemma StarOfOneByte(c: Byte)
    requires c == 'a' || c == 'b'
    ensures !Matches(Star(Chr(c)), "ab")
  {
    var s: Str := "ab";
    assert s[1..] == ['b'];
    var rest: Str := ['b'];
    assert rest[1..] == [];
  }
}
