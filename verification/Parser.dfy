/**
  Reading a pattern one token at a time. The state is the pattern read so far, opened at the
  point where reading has got to: the frames left open by each `op(`, and the current level.
  The compiler's stacks are an encoding of this state; here reading is tied to the grammar.
 */
module Parser {
  import opened Arithmetic
  import opened CStrings
  import opened Patterns

  /** What lies outside an open group: the alternatives closed so far, the items so far, the operator. */
  datatype Frame = Frame(alts: seq<Pat>, items: seq<Item>, op: Byte)

  datatype Zipper = Zipper(outer: seq<Frame>, alts: seq<Pat>, items: seq<Item>)

  /** `Undefined`: the code would read past the terminator, or write past its fragment array. */
  datatype Outcome = Parsed(items: seq<Item>) | Rejected | Undefined

  const ARRAY_SIZE: nat := 100

  const START := Zipper([], [], [])

  /** Slots the frames hold in the fragment array: one per closed alternative, and one for the atoms. */
  function OuterDepth(outer: seq<Frame>): nat {
    if outer == [] then 0
    else
      var f := outer[|outer| - 1];
      OuterDepth(outer[..|outer| - 1]) + |f.alts| + Min(|f.items|, 1)
  }

  /** Slots in use once the atoms of the current level are joined into `atoms` slots at most. */
  function Depth(z: Zipper, atoms: nat): nat {
    OuterDepth(z.outer) + |z.alts| + Min(|z.items|, atoms)
  }

  function Push(z: Zipper, i: Item): Zipper {
    z.(items := z.items + [i])
  }

  function Open(z: Zipper, op: Byte): Zipper {
    Zipper(z.outer + [Frame(z.alts, z.items, op)], [], [])
  }

  function Bar(z: Zipper): Zipper {
    z.(alts := z.alts + [Pat(z.items)], items := [])
  }

  function Close(z: Zipper): Zipper
    requires z.outer != []
  {
    var f := z.outer[|z.outer| - 1];
    Zipper(z.outer[..|z.outer| - 1], f.alts, f.items + [Group(f.op, z.alts + [Pat(z.items)])])
  }

  predicate OpensGroup(rest: Str) {
    |rest| > 1 && IsOp(rest[0]) && rest[1] == '('
  }

  datatype Next = Stop(outcome: Outcome) | Go(z: Zipper, rest: Str)

  /** Reads one token, with so many slots in the fragment array. */
  function Step(z: Zipper, rest: Str, slots: nat := ARRAY_SIZE): (n: Next)
    ensures n.Go? ==> |n.rest| < |rest|
  {
    if rest == [] then
      Stop(if z.outer != [] || z.items == [] then Rejected else Parsed(z.items))
    else if OpensGroup(rest) then
      if |z.outer| >= ARRAY_SIZE then Stop(Rejected) else Go(Open(z, rest[0]), rest[2..])
    else if rest[0] == '(' then Stop(Rejected)
    else if rest[0] == ')' then
      if z.outer == [] || z.items == [] then Stop(Rejected) else Go(Close(z), rest[1..])
    else if rest[0] == '[' then
      var k := IndexOf(rest[1..], ']');
      if k == |rest| - 1 then Stop(Rejected) else StepPush(z, Bracket(rest[1..][..k]), rest[k + 2..], slots)
    else if rest[0] == '|' then
      if z.outer == [] || z.items == [] then Stop(Rejected) else Go(Bar(z), rest[1..])
    else if rest[0] == '\\' then
      if |rest| == 1 then Stop(Undefined) else StepPush(z, Esc(rest[1]), rest[2..], slots)
    else StepPush(z, Lit(rest[0]), rest[1..], slots)
  }

  function StepPush(z: Zipper, i: Item, rest: Str, slots: nat): Next {
    if Depth(z, 1) >= slots then Stop(Undefined) else Go(Push(z, i), rest)
  }

  /** Reads to the end. The step is two calls down so that proofs unfold it only on request. */
  function Parse(z: Zipper, rest: Str, slots: nat := ARRAY_SIZE): Outcome
    decreases |rest|, 2
  {
    ParseSealed(z, rest, slots)
  }

  function ParseSealed(z: Zipper, rest: Str, slots: nat): Outcome
    decreases |rest|, 1
  {
    ParseStep(z, rest, slots)
  }

  function ParseStep(z: Zipper, rest: Str, slots: nat): Outcome
    decreases |rest|, 0
  {
    match Step(z, rest, slots)
    case Stop(outcome) => outcome
    case Go(z', rest') => Parse(z', rest', slots)
  }

  lemma ParseUnfold(z: Zipper, rest: Str, slots: nat := ARRAY_SIZE)
    ensures var n := Step(z, rest, slots);
            Parse(z, rest, slots) == if n.Stop? then n.outcome else Parse(n.z, n.rest, slots)
  {
    assert Parse(z, rest, slots) == ParseSealed(z, rest, slots) == ParseStep(z, rest, slots);
  }

  // ---- What has been read ---------------------------------------------------------------

  function OuterText(outer: seq<Frame>): Str {
    if outer == [] then []
    else
      var f := outer[|outer| - 1];
      OuterText(outer[..|outer| - 1]) + AltsText(f.alts) + Text(f.items) + [f.op, '(']
  }

  function ZText(z: Zipper): Str {
    OuterText(z.outer) + AltsText(z.alts) + Text(z.items)
  }

  predicate GoodOuter(outer: seq<Frame>) {
    outer == [] ||
    var n := |outer| - 1;
    var f := outer[n];
    && GoodOuter(outer[..n])
    && IsOp(f.op)
    && WellFormedAlts(f.alts, ARRAY_SIZE - n)
    && WellFormed(f.items, ARRAY_SIZE - n)
    && (n == 0 ==> f.alts == [])
  }

  /** Every level is well formed for the nesting left to it; there are no alternatives outside groups. */
  predicate Good(z: Zipper) {
    && |z.outer| <= ARRAY_SIZE
    && GoodOuter(z.outer)
    && WellFormedAlts(z.alts, ARRAY_SIZE - |z.outer|)
    && WellFormed(z.items, ARRAY_SIZE - |z.outer|)
    && (z.outer == [] ==> z.alts == [])
  }

  lemma ItemsSnoc(items: seq<Item>, i: Item, depth: int)
    ensures Text(items + [i]) == Text(items) + ItemText(i)
    ensures WellFormed(items + [i], depth) <==> WellFormed(items, depth) && WellFormedItem(i, depth)
  {
    assert (items + [i])[..|items|] == items;
  }

  lemma AltsSnoc(alts: seq<Pat>, items: seq<Item>, depth: int)
    ensures AltsText(alts + [Pat(items)]) == AltsText(alts) + Text(items) + ['|']
    ensures WellFormedAlts(alts, depth) && items != [] && WellFormed(items, depth) ==>
              WellFormedAlts(alts + [Pat(items)], depth)
  {
    assert (alts + [Pat(items)])[..|alts|] == alts;
  }

  lemma PushText(z: Zipper, i: Item)
    requires Good(z) && WellFormedItem(i, ARRAY_SIZE - |z.outer|)
    ensures Good(Push(z, i)) && ZText(Push(z, i)) == ZText(z) + ItemText(i)
  {
    ItemsSnoc(z.items, i, ARRAY_SIZE - |z.outer|);
  }

  lemma OpenText(z: Zipper, op: Byte)
    requires Good(z) && IsOp(op) && |z.outer| < ARRAY_SIZE
    ensures Good(Open(z, op)) && ZText(Open(z, op)) == ZText(z) + [op, '(']
  {
    var f := Frame(z.alts, z.items, op);
    var outer := z.outer + [f];
    assert outer[..|z.outer|] == z.outer;
    assert GoodOuter(outer);
    assert OuterText(outer) == ZText(z) + [op, '('];
  }

  lemma BarText(z: Zipper)
    requires Good(z) && z.outer != [] && z.items != []
    ensures Good(Bar(z)) && ZText(Bar(z)) == ZText(z) + ['|']
  {
    AltsSnoc(z.alts, z.items, ARRAY_SIZE - |z.outer|);
  }

  lemma GroupText(op: Byte, alts: seq<Pat>, items: seq<Item>, depth: int)
    ensures ItemText(Group(op, alts + [Pat(items)])) == [op, '('] + (AltsText(alts) + (Text(items) + [')']))
    ensures IsOp(op) && depth > 0 && WellFormedAlts(alts, depth - 1) && items != [] && WellFormed(items, depth - 1) ==>
              WellFormedItem(Group(op, alts + [Pat(items)]), depth)
  {
    assert (alts + [Pat(items)])[..|alts|] == alts;
    AltsSnoc(alts, items, depth - 1);
  }

  lemma CloseGood(z: Zipper)
    requires Good(z) && z.outer != [] && z.items != []
    ensures Good(Close(z))
  {
    var n := |z.outer| - 1;
    var f := z.outer[n];
    GroupText(f.op, z.alts, z.items, ARRAY_SIZE - n);
    ItemsSnoc(f.items, Group(f.op, z.alts + [Pat(z.items)]), ARRAY_SIZE - n);
  }

  lemma CloseText(z: Zipper)
    requires z.outer != [] && z.items != []
    ensures ZText(Close(z)) == ZText(z) + [')']
  {
    var n := |z.outer| - 1;
    var f := z.outer[n];
    var g := Group(f.op, z.alts + [Pat(z.items)]);
    GroupText(f.op, z.alts, z.items, 0);
    ItemsSnoc(f.items, g, 0);
    CloseShuffle(OuterText(z.outer[..n]) + AltsText(f.alts), Text(f.items), [f.op, '('], AltsText(z.alts),
                 Text(z.items));
  }

  lemma CloseShuffle(a: Str, b: Str, c: Str, d: Str, e: Str)
    ensures a + (b + (c + (d + (e + [')'])))) == a + b + c + d + e + [')']
  {
  }

  /** The bytes of the first token. */
  function TokenOf(rest: Str): Str
    requires rest != []
  {
    if OpensGroup(rest) then rest[..2]
    else if rest[0] == '[' then rest[..Min(IndexOf(rest[1..], ']') + 2, |rest|)]
    else if rest[0] == '\\' then rest[..Min(2, |rest|)]
    else rest[..1]
  }

  lemma TokenSplits(z: Zipper, rest: Str, slots: nat := ARRAY_SIZE)
    requires Step(z, rest, slots).Go?
    ensures TokenOf(rest) + Step(z, rest, slots).rest == rest
  {
  }

  lemma BracketToken(rest: Str)
    requires rest != [] && rest[0] == '[' && IndexOf(rest[1..], ']') < |rest| - 1
    ensures TokenOf(rest) == ItemText(Bracket(rest[1..][..IndexOf(rest[1..], ']')]))
  {
    var k := IndexOf(rest[1..], ']');
    assert rest[1..][k] == rest[k + 1];
    assert rest[..k + 2] == ['['] + rest[1..][..k] + [']'];
  }

  /** What has been read grows by the token, and stays good. */
  lemma StepGrows(z: Zipper, rest: Str)
    requires Good(z) && Step(z, rest).Go?
    ensures Good(Step(z, rest).z) && ZText(Step(z, rest).z) == ZText(z) + TokenOf(rest)
  {
    if OpensGroup(rest) {
      OpenText(z, rest[0]);
      assert TokenOf(rest) == [rest[0], '('];
    } else if rest[0] == ')' {
      CloseGood(z);
      CloseText(z);
      assert TokenOf(rest) == [')'];
    } else if rest[0] == '|' {
      BarText(z);
      assert TokenOf(rest) == ['|'];
    } else {
      StepGrowsByItem(z, rest);
    }
  }

  lemma StepGrowsByItem(z: Zipper, rest: Str)
    requires Good(z) && Step(z, rest).Go? && !OpensGroup(rest) && rest[0] != ')' && rest[0] != '|'
    ensures Good(Step(z, rest).z) && ZText(Step(z, rest).z) == ZText(z) + TokenOf(rest)
  {
    if rest[0] == '[' {
      BracketToken(rest);
      PushText(z, Bracket(rest[1..][..IndexOf(rest[1..], ']')]));
    } else if rest[0] == '\\' {
      PushText(z, Esc(rest[1]));
      assert TokenOf(rest) == ItemText(Esc(rest[1]));
    } else {
      PushText(z, Lit(rest[0]));
      assert TokenOf(rest) == ItemText(Lit(rest[0]));
    }
  }

  /** A step moves text from what is left to what has been read. */
  lemma StepText(z: Zipper, rest: Str)
    requires Good(z) && Step(z, rest).Go?
    ensures Good(Step(z, rest).z) && ZText(Step(z, rest).z) + Step(z, rest).rest == ZText(z) + rest
  {
    StepGrows(z, rest);
    TokenSplits(z, rest);
    Regroup(ZText(z), TokenOf(rest), Step(z, rest).rest);
  }

  lemma Regroup(a: Str, b: Str, c: Str)
    ensures a + b + c == a + (b + c)
  {
  }

  /** The slots never outnumber the bytes read; and in a group, a slot costs two bytes. */
  lemma {:induction false} DepthBound(z: Zipper)
    requires Good(z)
    ensures Depth(z, 2) <= |ZText(z)|
    ensures if z.outer == [] then Depth(z, 1) <= 1 else 2 * Depth(z, 1) <= |ZText(z)|
  {
    OuterDepthBound(z.outer);
    AltsBound(z.alts, ARRAY_SIZE - |z.outer|);
    ItemsBound(z.items);
  }

  lemma {:induction false} OuterDepthBound(outer: seq<Frame>)
    requires GoodOuter(outer)
    ensures 2 * OuterDepth(outer) <= |OuterText(outer)|
    ensures outer != [] ==> 2 * OuterDepth(outer) < |OuterText(outer)|
  {
    if outer != [] {
      var n := |outer| - 1;
      OuterDepthBound(outer[..n]);
      AltsBound(outer[n].alts, ARRAY_SIZE - n);
      ItemsBound(outer[n].items);
    }
  }

  lemma {:induction false} AltsBound(alts: seq<Pat>, depth: int)
    requires WellFormedAlts(alts, depth)
    ensures 2 * |alts| <= |AltsText(alts)|
  {
    if alts != [] {
      AltsBound(alts[..|alts| - 1], depth);
      ItemsBound(alts[|alts| - 1].items);
    }
  }

  lemma {:induction false} ItemsBound(items: seq<Item>)
    ensures |items| <= |Text(items)|
  {
    if items != [] {
      ItemsBound(items[..|items| - 1]);
    }
  }

  // ---- Soundness: what is accepted is a word of the grammar ------------------------------------

  lemma {:induction false} ParseSound(z: Zipper, rest: Str)
    requires Good(z) && Parse(z, rest).Parsed?
    ensures var p := Parse(z, rest).items;
            p != [] && WellFormed(p, ARRAY_SIZE) && Text(p) == ZText(z) + rest
    decreases |rest|
  {
    var next := Step(z, rest);
    ParseUnfold(z, rest);
    if next.Go? {
      StepText(z, rest);
      ParseSound(next.z, next.rest);
    } else {
      assert ZText(z) + rest == Text(z.items);
    }
  }

  // ---- Completeness: every word of the grammar is read back ---------------------------------------

  function Max(a: nat, b: nat): nat {
    if a < b then b else a
  }

  /** The slots that reading an item takes beyond those in use where it starts. */
  function ItemNeed(i: Item): nat
    decreases i, 0
  {
    if i.Group? then AltsNeed(i.alts) else 1
  }

  /** Items before the last are joined into one slot. */
  function Need(items: seq<Item>): nat
    decreases items, 1
  {
    if items == [] then 0
    else
      var n := |items| - 1;
      Max(Need(items[..n]), Min(n, 1) + ItemNeed(items[n]))
  }

  /** Every alternative before the last keeps one slot. */
  function AltsNeed(alts: seq<Pat>): nat
    decreases alts, 2
  {
    if alts == [] then 0
    else
      var n := |alts| - 1;
      Max(AltsNeed(alts[..n]), n + Need(alts[n].items))
  }

  /** Reading comes to `z'` if there are slots enough, and is undefined if not. */
  ghost predicate Goes(slots: nat, enough: bool, z: Zipper, text: Str, z': Zipper, rest: Str) {
    Parse(z, text, slots) == if enough then Parse(z', rest, slots) else Undefined
  }

  lemma OneStep(slots: nat, enough: bool, z: Zipper, text: Str, z': Zipper, rest: Str)
    requires Step(z, text, slots) == if enough then Go(z', rest) else Stop(Undefined)
    ensures Goes(slots, enough, z, text, z', rest)
  {
    ParseUnfold(z, text, slots);
  }

  lemma Chain(slots: nat, a: bool, z: Zipper, text: Str, z': Zipper, text': Str, b: bool, z'': Zipper, text'': Str)
    requires Goes(slots, a, z, text, z', text') && Goes(slots, b, z', text', z'', text'')
    ensures Goes(slots, a && b, z, text, z'', text'')
  {
  }

  predicate NoParen(rest: Str) {
    rest == [] || rest[0] != '('
  }

  lemma ItemStart(i: Item, depth: int, rest: Str)
    requires WellFormedItem(i, depth)
    ensures NoParen(ItemText(i) + rest)
  {
    assert (ItemText(i) + rest)[0] == ItemText(i)[0];
  }

  lemma ReadBracket(slots: nat, z: Zipper, body: Str, rest: Str)
    requires ']' !in body
    ensures Goes(slots, Depth(z, 1) < slots, z, ItemText(Bracket(body)) + rest, Push(z, Bracket(body)), rest)
  {
    var t := ItemText(Bracket(body)) + rest;
    var u := t[1..];
    assert u == body + ([']'] + rest);
    var k := IndexOf(u, ']');
    assert u[|body|] == ']';
    assert u[..k] == body && t[k + 2..] == rest;
    OneStep(slots, Depth(z, 1) < slots, z, t, Push(z, Bracket(body)), rest);
  }

  predicate ItemFits(slots: nat, z: Zipper, i: Item) {
    Depth(z, 1) + ItemNeed(i) <= slots
  }

  lemma {:induction false} ReadItem(slots: nat, z: Zipper, i: Item, rest: Str)
    requires |z.outer| <= ARRAY_SIZE && WellFormedItem(i, ARRAY_SIZE - |z.outer|) && NoParen(rest)
    ensures Goes(slots, ItemFits(slots, z, i), z, ItemText(i) + rest, Push(z, i), rest)
    decreases i, 3
  {
    match i
    case Lit(c) =>
      var t := ItemText(i) + rest;
      assert t[1..] == rest;
      OneStep(slots, ItemFits(slots, z, i), z, t, Push(z, i), rest);
    case Esc(c) =>
      var t := ItemText(i) + rest;
      assert t[2..] == rest;
      OneStep(slots, ItemFits(slots, z, i), z, t, Push(z, i), rest);
    case Bracket(body) =>
      ReadBracket(slots, z, body, rest);
    case Group(op, alts) =>
      var n := |alts| - 1;
      assert alts[..n] + [Pat(alts[n].items)] == alts;
      ReadGroup(slots, z, op, alts[..n], alts[n].items, rest);
  }

  lemma {:induction false} ReadGroup(slots: nat, z: Zipper, op: Byte, alts: seq<Pat>, last: seq<Item>, rest: Str)
    requires |z.outer| < ARRAY_SIZE && IsOp(op) && last != []
    requires WellFormedAlts(alts, ARRAY_SIZE - |z.outer| - 1) && WellFormed(last, ARRAY_SIZE - |z.outer| - 1)
    ensures var g := Group(op, alts + [Pat(last)]);
            Goes(slots, ItemFits(slots, z, g), z, ItemText(g) + rest, Push(z, g), rest)
    decreases Group(op, alts + [Pat(last)]), 0
  {
    var g := Group(op, alts + [Pat(last)]);
    assert g.alts[|alts|] == Pat(last) && g.alts[..|alts|] == alts;
    var inside := Open(z, op);
    var t2: Str := [')'] + rest;
    var t1 := AltsText(alts) + (Text(last) + t2);
    var fit := AltsFit(slots, inside, alts) && ItemsFit(slots, inside.(alts := alts), last);
    ReadAlts(slots, inside, alts, Text(last) + t2);
    ReadItems(slots, inside.(alts := alts), last, t2);
    Chain(slots, AltsFit(slots, inside, alts), inside, t1, inside.(alts := alts), Text(last) + t2,
          ItemsFit(slots, inside.(alts := alts), last), inside.(alts := alts, items := last), t2);
    GroupFits(slots, z, op, alts, last);
    ReadAround(slots, fit, z, op, alts, last, rest);
  }

  /** The token that opens the group, what is inside, and the token that closes it. */
  lemma ReadAround(slots: nat, fit: bool, z: Zipper, op: Byte, alts: seq<Pat>, last: seq<Item>, rest: Str)
    requires |z.outer| < ARRAY_SIZE && IsOp(op) && last != []
    requires Goes(slots, fit, Open(z, op), AltsText(alts) + (Text(last) + ([')'] + rest)),
                  Open(z, op).(alts := alts, items := last), [')'] + rest)
    ensures var g := Group(op, alts + [Pat(last)]); Goes(slots, fit, z, ItemText(g) + rest, Push(z, g), rest)
  {
    var g := Group(op, alts + [Pat(last)]);
    var inside, atEnd := Open(z, op), Open(z, op).(alts := alts, items := last);
    var t0 := ItemText(g) + rest;
    var t2: Str := [')'] + rest;
    var t1 := AltsText(alts) + (Text(last) + t2);
    GroupText(op, alts, last, 0);
    assert t0[2..] == t1;
    OneStep(slots, true, z, t0, inside, t1);
    Chain(slots, true, z, t0, inside, t1, fit, atEnd, t2);
    assert t2[1..] == rest;
    assert inside.outer[..|z.outer|] == z.outer;
    OneStep(slots, true, atEnd, t2, Push(z, g), rest);
    Chain(slots, fit, z, t0, atEnd, t2, true, Push(z, g), rest);
  }

  lemma GroupFits(slots: nat, z: Zipper, op: Byte, alts: seq<Pat>, last: seq<Item>)
    requires last != []
    ensures var inside := Open(z, op);
            ItemFits(slots, z, Group(op, alts + [Pat(last)])) <==>
            AltsFit(slots, inside, alts) && ItemsFit(slots, inside.(alts := alts), last)
  {
    var all := alts + [Pat(last)];
    assert all[|alts|] == Pat(last) && all[..|alts|] == alts;
    assert ItemNeed(Group(op, all)) == AltsNeed(all) == Max(AltsNeed(alts), |alts| + Need(last));
    assert alts == [] ==> AltsNeed(alts) == 0;
    OpenDepth(z, op);
  }

  lemma OpenDepth(z: Zipper, op: Byte)
    ensures OuterDepth(Open(z, op).outer) == Depth(z, 1)
  {
    assert Open(z, op).outer[..|z.outer|] == z.outer;
  }

  /** For items, or alternatives, at the beginning of a level. */
  predicate ItemsFit(slots: nat, z: Zipper, items: seq<Item>) {
    items == [] || OuterDepth(z.outer) + |z.alts| + Need(items) <= slots
  }

  predicate AltsFit(slots: nat, z: Zipper, alts: seq<Pat>) {
    alts == [] || OuterDepth(z.outer) + AltsNeed(alts) <= slots
  }

  lemma TextLast(items: seq<Item>, rest: Str)
    requires items != []
    ensures Text(items) + rest == Text(items[..|items| - 1]) + (ItemText(items[|items| - 1]) + rest)
  {
  }

  lemma {:induction false} ReadItems(slots: nat, z: Zipper, items: seq<Item>, rest: Str)
    requires |z.outer| <= ARRAY_SIZE && WellFormed(items, ARRAY_SIZE - |z.outer|) && NoParen(rest)
    requires z.items == []
    ensures Goes(slots, ItemsFit(slots, z, items), z, Text(items) + rest, z.(items := items), rest)
    decreases items, 1
  {
    if items == [] {
      assert Text(items) + rest == rest;
      assert z.(items := items) == z;
    } else {
      var init, i := items[..|items| - 1], items[|items| - 1];
      var mid, t := z.(items := init), ItemText(i) + rest;
      ItemStart(i, ARRAY_SIZE - |z.outer|, rest);
      ReadItems(slots, z, init, t);
      ReadItem(slots, mid, i, rest);
      TextLast(items, rest);
      ItemsFitLast(slots, z, items);
      PushLast(z, items);
      Chain(slots, ItemsFit(slots, z, init), z, Text(items) + rest, mid, t,
            ItemFits(slots, mid, i), Push(mid, i), rest);
    }
  }

  lemma PushLast(z: Zipper, items: seq<Item>)
    requires items != []
    ensures Push(z.(items := items[..|items| - 1]), items[|items| - 1]) == z.(items := items)
  {
    assert items[..|items| - 1] + [items[|items| - 1]] == items;
  }

  lemma ItemsFitLast(slots: nat, z: Zipper, items: seq<Item>)
    requires items != []
    ensures var init, i := items[..|items| - 1], items[|items| - 1];
            ItemsFit(slots, z, items) <==> ItemsFit(slots, z, init) && ItemFits(slots, z.(items := init), i)
  {
    var n := |items| - 1;
    assert Need(items) == Max(Need(items[..n]), Min(n, 1) + ItemNeed(items[n]));
    assert n == 0 ==> items[..n] == [];
  }

  lemma {:induction false} ReadAlts(slots: nat, z: Zipper, alts: seq<Pat>, rest: Str)
    requires 0 < |z.outer| <= ARRAY_SIZE && WellFormedAlts(alts, ARRAY_SIZE - |z.outer|)
    requires z.items == [] && z.alts == []
    ensures Goes(slots, AltsFit(slots, z, alts), z, AltsText(alts) + rest, z.(alts := alts), rest)
    decreases alts, 2
  {
    if alts == [] {
      assert AltsText(alts) + rest == rest;
      assert z.(alts := alts) == z;
    } else {
      var init, last := alts[..|alts| - 1], alts[|alts| - 1].items;
      var t0 := AltsText(alts) + rest;
      var t2: Str := ['|'] + rest;
      var t1 := Text(last) + t2;
      var mid := z.(alts := init);
      assert init + [Pat(last)] == alts;
      AltsSnoc(init, last, 0);
      AltsShuffle(AltsText(init), Text(last), rest);
      ReadAlts(slots, z, init, t1);
      ReadAlt(slots, mid, last, rest);
      Chain(slots, AltsFit(slots, z, init), z, t0, mid, t1, ItemsFit(slots, mid, last), z.(alts := alts), rest);
    }
  }

  lemma AltsShuffle(a: Str, b: Str, rest: Str)
    ensures a + b + ['|'] + rest == a + (b + (['|'] + rest))
  {
  }

  lemma {:induction false} ReadAlt(slots: nat, z: Zipper, items: seq<Item>, rest: Str)
    requires 0 < |z.outer| <= ARRAY_SIZE && items != [] && WellFormed(items, ARRAY_SIZE - |z.outer|)
    requires z.items == []
    ensures Goes(slots, ItemsFit(slots, z, items), z, Text(items) + (['|'] + rest),
                 z.(alts := z.alts + [Pat(items)]), rest)
    decreases items, 2
  {
    var t: Str := ['|'] + rest;
    var atBar := z.(items := items);
    ReadItems(slots, z, items, t);
    assert t[1..] == rest;
    OneStep(slots, true, atBar, t, Bar(atBar), rest);
    Chain(slots, ItemsFit(slots, z, items), z, Text(items) + t, atBar, t, true, Bar(atBar), rest);
  }

  // ---- Undefined behaviour ------------------------------------------------------------------------

  /** The string ends in an odd number of backslashes: the last one escapes nothing. */
  predicate LoneBackslash(s: Str) {
    s != [] && s[|s| - 1] == '\\' && !LoneBackslash(s[..|s| - 1])
  }

  /** A token in front changes nothing about the end. */
  lemma {:induction false} LoneBackslashAfter(a: Str, s: Str)
    requires a == [] || a[|a| - 1] != '\\' || (|a| == 2 && a[0] == '\\')
    ensures LoneBackslash(a + s) <==> LoneBackslash(s)
    decreases |s|
  {
    if s == [] {
      assert a + s == a;
      assert |a| == 2 && a[0] == '\\' ==> a[..1] == ['\\'] && LoneBackslash(a[..1]);
    } else {
      LoneBackslashAfter(a, s[..|s| - 1]);
      assert (a + s)[..|a + s| - 1] == a + s[..|s| - 1];
    }
  }

  /** Patterns of at most 200 bytes that do not end in a lone backslash meet no undefined behaviour. */
  lemma {:induction false} ShortPatternsDefined(z: Zipper, rest: Str)
    requires Good(z) && |ZText(z)| + |rest| <= 2 * ARRAY_SIZE && !LoneBackslash(rest)
    ensures !Parse(z, rest).Undefined?
    decreases |rest|
  {
    var next := Step(z, rest);
    ParseUnfold(z, rest);
    DepthBound(z);
    if next.Go? {
      StepText(z, rest);
      StillPaired(z, rest, ARRAY_SIZE);
      ShortPatternsDefined(next.z, next.rest);
    } else {
      StopDefined(z, rest);
    }
  }

  /** A token takes no backslash off the end without what it escapes. */
  lemma StillPaired(z: Zipper, rest: Str, slots: nat)
    requires Step(z, rest, slots).Go?
    ensures LoneBackslash(Step(z, rest, slots).rest) <==> LoneBackslash(rest)
  {
    TokenSplits(z, rest, slots);
    TokenEnds(z, rest, slots);
    LoneBackslashAfter(TokenOf(rest), Step(z, rest, slots).rest);
  }

  /** A lone backslash at the end is never read over. */
  lemma {:induction false} LoneBackslashNotParsed(z: Zipper, rest: Str, slots: nat)
    requires LoneBackslash(rest)
    ensures !Parse(z, rest, slots).Parsed?
    decreases |rest|
  {
    var next := Step(z, rest, slots);
    ParseUnfold(z, rest, slots);
    if next.Go? {
      StillPaired(z, rest, slots);
      LoneBackslashNotParsed(next.z, next.rest, slots);
    }
  }

  lemma StopDefined(z: Zipper, rest: Str)
    requires Step(z, rest).Stop? && (rest == [] || Depth(z, 1) < ARRAY_SIZE) && !LoneBackslash(rest)
    ensures !Step(z, rest).outcome.Undefined?
  {
    assert rest == ['\\'] ==> LoneBackslash(rest) by {
      assert !LoneBackslash([]);
    }
  }

  /** No token ends in a backslash, except an escaped one. */
  lemma TokenEnds(z: Zipper, rest: Str, slots: nat := ARRAY_SIZE)
    requires Step(z, rest, slots).Go?
    ensures var t := TokenOf(rest); t[|t| - 1] != '\\' || (|t| == 2 && t[0] == '\\')
  {
    if rest[0] == '[' && !OpensGroup(rest) {
      var k := IndexOf(rest[1..], ']');
      assert rest[1..][k] == rest[k + 1];
    }
  }

  // ---- Reading decides the grammar --------------------------------------------------------------

  ghost predicate Spells(p: seq<Item>, pat: Str) {
    p != [] && WellFormed(p, ARRAY_SIZE) && Text(p) == pat
  }

  /** A word of the grammar is read back if there are slots for it, and its reading is undefined if not. */
  lemma SpelledIsRead(slots: nat, p: seq<Item>, pat: Str)
    requires Spells(p, pat)
    ensures Parse(START, pat, slots) == if Need(p) <= slots then Parsed(p) else Undefined
  {
    ReadItems(slots, START, p, []);
    assert Text(p) + [] == pat;
    ParseUnfold(START.(items := p), [], slots);
  }

  /** Among the words of the grammar, the code is undefined exactly on those that need more than 100 slots. */
  lemma SpelledDefinedExactly(p: seq<Item>, pat: Str)
    requires Spells(p, pat)
    ensures Parse(START, pat).Undefined? <==> Need(p) > ARRAY_SIZE
    ensures Need(p) <= ARRAY_SIZE ==> Parse(START, pat) == Parsed(p)
  {
    SpelledIsRead(ARRAY_SIZE, p, pat);
  }

  /** Wherever the code is defined, it accepts exactly the words of the grammar, and reads them back. */
  lemma ParseDecidesGrammar(pat: Str)
    requires !Parse(START, pat).Undefined?
    ensures forall p :: Spells(p, pat) <==> Parse(START, pat) == Parsed(p)
  {
    forall p
      ensures Spells(p, pat) <==> Parse(START, pat) == Parsed(p)
    {
      if Spells(p, pat) {
        SpelledIsRead(ARRAY_SIZE, p, pat);
      }
      if Parse(START, pat) == Parsed(p) {
        ParseSound(START, pat);
        assert ZText(START) + pat == pat;
      }
    }
  }

  /** No text spells two patterns, and none that is spelled ends in a lone backslash. */
  lemma Unambiguous(p: seq<Item>, q: seq<Item>, pat: Str)
    requires Spells(p, pat) && Spells(q, pat)
    ensures p == q && !LoneBackslash(pat)
  {
    var slots := Max(Need(p), Need(q));
    SpelledIsRead(slots, p, pat);
    SpelledIsRead(slots, q, pat);
    if LoneBackslash(pat) {
      LoneBackslashNotParsed(START, pat, slots);
    }
  }

  // ---- A pattern that overruns the array ----------------------------------------------------------

  function Singles(n: nat): seq<Pat> {
    if n == 0 then [] else Singles(n - 1) + [Pat([Lit('a')])]
  }

  lemma {:induction false} SinglesNeed(n: nat, depth: int)
    ensures |Singles(n)| == n && WellFormedAlts(Singles(n), depth)
    ensures AltsNeed(Singles(n)) == n && |AltsText(Singles(n))| == 2 * n
  {
    if n > 0 {
      SinglesNeed(n - 1, depth);
      assert Singles(n)[..n - 1] == Singles(n - 1);
      assert [Lit('a')][..0] == [];
    }
  }

  const TWO: seq<Item> := [Lit('a'), Lit('b')]

  function WidestGroup(n: nat): Item {
    Group('@', Singles(n) + [Pat(TWO)])
  }

  /** With `n` alternatives before a last one of two bytes, `a@(a|...|a|ab)` needs `n + 3` slots. */
  function Widest(n: nat): seq<Item> {
    [Lit('a'), WidestGroup(n)]
  }

  lemma TwoNeed(depth: int)
    ensures Need(TWO) == 2 && |Text(TWO)| == 2 && WellFormed(TWO, depth)
  {
    assert TWO[..1] == [Lit('a')] && [Lit('a')][..0] == [];
  }

  lemma WidestGroupNeed(n: nat)
    ensures var g := WidestGroup(n);
            WellFormedItem(g, ARRAY_SIZE) && ItemNeed(g) == n + 2 && |ItemText(g)| == 2 * n + 5
  {
    var alts := Singles(n) + [Pat(TWO)];
    SinglesNeed(n, ARRAY_SIZE - 1);
    TwoNeed(ARRAY_SIZE - 1);
    assert alts[..n] == Singles(n) && alts[n] == Pat(TWO);
    GroupText('@', Singles(n), TWO, ARRAY_SIZE);
  }

  lemma WidestNeed(n: nat)
    ensures WellFormed(Widest(n), ARRAY_SIZE) && Need(Widest(n)) == n + 3 && |Text(Widest(n))| == 2 * n + 6
  {
    WidestGroupNeed(n);
    var items := Widest(n);
    assert items[..1] == [Lit('a')] && [Lit('a')][..0] == [];
  }

  /** So a word of 202 bytes overruns the array. */
  lemma LongPatternOverruns()
    ensures |Text(Widest(98))| == 202 && Spells(Widest(98), Text(Widest(98)))
    ensures Parse(START, Text(Widest(98))).Undefined?
  {
    WidestNeed(98);
    SpelledDefinedExactly(Widest(98), Text(Widest(98)));
  }
}
