/** Bracket sets: what the body of `[...]` accepts, and the scanning loop that decides it. */
module CharSets {
  import opened CStrings

  datatype Span = Span(a: Byte, b: Byte) {
    /** The ends are unsigned, the subject byte is a plain char; the ends may come in either order. */
    predicate Covers(c: Byte) {
      || a as int <= Signed(c) <= b as int
      || b as int <= Signed(c) <= a as int
    }
  }

  /** The spans listed by a set body, up to the first malformed one. */
  datatype Spans = Spans(list: seq<Span>, wellFormed: bool)

  /** A dash between two bytes makes a range, unless the second one is `]`. */
  predicate RangeAt(body: Str)
    requires body != []
  {
    |body| > 1 && body[1] == '-' && (|body| == 2 || body[2] != ']')
  }

  function SpansOf(body: Str): Spans {
    if body == [] then Spans([], true)
    else if RangeAt(body) then
      if |body| == 2 then Spans([], false)
      else
        var rest := SpansOf(body[3..]);
        Spans([Span(body[0], body[2])] + rest.list, rest.wellFormed)
    else
      var rest := SpansOf(body[1..]);
      Spans([Span(body[0], body[0])] + rest.list, rest.wellFormed)
  }

  predicate Inverted(cset: Str) {
    cset != [] && cset[0] == '!'
  }

  function Body(cset: Str): Str {
    if Inverted(cset) then cset[1..] else cset
  }

  predicate Covered(spans: seq<Span>, c: Byte) {
    exists i :: 0 <= i < |spans| && spans[i].Covers(c)
  }

  /** The meaning of a set: a listed span holds the byte, or, inverted, the list is well formed and none does. */
  predicate Accepts(cset: Str, c: Byte) {
    var spans := SpansOf(Body(cset));
    if Inverted(cset) then Body(cset) != [] && spans.wellFormed && !Covered(spans.list, c)
    else Covered(spans.list, c)
  }

  lemma CoveredCons(s: Span, rest: seq<Span>, c: Byte)
    ensures Covered([s] + rest, c) <==> s.Covers(c) || Covered(rest, c)
  {
    var all := [s] + rest;
    if s.Covers(c) {
      assert all[0].Covers(c);
    }
    if Covered(rest, c) {
      var i :| 0 <= i < |rest| && rest[i].Covers(c);
      assert all[i + 1].Covers(c);
    }
  }

  /** The scanning loop of the set derivative: does the set consume `chr`? */
  method ScanSet(cset: Str, chr: Byte) returns (hit: bool)
    ensures hit == Accepts(cset, chr)
  {
    var inverted := cset != [] && cset[0] == '!';
    var match_ := false;
    var body := if inverted then cset[1..] else cset;
    if body == [] {
      return false;
    }
    var rest := body;
    while rest != [] && !match_
      invariant match_ ==> Covered(SpansOf(body).list, chr)
      invariant !match_ ==> SpansOf(body).wellFormed == SpansOf(rest).wellFormed
      invariant !match_ ==> Covered(SpansOf(body).list, chr) == Covered(SpansOf(rest).list, chr)
      decreases |rest|
    {
      var a, b := rest[0], rest[0];
      var next := rest[1..];
      if next != [] && next[0] == '-' && (|next| == 1 || next[1] != ']') {
        if |next| == 1 {
          return false;
        }
        b := next[1];
        next := next[2..];
      }
      if a > b {
        a, b := b, a;
      }
      match_ := a as int <= Signed(chr) <= b as int;
      ghost var s := SpansOf(rest).list[0];
      assert next == if RangeAt(rest) then rest[3..] else rest[1..];
      CoveredCons(s, SpansOf(next).list, chr);
      assert SpansOf(rest).list == [s] + SpansOf(next).list;
      rest := next;
    }
    return match_ != inverted;
  }

  /** On seven-bit bytes a span is the plain range between its ends; no span reaches a byte above 127. */
  lemma SpanRange(s: Span, c: Byte)
    ensures SevenBit(c) ==> (s.Covers(c) <==> s.a <= c <= s.b || s.b <= c <= s.a)
    ensures !SevenBit(c) ==> !s.Covers(c)
  {
  }

  /** A byte above 127 is accepted exactly by the well-formed inverted sets, whatever they list. */
  lemma HighBytes(cset: Str, c: Byte)
    requires !SevenBit(c)
    ensures Accepts(cset, c) <==> Inverted(cset) && Body(cset) != [] && SpansOf(Body(cset)).wellFormed
  {
    forall s: Span ensures !s.Covers(c) { SpanRange(s, c); }
  }

  // ---- What a set says ---------------------------------------------------------------------------

  /** What the author of a set writes: single bytes, and ranges with their ends in either order. */
  datatype Element = One(c: Byte) | Range(a: Byte, b: Byte)

  function Spelling(e: Element): Str {
    match e
    case One(c) => [c]
    case Range(a, b) => [a, '-', b]
  }

  function SpellAll(list: seq<Element>): Str {
    if list == [] then [] else Spelling(list[0]) + SpellAll(list[1..])
  }

  /** Before this text an element reads as it is written: no byte runs into a dash, and no range ends in `]`. */
  predicate ClearBefore(e: Element, after: Str) {
    match e
    case One(_) => after == [] || after[0] != '-' || (|after| > 1 && after[1] == ']')
    case Range(_, b) => b != ']'
  }

  predicate Clear(list: seq<Element>, tail: Str) {
    list == [] || (ClearBefore(list[0], SpellAll(list[1..]) + tail) && Clear(list[1..], tail))
  }

  /** The byte is listed: as it is, or between the ends of a range. */
  predicate Lists(list: seq<Element>, c: Byte) {
    exists i :: 0 <= i < |list| && Holds(list[i], c)
  }

  predicate Holds(e: Element, c: Byte) {
    match e
    case One(d) => c == d
    case Range(a, b) => a <= c <= b || b <= c <= a
  }

  function SpanOf(e: Element): Span {
    match e
    case One(c) => Span(c, c)
    case Range(a, b) => Span(a, b)
  }

  lemma ListsFirst(list: seq<Element>, c: Byte)
    requires list != []
    ensures Lists(list, c) <==> Holds(list[0], c) || Lists(list[1..], c)
  {
    if Lists(list[1..], c) {
      var i :| 0 <= i < |list[1..]| && Holds(list[1..][i], c);
      assert Holds(list[i + 1], c);
    }
    if i :| 0 <= i < |list| && Holds(list[i], c) && i > 0 {
      assert Holds(list[1..][i - 1], c);
    }
  }

  /** One element read off the front of a text. */
  lemma ReadElement(e: Element, after: Str)
    requires ClearBefore(e, after)
    ensures var text, spans := Spelling(e) + after, SpansOf(after);
            SpansOf(text) == Spans([SpanOf(e)] + spans.list, spans.wellFormed)
  {
    var text := Spelling(e) + after;
    match e
    case One(_) => assert text[1..] == after;
    case Range(_, _) => assert text[3..] == after;
  }

  /** The elements cover what they list, and what follows them is read as if it stood alone. */
  lemma {:induction false} ReadElements(list: seq<Element>, tail: Str, c: Byte)
    requires Clear(list, tail)
    ensures var spans := SpansOf(SpellAll(list) + tail);
            && spans.wellFormed == SpansOf(tail).wellFormed
            && (Covered(spans.list, c) <==> (SevenBit(c) && Lists(list, c)) || Covered(SpansOf(tail).list, c))
  {
    if list == [] {
      assert SpellAll(list) + tail == tail;
    } else {
      var e, after := list[0], SpellAll(list[1..]) + tail;
      ReadElements(list[1..], tail, c);
      assert SpellAll(list) + tail == Spelling(e) + after;
      ReadElement(e, after);
      CoveredCons(SpanOf(e), SpansOf(after).list, c);
      CoversHolds(e, c);
      ListsFirst(list, c);
    }
  }

  lemma CoversHolds(e: Element, c: Byte)
    ensures SpanOf(e).Covers(c) <==> SevenBit(c) && Holds(e, c)
  {
  }

  /**
    What a set says is what it accepts: `[...]` the seven-bit bytes listed, and `[!...]`, with at least one
    element, every byte but those.
   */
  lemma SetMeans(list: seq<Element>, c: Byte)
    requires Clear(list, [])
    ensures !Inverted(SpellAll(list)) ==> (Accepts(SpellAll(list), c) <==> SevenBit(c) && Lists(list, c))
    ensures Accepts(['!'] + SpellAll(list), c) <==> list != [] && !(SevenBit(c) && Lists(list, c))
  {
    ReadElements(list, [], c);
    assert SpellAll(list) + [] == SpellAll(list);
    assert (['!'] + SpellAll(list))[1..] == SpellAll(list);
  }

  /**
    A byte and a dash at the end are malformed: the elements before still count, and nothing else; inverted,
    nothing does.
   */
  lemma DanglingDash(list: seq<Element>, a: Byte, c: Byte)
    requires Clear(list, [a, '-'])
    ensures var text := SpellAll(list) + [a, '-'];
            && (!Inverted(text) ==> (Accepts(text, c) <==> SevenBit(c) && Lists(list, c)))
            && !Accepts(['!'] + text, c)
  {
    var tail: Str := [a, '-'];
    ReadElements(list, tail, c);
    assert SpansOf(tail) == Spans([], false);
    assert (['!'] + (SpellAll(list) + tail))[1..] == SpellAll(list) + tail;
  }

  /** These are all the sets there are: every text reads as elements, and perhaps a dangling dash. */
  lemma {:induction false} EverySet(text: Str) returns (list: seq<Element>, tail: Str)
    ensures text == SpellAll(list) + tail && Clear(list, tail)
    ensures tail == [] || (|tail| == 2 && tail[1] == '-')
    decreases |text|
  {
    if text == [] {
      list, tail := [], [];
    } else if RangeAt(text) && |text| == 2 {
      list, tail := [], text;
    } else {
      var e := if RangeAt(text) then Range(text[0], text[2]) else One(text[0]);
      var rest := text[|Spelling(e)|..];
      var more;
      more, tail := EverySet(rest);
      list := [e] + more;
      assert list[1..] == more;
      assert text == Spelling(e) + rest;
    }
  }
}
