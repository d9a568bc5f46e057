/**
  The theory driver: an odometer over the datapoint sets, one round of messages for every tuple.
 */
module Theories {
  import opened Arithmetic

  /** How the theory's body ends on a tuple: it returns, an assumption fails, or an assertion does. */
  datatype Ending = Returns | AssumptionFails | AssertionFails

  /** A run of the body: the asserts it reports, and its end. */
  datatype Body = Body(asserts: seq<bool>, ending: Ending)

  // ---- Mixed-radix numbers -------------------------------------------------------------------

  predicate Positive(lens: seq<nat>) {
    forall i :: 0 <= i < |lens| ==> lens[i] > 0
  }

  function Product(lens: seq<nat>): nat {
    if lens == [] then 1 else lens[0] * Product(lens[1..])
  }

  /** The digits of `k`, digit 0 least significant; `lens` are the radices. */
  function Digits(k: nat, lens: seq<nat>): (d: seq<nat>)
    requires Positive(lens)
    ensures |d| == |lens|
    decreases lens
  {
    if lens == [] then [] else [k % lens[0]] + Digits(k / lens[0], lens[1..])
  }

  /** A tuple of indices, one into each datapoint set. */
  predicate Tuple(d: seq<nat>, lens: seq<nat>) {
    |d| == |lens| && forall i :: 0 <= i < |d| ==> d[i] < lens[i]
  }

  function Value(d: seq<nat>, lens: seq<nat>): nat
    requires |d| == |lens|
  {
    if d == [] then 0 else d[0] + lens[0] * Value(d[1..], lens[1..])
  }

  lemma {:induction false} ProductPositive(lens: seq<nat>)
    requires Positive(lens)
    ensures Product(lens) > 0
  {
    if lens != [] {
      ProductPositive(lens[1..]);
      MulPositive(lens[0], Product(lens[1..]));
    }
  }

  lemma DivBelow(k: nat, a: nat, b: nat)
    requires a > 0 && k < a * b
    ensures k / a < b
  {
    assert k == a * (k / a) + k % a;
    MulCancel(a, k / a, b);
  }

  lemma {:induction false} DigitsAreTuple(k: nat, lens: seq<nat>)
    requires Positive(lens)
    ensures Tuple(Digits(k, lens), lens)
    decreases lens
  {
    if lens != [] {
      DigitsAreTuple(k / lens[0], lens[1..]);
    }
  }

  lemma {:induction false} ValueOfDigits(k: nat, lens: seq<nat>)
    requires Positive(lens) && k < Product(lens)
    ensures Value(Digits(k, lens), lens) == k
    decreases lens
  {
    if lens != [] {
      DivBelow(k, lens[0], Product(lens[1..]));
      ValueOfDigits(k / lens[0], lens[1..]);
      assert Digits(k, lens)[1..] == Digits(k / lens[0], lens[1..]);
    }
  }

  lemma DivModUnique(a: nat, q: nat, r: nat)
    requires r < a
    ensures (r + a * q) / a == q && (r + a * q) % a == r
  {
    var n := r + a * q;
    var m := n / a;
    assert n == a * m + n % a;
    assert a * (q + 1) == a * q + a && a * (m + 1) == a * m + a;
    MulCancel(a, m, q + 1);
    MulCancel(a, q, m + 1);
  }

  lemma {:induction false} DigitsOfValue(d: seq<nat>, lens: seq<nat>)
    requires Positive(lens) && Tuple(d, lens)
    ensures Value(d, lens) < Product(lens) && Digits(Value(d, lens), lens) == d
    decreases lens
  {
    if lens != [] {
      DigitsOfValue(d[1..], lens[1..]);
      Composed(lens[0], Value(d[1..], lens[1..]), d[0], Product(lens[1..]));
      assert [d[0]] + d[1..] == d;
    }
  }

  lemma Composed(a: nat, q: nat, r: nat, p: nat)
    requires r < a && q < p
    ensures r + a * q < a * p && (r + a * q) / a == q && (r + a * q) % a == r
  {
    DivModUnique(a, q, r);
    MulMono(a, q + 1, p);
    assert a * (q + 1) == a * q + a;
  }

  /** Every tuple of indices is the digits of exactly one round number. */
  lemma EveryTupleOnce(d: seq<nat>, lens: seq<nat>)
    requires Positive(lens) && Tuple(d, lens)
    ensures exists k: nat :: k < Product(lens) && Digits(k, lens) == d
    ensures forall j: nat, k: nat ::
              j < Product(lens) && k < Product(lens) && Digits(j, lens) == d == Digits(k, lens) ==> j == k
  {
    DigitsOfValue(d, lens);
    forall k: nat | k < Product(lens) && Digits(k, lens) == d
      ensures k == Value(d, lens)
    {
      ValueOfDigits(k, lens);
    }
  }

  /** The first index runs fastest. */
  lemma FirstRunsFastest(k: nat, lens: seq<nat>)
    requires Positive(lens) && lens != []
    ensures Digits(k, lens)[0] == k % lens[0]
    ensures k < lens[0] ==> Digits(k, lens)[0] == k && Digits(k, lens)[1..] == Digits(0, lens)[1..]
  {
    if k < lens[0] {
      assert k / lens[0] == 0 / lens[0] == 0;
    }
  }

  // ---- The odometer ------------------------------------------------------------------------------

  /** One step: the digits that are at their last index go back to 0, the next one moves on. */
  function Tick(d: seq<nat>, lens: seq<nat>): seq<nat>
    requires |d| == |lens|
  {
    if d == [] then []
    else if d[0] + 1 == lens[0] then [0] + Tick(d[1..], lens[1..])
    else [d[0] + 1] + d[1..]
  }

  predicate AtLast(d: seq<nat>, lens: seq<nat>)
    requires |d| == |lens|
  {
    forall i :: 0 <= i < |d| ==> d[i] + 1 == lens[i]
  }

  /** The carry: what counting up does to the last digit and to the number above it. */
  lemma Carry(a: nat, q: nat, r: nat, p: nat)
    requires r < a && q < p
    ensures (r + 1 + a * q) / a == if r + 1 == a then q + 1 else q
    ensures (r + 1 + a * q) % a == if r + 1 == a then 0 else r + 1
    ensures r + 1 + a * q == a * p <==> r + 1 == a && q + 1 == p
  {
    assert a * (q + 1) == a * q + a;
    if r + 1 == a {
      DivModUnique(a, q + 1, 0);
      if q + 1 < p {
        MulMono(a, q + 2, p);
        assert a * (q + 2) == a * (q + 1) + a;
      }
    } else {
      DivModUnique(a, q, r + 1);
      MulMono(a, q + 1, p);
    }
  }

  lemma CountUp(k: nat, a: nat, p: nat)
    requires a > 0 && k < a * p
    ensures k / a < p
    ensures (k + 1) / a == if k % a + 1 == a then k / a + 1 else k / a
    ensures (k + 1) % a == if k % a + 1 == a then 0 else k % a + 1
    ensures k + 1 == a * p <==> k % a + 1 == a && k / a + 1 == p
  {
    DivBounds(k, a);
    DivBelow(k, a, p);
    Carry(a, k / a, k % a, p);
  }

  lemma AtLastSplit(d: seq<nat>, lens: seq<nat>)
    requires |d| == |lens| > 0
    ensures AtLast(d, lens) <==> d[0] + 1 == lens[0] && AtLast(d[1..], lens[1..])
  {
    if d[0] + 1 == lens[0] && AtLast(d[1..], lens[1..]) {
      forall i | 0 <= i < |d|
        ensures d[i] + 1 == lens[i]
      {
        if i > 0 {
          assert d[1..][i - 1] + 1 == lens[1..][i - 1];
        }
      }
    }
  }

  /** Ticking counts up by one, and only the last number has every digit at its last index. */
  lemma {:induction false} TickCounts(k: nat, lens: seq<nat>)
    requires Positive(lens) && k < Product(lens)
    ensures Tick(Digits(k, lens), lens) == Digits(k + 1, lens)
    ensures AtLast(Digits(k, lens), lens) <==> k + 1 == Product(lens)
    decreases lens
  {
    if lens != [] {
      var a, rest := lens[0], lens[1..];
      var q, r := k / a, k % a;
      CountUp(k, a, Product(rest));
      TickCounts(q, rest);
      TickFirst(r, Digits(q, rest), lens);
      assert Digits(k + 1, lens) == if r + 1 == a then [0] + Digits(q + 1, rest) else [r + 1] + Digits(q, rest);
    }
  }

  lemma TickFirst(r: nat, tail: seq<nat>, lens: seq<nat>)
    requires |lens| == |tail| + 1
    ensures var d := [r] + tail;
            && Tick(d, lens) == (if r + 1 == lens[0] then [0] + Tick(tail, lens[1..]) else [r + 1] + tail)
            && (AtLast(d, lens) <==> r + 1 == lens[0] && AtLast(tail, lens[1..]))
  {
    var d := [r] + tail;
    assert d[1..] == tail;
    AtLastSplit(d, lens);
  }
}
