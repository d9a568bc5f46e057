/** C strings: sequences of non-NUL bytes, so the terminator sits at index `|s|`. */
module CStrings {

  type Byte = c: char | 1 <= c as int <= 255 witness 'a'

  type Str = seq<Byte>

  /** The value of a byte read through a plain `char`, which is signed on the supported platforms. */
  function Signed(c: Byte): (v: int)
    ensures -128 <= v <= 127 && (v - c as int) % 256 == 0
  {
    if c as int < 128 then c as int else c as int - 256
  }

  predicate SevenBit(c: Byte) {
    c as int < 128
  }

  /** Concatenation of a list of strings. */
  function Concat(parts: seq<Str>): Str {
    if parts == [] then [] else parts[0] + Concat(parts[1..])
  }

  lemma {:induction false} ConcatAppend(a: seq<Str>, b: seq<Str>)
    ensures Concat(a + b) == Concat(a) + Concat(b)
  {
    if a == [] {
      assert a + b == b;
    } else {
      ConcatAppend(a[1..], b);
      assert (a + b)[1..] == a[1..] + b;
    }
  }

  lemma ConcatSingle(s: Str)
    ensures Concat([s]) == s
  {
    assert Concat([s][1..]) == [];
  }

  /** `strchr`: the first index holding `c`, or the length of the string. */
  function IndexOf(s: Str, c: Byte): (k: nat)
    ensures k <= |s|
    ensures k < |s| ==> s[k] == c
    ensures c !in s[..k]
  {
    if s == [] || s[0] == c then 0 else
    var k := 1 + IndexOf(s[1..], c);
    assert s[..k] == [s[0]] + s[1..][..k - 1];
    k
  }
}
