/**
  The hex dump: lines of an address, sixteen bytes in hexadecimal, and the same bytes as text,
  written into a buffer sized beforehand.
 */
module Xxd {
  import opened Arithmetic

  const GROUP_BY := 4
  const BYTES_PER_LINE := 16

  /** One more than the largest 64-bit number. */
  const WORD: nat := 0x1_0000_0000_0000_0000

  // ---- Numbers ------------------------------------------------------------------------------------

  function Pow2(e: nat): nat {
    if e == 0 then 1 else 2 * Pow2(e - 1)
  }

  lemma {:induction false} PowAdds(a: nat, b: nat)
    ensures Pow2(a + b) == Pow2(a) * Pow2(b) && Pow2(a) > 0
  {
    if a > 0 {
      PowAdds(a - 1, b);
    }
  }

  /** `n` is `n0` divided by `q`, and between 0 and `b`. */
  ghost predicate Shifted(n0: nat, n: nat, q: nat, b: nat) {
    0 < n < b && q * n <= n0 < q * (n + 1)
  }

  /** Dividing by `p` once more. */
  lemma ShiftStep(n0: nat, n: nat, q: nat, p: nat, pq: nat, pp: nat)
    requires Shifted(n0, n, q, pp) && pq == p * q && pp == p * p && 0 < p <= n
    ensures Shifted(n0, n / p, pq, p)
  {
    var m := n / p;
    DivBounds(n, p);
    MulMono(q, p * m, n);
    MulMono(q, n + 1, p * (m + 1));
    MulAssoc(q, p, m);
    MulAssoc(q, p, m + 1);
    MulCancel(p, m, p);
  }

  lemma PowersOfBytes()
    ensures Pow2(4) == 16 && Pow2(64) == WORD
  {
    PowAdds(4, 4);
    PowAdds(8, 8);
    PowAdds(16, 16);
    PowAdds(32, 32);
  }

  /** One step of the logarithm. */
  method Halve(n: nat, i: nat, k: nat, ghost n0: nat) returns (m: nat, j: nat)
    requires Shifted(n0, n, Pow2(i), Pow2(k + k))
    ensures Shifted(n0, m, Pow2(j), Pow2(k)) && j <= i + k
  {
    m, j := n, i;
    PowAdds(k, k);
    if n >= Pow2(k) {
      PowAdds(k, i);
      ShiftStep(n0, n, Pow2(i), Pow2(k), Pow2(k + i), Pow2(k + k));
      m, j := n / Pow2(k), i + k;
    }
  }

  /** The floor of the base-2 logarithm, and -1 for 0. */
  method Ulog2(n0: nat) returns (r: int)
    requires n0 < WORD
    ensures n0 == 0 ==> r == -1
    ensures n0 > 0 ==> 0 <= r < 64 && Pow2(r) <= n0 < Pow2(r + 1)
  {
    if n0 == 0 {
      return -1;
    }
    PowersOfBytes();
    assert Pow2(0) == 1;
    var n, i := n0, 0;
    n, i := Halve(n, i, 32, n0);
    n, i := Halve(n, i, 16, n0);
    n, i := Halve(n, i, 8, n0);
    n, i := Halve(n, i, 4, n0);
    n, i := Halve(n, i, 2, n0);
    n, i := Halve(n, i, 1, n0);
    assert n == 1 && Pow2(1) == 2;
    r := i;
  }

  /** Rounding up to a multiple of 16, in 64-bit arithmetic. */
  function Align2Up(v: nat): nat
    requires v < WORD
  {
    ((v + WORD - 1) % WORD / BYTES_PER_LINE * BYTES_PER_LINE + BYTES_PER_LINE) % WORD
  }

  function LinesFor(size: nat): nat {
    (size + BYTES_PER_LINE - 1) / BYTES_PER_LINE
  }

  lemma AlignsToLines(v: nat)
    requires v <= WORD - BYTES_PER_LINE
    ensures Align2Up(v) == BYTES_PER_LINE * LinesFor(v)
  {
    if v > 0 {
      assert (v + WORD - 1) % WORD == v - 1;
      assert (v + 15) / 16 == (v - 1) / 16 + 1;
    }
  }

  // ---- The text of a dump ----------------------------------------------------------------------

  function Digit(d: nat): char
    requires d < 16
  {
    "0123456789abcdef"[d]
  }

  function DigitValue(c: char): nat {
    if '0' <= c <= '9' then c as nat - '0' as nat
    else if 'a' <= c <= 'f' then c as nat - 'a' as nat + 10
    else 0
  }

  lemma DigitRoundTrip(d: nat)
    requires d < 16
    ensures DigitValue(Digit(d)) == d && Digit(d) != ' ' && Digit(d) != ':'
  {
  }

  function Hex(v: nat): (r: string)
    ensures r != []
  {
    if v < 16 then [Digit(v)] else Hex(v / 16) + [Digit(v % 16)]
  }

  function Repeat(c: char, n: nat): (r: string)
    ensures |r| == n
  {
    if n == 0 then [] else Repeat(c, n - 1) + [c]
  }

  /** A number in hexadecimal, padded with zeros to a width. */
  function Address(v: nat, width: nat): (r: string)
    ensures |r| >= width && r != []
  {
    var digits := Hex(v);
    if |digits| >= width then digits else Repeat('0', width - |digits|) + digits
  }

  function HexByte(b: Octet): (r: string)
    ensures |r| == 2
  {
    [Digit(b / 16), Digit(b % 16)]
  }

  /** The bytes of a line in hexadecimal, with a space before every group of four. */
  function HexColumns(chunk: seq<Octet>): string {
    if chunk == [] then []
    else
      var j := |chunk| - 1;
      HexColumns(chunk[..j]) + (if j % GROUP_BY == 0 then " " else "") + HexByte(chunk[j])
  }

  function Printed(b: Octet): char {
    if 0x20 <= b <= 0x7e then b as char else '.'
  }

  function TextColumn(chunk: seq<Octet>): string {
    if chunk == [] then [] else TextColumn(chunk[..|chunk| - 1]) + [Printed(chunk[|chunk| - 1])]
  }

  /** The spaces that fill the hexadecimal columns of a line short of `left` bytes. */
  function Filler(left: nat): nat {
    (left + 1) * 2 + left / GROUP_BY
  }

  /** All of a line but its address. */
  function LineBody(chunk: seq<Octet>): string
    requires |chunk| <= BYTES_PER_LINE
  {
    ":" + HexColumns(chunk) + LineTail(chunk)
  }

  /** What follows the hexadecimal columns: filler, the bytes as text, more filler. */
  function LineTail(chunk: seq<Octet>): string
    requires |chunk| <= BYTES_PER_LINE
  {
    var left := BYTES_PER_LINE - |chunk|;
    Repeat(' ', Filler(left)) + TextColumn(chunk) + Repeat(' ', left) + "\n"
  }

  function ChunkAt(data: seq<Octet>, i: nat): seq<Octet>
    requires i <= |data|
  {
    data[i..if i + BYTES_PER_LINE <= |data| then i + BYTES_PER_LINE else |data|]
  }

  function LineAt(data: seq<Octet>, i: nat, start: nat, width: nat): string
    requires i < |data|
  {
    Address((i + start) % WORD, width) + LineBody(ChunkAt(data, i))
  }

  function NextAfter(data: seq<Octet>, i: nat): nat
    requires i < |data|
  {
    i + |ChunkAt(data, i)|
  }

  /** The lines of a dump from index `i` on. The step is two calls down, so that proofs unfold it only on request. */
  function DumpFrom(data: seq<Octet>, i: nat, start: nat, width: nat): string
    requires i <= |data|
    decreases |data| - i, 2
  {
    DumpSealed(data, i, start, width)
  }

  function DumpSealed(data: seq<Octet>, i: nat, start: nat, width: nat): string
    requires i <= |data|
    decreases |data| - i, 1
  {
    DumpStep(data, i, start, width)
  }

  function DumpStep(data: seq<Octet>, i: nat, start: nat, width: nat): string
    requires i <= |data|
    decreases |data| - i, 0
  {
    if i == |data| then [] else LineAt(data, i, start, width) + DumpFrom(data, NextAfter(data, i), start, width)
  }

  lemma DumpUnfold(data: seq<Octet>, i: nat, start: nat, width: nat)
    requires i <= |data|
    ensures DumpFrom(data, i, start, width) == DumpStep(data, i, start, width)
  {
    assert DumpSealed(data, i, start, width) == DumpStep(data, i, start, width);
  }

  // ---- How long it is -----------------------------------------------------------------------------

  lemma {:induction false} ColumnLengths(chunk: seq<Octet>)
    ensures |HexColumns(chunk)| == 2 * |chunk| + (|chunk| + 3) / 4
    ensures |TextColumn(chunk)| == |chunk|
  {
    if chunk != [] {
      ColumnLengths(chunk[..|chunk| - 1]);
    }
  }

  /** A line is its address and 56 characters, however many bytes it holds. */
  lemma LineBodyLength(chunk: seq<Octet>)
    requires |chunk| <= BYTES_PER_LINE
    ensures |LineBody(chunk)| == 56
  {
    ColumnLengths(chunk);
  }

  lemma {:induction false} HexLength(v: nat, k: nat)
    requires k > 0
    ensures |Hex(v)| <= k <==> v < Pow2(4 * k)
    decreases v
  {
    PowersOfBytes();
    PowAdds(4, 4 * (k - 1));
    PowAdds(4 * (k - 1), 0);
    if v < 16 {
      MulMono(16, 1, Pow2(4 * (k - 1)));
    } else if k > 1 {
      HexLength(v / 16, k - 1);
    }
  }

  /** An address has the width asked for exactly when it fits, and at most 16 digits. */
  lemma AddressLength(v: nat, width: nat)
    requires v < WORD && 0 < width <= 16
    ensures |Address(v, width)| <= 16
    ensures |Address(v, width)| == width <==> v < Pow2(4 * width)
  {
    PowersOfBytes();
    HexLength(v, 16);
    HexLength(v, width);
  }

  /** The widths that `OffsetWidth` may answer for a size; there is one at most. */
  predicate FitsWidth(size: nat, width: nat) {
    && width % 2 == 0 && 2 <= width <= 16
    && (width == 2 || Pow2(4 * (width - 1)) <= size - 1)
    && size - 1 < Pow2(4 * (width + 1))
  }

  lemma FitsOneWidth(size: nat, v: nat, w: nat)
    requires FitsWidth(size, v) && FitsWidth(size, w)
    ensures v == w
  {
    if v < w {
      PowMono(4 * (v + 1), 4 * (w - 1));
    } else if w < v {
      PowMono(4 * (w + 1), 4 * (v - 1));
    }
  }

  /** A dump of 257 bytes from 0, whose last address sticks out; and one of a line, from a start too wide. */
  lemma LastAddressSticksOut()
    ensures FitsWidth(257, 2) && |Address(LastOffset(257), 2)| == 3
    ensures FitsWidth(16, 2) && |Address(0x10000, 2)| == 5
  {
    HexLength(0x10000, 5);
    HexLength(0x10000, 4);
    PowAdds(8, 8);
    PowAdds(4, 16);
    PowersOfBytes();
    PowAdds(4, 8);
    PowAdds(4, 4);
    HexLength(256, 3);
    HexLength(256, 2);
  }

  /** The `lines` lines from `at` on all have an address of so many digits. */
  predicate AllOf(digits: nat, lines: nat, at: nat, start: nat, width: nat) {
    lines > 0 ==>
      |Address((at + start) % WORD, width)| == digits && AllOf(digits, lines - 1, at + BYTES_PER_LINE, start, width)
  }

  /** Where the last line of a dump begins. */
  function LastOffset(size: nat): nat
    requires size > 0
  {
    (size - 1) / BYTES_PER_LINE * BYTES_PER_LINE
  }

  lemma NarrowWidth(width: nat)
    requires width < 16
    ensures Pow2(4 * width) + BYTES_PER_LINE <= WORD
  {
    PowMono(4 * width, 60);
    PowAdds(4, 60);
    PowersOfBytes();
  }

  lemma {:induction false} LineUpFrom(lines: nat, at: nat, start: nat, width: nat, limit: nat)
    requires lines > 0 && 0 < width < 16 && at + start < WORD
    requires limit == Pow2(4 * width) && limit + BYTES_PER_LINE <= WORD
    ensures AllOf(width, lines, at, start, width) <==> at + start + 16 * (lines - 1) < limit
    decreases lines
  {
    assert (at + start) % WORD == at + start;
    AddressLength(at + start, width);
    if at + start < limit && lines > 1 {
      LineUpFrom(lines - 1, at + BYTES_PER_LINE, start, width, limit);
    }
  }

  lemma {:induction false} AllPadded(lines: nat, at: nat, start: nat)
    ensures AllOf(16, lines, at, start, 16)
  {
    if lines > 0 {
      AddressLength((at + start) % WORD, 16);
      AllPadded(lines - 1, at + BYTES_PER_LINE, start);
    }
  }

  /**
    The addresses of a dump all have the width chosen for its size exactly when the address of the
    last line fits that width, which the largest width always does, addresses that wrap included.
   */
  lemma AddressesLineUpExactly(size: nat, start: nat, width: nat)
    requires size > 0 && start < WORD && FitsWidth(size, width)
    ensures AllOf(width, LinesFor(size), 0, start, width) <==>
            width == 16 || start + LastOffset(size) < Pow2(4 * width)
  {
    if width == 16 {
      AllPadded(LinesFor(size), 0, start);
    } else {
      NarrowWidth(width);
      LineUpFrom(LinesFor(size), 0, start, width, Pow2(4 * width));
      assert 16 * (LinesFor(size) - 1) == LastOffset(size);
    }
  }

  lemma LastOffsetFits(size: nat, width: nat)
    requires size > 0 && width > 0
    ensures LastOffset(size) < Pow2(4 * width) <==> size - 1 < Pow2(4 * width)
  {
    PowersOfBytes();
    PowAdds(4, 4 * (width - 1));
  }

  lemma EnoughDigits(size: nat, width: nat)
    requires size > 0 && FitsWidth(size, width)
    ensures size - 1 < Pow2(4 * width) <==> |Hex(size - 1)| == 1 || |Hex(size - 1)| % 2 == 0
  {
    var v := size - 1;
    HexLength(v, width - 1);
    HexLength(v, width);
    HexLength(v, width + 1);
    DigitParity(|Hex(v)|, width, v, Pow2(4 * (width - 1)), Pow2(4 * width), Pow2(4 * (width + 1)));
  }

  /** A number of `d` digits between the limits of widths `w - 1` and `w + 1`. */
  lemma DigitParity(d: nat, w: nat, v: nat, low: nat, mid: nat, high: nat)
    requires d > 0 && w % 2 == 0 && w >= 2 && (w == 2 || low <= v) && v < high
    requires (d <= w - 1 <==> v < low) && (d <= w <==> v < mid) && (d <= w + 1 <==> v < high)
    ensures v < mid <==> d == 1 || d % 2 == 0
  {
  }

  /** From address 0 that is decided by the size: the last offset needs one digit, or an even number of them. */
  lemma FromZeroBySize(size: nat, width: nat)
    requires 0 < size < WORD && FitsWidth(size, width)
    ensures AllOf(width, LinesFor(size), 0, 0, width) <==> |Hex(size - 1)| == 1 || |Hex(size - 1)| % 2 == 0
  {
    AddressesLineUpExactly(size, 0, width);
    LastOffsetFits(size, width);
    EnoughDigits(size, width);
    PowersOfBytes();
  }

  /** The dump fills 72 characters a line at most, and exactly that when every address has 16 digits. */
  lemma {:induction false} DumpLength(data: seq<Octet>, i: nat, start: nat, width: nat)
    requires i <= |data| && 0 < width <= 16
    ensures var n, lines := |DumpFrom(data, i, start, width)|, LinesFor(|data| - i);
            n <= 72 * lines && (n == 72 * lines <==> AllOf(16, lines, i, start, width))
    decreases |data| - i
  {
    DumpUnfold(data, i, start, width);
    if i < |data| {
      var chunk := ChunkAt(data, i);
      var next := NextAfter(data, i);
      AddressLength((i + start) % WORD, width);
      LineBodyLength(chunk);
      DumpLength(data, next, start, width);
      assert LinesFor(|data| - i) == 1 + LinesFor(|data| - next);
    }
  }

  // ---- Reading it back ----------------------------------------------------------------------------

  /** Where byte `j` of a line stands, counted from the colon. */
  function Column(j: nat): nat {
    2 * j + j / GROUP_BY + 2
  }

  /** The bytes in the hexadecimal columns of a line body, from byte `j` on. */
  function ReadColumns(body: string, j: nat): seq<Octet>
    requires |body| == 56
    decreases BYTES_PER_LINE - j
  {
    if j >= BYTES_PER_LINE || body[Column(j)] == ' ' then []
    else
      var b := DigitValue(body[Column(j)]) * 16 + DigitValue(body[Column(j) + 1]);
      (if b < 256 then [b] else [0]) + ReadColumns(body, j + 1)
  }

  function Colon(text: string): (k: nat)
    ensures k <= |text|
  {
    if text == [] || text[0] == ':' then 0 else 1 + Colon(text[1..])
  }

  /** The bytes of a whole dump: each line from its colon on. Unfolded only on request. */
  function ReadDump(text: string): seq<Octet>
    decreases |text|, 2
  {
    ReadSealed(text)
  }

  function ReadSealed(text: string): seq<Octet>
    decreases |text|, 1
  {
    ReadStep(text)
  }

  function ReadStep(text: string): seq<Octet>
    decreases |text|, 0
  {
    var k := Colon(text);
    if k + 56 > |text| then [] else ReadColumns(text[k..k + 56], 0) + ReadDump(text[k + 56..])
  }

  lemma ReadUnfold(text: string)
    ensures ReadDump(text) == ReadStep(text)
  {
    assert ReadSealed(text) == ReadStep(text);
  }

  lemma {:induction false} HexHasNoColon(v: nat, i: nat)
    requires i < |Hex(v)|
    ensures Hex(v)[i] != ':'
    decreases v
  {
    DigitRoundTrip(v % 16);
    if v >= 16 && i < |Hex(v)| - 1 {
      HexHasNoColon(v / 16, i);
    }
  }

  lemma {:induction false} RepeatAt(c: char, n: nat, i: nat)
    requires i < n
    ensures Repeat(c, n)[i] == c
  {
    if i < n - 1 {
      RepeatAt(c, n - 1, i);
    }
  }

  lemma {:induction false} ColonAfter(address: string, rest: string)
    requires rest != [] && rest[0] == ':' && forall i :: 0 <= i < |address| ==> address[i] != ':'
    ensures Colon(address + rest) == |address|
  {
    if address == [] {
      assert address + rest == rest;
    } else {
      assert (address + rest)[1..] == address[1..] + rest;
      ColonAfter(address[1..], rest);
    }
  }

  lemma AddressHasNoColon(v: nat, width: nat)
    ensures forall i :: 0 <= i < |Address(v, width)| ==> Address(v, width)[i] != ':'
  {
    var digits := Hex(v);
    forall i | 0 <= i < |digits|
      ensures digits[i] != ':'
    {
      HexHasNoColon(v, i);
    }
    if |digits| < width {
      var zeros := Repeat('0', width - |digits|);
      forall i | 0 <= i < |zeros|
        ensures zeros[i] == '0'
      {
        RepeatAt('0', |zeros|, i);
      }
    }
  }

  lemma {:induction false} ColumnAt(chunk: seq<Octet>, j: nat)
    requires j < |chunk|
    ensures var h, k := HexColumns(chunk), Column(j) - 1;
            k + 1 < |h| && h[k] == Digit(chunk[j] / 16) && h[k + 1] == Digit(chunk[j] % 16)
  {
    ColumnLengths(chunk);
    var n := |chunk| - 1;
    ColumnLengths(chunk[..n]);
    if j < n {
      ColumnAt(chunk[..n], j);
    }
  }

  lemma BodyDigits(chunk: seq<Octet>, j: nat)
    requires j < |chunk| <= BYTES_PER_LINE
    ensures |LineBody(chunk)| == 56
    ensures LineBody(chunk)[Column(j)] == Digit(chunk[j] / 16)
    ensures LineBody(chunk)[Column(j) + 1] == Digit(chunk[j] % 16)
  {
    LineBodyLength(chunk);
    ColumnAt(chunk, j);
  }

  lemma BodyFiller(chunk: seq<Octet>)
    requires |chunk| < BYTES_PER_LINE
    ensures |LineBody(chunk)| == 56 && LineBody(chunk)[Column(|chunk|)] == ' '
  {
    LineBodyLength(chunk);
    ColumnLengths(chunk);
    RepeatAt(' ', Filler(BYTES_PER_LINE - |chunk|), Column(|chunk|) - 1 - |HexColumns(chunk)|);
  }

  /** The columns of `body` show the bytes of `chunk` and end there. */
  predicate Shows(body: string, chunk: seq<Octet>) {
    && |body| == 56 && |chunk| <= BYTES_PER_LINE
    && (forall j :: 0 <= j < |chunk| ==> ShowsByte(body, j, chunk[j]))
    && (|chunk| < BYTES_PER_LINE ==> body[Column(|chunk|)] == ' ')
  }

  predicate ShowsByte(body: string, j: nat, b: Octet)
    requires |body| == 56 && j < BYTES_PER_LINE
  {
    body[Column(j)] == Digit(b / 16) && body[Column(j) + 1] == Digit(b % 16)
  }

  lemma LineShows(chunk: seq<Octet>)
    requires |chunk| <= BYTES_PER_LINE
    ensures Shows(LineBody(chunk), chunk) && LineBody(chunk)[0] == ':'
  {
    LineBodyLength(chunk);
    forall j | 0 <= j < |chunk|
      ensures ShowsByte(LineBody(chunk), j, chunk[j])
    {
      BodyDigits(chunk, j);
    }
    if |chunk| < BYTES_PER_LINE {
      BodyFiller(chunk);
    }
  }

  lemma {:induction false} ColumnsReadBack(chunk: seq<Octet>, body: string, j: nat)
    requires j <= |chunk| && Shows(body, chunk)
    ensures ReadColumns(body, j) == chunk[j..]
    decreases |chunk| - j
  {
    if j < |chunk| {
      DigitRoundTrip(chunk[j] / 16);
      DigitRoundTrip(chunk[j] % 16);
      ColumnsReadBack(chunk, body, j + 1);
      assert ShowsByte(body, j, chunk[j]);
      assert chunk[j..] == [chunk[j]] + chunk[j + 1..];
    }
  }

  /** One line read off the front of a text. */
  lemma ReadLine(address: string, body: string, rest: string)
    requires |body| == 56 && body[0] == ':' && forall i :: 0 <= i < |address| ==> address[i] != ':'
    ensures ReadDump(address + body + rest) == ReadColumns(body, 0) + ReadDump(rest)
  {
    var text := address + body + rest;
    assert text == address + (body + rest);
    ColonAfter(address, body + rest);
    ReadUnfold(text);
    assert text[|address|..|address| + 56] == body && text[|address| + 56..] == rest;
  }

  lemma LineReadsBack(data: seq<Octet>, i: nat, start: nat, width: nat, rest: string)
    requires i < |data|
    ensures ReadDump(LineAt(data, i, start, width) + rest) == ChunkAt(data, i) + ReadDump(rest)
  {
    var chunk := ChunkAt(data, i);
    LineShows(chunk);
    AddressHasNoColon((i + start) % WORD, width);
    ReadLine(Address((i + start) % WORD, width), LineBody(chunk), rest);
    ColumnsReadBack(chunk, LineBody(chunk), 0);
  }

  /** Round trip: reading the hexadecimal columns of a dump gives back the bytes. */
  lemma {:induction false} DumpReadsBack(data: seq<Octet>, i: nat, start: nat, width: nat)
    requires i <= |data|
    ensures ReadDump(DumpFrom(data, i, start, width)) == data[i..]
    decreases |data| - i
  {
    DumpUnfold(data, i, start, width);
    if i < |data| {
      var next := NextAfter(data, i);
      LineReadsBack(data, i, start, width, DumpFrom(data, next, start, width));
      DumpReadsBack(data, next, start, width);
      assert ChunkAt(data, i) + data[next..] == data[i..];
    } else {
      ReadUnfold([]);
    }
  }

  // ---- All that a dump shows ------------------------------------------------------------------------

  /** A line as its reader sees it: where it begins, its bytes, and the text beside them. */
  datatype Line = Line(address: nat, bytes: seq<Octet>, shown: string)

  function HexValue(s: string): nat {
    if s == [] then 0 else HexValue(s[..|s| - 1]) * 16 + DigitValue(s[|s| - 1])
  }

  lemma {:induction false} HexReads(v: nat)
    ensures HexValue(Hex(v)) == v
    decreases v
  {
    DigitRoundTrip(v % 16);
    if v >= 16 {
      HexReads(v / 16);
      assert Hex(v)[..|Hex(v)| - 1] == Hex(v / 16);
    } else {
      assert [Digit(v)][..0] == [];
    }
  }

  lemma {:induction false} ZerosAdd(n: nat, s: string)
    ensures HexValue(Repeat('0', n) + s) == HexValue(s)
  {
    var text := Repeat('0', n) + s;
    if s != [] {
      ZerosAdd(n, s[..|s| - 1]);
      assert text[..|text| - 1] == Repeat('0', n) + s[..|s| - 1];
    } else if n > 0 {
      ZerosAdd(n - 1, []);
      assert text[..n - 1] == Repeat('0', n - 1) + [];
    }
  }

  lemma AddressReads(v: nat, width: nat)
    ensures HexValue(Address(v, width)) == v
  {
    HexReads(v);
    if |Hex(v)| < width {
      ZerosAdd(width - |Hex(v)|, Hex(v));
    }
  }

  /** Bytes as text: the printable ASCII characters as they are, a dot for any other byte. */
  function Visible(chunk: seq<Octet>): (r: string)
    ensures |r| == |chunk|
  {
    if chunk == [] then []
    else
      var b := chunk[|chunk| - 1];
      Visible(chunk[..|chunk| - 1]) + [if 0x20 <= b <= 0x7e then b as char else '.']
  }

  lemma {:induction false} TextIsVisible(chunk: seq<Octet>)
    ensures TextColumn(chunk) == Visible(chunk)
  {
    if chunk != [] {
      TextIsVisible(chunk[..|chunk| - 1]);
    }
  }

  /** The text stands at the same place in every line. */
  lemma BodyShowsText(chunk: seq<Octet>)
    requires |chunk| <= BYTES_PER_LINE
    ensures |LineBody(chunk)| == 56 && LineBody(chunk)[39..39 + |chunk|] == Visible(chunk)
  {
    LineBodyLength(chunk);
    ColumnLengths(chunk);
    TextIsVisible(chunk);
    var left := BYTES_PER_LINE - |chunk|;
    PartAt(":" + HexColumns(chunk), Repeat(' ', Filler(left)), TextColumn(chunk), Repeat(' ', left), "\n");
  }

  lemma PartAt(a: string, b: string, text: string, c: string, d: string)
    ensures (a + (b + text + c + d))[|a| + |b|..|a| + |b| + |text|] == text
  {
    assert a + (b + text + c + d) == (a + b) + text + (c + d);
  }

  /** The lines of a whole dump, read off its text. Unfolded only on request. */
  function ReadLines(text: string): seq<Line>
    decreases |text|, 2
  {
    LinesSealed(text)
  }

  function LinesSealed(text: string): seq<Line>
    decreases |text|, 1
  {
    LinesStep(text)
  }

  function LinesStep(text: string): seq<Line>
    decreases |text|, 0
  {
    var k := Colon(text);
    if k + 56 > |text| then []
    else
      var body := text[k..k + 56];
      var bytes := ReadColumns(body, 0);
      [Line(HexValue(text[..k]), bytes, if 39 + |bytes| <= 56 then body[39..39 + |bytes|] else [])]
      + ReadLines(text[k + 56..])
  }

  lemma LinesUnfold(text: string)
    ensures ReadLines(text) == LinesStep(text)
  {
    assert LinesSealed(text) == LinesStep(text);
  }

  /** What a dump of the bytes from index `i` on is to show: sixteen bytes a line, counted on from the start. */
  function Shown(data: seq<Octet>, i: nat, start: nat): seq<Line>
    requires i <= |data|
    decreases |data| - i
  {
    if i == |data| then []
    else
      var next := if i + 16 <= |data| then i + 16 else |data|;
      [Line((i + start) % WORD, data[i..next], Visible(data[i..next]))] + Shown(data, next, start)
  }

  lemma ReadOneLine(address: string, body: string, rest: string, bytes: seq<Octet>, shown: string)
    requires |body| == 56 && body[0] == ':' && forall i :: 0 <= i < |address| ==> address[i] != ':'
    requires |bytes| <= BYTES_PER_LINE && ReadColumns(body, 0) == bytes && body[39..39 + |bytes|] == shown
    ensures ReadLines(address + body + rest) == [Line(HexValue(address), bytes, shown)] + ReadLines(rest)
  {
    var text := address + body + rest;
    Parts(address, body, rest);
    ColonAfter(address, body + rest);
    LinesUnfold(text);
  }

  lemma Parts(a: string, b: string, c: string)
    ensures var text := a + b + c;
            && text == a + (b + c) && text[..|a|] == a && text[|a|..|a| + |b|] == b && text[|a| + |b|..] == c
  {
  }

  lemma BodyReads(chunk: seq<Octet>)
    requires |chunk| <= BYTES_PER_LINE
    ensures |LineBody(chunk)| == 56 && ReadColumns(LineBody(chunk), 0) == chunk && LineBody(chunk)[0] == ':'
  {
    LineShows(chunk);
    ColumnsReadBack(chunk, LineBody(chunk), 0);
    assert chunk[0..] == chunk;
  }

  lemma LineReads(data: seq<Octet>, i: nat, start: nat, width: nat, rest: string)
    requires i < |data|
    ensures ReadLines(LineAt(data, i, start, width) + rest) ==
            [Line((i + start) % WORD, ChunkAt(data, i), Visible(ChunkAt(data, i)))] + ReadLines(rest)
  {
    var at, chunk := (i + start) % WORD, ChunkAt(data, i);
    AddressHasNoColon(at, width);
    AddressReads(at, width);
    BodyShowsText(chunk);
    BodyReads(chunk);
    ReadOneLine(Address(at, width), LineBody(chunk), rest, chunk, Visible(chunk));
  }

  /** The dump shows every byte, in hexadecimal and as text, on the line of its address. */
  lemma {:induction false} DumpShows(data: seq<Octet>, i: nat, start: nat, width: nat)
    requires i <= |data|
    ensures ReadLines(DumpFrom(data, i, start, width)) == Shown(data, i, start)
    decreases |data| - i
  {
    DumpUnfold(data, i, start, width);
    if i < |data| {
      var next := NextAfter(data, i);
      LineReads(data, i, start, width, DumpFrom(data, next, start, width));
      DumpShows(data, next, start, width);
    } else {
      LinesUnfold([]);
    }
  }

  // ---- The dump itself ----------------------------------------------------------------------------

  lemma {:induction false} PowMono(a: nat, b: nat)
    requires a <= b
    ensures Pow2(a) <= Pow2(b)
  {
    if a < b {
      PowMono(a, b - 1);
    }
  }

  /** The least width of an address: even, and, but for one digit at most, that of the last offset. */
  method OffsetWidth(size: nat) returns (width: nat)
    requires size < WORD
    ensures FitsWidth(size, width)
  {
    width := 1;
    ghost var log := 0;
    if size > 1 {
      var top := Ulog2(size - 1);
      var sixteen := Ulog2(16);
      FourBits(sixteen);
      width := top / sixteen;
      log := top;
    }
    width := if width > 0 then width else 1;
    width := width + width % 2;
    PowMono(log + 1, 4 * (width + 1));
    if width > 2 {
      PowMono(4 * (width - 1), log);
    }
  }

  lemma FourBits(r: int)
    requires 0 <= r && Pow2(r) <= 16 < Pow2(r + 1)
    ensures r == 4
  {
    PowersOfBytes();
    if r < 4 {
      PowMono(r + 1, 4);
    } else if r > 4 {
      PowMono(5, r);
    }
  }

  method PutChar(out: array<char>, at: nat, c: char) returns (n: nat)
    requires at < out.Length
    modifies out
    ensures n == at + 1 && out[..n] == old(out[..at]) + [c]
  {
    out[at] := c;
    n := at + 1;
  }

  /** Writes a text and a terminator after it. */
  method Sprintf(out: array<char>, at: nat, s: string) returns (n: nat)
    requires at + |s| < out.Length
    modifies out
    ensures n == at + |s| && out[..n] == old(out[..at]) + s
  {
    for k := 0 to |s|
      invariant out[..at + k] == old(out[..at]) + s[..k]
    {
      out[at + k] := s[k];
    }
    n := at + |s|;
    out[n] := '\0';
  }

  method PutSpaces(out: array<char>, at: nat, count: nat) returns (n: nat)
    requires at + count <= out.Length
    modifies out
    ensures n == at + count && out[..n] == old(out[..at]) + Repeat(' ', count)
  {
    n := at;
    var k := 0;
    while k < count
      invariant k <= count && n == at + k
      invariant out[..n] == old(out[..at]) + Repeat(' ', k)
    {
      n := PutChar(out, n, ' ');
      k := k + 1;
    }
  }

  function ByteColumn(j: nat, b: Octet): string {
    (if j % GROUP_BY == 0 then " " else "") + HexByte(b)
  }

  lemma ColumnsStep(chunk: seq<Octet>, j: nat)
    requires j < |chunk|
    ensures HexColumns(chunk[..j + 1]) == HexColumns(chunk[..j]) + ByteColumn(j, chunk[j])
  {
    assert chunk[..j + 1][..j] == chunk[..j];
  }

  lemma Joins(before: string, line: string, rest: string)
    ensures before + (line + rest) == (before + line) + rest
  {
  }

  /** The characters `j` bytes take in the columns. */
  function ColumnsWidth(j: nat): nat {
    2 * j + (j + 3) / 4
  }

  lemma ColumnsWidthStep(j: nat)
    requires j < BYTES_PER_LINE
    ensures ColumnsWidth(j + 1) == ColumnsWidth(j) + (if j % GROUP_BY == 0 then 3 else 2) <= 36
  {
  }

  /** One byte in hexadecimal, after a space if it starts a group. */
  method PutHexByte(out: array<char>, at: nat, j: nat, b: Octet) returns (n: nat)
    requires at + (if j % GROUP_BY == 0 then 3 else 2) < out.Length
    modifies out
    ensures n == at + (if j % GROUP_BY == 0 then 3 else 2)
    ensures out[..n] == old(out[..at]) + ByteColumn(j, b)
  {
    n := at;
    if j % GROUP_BY == 0 {
      n := PutChar(out, n, ' ');
    }
    n := Sprintf(out, n, HexByte(b));
  }

  method PutHexColumns(out: array<char>, at: nat, data: seq<Octet>, i: nat) returns (n: nat, j: nat)
    requires i <= |data| && at + 36 < out.Length
    modifies out
    ensures i + j <= |data| && data[i..i + j] == ChunkAt(data, i) && j <= BYTES_PER_LINE
    ensures n == at + ColumnsWidth(j) && out[..n] == old(out[..at]) + HexColumns(ChunkAt(data, i))
  {
    ghost var before, chunk := out[..at], ChunkAt(data, i);
    n, j := at, 0;
    while j < BYTES_PER_LINE && i + j < |data|
      invariant j <= |chunk| && n == at + ColumnsWidth(j)
      invariant out[..n] == before + HexColumns(chunk[..j])
    {
      ColumnsStep(chunk, j);
      ColumnsWidthStep(j);
      Joins(before, HexColumns(chunk[..j]), ByteColumn(j, chunk[j]));
      n := PutHexByte(out, n, j, data[i + j]);
      j := j + 1;
    }
    assert chunk[..j] == chunk;
  }

  method PutText(out: array<char>, at: nat, chunk: seq<Octet>) returns (n: nat)
    requires at + |chunk| <= out.Length
    modifies out
    ensures n == at + |chunk| && out[..n] == old(out[..at]) + TextColumn(chunk)
  {
    n := at;
    for k := 0 to |chunk|
      invariant n == at + k && out[..n] == old(out[..at]) + TextColumn(chunk[..k])
    {
      assert chunk[..k + 1][..k] == chunk[..k];
      n := PutChar(out, n, Printed(chunk[k]));
    }
    assert chunk[..|chunk|] == chunk;
  }

  method PutTail(out: array<char>, at: nat, chunk: seq<Octet>) returns (n: nat)
    requires |chunk| <= BYTES_PER_LINE
    requires at + Filler(BYTES_PER_LINE - |chunk|) + BYTES_PER_LINE + 1 <= out.Length
    modifies out
    ensures n == at + Filler(BYTES_PER_LINE - |chunk|) + BYTES_PER_LINE + 1
    ensures out[..n] == old(out[..at]) + LineTail(chunk)
  {
    ghost var before := out[..at];
    var left := BYTES_PER_LINE - |chunk|;
    n := PutSpaces(out, at, Filler(left));
    n := PutText(out, n, chunk);
    n := PutSpaces(out, n, left);
    n := PutChar(out, n, '\n');
    RegroupTail(before, Repeat(' ', Filler(left)), TextColumn(chunk), Repeat(' ', left), "\n");
  }

  lemma RegroupTail(before: string, a: string, b: string, c: string, d: string)
    ensures before + a + b + c + d == before + (a + b + c + d)
  {
  }

  lemma Regroup(before: string, address: string, columns: string, tail: string)
    ensures before + (address + ":") + columns + tail == before + (address + (":" + columns + tail))
  {
  }

  /** One line; `j` is the number of bytes on it. */
  method PutLine(out: array<char>, at: nat, data: seq<Octet>, i: nat, address: string) returns (n: nat, j: nat)
    requires i < |data| && at + |address| + 56 < out.Length
    modifies out
    ensures i + j <= |data| && data[i..i + j] == ChunkAt(data, i) && n == at + |address| + 56
    ensures out[..n] == old(out[..at]) + (address + LineBody(ChunkAt(data, i)))
  {
    ghost var before := out[..at];
    n := Sprintf(out, at, address + ":");
    n, j := PutHexColumns(out, n, data, i);
    n := PutTail(out, n, data[i..i + j]);
    Regroup(before, address, HexColumns(data[i..i + j]), LineTail(data[i..i + j]));
  }

  /** The line from `i` on, and the index of the next. */
  method PutNext(out: array<char>, at: nat, data: seq<Octet>, i: nat, start: nat, width: nat)
    returns (n: nat, next: nat)
    requires i < |data| && 0 < width <= 16 && at + 72 < out.Length
    modifies out
    ensures n <= at + 72 && next == NextAfter(data, i)
    ensures out[..n] + DumpFrom(data, next, start, width) == old(out[..at]) + DumpFrom(data, i, start, width)
  {
    ghost var before := out[..at];
    var address := Address((i + start) % WORD, width);
    AddressLength((i + start) % WORD, width);
    var j;
    n, j := PutLine(out, at, data, i, address);
    next := i + j;
    DumpUnfold(data, i, start, width);
    Joins(before, LineAt(data, i, start, width), DumpFrom(data, next, start, width));
  }

  /**
    The dump. Whatever the start, it stays within the buffer allocated for it, ends in a
    terminator, and reads back as the data.
   */
  method StringXxd(data: seq<Octet>, start: nat) returns (out: array<char>, written: nat, width: nat)
    requires 72 * LinesFor(|data|) + 1 < WORD
    ensures FitsWidth(|data|, width)
    ensures out.Length == 72 * LinesFor(|data|) + 1 && written < out.Length && out[written] == '\0'
    ensures out[..written] == DumpFrom(data, 0, start, width)
    ensures ReadDump(out[..written]) == data && ReadLines(out[..written]) == Shown(data, 0, start)
  {
    var size := |data|;
    AlignsToLines(size);
    var maxsz := Align2Up(size);
    var nbLines := maxsz / BYTES_PER_LINE;
    var nbSpaces := nbLines * (BYTES_PER_LINE / GROUP_BY + 2);
    var lenAddr := (8 * 2 + 1) * nbLines;
    var lenHex := maxsz * 2;
    out := new char[maxsz + lenHex + nbSpaces + lenAddr + nbLines + 1];
    width := OffsetWidth(size);
    written := PutLines(out, data, start, width);
    out[written] := '\0';
    DumpReadsBack(data, 0, start, width);
    DumpShows(data, 0, start, width);
  }

  lemma NextLine(data: seq<Octet>, i: nat)
    requires i < |data| && i % BYTES_PER_LINE == 0
    ensures var next := NextAfter(data, i);
            && next <= |data| && (next == |data| || next % BYTES_PER_LINE == 0)
            && LinesFor(next) == LinesFor(i) + 1 <= LinesFor(|data|)
  {
  }

  method PutLines(out: array<char>, data: seq<Octet>, start: nat, width: nat) returns (written: nat)
    requires 0 < width <= 16 && out.Length == 72 * LinesFor(|data|) + 1
    modifies out
    ensures written < out.Length && out[..written] == DumpFrom(data, 0, start, width)
  {
    written := 0;
    var i := 0;
    while i < |data|
      invariant i <= |data| && (i == |data| || i % BYTES_PER_LINE == 0)
      invariant written <= 72 * LinesFor(i)
      invariant out[..written] + DumpFrom(data, i, start, width) == DumpFrom(data, 0, start, width)
    {
      NextLine(data, i);
      written, i := PutNext(out, written, data, i, start, width);
    }
    DumpUnfold(data, |data|, start, width);
  }
}
