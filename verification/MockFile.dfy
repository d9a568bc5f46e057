/**
  The in-memory file behind mock streams: reads, writes and seeks over a growing region of
  memory, and the bounded byte file that they implement.
 */
module MockFile {
  import opened Arithmetic

  const SIZE_MAX: int := 0xFFFF_FFFF_FFFF_FFFF

  datatype Whence = SeekSet | SeekCur | SeekEnd | SeekBad

  /** An abstract file: its bytes, the position in it, and the bound on its size. */
  datatype File = File(bytes: seq<Octet>, pos: nat, max: nat)

  // ---- What the operations mean on the abstract file ----------------------------------------------

  /** A read takes what there is, up to `count` bytes, and moves on by as much. */
  function Taken(f: File, count: nat): seq<Octet> {
    if f.pos >= |f.bytes| then [] else f.bytes[f.pos..Min(|f.bytes|, f.pos + count)]
  }

  function AfterRead(f: File, count: nat): File {
    f.(pos := f.pos + |Taken(f, count)|)
  }

  /** How much of `count` bytes a write puts below the bound; none is an error if some were asked for. */
  function Room(f: File, count: nat): nat {
    if f.pos >= f.max then 0 else Min(count, f.max - f.pos)
  }

  /** A write puts as many of the bytes as there is room for, over what is there. */
  predicate Wrote(f: File, buf: seq<Octet>, r: File) {
    var n := Room(f, |buf|);
    && r.max == f.max && r.pos == f.pos + n
    && |r.bytes| == (if n > 0 && f.pos + n > |f.bytes| then f.pos + n else |f.bytes|)
    && (n > 0 ==> r.bytes[f.pos..f.pos + n] == buf[..n])
    && (forall k :: 0 <= k < |f.bytes| && !(f.pos <= k < f.pos + n) ==> r.bytes[k] == f.bytes[k])
  }

  /** Offsets from the position and from the end are clamped to the file. */
  function Clamped(f: File, target: int): nat {
    if target < 0 then 0 else Min(target, |f.bytes|)
  }

  /**
    A seek from the start takes any position, also past the end, and wraps a negative one around; a bad
    whence changes nothing.
   */
  function AfterSeek(f: File, off: int, whence: Whence): File {
    match whence
    case SeekSet => f.(pos := off % (SIZE_MAX + 1))
    case SeekCur => f.(pos := Clamped(f, f.pos + off))
    case SeekEnd => f.(pos := Clamped(f, |f.bytes| + off))
    case SeekBad => f
  }

  /** Where a seek leads, for offsets that stay in the file and for those that do not. */
  lemma SeeksExactly(f: File, off: int, count: nat)
    ensures 0 <= off <= SIZE_MAX ==> AfterSeek(f, off, SeekSet).pos == off
    ensures 0 <= f.pos + off <= |f.bytes| ==> AfterSeek(f, off, SeekCur).pos == f.pos + off
    ensures f.pos + off < 0 ==> AfterSeek(f, off, SeekCur).pos == 0
    ensures f.pos + off > |f.bytes| ==> AfterSeek(f, off, SeekCur).pos == |f.bytes|
    ensures -|f.bytes| <= off <= 0 ==>
              Taken(AfterSeek(f, off, SeekEnd), count) == f.bytes[|f.bytes| + off..][..Min(-off, count)]
    ensures off < -|f.bytes| ==> AfterSeek(f, off, SeekEnd).pos == 0
    ensures off > 0 ==> AfterSeek(f, off, SeekEnd).pos == |f.bytes|
  {
  }

  /** A write that fits below the bound puts every byte; one that does not stops at the bound. */
  lemma WritesExactly(f: File, buf: seq<Octet>, r: File)
    requires Wrote(f, buf, r)
    ensures f.pos + |buf| <= f.max ==> r.pos == f.pos + |buf| && (buf != [] ==> r.bytes[f.pos..r.pos] == buf)
    ensures f.pos <= f.max < f.pos + |buf| ==> r.pos == f.max
    ensures f.pos >= f.max ==> r.pos == f.pos && r.bytes == f.bytes
  {
    if f.pos + |buf| <= f.max {
      assert buf[..|buf|] == buf;
    }
    if f.pos >= f.max {
      assert r.bytes == f.bytes;
    }
  }

  // ---- Runs over the abstract file ------------------------------------------------------------------

  datatype Op = Read(count: nat) | Write(buf: seq<Octet>) | Seek(off: int, whence: Whence)

  /** The bytes an operation reads. */
  function Answer(f: File, op: Op): seq<Octet> {
    if op.Read? then Taken(f, op.count) else []
  }

  predicate Step(f: File, op: Op, r: File) {
    match op
    case Read(count) => r == AfterRead(f, count)
    case Write(buf) => Wrote(f, buf, r)
    case Seek(off, whence) => r == AfterSeek(f, off, whence)
  }

  /** The files before, between and after the operations. */
  predicate Runs(fs: seq<File>, ops: seq<Op>) {
    |fs| == |ops| + 1 && forall i :: 0 <= i < |ops| ==> Step(fs[i], ops[i], fs[i + 1])
  }

  /** What the operations of a run read. */
  predicate Answered(fs: seq<File>, ops: seq<Op>, got: seq<seq<Octet>>) {
    |fs| == |ops| + 1 && |got| == |ops| && forall i :: 0 <= i < |ops| ==> got[i] == Answer(fs[i], ops[i])
  }

  lemma RunsOn(fs: seq<File>, ops: seq<Op>, got: seq<seq<Octet>>, op: Op, f: File)
    requires Runs(fs, ops) && Answered(fs, ops, got) && Step(fs[|ops|], op, f)
    ensures Runs(fs + [f], ops + [op]) && Answered(fs + [f], ops + [op], got + [Answer(fs[|ops|], op)])
  {
    var gs, all, answers := fs + [f], ops + [op], got + [Answer(fs[|ops|], op)];
    forall i | 0 <= i < |all|
      ensures Step(gs[i], all[i], gs[i + 1]) && answers[i] == Answer(gs[i], all[i])
    {
      if i < |ops| {
        assert Step(fs[i], ops[i], fs[i + 1]) && got[i] == Answer(fs[i], ops[i]);
        assert gs[i] == fs[i] && gs[i + 1] == fs[i + 1] && all[i] == ops[i];
      }
    }
  }

  /** The write puts no byte into `[from, to)`. */
  predicate Spares(f: File, op: Op, from: nat, to: nat) {
    op.Write? ==> f.pos + Room(f, |op.buf|) <= from || to <= f.pos
  }

  /** Over any run a file within its bound stays within it, and never shrinks. */
  lemma {:induction false} BoundKept(fs: seq<File>, ops: seq<Op>)
    requires Runs(fs, ops) && |fs[0].bytes| <= fs[0].max
    ensures fs[|ops|].max == fs[0].max
    ensures |fs[0].bytes| <= |fs[|ops|].bytes| <= fs[0].max
    decreases |ops|
  {
    if ops != [] {
      var n := |ops| - 1;
      BoundKept(fs[..n + 1], ops[..n]);
      assert Step(fs[n], ops[n], fs[n + 1]);
    }
  }

  /** Bytes stay as they are over any run whose writes all spare them. */
  lemma {:induction false} BytesStay(fs: seq<File>, ops: seq<Op>, from: nat, to: nat)
    requires Runs(fs, ops) && from <= to <= |fs[0].bytes|
    requires forall i :: 0 <= i < |ops| ==> Spares(fs[i], ops[i], from, to)
    ensures to <= |fs[|ops|].bytes| && fs[|ops|].bytes[from..to] == fs[0].bytes[from..to]
    decreases |ops|
  {
    if ops != [] {
      var n := |ops| - 1;
      BytesStay(fs[..n + 1], ops[..n], from, to);
      assert Step(fs[n], ops[n], fs[n + 1]) && Spares(fs[n], ops[n], from, to);
    }
  }

  /**
    Read-back: what a write put into the file, a read from where it started gives back, after any
    run of operations whose writes spare those bytes.
   */
  lemma ReadBack(f: File, buf: seq<Octet>, fs: seq<File>, ops: seq<Op>, count: nat)
    requires Runs(fs, ops) && Wrote(f, buf, fs[0])
    requires forall i :: 0 <= i < |ops| ==> Spares(fs[i], ops[i], f.pos, f.pos + Room(f, |buf|))
    requires count <= Room(f, |buf|) && f.pos <= SIZE_MAX
    ensures Taken(AfterSeek(fs[|ops|], f.pos, SeekSet), count) == buf[..count]
  {
    var n := Room(f, |buf|);
    if n > 0 {
      BytesStay(fs, ops, f.pos, f.pos + n);
      assert f.pos % (SIZE_MAX + 1) == f.pos;
      TakenFrom(fs[|ops|], f.pos, n, buf, count);
    }
  }

  lemma TakenFrom(f: File, at: nat, n: nat, buf: seq<Octet>, count: nat)
    requires count <= n <= |buf| && at + n <= |f.bytes| && f.bytes[at..at + n] == buf[..n]
    ensures Taken(f.(pos := at), count) == buf[..count]
  {
    assert f.bytes[at..at + count] == f.bytes[at..at + n][..count];
    assert buf[..count] == buf[..n][..count];
  }

  // ---- The file in memory ---------------------------------------------------------------------------

  /** `size_safe_add`: the sum, saturating, at most `size`. */
  function SizeSafeAdd(size: nat, cur: nat, off: nat): nat
    requires off <= SIZE_MAX
  {
    var sum := if cur < SIZE_MAX - off then cur + off else SIZE_MAX;
    if sum < size then sum else size
  }

  /** `off_safe_add`: a signed offset, saturating at both ends, at most `size`. */
  function OffSafeAdd(size: nat, cur: nat, off: int): nat
    requires -SIZE_MAX <= off <= SIZE_MAX
  {
    var sum :=
      if off >= 0 then (if cur < SIZE_MAX - off then cur + off else SIZE_MAX)
      else (if cur > -off then cur + off else 0);
    if sum < size then sum else size
  }

  lemma SafeAdds(size: nat, cur: nat, off: int)
    requires size <= SIZE_MAX && -SIZE_MAX <= off <= SIZE_MAX
    ensures off >= 0 ==> SizeSafeAdd(size, cur, off) == Min(size, cur + off)
    ensures OffSafeAdd(size, cur, off) == if cur + off < 0 then 0 else Min(cur + off, size)
  {
  }

  /** `after` is `region` with `buf` put at `at`. */
  predicate PutAt(region: seq<Octet>, at: nat, buf: seq<Octet>, after: seq<Octet>) {
    && at + |buf| <= |region| == |after|
    && (forall k :: 0 <= k < |region| && !(at <= k < at + |buf|) ==> after[k] == region[k])
    && (forall k :: at <= k < at + |buf| ==> after[k] == buf[k - at])
  }

  /** Putting bytes into a region that holds the file, and as much more as they need. */
  lemma PutWrites(f: File, buf: seq<Octet>, region: seq<Octet>, after: seq<Octet>, size: nat)
    requires Room(f, |buf|) > 0 && |f.bytes| <= |region| && region[..|f.bytes|] == f.bytes
    requires var n := Room(f, |buf|);
             && PutAt(region, f.pos, buf[..n], after)
             && size == (if f.pos + n > |f.bytes| then f.pos + n else |f.bytes|)
    ensures Wrote(f, buf, File(after[..size], f.pos + Room(f, |buf|), f.max))
  {
    var n := Room(f, |buf|);
    var written := after[..size];
    forall k | 0 <= k < n
      ensures written[f.pos..f.pos + n][k] == buf[..n][k]
    {
      assert written[f.pos + k] == after[f.pos + k];
    }
    assert written[f.pos..f.pos + n] == buf[..n];
    forall k | 0 <= k < |f.bytes| && !(f.pos <= k < f.pos + n)
      ensures written[k] == f.bytes[k]
    {
      assert region[k] == region[..|f.bytes|][k];
    }
  }

  function Left(region: nat, size: nat): nat {
    if region < size then size - region else 0
  }

  /** Growing a region by half until it holds `size` bytes never wraps around. Unfolded only on request. */
  predicate Growable(region: nat, size: nat)
    requires region >= 2
    decreases Left(region, size), 2
  {
    GrowableSealed(region, size)
  }

  predicate GrowableSealed(region: nat, size: nat)
    requires region >= 2
    decreases Left(region, size), 1
  {
    GrowableStep(region, size)
  }

  predicate GrowableStep(region: nat, size: nat)
    requires region >= 2
    decreases Left(region, size), 0
  {
    region >= size || (region * 3 <= SIZE_MAX && Growable(region * 3 / 2, size))
  }

  lemma GrowableUnfold(region: nat, size: nat)
    requires region >= 2
    ensures Growable(region, size) <==> GrowableStep(region, size)
  {
    assert GrowableSealed(region, size) <==> GrowableStep(region, size);
  }

  /** Up to a third of the address space it never does; a region above that cannot grow at all. */
  lemma {:induction false} GrowableUpToAThird(region: nat, size: nat)
    requires region >= 2
    ensures 3 * size <= SIZE_MAX ==> Growable(region, size)
    ensures 3 * region > SIZE_MAX ==> (Growable(region, size) <==> size <= region)
    decreases Left(region, size)
  {
    GrowableUnfold(region, size);
    if region < size && region * 3 <= SIZE_MAX {
      GrowableUpToAThird(region * 3 / 2, size);
    }
  }

  class MemFile {
    var size: nat
    var regionSize: nat
    var cur: nat
    const maxSize: nat
    var mem: array<Octet>

    /** The file is within its bound and its region, and the region is all there. */
    ghost predicate Valid()
      reads this
    {
      && maxSize <= SIZE_MAX && cur <= SIZE_MAX
      && size <= maxSize && size <= regionSize && 2 <= regionSize && regionSize == mem.Length
    }

    ghost function View(): File
      requires Valid()
      reads this, mem
    {
      File(mem[..size], cur, maxSize)
    }

    /** The region can grow to take so many bytes more at the position. */
    predicate Addressable(count: nat)
      requires 2 <= regionSize
      reads this
    {
      Growable(regionSize, if cur >= maxSize then 0 else cur + Min(count, maxSize - cur))
    }

    constructor (maxSize: nat)
      requires maxSize <= SIZE_MAX
      ensures Valid() && View() == File([], 0, maxSize) && fresh(mem)
    {
      this.maxSize := maxSize;
      size, cur, regionSize := 0, 0, 4096;
      mem := new Octet[4096];
    }

    method Read(buf: array<Octet>, wanted: nat) returns (count: nat)
      requires Valid() && buf != mem && wanted <= buf.Length && wanted <= SIZE_MAX
      modifies this`cur, buf
      ensures Valid() && View() == AfterRead(old(View()), wanted)
      ensures count == |Taken(old(View()), wanted)| && buf[..count] == Taken(old(View()), wanted)
      ensures buf[count..] == old(buf[count..])
    {
      if cur >= size || wanted == 0 {
        return 0;
      }
      SafeAdds(size, cur, wanted);
      var end := SizeSafeAdd(size, cur, wanted);
      count := end - cur;
      forall k | 0 <= k < count {
        buf[k] := mem[cur + k];
      }
      assert mem[..size][cur..end] == mem[cur..end];
      assert buf[..count] == mem[cur..end];
      cur := end;
    }

    /** The region grows by half until it holds the file; the memory follows if it can. */
    method Grow(reallocOk: bool) returns (done: bool)
      requires 2 <= regionSize == mem.Length && Growable(regionSize, size)
      modifies this`regionSize, this`mem
      ensures done <==> size <= old(regionSize) || reallocOk
      ensures done ==>
                && size <= regionSize == mem.Length && old(regionSize) <= regionSize
                && mem[..old(mem.Length)] == old(mem[..])
      ensures done && size > old(regionSize) ==> 2 * regionSize < 3 * size
      ensures !done ==> mem == old(mem) && mem.Length < size
      ensures mem == old(mem) || fresh(mem)
    {
      if size > regionSize {
        while size > regionSize
          invariant old(regionSize) <= regionSize && 2 <= regionSize && mem == old(mem)
          invariant Growable(regionSize, size)
          invariant regionSize == old(regionSize) || 2 * regionSize < 3 * size
          decreases size - regionSize
        {
          GrowableUnfold(regionSize, size);
          assert regionSize * 3 <= SIZE_MAX;
          regionSize := regionSize * 3 / 2;
        }
        if !reallocOk {
          return false;
        }
        var newptr := new Octet[regionSize];
        forall k | 0 <= k < mem.Length {
          newptr[k] := mem[k];
        }
        mem := newptr;
      }
      done := true;
    }

    /** `memcpy` to the position. */
    method Put(buf: seq<Octet>)
      requires cur + |buf| <= mem.Length
      modifies mem
      ensures PutAt(old(mem[..]), cur, buf, mem[..])
    {
      forall k | 0 <= k < |buf| {
        mem[cur + k] := buf[k];
      }
    }

    /**
      Without room, a write fails and changes nothing. Otherwise it puts what fits. When the
      memory cannot grow it fails too, and leaves a file whose size its memory does not hold.
     */
    method Write(buf: seq<Octet>, reallocOk: bool) returns (count: int)
      requires Valid() && |buf| <= SIZE_MAX && Addressable(|buf|)
      modifies this`size, this`regionSize, this`cur, this`mem, mem
      ensures var room, grows := Room(old(View()), |buf|), old(cur) + Room(old(View()), |buf|) > old(regionSize);
              if room == 0 then
                && Valid() && View() == old(View()) && mem == old(mem)
                && count == (if buf == [] then 0 else -1)
              else if grows && !reallocOk then !Valid() && count == -1
              else Valid() && Wrote(old(View()), buf, View()) && count == room
      ensures mem == old(mem) || fresh(mem)
    {
      if |buf| == 0 {
        return 0;
      }
      if cur >= maxSize {
        return -1;
      }
      count := Store(buf, reallocOk);
    }

    method Store(buf: seq<Octet>, reallocOk: bool) returns (count: int)
      requires Valid() && |buf| <= SIZE_MAX && Addressable(|buf|) && Room(View(), |buf|) > 0
      modifies this`size, this`regionSize, this`cur, this`mem, mem
      ensures if old(cur) + Room(old(View()), |buf|) > old(regionSize) && !reallocOk
              then !Valid() && count == -1
              else Valid() && Wrote(old(View()), buf, View()) && count == Room(old(View()), |buf|)
      ensures mem == old(mem) || fresh(mem)
    {
      ghost var before := View();
      SafeAdds(maxSize, cur, |buf|);
      var end := SizeSafeAdd(maxSize, cur, |buf|);
      if size < end {
        size := end;
      }
      count := end - cur;
      var done := Grow(reallocOk);
      if !done {
        return -1;
      }
      ghost var region := mem[..];
      assert region[..|before.bytes|] == before.bytes;
      Put(buf[..count]);
      cur := end;
      PutWrites(before, buf, region, mem[..], size);
    }

    /** Seeks as the abstract file does; a bad whence is the one error. */
    method Seek(off: int, whence: Whence) returns (ok: bool, at: int)
      requires Valid() && -0x8000_0000_0000_0000 <= off < 0x8000_0000_0000_0000
      modifies this`cur
      ensures Valid() && View() == AfterSeek(old(View()), off, whence)
      ensures ok <==> whence != SeekBad
      ensures at == if whence == SeekCur || whence == SeekEnd then cur else off
    {
      SafeAdds(size, cur, off);
      SafeAdds(size, size, off);
      match whence {
        case SeekSet =>
          cur := off % (SIZE_MAX + 1);
          at := off;
        case SeekCur =>
          cur := OffSafeAdd(size, cur, off);
          at := cur;
        case SeekEnd =>
          cur := OffSafeAdd(size, size, off);
          at := cur;
        case SeekBad =>
          return false, off;
      }
      ok := true;
    }

    /** The amounts are 64-bit ones, and the memory a write asks for can be addressed. */
    predicate Able(op: Op)
      requires 2 <= regionSize
      reads this
    {
      match op
      case Read(count) => count <= SIZE_MAX
      case Write(buf) => |buf| <= SIZE_MAX && Addressable(|buf|)
      case Seek(off, _) => -0x8000_0000_0000_0000 <= off < 0x8000_0000_0000_0000
    }

    /** One operation, with memory to be had; what it read. */
    method Perform(op: Op) returns (got: seq<Octet>)
      requires Valid() && Able(op)
      modifies this`size, this`regionSize, this`cur, this`mem, mem
      ensures Valid() && Step(old(View()), op, View()) && got == Answer(old(View()), op)
      ensures mem == old(mem) || fresh(mem)
    {
      match op {
        case Read(count) =>
          var buf := new Octet[count];
          var n := Read(buf, count);
          got := buf[..n];
        case Write(bytes) =>
          var n := Write(bytes, true);
          got := [];
        case Seek(off, whence) =>
          var ok, at := Seek(off, whence);
          got := [];
      }
    }

    /** Any operations, one after the other, while they are able: a run of the abstract file, with its answers. */
    method Play(ops: seq<Op>) returns (done: nat, got: seq<seq<Octet>>, ghost fs: seq<File>)
      requires Valid()
      modifies this`size, this`regionSize, this`cur, this`mem, mem
      ensures Valid() && done <= |ops| && (done < |ops| ==> !Able(ops[done]))
      ensures Runs(fs, ops[..done]) && fs[0] == old(View()) && fs[done] == View()
      ensures Answered(fs, ops[..done], got)
    {
      done, got, fs := 0, [], [View()];
      while done < |ops| && Able(ops[done])
        invariant Valid() && (mem == old(mem) || fresh(mem))
        invariant done <= |ops| && Runs(fs, ops[..done]) && fs[0] == old(View()) && fs[done] == View()
        invariant Answered(fs, ops[..done], got)
        decreases |ops| - done
      {
        var g := Perform(ops[done]);
        RunsOn(fs, ops[..done], got, ops[done], View());
        assert ops[..done + 1] == ops[..done] + [ops[done]];
        got, fs := got + [g], fs + [View()];
        done := done + 1;
      }
    }
  }
}
