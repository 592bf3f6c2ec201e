/**
 * The growable byte buffer of datafifo_snapshot.c: a value, and the class that keeps it in an array.
 */
module ByteBuffers {
  import opened Bytes

  const SIZE_MAX: nat := 0xFFFF_FFFF_FFFF_FFFF
  const FIRST_CAP: nat := 4096

  /** The contents and the allocated capacity. */
  datatype Buf = Buf(bytes: seq<byte>, cap: nat) {
    predicate Valid() {
      |bytes| <= cap <= SIZE_MAX
    }
  }

  const EMPTY := Buf([], 0)

  /** The capacity the doubling loop ends with: doubled until it suffices, or exactly what is needed near the top. */
  function Grown(cap: nat, needed: nat): (c: nat)
    requires 0 < cap && needed <= SIZE_MAX
    ensures c >= needed
    ensures cap <= SIZE_MAX ==> c <= SIZE_MAX
    decreases needed - cap
  {
    if cap >= needed then cap else if cap > SIZE_MAX / 2 then needed else Grown(cap * 2, needed)
  }

  /** `h265_buffer_reserve`; `alloc` is what `realloc` would answer if it were called. */
  function Reserve(b: Buf, extra: nat, alloc: bool): (Buf, bool)
    requires b.Valid()
  {
    if extra > SIZE_MAX - |b.bytes| then (b, false)
    else if |b.bytes| + extra <= b.cap then (b, true)
    else if !alloc then (b, false)
    else (b.(cap := Grown(if b.cap == 0 then FIRST_CAP else b.cap, |b.bytes| + extra)), true)
  }

  /** `h265_buffer_append`. */
  function Append(b: Buf, data: seq<byte>, alloc: bool): (r: (Buf, bool))
    requires b.Valid()
    ensures r.0.Valid() && |b.bytes| <= |r.0.bytes|
  {
    if data == [] then (b, true)
    else
      var (b', ok) := Reserve(b, |data|, alloc);
      if ok then (b'.(bytes := b.bytes + data), true) else (b, false)
  }

  function Reset(b: Buf): Buf {
    b.(bytes := [])
  }

  /** `h265_buffer_replace`. */
  function Replace(b: Buf, data: seq<byte>, alloc: bool): (r: (Buf, bool))
    requires b.Valid()
    ensures r.0.Valid()
  {
    Append(Reset(b), data, alloc)
  }

  /**
   * Append is append: on success the contents grow by the data, on failure they stay, and it fails exactly
   * when the sum would exceed SIZE_MAX or the memory it needs is refused.
   */
  lemma {:induction false} AppendExact(b: Buf, data: seq<byte>, alloc: bool)
    requires b.Valid()
    ensures var (b', ok) := Append(b, data, alloc);
            && b'.bytes == (if ok then b.bytes + data else b.bytes)
            && (ok <==> |b.bytes| + |data| <= b.cap || (alloc && |b.bytes| + |data| <= SIZE_MAX))
            && b.cap <= b'.cap
  {
    if data != [] && |b.bytes| + |data| > b.cap && |b.bytes| + |data| <= SIZE_MAX {
      GrownAtLeast(if b.cap == 0 then FIRST_CAP else b.cap, |b.bytes| + |data|);
    }
  }

  /** Memory is only asked for when it is short, the first time for at least 4096 bytes, and never twice what is needed. */
  lemma {:induction false} AppendThrifty(b: Buf, data: seq<byte>, alloc: bool)
    requires b.Valid()
    ensures var cap', needed := Append(b, data, alloc).0.cap, |b.bytes| + |data|;
            cap' != b.cap ==> && needed > b.cap && cap' >= needed
                              && (if b.cap == 0 then cap' == 0x1000 || 0x1000 < cap' < 2 * needed else cap' < 2 * needed)
  {
    if data != [] && |b.bytes| + |data| > b.cap && |b.bytes| + |data| <= SIZE_MAX {
      GrownAtLeast(if b.cap == 0 then FIRST_CAP else b.cap, |b.bytes| + |data|);
      GrownTight(if b.cap == 0 then FIRST_CAP else b.cap, |b.bytes| + |data|);
    }
  }

  lemma {:induction false} GrownAtLeast(cap: nat, needed: nat)
    requires 0 < cap && needed <= SIZE_MAX
    ensures Grown(cap, needed) >= cap
    decreases needed - cap
  {
    if cap < needed && cap <= SIZE_MAX / 2 {
      GrownAtLeast(cap * 2, needed);
    }
  }

  lemma {:induction false} GrownTight(cap: nat, needed: nat)
    requires 0 < cap && needed <= SIZE_MAX
    ensures Grown(cap, needed) < 2 * needed || Grown(cap, needed) == cap
    decreases needed - cap
  {
    if cap < needed && cap <= SIZE_MAX / 2 {
      GrownTight(cap * 2, needed);
    }
  }

  // ----- the cost of growing -----

  /** The overflow fallback of the doubling loop is not reached below half of the address range. */
  lemma {:induction false} GrownDoubles(cap: nat, needed: nat)
    requires 0 < cap < needed <= SIZE_MAX / 2
    ensures Grown(cap, needed) >= 2 * cap
    decreases needed - cap
  {
    GrownAtLeast(cap * 2, needed);
  }

  /** Bytes `realloc` may have to move when `b` grows to `b'`. */
  function Moved(b: Buf, b': Buf): nat {
    if b'.cap == b.cap then 0 else b.cap
  }

  /** A run of appends, each with the answer of its `realloc`, and the bytes moved along the way. */
  function AppendAll(b: Buf, chunks: seq<(seq<byte>, bool)>, n: nat): (r: (Buf, nat))
    requires b.Valid() && n <= |chunks|
    ensures r.0.Valid()
  {
    if n == 0 then (b, 0)
    else
      var (c, moved) := AppendAll(b, chunks, n - 1);
      var d := Append(c, chunks[n - 1].0, chunks[n - 1].1).0;
      (d, moved + Moved(c, d))
  }

  function SumOf(chunks: seq<(seq<byte>, bool)>, n: nat): nat
    requires n <= |chunks|
  {
    if n == 0 then 0 else SumOf(chunks, n - 1) + |chunks[n - 1].0|
  }

  /** Amortised growth: over any run of appends all moves together never exceed the final capacity. */
  lemma {:induction false} MovesBounded(chunks: seq<(seq<byte>, bool)>, n: nat)
    requires n <= |chunks| && SumOf(chunks, n) <= SIZE_MAX / 2
    ensures var (b, moved) := AppendAll(EMPTY, chunks, n);
            moved <= b.cap && |b.bytes| <= SumOf(chunks, n)
  {
    if n > 0 {
      MovesBounded(chunks, n - 1);
      var c := AppendAll(EMPTY, chunks, n - 1).0;
      var (data, alloc) := chunks[n - 1];
      AppendExact(c, data, alloc);
      var needed := |c.bytes| + |data|;
      if data != [] && needed > c.cap && c.cap > 0 {
        GrownDoubles(c.cap, needed);
      }
    }
  }

  // ----- the code -----

  /** `h265_byte_buffer_t`; `memory` has `cap` elements, and `len` of them are in use. */
  class ByteBuffer {
    var memory: array<byte>
    var len: nat

    ghost predicate Valid()
      reads this
    {
      len <= memory.Length <= SIZE_MAX
    }

    ghost function Value(): Buf
      requires Valid()
      reads this, memory
    {
      Buf(memory[..len], memory.Length)
    }

    constructor ()
      ensures Valid() && fresh(memory) && Value() == EMPTY
    {
      memory := new byte[0];
      len := 0;
    }

    method ResetBuffer()
      requires Valid()
      modifies this`len
      ensures Valid() && Value() == Reset(old(Value()))
    {
      len := 0;
    }

    /** The doubling loop of `h265_buffer_reserve`. */
    method GrowCap(cap: nat, needed: nat) returns (newCap: nat)
      requires 0 < cap <= SIZE_MAX && needed <= SIZE_MAX
      ensures newCap == Grown(cap, needed)
    {
      newCap := cap;
      while newCap < needed
        invariant 0 < newCap <= SIZE_MAX
        invariant Grown(newCap, needed) == Grown(cap, needed)
        decreases needed - newCap
      {
        if newCap > SIZE_MAX / 2 {
          newCap := needed;
          break;
        }
        newCap := newCap * 2;
      }
    }

    /** A `realloc` that succeeds. */
    method Reallocate(newCap: nat)
      requires Valid() && len <= newCap <= SIZE_MAX
      modifies this`memory
      ensures Valid() && fresh(memory) && Value() == Buf(old(Value()).bytes, newCap)
    {
      ghost var bytes := memory[..len];
      var newMemory := new byte[newCap];
      forall i | 0 <= i < len {
        newMemory[i] := memory[i];
      }
      assert newMemory[..len] == bytes;
      memory := newMemory;
    }

    /** `h265_buffer_reserve`. */
    method ReserveBytes(extra: nat, alloc: bool) returns (ok: bool)
      requires Valid()
      modifies this`memory
      ensures Valid() && (memory == old(memory) || fresh(memory))
      ensures (Value(), ok) == Reserve(old(Value()), extra, alloc)
      ensures ok ==> len + extra <= memory.Length
    {
      hide Grown;
      if extra > SIZE_MAX - len {
        return false;
      }
      var needed := len + extra;
      if needed <= memory.Length {
        return true;
      }
      var newCap := GrowCap(if memory.Length != 0 then memory.Length else FIRST_CAP, needed);
      if !alloc {
        return false;
      }
      Reallocate(newCap);
      ok := true;
    }

    /** The `memcpy` of `h265_buffer_append`, into memory already reserved. */
    method CopyIn(data: seq<byte>)
      requires Valid() && len + |data| <= memory.Length
      modifies this`len, memory
      ensures Valid() && Value() == Buf(old(Value()).bytes + data, memory.Length)
    {
      ghost var before := memory[..len];
      forall i | 0 <= i < |data| {
        memory[len + i] := data[i];
      }
      len := len + |data|;
      assert memory[..len] == before + data;
    }

    /** `h265_buffer_append`. */
    method AppendBytes(data: seq<byte>, alloc: bool) returns (ok: bool)
      requires Valid()
      modifies this, memory
      ensures Valid() && (memory == old(memory) || fresh(memory))
      ensures (Value(), ok) == Append(old(Value()), data, alloc)
    {
      hide Grown;
      if |data| == 0 {
        return true;
      }
      ok := ReserveBytes(|data|, alloc);
      if ok {
        CopyIn(data);
      }
    }

    /** `h265_buffer_replace`. */
    method ReplaceBytes(data: seq<byte>, alloc: bool) returns (ok: bool)
      requires Valid()
      modifies this, memory
      ensures Valid() && (memory == old(memory) || fresh(memory))
      ensures (Value(), ok) == Replace(old(Value()), data, alloc)
    {
      ResetBuffer();
      ok := AppendBytes(data, alloc);
    }
  }
}
