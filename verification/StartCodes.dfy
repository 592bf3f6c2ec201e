/**
 * The three start-code scanners of the repository (rtp.c, RTSP_Create.c, datafifo_snapshot.c), the
 * trimming loop they share, and load_annexb_nalus. All are proved against the splitter of AnnexB.dfy.
 */
module StartCodes {
  import opened Bytes
  import opened AnnexB

  /** What a scanner must report: the position of the code, one earlier when a fourth zero precedes it. */
  function CodePos(buf: seq<byte>, offset: nat): int {
    var p := NextCode(buf, offset);
    if p == |buf| then -1 else if p > offset && buf[p - 1] == 0 then p - 1 else p
  }

  function CodeLen(buf: seq<byte>, offset: nat): nat {
    var p := NextCode(buf, offset);
    if p == |buf| then 0 else if p > offset && buf[p - 1] == 0 then 4 else 3
  }

  /** `(int)x` for a size_t, as the snapshot scanner returns it. */
  function ToInt32(x: nat): int {
    var low := x % 0x1_0000_0000;
    if low < 0x8000_0000 then low else low - 0x1_0000_0000
  }

  predicate Code4At(buf: seq<byte>, i: nat) {
    i + 4 <= |buf| && buf[i] == 0 && buf[i + 1] == 0 && buf[i + 2] == 0 && buf[i + 3] == 1
  }

  /** Positions already passed hold neither kind of start code. */
  ghost predicate Passed(buf: seq<byte>, offset: nat, i: nat) {
    && (offset <= |buf| ==> offset <= i)
    && NextCode(buf, i) == NextCode(buf, offset)
    && (NextCode(buf, offset) == i < |buf| ==> i == offset || buf[i - 1] != 0)
  }

  lemma {:induction false} PassOne(buf: seq<byte>, offset: nat, i: nat)
    requires offset <= i && i + 3 <= |buf| && Passed(buf, offset, i)
    requires !CodeAt(buf, i) && !Code4At(buf, i)
    ensures Passed(buf, offset, i + 1)
  {
  }

  lemma {:induction false} FoundHere(buf: seq<byte>, offset: nat, i: nat)
    requires offset <= i && i + 3 <= |buf| && Passed(buf, offset, i)
    ensures CodeAt(buf, i) ==> CodePos(buf, offset) == i && CodeLen(buf, offset) == 3
    ensures !CodeAt(buf, i) && Code4At(buf, i) ==> CodePos(buf, offset) == i && CodeLen(buf, offset) == 4
  {
    if !CodeAt(buf, i) && Code4At(buf, i) {
      assert CodeAt(buf, i + 1);
      assert NextCode(buf, i) == NextCode(buf, i + 1) == i + 1;
    }
  }

  lemma {:induction false} NotFound(buf: seq<byte>, offset: nat, i: nat)
    requires Passed(buf, offset, i) && i + 3 > |buf|
    ensures NextCode(buf, offset) == |buf|
  {
  }

  /** `find_start_code`. */
  method FindStartCode(buf: seq<byte>, offset: nat) returns (pos: int, len: nat)
    ensures pos == CodePos(buf, offset) && len == CodeLen(buf, offset)
  {
    hide NextCode;
    len := 0;
    var i := offset;
    while i + 3 <= |buf|
      invariant offset <= i && Passed(buf, offset, i) && len == 0
    {
      FoundHere(buf, offset, i);
      if i + 3 <= |buf| && buf[i] == 0 && buf[i + 1] == 0 && buf[i + 2] == 1 {
        return i, 3;
      }
      if i + 4 <= |buf| && buf[i] == 0 && buf[i + 1] == 0 && buf[i + 2] == 0 && buf[i + 3] == 1 {
        return i, 4;
      }
      PassOne(buf, offset, i);
      i := i + 1;
    }
    NotFound(buf, offset, i);
    pos := -1;
  }

  /** `h265_find_start_code_local`. */
  method FindStartCodeLocal(buf: seq<byte>, offset: nat) returns (pos: int, len: nat)
    ensures pos == CodePos(buf, offset) && len == CodeLen(buf, offset)
  {
    hide NextCode;
    len := 0;
    var i := offset;
    while i + 3 <= |buf|
      invariant offset <= i && Passed(buf, offset, i) && len == 0
    {
      FoundHere(buf, offset, i);
      if buf[i] == 0 && buf[i + 1] == 0 && buf[i + 2] == 1 {
        return i, 3;
      }
      if i + 4 <= |buf| && buf[i] == 0 && buf[i + 1] == 0 && buf[i + 2] == 0 && buf[i + 3] == 1 {
        return i, 4;
      }
      PassOne(buf, offset, i);
      i := i + 1;
    }
    NotFound(buf, offset, i);
    pos := -1;
  }

  /** `h265_find_start_code` of the snapshot path: a guard on the offset, and the position cut to an int. */
  method SnapshotFindStartCode(buf: seq<byte>, offset: nat) returns (pos: int, len: nat)
    ensures pos == (if CodePos(buf, offset) < 0 then -1 else ToInt32(CodePos(buf, offset)))
    ensures len == CodeLen(buf, offset)
  {
    hide NextCode;
    len := 0;
    if offset >= |buf| {
      NotFound(buf, offset, offset);
      return -1, 0;
    }
    var i := offset;
    while i + 3 <= |buf|
      invariant offset <= i && Passed(buf, offset, i) && len == 0
    {
      FoundHere(buf, offset, i);
      if buf[i] == 0 && buf[i + 1] == 0 && buf[i + 2] == 1 {
        return ToInt32(i), 3;
      }
      if i + 4 <= |buf| && buf[i] == 0 && buf[i + 1] == 0 && buf[i + 2] == 0 && buf[i + 3] == 1 {
        return ToInt32(i), 4;
      }
      PassOne(buf, offset, i);
      i := i + 1;
    }
    NotFound(buf, offset, i);
    pos := -1;
  }

  /** The int result is the true position exactly when that position is below 2^31. */
  lemma {:induction false} IntPositionExact(pos: nat)
    requires pos < 0x1_0000_0000_0000_0000
    ensures ToInt32(pos) == pos <==> pos < 0x8000_0000
  {
  }

  /** Where a scanner points, and the code length it reports, always lead to the byte after the code. */
  lemma {:induction false} CodeEnd(buf: seq<byte>, offset: nat)
    requires CodePos(buf, offset) >= 0
    ensures CodePos(buf, offset) + CodeLen(buf, offset) == NextCode(buf, offset) + 3
    ensures offset <= CodePos(buf, offset) <= NextCode(buf, offset) < |buf|
    ensures NextCode(buf, CodePos(buf, offset)) == NextCode(buf, offset)
    ensures NextCode(buf, NextCode(buf, offset)) == NextCode(buf, offset)
  {
    NextCodeSame(buf, offset, NextCode(buf, offset));
    NextCodeSame(buf, offset, CodePos(buf, offset));
  }

  /** Which file's scanner a splitting loop calls. */
  datatype Scanner = RtpScanner | LocalScanner | SnapshotScanner

  /** The three scanners agree; the one that returns an int does below 2 GiB, and validated packs are below 8 MiB. */
  method Scan(scanner: Scanner, buf: seq<byte>, offset: nat) returns (pos: int, len: nat)
    requires scanner.SnapshotScanner? ==> |buf| <= 0x8000_0000
    ensures pos == CodePos(buf, offset) && len == CodeLen(buf, offset)
  {
    match scanner {
      case RtpScanner => pos, len := FindStartCode(buf, offset);
      case LocalScanner => pos, len := FindStartCodeLocal(buf, offset);
      case SnapshotScanner =>
        pos, len := SnapshotFindStartCode(buf, offset);
        if CodePos(buf, offset) >= 0 {
          CodeEnd(buf, offset);
          IntPositionExact(CodePos(buf, offset));
        }
    }
  }

  /** The body the four splitting loops share: one start code, the next one, the trimmed span between. */
  method CutUnit(scanner: Scanner, buf: seq<byte>, searchOffset: nat)
    returns (found: bool, start: nat, end: nat, next: int)
    requires searchOffset <= |buf| && (scanner.SnapshotScanner? ==> |buf| <= 0x8000_0000)
    ensures !found ==> Split(buf, searchOffset) == []
    ensures found ==> searchOffset < start <= end <= |buf|
    ensures found ==> next < 0 || searchOffset < next <= |buf|
    ensures found ==> Split(buf, searchOffset) ==
                      (if end > start then [Unit(start, buf[start..end], next < 0)] else [])
                      + (if next < 0 then [] else Split(buf, next))
  {
    hide NextCode, TrimEnd, CodeAt, Split;
    var pos, len := Scan(scanner, buf, searchOffset);
    if pos < 0 {
      SplitNone(buf, searchOffset);
      return false, 0, 0, -1;
    }
    CodeEnd(buf, searchOffset);
    start := pos + len;
    var nextLen;
    next, nextLen := Scan(scanner, buf, start);
    end := if next < 0 then |buf| else next;
    ghost var q := NextCode(buf, start);
    if next >= 0 {
      CodeEnd(buf, start);
      SplitSame(buf, next, q);
    }
    TrimBelow(buf, start, end, q);
    ghost var stop := end;
    while end > start && buf[end - 1] == 0
      invariant start <= end <= stop
      invariant TrimEnd(buf, start, end) == TrimEnd(buf, start, stop)
    {
      TrimStep(buf, start, end);
      end := end - 1;
    }
    TrimStop(buf, start, end);
    found := true;
    SplitRound(buf, searchOffset);
  }

  lemma {:induction false} TrimStep(buf: seq<byte>, lo: nat, hi: nat)
    requires lo < hi <= |buf| && buf[hi - 1] == 0
    ensures TrimEnd(buf, lo, hi) == TrimEnd(buf, lo, hi - 1)
  {
  }

  lemma {:induction false} TrimStop(buf: seq<byte>, lo: nat, hi: nat)
    requires lo <= hi <= |buf| && (hi > lo ==> buf[hi - 1] != 0)
    ensures TrimEnd(buf, lo, hi) == hi
  {
  }

  /** Stopping at a 3-byte code or at the zero before it trims to the same end. */
  lemma {:induction false} TrimBelow(buf: seq<byte>, lo: nat, hi: nat, q: nat)
    requires lo <= hi <= q <= |buf| && q <= hi + 1 && (hi < q ==> buf[hi] == 0)
    ensures TrimEnd(buf, lo, hi) == TrimEnd(buf, lo, q)
  {
  }

  /** How many entries the list has room for after k reallocations: 128, then doubled each time. */
  function Capacity(k: nat): nat {
    if k == 0 then 0 else if k == 1 then 128 else 2 * Capacity(k - 1)
  }

  lemma {:induction false} CapacityGrows(i: nat, j: nat)
    requires i < j
    ensures Capacity(i) < Capacity(j)
  {
    if i + 1 < j {
      CapacityGrows(i, j - 1);
      CapacityPositive(j - 1);
    } else {
      CapacityPositive(j);
    }
  }

  lemma {:induction false} CapacityPositive(k: nat)
    ensures k > 0 ==> Capacity(k) > 0
  {
    if k > 1 {
      CapacityPositive(k - 1);
    }
  }

  /**
   * `load_annexb_nalus`; `alloc(k)` says whether the k-th `realloc` of the growing list succeeds. It succeeds,
   * with the whole list, exactly when every reallocation that so many units need does.
   */
  method LoadAnnexbNalus(buf: seq<byte>, alloc: nat -> bool) returns (ok: bool, nalus: seq<Unit>)
    ensures ok <==> forall k: nat :: Capacity(k) < |Split(buf, 0)| ==> alloc(k)
    ensures nalus == if ok then Split(buf, 0) else []
  {
    hide NextCode, TrimEnd, CodeAt, Split, Capacity;
    assert Capacity(0) == 0 by {
      NoCapacity();
    }
    nalus := [];
    var capacity := 0;
    var grown := 0;
    var searchOffset := 0;
    while true
      invariant searchOffset <= |buf|
      invariant nalus + Split(buf, searchOffset) == Split(buf, 0)
      invariant |nalus| <= capacity == Capacity(grown)
      invariant forall k: nat :: k < grown ==> alloc(k)
      decreases |buf| - searchOffset
    {
      var found, start, end, next := CutUnit(RtpScanner, buf, searchOffset);
      if !found {
        break;
      }
      if end > start {
        if |nalus| == capacity {
          if !alloc(grown) {
            assert Capacity(grown) < |Split(buf, 0)|;
            return false, [];
          }
          NextCapacity(grown);
          capacity := if capacity == 0 then 128 else capacity * 2;
          grown := grown + 1;
        }
        nalus := nalus + [Unit(start, buf[start..end], next < 0)];
      }
      if next < 0 {
        break;
      }
      searchOffset := next;
    }
    ok := true;
    forall k: nat | Capacity(k) < |Split(buf, 0)|
      ensures alloc(k)
    {
      if k > grown {
        CapacityGrows(grown, k);
      }
    }
  }

  lemma {:induction false} NoCapacity()
    ensures Capacity(0) == 0
  {
  }

  lemma {:induction false} NextCapacity(k: nat)
    ensures Capacity(k + 1) == if Capacity(k) == 0 then 128 else Capacity(k) * 2
  {
    CapacityPositive(k);
  }

  /** `buffer_starts_with_start_code` and its two copies. */
  method BufferStartsWithStartCode(buf: seq<byte>) returns (r: bool)
    ensures r == StartsWithCode(buf)
  {
    if |buf| < 3 {
      return false;
    }
    if buf[0] == 0 && buf[1] == 0 && buf[2] == 1 {
      return true;
    }
    r := |buf| >= 4 && buf[0] == 0 && buf[1] == 0 && buf[2] == 0 && buf[3] == 1;
  }
}
