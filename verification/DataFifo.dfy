/**
 * The inter-processor message of nalu_datafifo.h and its validation.
 */
module DataFifo {
  import opened Bytes

  const MAGIC: u32 := 0x4E41_4C55
  const VERSION: u32 := 1
  const MAX_PACKS: nat := 8
  const MAX_PACK_LEN: nat := 8 * 1024 * 1024

  /** A pack: its physical address, and the bytes found there while it is mapped; `len` is their number. */
  datatype Pack = Pack(physAddr: u64, data: seq<byte>) {
    function Len(): nat {
      |data|
    }
  }

  /** A message; `packs` holds the entries `packCnt` may refer to. Fields the code never looks at are left out. */
  datatype Msg = Msg(magic: u32, version: u32, packCnt: u32, number: u64, framePts: u64,
                     totalLen: u32, flags: u32, packs: seq<Pack>)

  /** `nalu_datafifo_mmap_pack`, with `answer` the result of the mapping call it makes. */
  predicate CanMap(p: Pack, answer: bool) {
    p.physAddr != 0 && p.Len() != 0 && answer
  }

  /** Traffic with the big core: items taken and given back, packs mapped, read and unmapped. */
  datatype Io =
    | ReadItem(item: nat)
    | MapPack(pack: nat, ok: bool)
    | UsePack(pack: nat)
    | UnmapPack(pack: nat)
    | ReadDone(item: nat)

  predicate Flagged(m: Msg) {
    m.flags % 2 == 1
  }

  /** The C struct always has eight pack entries, each with a 32-bit length. */
  predicate WellFormed(m: Msg) {
    |m.packs| == MAX_PACKS && forall i :: 0 <= i < MAX_PACKS ==> m.packs[i].Len() < 0x1_0000_0000
  }

  const NO_PACK := Pack(0, [])

  type IpcMsg = m: Msg | WellFormed(m)
    witness Msg(0, 0, 0, 0, 0, 0, 0, [NO_PACK, NO_PACK, NO_PACK, NO_PACK, NO_PACK, NO_PACK, NO_PACK, NO_PACK])

  function SumLen(packs: seq<Pack>, n: nat): nat
    requires n <= |packs|
  {
    if n == 0 then 0 else SumLen(packs, n - 1) + packs[n - 1].Len()
  }

  predicate GoodPack(p: Pack) {
    p.physAddr != 0 && 0 < p.Len() <= MAX_PACK_LEN
  }

  /** What a message must satisfy to be processed. */
  predicate IsValid(m: Msg)
    requires WellFormed(m)
  {
    && m.magic == MAGIC && m.version == VERSION
    && 1 <= m.packCnt <= MAX_PACKS
    && (forall i :: 0 <= i < m.packCnt ==> GoodPack(m.packs[i]))
    && (m.totalLen == 0 || m.totalLen == SumLen(m.packs, m.packCnt))
  }

  lemma {:induction false} SumBound(packs: seq<Pack>, n: nat)
    requires n <= |packs| && forall i :: 0 <= i < n ==> GoodPack(packs[i])
    ensures SumLen(packs, n) <= n * MAX_PACK_LEN
  {
    if n > 0 {
      SumBound(packs, n - 1);
    }
  }

  /** `nalu_datafifo_validate_msg`: the 32-bit sum never wraps, so the overflow check is never what rejects. */
  method ValidateMsg(m: Msg) returns (ok: bool)
    requires WellFormed(m)
    ensures ok == IsValid(m)
    ensures ok <==> m.magic == 0x4E41_4C55 && m.version == 1 && 1 <= m.packCnt <= 8
                    && (forall i :: 0 <= i < m.packCnt ==> m.packs[i].physAddr != 0 && 1 <= |m.packs[i].data| <= 0x80_0000)
                    && (m.totalLen == 0 || m.totalLen == SumLen(m.packs, m.packCnt))
  {
    var sumLen: u32 := 0;
    if m.magic != MAGIC {
      return false;
    }
    if m.version != VERSION {
      return false;
    }
    if m.packCnt == 0 || m.packCnt > MAX_PACKS {
      return false;
    }
    var i := 0;
    while i < m.packCnt
      invariant 0 <= i <= m.packCnt <= MAX_PACKS
      invariant forall k :: 0 <= k < i ==> GoodPack(m.packs[k])
      invariant sumLen == SumLen(m.packs, i)
    {
      SumBound(m.packs, i);
      var p := m.packs[i];
      if p.physAddr == 0 || p.Len() == 0 {
        return false;
      }
      if p.Len() > MAX_PACK_LEN || sumLen > 0xFFFF_FFFF - p.Len() {
        return false;
      }
      sumLen := sumLen + p.Len();
      i := i + 1;
    }
    if m.totalLen != 0 && m.totalLen != sumLen {
      return false;
    }
    ok := true;
  }
}
