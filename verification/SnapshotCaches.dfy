/**
 * The code of datafifo_snapshot.c: growable buffers updated in place, proved against the functions of
 * Snapshot.dfy.
 */
module SnapshotCaches {
  import opened Bytes
  import opened AnnexB
  import opened StartCodes
  import opened ByteBuffers
  import opened DataFifo
  import opened Snapshot

  /** The trimming loop of `h265_append_annexb_nalu`. */
  method TrimmedLength(nalu: seq<byte>) returns (len: nat)
    ensures len <= |nalu| && nalu[..len] == Trimmed(nalu)
  {
    len := |nalu|;
    while len > 0 && nalu[len - 1] == 0
      invariant 0 <= len <= |nalu| && TrimEnd(nalu, 0, len) == TrimEnd(nalu, 0, |nalu|)
    {
      TrimStep(nalu, 0, len);
      len := len - 1;
    }
    TrimStop(nalu, 0, len);
  }

  predicate Distinct(a: object, b: object, c: object, d: object, e: object, f: object) {
    && a != b && a != c && a != d && a != e && a != f && b != c && b != d && b != e && b != f
    && c != d && c != e && c != f && d != e && d != f && e != f
  }

  method SixBuffers() returns (a: ByteBuffer, b: ByteBuffer, c: ByteBuffer, d: ByteBuffer, e: ByteBuffer, f: ByteBuffer)
    ensures fresh({a, b, c, d, e, f}) && fresh({a.memory, b.memory, c.memory, d.memory, e.memory, f.memory})
    ensures a.Valid() && b.Valid() && c.Valid() && d.Valid() && e.Valid() && f.Valid()
    ensures a.Value() == b.Value() == c.Value() == d.Value() == e.Value() == f.Value() == EMPTY
    ensures Distinct(a, b, c, d, e, f) && Distinct(a.memory, b.memory, c.memory, d.memory, e.memory, f.memory)
  {
    a := new ByteBuffer();
    b := new ByteBuffer();
    c := new ByteBuffer();
    d := new ByteBuffer();
    e := new ByteBuffer();
    f := new ByteBuffer();
  }

  /** `g_h265_snapshot_cache`, and the frame being gathered: its access unit `au` and its marks. */
  class SnapshotCache {
    const env: SnapEnv
    const vps: ByteBuffer
    const sps: ByteBuffer
    const pps: ByteBuffer
    const lastIrap: ByteBuffer
    const gop: ByteBuffer
    var au: ByteBuffer
    var copyAu: bool
    var hasIrap: bool
    var gopHasIrap: bool
    var gopPts: u64
    var gopStart: u64
    var gopLast: u64
    var irapPts: u64
    var irapSeq: u64
    var allocs: nat
    var maps: nat
    ghost var trace: seq<Io>

    /** The buffers are separate, and so is their memory. */
    ghost predicate Valid()
      reads this`au, vps, sps, pps, lastIrap, gop, au
    {
      && vps.Valid() && sps.Valid() && pps.Valid() && lastIrap.Valid() && gop.Valid() && au.Valid()
      && Distinct(vps, sps, pps, lastIrap, gop, au)
      && Distinct(vps.memory, sps.memory, pps.memory, lastIrap.memory, gop.memory, au.memory)
    }

    /** The caches' memory is what it was or newly allocated. */
    twostate predicate CachesRegrown()
      reads this`au, vps, sps, pps, lastIrap, gop
    {
      && (vps.memory == old(vps.memory) || fresh(vps.memory)) && (sps.memory == old(sps.memory) || fresh(sps.memory))
      && (pps.memory == old(pps.memory) || fresh(pps.memory)) && (gop.memory == old(gop.memory) || fresh(gop.memory))
      && (lastIrap.memory == old(lastIrap.memory) || fresh(lastIrap.memory))
    }

    twostate predicate Regrown()
      reads this`au, vps, sps, pps, lastIrap, gop, au
    {
      CachesRegrown() && au == old(au) && (au.memory == old(au.memory) || fresh(au.memory))
    }

    ghost function State(): (s: Snap)
      requires Valid()
      ensures ValidSnap(s)
      reads this`au, this`copyAu, this`hasIrap, this`gopHasIrap, this`gopPts, this`gopStart, this`gopLast
      reads this`irapPts, this`irapSeq, this`allocs, this`maps
      reads vps, sps, pps, lastIrap, gop, au
      reads vps.memory, sps.memory, pps.memory, lastIrap.memory, gop.memory, au.memory
    {
      Snap(Cache(vps.Value(), sps.Value(), pps.Value(), lastIrap.Value(), gop.Value(), gopHasIrap,
                 gopPts, gopStart, gopLast, irapPts, irapSeq),
           Frame(au.Value(), copyAu, hasIrap), allocs, maps)
    }

    constructor (env: SnapEnv)
      ensures Valid() && this.env == env
      ensures fresh({vps, sps, pps, lastIrap, gop, au})
      ensures fresh({vps.memory, sps.memory, pps.memory, lastIrap.memory, gop.memory, au.memory})
      ensures State() == Snap(NO_CACHE, Frame(EMPTY, true, false), 0, 0) && trace == []
    {
      this.env := env;
      var a, b, c, d, e, f := SixBuffers();
      vps, sps, pps, lastIrap, gop, au := a, b, c, d, e, f;
      copyAu, hasIrap, gopHasIrap := true, false, false;
      gopPts, gopStart, gopLast, irapPts, irapSeq, allocs, maps := 0, 0, 0, 0, 0, 0, 0;
      trace := [];
    }

    /** What the fields have to do with the state. */
    lemma {:induction false} Fields()
      requires Valid()
      ensures var s := State();
              && au.len <= au.memory.Length && s.frame.au.bytes == au.memory[..au.len]
              && gop.len == |s.cache.gop.bytes| && s.allocs == allocs && s.frame.copyAu == copyAu && s.frame.hasIrap == hasIrap && s.cache.gopHasIrap == gopHasIrap
    {
    }

    method MarkIrap()
      requires Valid()
      modifies this`hasIrap
      ensures Valid() && hasIrap && State() == old(State()).(frame := old(State()).frame.(hasIrap := true))
    {
      hasIrap := true;
    }

    method MarkCopy()
      requires Valid()
      modifies this`copyAu
      ensures Valid() && copyAu && State() == old(State()).(frame := old(State()).frame.(copyAu := true))
    {
      copyAu := true;
    }

    /** `h265_buffer_append` on the access unit. */
    method AppendToAu(data: seq<byte>) returns (ok: bool)
      requires Valid()
      modifies this`allocs, au, au.memory
      ensures Valid() && Regrown()
      ensures var r := Append(old(State()).frame.au, data, env.alloc(old(State()).allocs));
              && ok == r.1
              && State() == old(State()).(frame := old(State()).frame.(au := r.0), allocs := old(State()).allocs + 1)
    {
      hide Append;
      ok := au.AppendBytes(data, env.alloc(allocs));
      allocs := allocs + 1;
    }

    /** `h265_buffer_append_start_code`, then the trimmed NAL unit. */
    method AppendCoded(data: seq<byte>) returns (ok: bool)
      requires Valid()
      modifies this`allocs, au, au.memory
      ensures Valid() && Regrown()
      ensures var s := old(State());
              var a := Append(s.frame.au, CODE4, env.alloc(s.allocs));
              var b := Append(a.0, data, env.alloc(s.allocs + 1));
              && ok == (a.1 && b.1)
              && State() == s.(frame := s.frame.(au := if a.1 then b.0 else a.0),
                               allocs := s.allocs + if a.1 then 2 else 1)
    {
      hide Append, Valid, State, ValidSnap;
      ok := AppendToAu(CODE4);
      if ok {
        ok := AppendToAu(data);
      }
    }

    /** `h265_append_annexb_nalu` on the access unit. */
    method AppendAnnexbNalu(nalu: seq<byte>) returns (ok: bool)
      requires Valid()
      modifies this`allocs, au, au.memory
      ensures Valid() && Regrown()
      ensures var r := AppendAnnexb(env, old(State()).frame.au, old(State()).allocs, nalu);
              && ok == r.2
              && State() == old(State()).(frame := old(State()).frame.(au := r.0), allocs := r.1)
    {
      hide Append, TrimEnd, Valid, State, ValidSnap;
      var len := TrimmedLength(nalu);
      if len < 2 {
        return true;
      }
      ok := AppendCoded(nalu[..len]);
    }

    method ReplaceVps(data: seq<byte>, alloc: bool)
      requires Valid()
      modifies vps, vps.memory
      ensures Valid() && Regrown()
      ensures var s := old(State()); State() == s.(cache := s.cache.(vps := Replace(s.cache.vps, data, alloc).0))
    {
      hide Replace;
      var _ := vps.ReplaceBytes(data, alloc);
    }

    method ReplaceSps(data: seq<byte>, alloc: bool)
      requires Valid()
      modifies sps, sps.memory
      ensures Valid() && Regrown()
      ensures var s := old(State()); State() == s.(cache := s.cache.(sps := Replace(s.cache.sps, data, alloc).0))
    {
      hide Replace;
      var _ := sps.ReplaceBytes(data, alloc);
    }

    method ReplacePps(data: seq<byte>, alloc: bool)
      requires Valid()
      modifies pps, pps.memory
      ensures Valid() && Regrown()
      ensures var s := old(State()); State() == s.(cache := s.cache.(pps := Replace(s.cache.pps, data, alloc).0))
    {
      hide Replace;
      var _ := pps.ReplaceBytes(data, alloc);
    }

    method CountAllocs(n: nat)
      requires Valid()
      modifies this`allocs
      ensures Valid() && Regrown() && State() == old(State()).(allocs := old(State()).allocs + n)
    {
      allocs := allocs + n;
    }

    /** `h265_snapshot_update_param_set`. */
    method UpdateParamSet(t: int, data: seq<byte>)
      requires Valid()
      modifies this`allocs, vps, vps.memory, sps, sps.memory, pps, pps.memory
      ensures Valid() && Regrown()
      ensures State() == UpdateSet(env, old(State()), t, data)
    {
      hide Replace, Valid, State, ValidSnap;
      Fields();
      if t != VPS && t != SPS && t != PPS {
        return;
      }
      var alloc := env.alloc(allocs);
      CountAllocs(if |data| == 0 then 0 else 1);
      if t == VPS {
        ReplaceVps(data, alloc);
      } else if t == SPS {
        ReplaceSps(data, alloc);
      } else {
        ReplacePps(data, alloc);
      }
    }

    /** The part of `h265_snapshot_feed_nalu` that copies: the access unit, then the cached set from it. */
    method KeepNalu(nalu: seq<byte>, nalType: int) returns (ok: bool)
      requires Valid()
      modifies this`allocs, vps, vps.memory, sps, sps.memory, pps, pps.memory, au, au.memory
      ensures Valid() && Regrown()
      ensures ok == AppendAnnexb(env, old(State()).frame.au, old(State()).allocs, nalu).2
      ensures var s := old(State());
              var r := AppendAnnexb(env, s.frame.au, s.allocs, nalu);
              var s2 := s.(frame := s.frame.(au := r.0), allocs := r.1);
              State() == if ok then UpdateSet(env, s2, nalType, r.0.bytes[|s.frame.au.bytes|..]) else s2
    {
      hide AppendAnnexb, UpdateSet, Valid, Distinct, ByteBuffer.Value, State, ValidSnap;
      Fields();
      var naluOffset := au.len;
      ok := AppendAnnexbNalu(nalu);
      if ok {
        Fields();
        UpdateParamSet(nalType, au.memory[..au.len][naluOffset..]);
      }
    }

    /** `h265_snapshot_feed_nalu`. */
    method FeedOneNalu(nalu: seq<byte>) returns (ok: bool)
      requires Valid()
      modifies this`allocs, this`copyAu, this`hasIrap
      modifies vps, vps.memory, sps, sps.memory, pps, pps.memory, au, au.memory
      ensures Valid() && Regrown()
      ensures (State(), ok) == FeedNalu(env, old(State()), nalu)
    {
      hide AppendAnnexb, UpdateSet, Valid, Distinct, ByteBuffer.Value, State, ValidSnap;
      Fields();
      if |nalu| < 2 {
        return false;
      }
      var nalType := NalType(nalu);
      var isParamSet := nalType == VPS || nalType == SPS || nalType == PPS;
      if IsIrap(nalType) {
        MarkIrap();
      }
      if !copyAu && !hasIrap && !isParamSet && !gopHasIrap {
        return true;
      }
      Fields();
      ok := KeepNalu(nalu, nalType);
      if ok && (hasIrap || (!isParamSet && gopHasIrap)) {
        MarkCopy();
      }
    }

    /** `h265_snapshot_feed_buffer`. */
    method FeedOneBuffer(buf: seq<byte>) returns (ok: bool)
      requires Valid() && |buf| <= 0x8000_0000
      modifies this`allocs, this`copyAu, this`hasIrap
      modifies vps, vps.memory, sps, sps.memory, pps, pps.memory, au, au.memory
      ensures Valid() && Regrown()
      ensures (State(), ok) == FeedBuffer(env, old(State()), buf)
    {
      hide Split, FeedNalu, StartsWithCode, Valid, State, ValidSnap;
      if |buf| < 2 {
        return false;
      }
      var coded := BufferStartsWithStartCode(buf);
      if !coded {
        ok := FeedOneNalu(buf);
        return;
      }
      var searchOffset := 0;
      var naluCount := 0;
      ghost var us := Split(buf, 0);
      while true
        invariant Valid() && Regrown() && 0 <= searchOffset <= |buf| && 0 <= naluCount <= |us|
        invariant Split(buf, searchOffset) == us[naluCount..]
        invariant FeedUnits(env, State(), us, naluCount) == FeedUnits(env, old(State()), us, 0)
        decreases |buf| - searchOffset
      {
        var found, start, end, next := CutUnit(SnapshotScanner, buf, searchOffset);
        if !found {
          break;
        }
        if end > start {
          assert us[naluCount] == us[naluCount..][0] == Unit(start, buf[start..end], next < 0);
          ok := FeedOneNalu(buf[start..end]);
          if !ok {
            return;
          }
          naluCount := naluCount + 1;
          assert us[naluCount..] == us[naluCount - 1..][1..];
        }
        if next < 0 {
          break;
        }
        searchOffset := next;
      }
      ok := naluCount > 0;
    }

    method OpenGop(m: Msg)
      requires Valid()
      modifies this`gopHasIrap, this`gopPts, this`gopStart, gop`len
      ensures Valid() && Regrown()
      ensures var s := old(State());
              State() == s.(cache := s.cache.(gop := Reset(s.cache.gop), gopHasIrap := true,
                                              gopPts := m.framePts, gopStart := m.number))
    {
      gop.ResetBuffer();
      gopHasIrap := true;
      gopPts := m.framePts;
      gopStart := m.number;
    }

    method DropGop()
      requires Valid()
      modifies this`gopHasIrap, gop`len
      ensures Valid() && Regrown()
      ensures var s := old(State()); State() == s.(cache := s.cache.(gop := Reset(s.cache.gop), gopHasIrap := false))
    {
      gop.ResetBuffer();
      gopHasIrap := false;
    }

    method AppendToGop(data: seq<byte>) returns (ok: bool)
      requires Valid()
      modifies this`allocs, gop, gop.memory
      ensures Valid() && Regrown()
      ensures var s := old(State());
              var r := Append(s.cache.gop, data, env.alloc(s.allocs));
              ok == r.1 && State() == s.(cache := s.cache.(gop := r.0), allocs := s.allocs + 1)
    {
      hide Append;
      ok := gop.AppendBytes(data, env.alloc(allocs));
      allocs := allocs + 1;
    }

    method NoteLast(m: Msg)
      requires Valid()
      modifies this`gopLast
      ensures Valid() && Regrown()
      ensures var s := old(State()); State() == s.(cache := s.cache.(gopLast := m.number))
    {
      gopLast := m.number;
    }

    /** `h265_snapshot_update_gop_cache`. */
    method UpdateGopCache(m: Msg)
      requires Valid()
      modifies this`gopHasIrap, this`gopPts, this`gopStart, this`gopLast, this`allocs, gop, gop.memory
      ensures Valid() && Regrown()
      ensures State() == UpdateGop(env, old(State()), m)
    {
      hide Append, Valid, State, ValidSnap, ByteBuffer.Value;
      Fields();
      if au.len == 0 {
        return;
      }
      if hasIrap {
        OpenGop(m);
      } else if !gopHasIrap {
        return;
      }
      Fields();
      if au.len > MAX_GOP || gop.len > MAX_GOP - au.len {
        DropGop();
        return;
      }
      var ok := AppendToGop(au.memory[..au.len]);
      if ok {
        NoteLast(m);
      } else {
        DropGop();
      }
    }

    method ReplaceLastIrap(data: seq<byte>, alloc: bool) returns (ok: bool)
      requires Valid()
      modifies lastIrap, lastIrap.memory
      ensures Valid() && Regrown()
      ensures var s := old(State());
              var r := Replace(s.cache.lastIrap, data, alloc);
              ok == r.1 && State() == s.(cache := s.cache.(lastIrap := r.0))
    {
      hide Replace;
      ok := lastIrap.ReplaceBytes(data, alloc);
    }

    method NoteIrap(m: Msg)
      requires Valid()
      modifies this`irapPts, this`irapSeq
      ensures Valid() && Regrown()
      ensures var s := old(State()); State() == s.(cache := s.cache.(irapPts := m.framePts, irapSeq := m.number))
    {
      irapPts := m.framePts;
      irapSeq := m.number;
    }

    /** The block of `datafifo_snapshot_process` that keeps the last IRAP access unit. */
    method UpdateLastIrap(m: Msg)
      requires Valid()
      modifies this`irapPts, this`irapSeq, this`allocs, lastIrap, lastIrap.memory
      ensures Valid() && Regrown()
      ensures State() == UpdateIrap(env, old(State()), m)
    {
      hide Replace, Valid, State, ValidSnap;
      Fields();
      if !hasIrap || au.len == 0 {
        return;
      }
      var alloc := env.alloc(allocs);
      CountAllocs(1);
      Fields();
      var ok := ReplaceLastIrap(au.memory[..au.len], alloc);
      if ok {
        NoteIrap(m);
      }
    }

    ghost predicate Apart(x: object)
      reads this`au, vps, sps, pps, lastIrap, gop, au
    {
      && x != vps && x != sps && x != pps && x != lastIrap && x != gop && x != au
      && x != vps.memory && x != sps.memory && x != pps.memory && x != lastIrap.memory && x != gop.memory && x != au.memory
    }

    /** `h265_snapshot_append_cached_params`, and the last append of the output. */
    method PutBytes(out: ByteBuffer, source: ByteBuffer) returns (ok: bool)
      requires Valid() && out.Valid() && source.Valid()
      requires source != out && source.memory != out.memory && Apart(out) && Apart(out.memory)
      modifies this`allocs, out, out.memory
      ensures Valid() && out.Valid() && Regrown() && (out.memory == old(out.memory) || fresh(out.memory))
      ensures Apart(out.memory)
      ensures (out.Value(), allocs, ok) == Put(env, (old(out.Value()), old(allocs), true), old(source.Value()).bytes)
      ensures State() == old(State()).(allocs := allocs)
    {
      hide Append;
      if source.len == 0 {
        return true;
      }
      var alloc := env.alloc(allocs);
      allocs := allocs + 1;
      ok := out.AppendBytes(source.memory[..source.len], alloc);
    }

    /** `h265_snapshot_append_params`. */
    method PutParams(out: ByteBuffer) returns (ok: bool)
      requires Valid() && out.Valid() && Apart(out) && Apart(out.memory)
      modifies this`allocs, out, out.memory
      ensures Valid() && out.Valid() && Regrown() && (out.memory == old(out.memory) || fresh(out.memory))
      ensures Apart(out.memory) && State() == old(State()).(allocs := allocs)
      ensures var c := old(State()).cache;
              (out.Value(), allocs, ok) ==
              Put(env, Put(env, Put(env, (old(out.Value()), old(allocs), true), c.vps.bytes), c.sps.bytes), c.pps.bytes)
    {
      hide Append;
      ok := PutBytes(out, vps);
      if ok {
        ok := PutBytes(out, sps);
      }
      if ok {
        ok := PutBytes(out, pps);
      }
    }

    /** `h265_snapshot_build_output`, into a buffer not yet used. */
    method BuildSnapshot(out: ByteBuffer) returns (ok: bool, usedCachedGop: bool)
      requires Valid() && out.Valid() && Apart(out) && Apart(out.memory) && out.Value() == EMPTY
      modifies this`allocs, out, out.memory
      ensures Valid() && out.Valid() && Regrown()
      ensures State() == old(State()).(allocs := allocs)
      ensures (out.Value(), allocs, ok, usedCachedGop) == BuildOutput(env, old(State()).cache, old(allocs))
    {
      hide Append;
      if vps.len == 0 || sps.len == 0 || pps.len == 0 {
        return false, false;
      }
      if gopHasIrap && gop.len > 0 {
        ok := PutParams(out);
        if ok {
          ok := PutBytes(out, gop);
        }
        return ok, true;
      }
      if lastIrap.len > 0 {
        ok := PutParams(out);
        if ok {
          ok := PutBytes(out, lastIrap);
        }
        return ok, false;
      }
      return false, false;
    }

    /** `nalu_datafifo_mmap_pack`. */
    method MapPack(pack: Pack, ghost i: nat) returns (ok: bool)
      requires Valid()
      modifies this`maps, this`trace
      ensures Valid() && Regrown() && trace == old(trace) + [Io.MapPack(i, ok)]
      ensures ok == CanMap(pack, env.mmap(old(State()).maps)) && State() == old(State()).(maps := old(State()).maps + 1)
    {
      ok := pack.physAddr != 0 && pack.Len() != 0 && env.mmap(maps);
      maps := maps + 1;
      trace := trace + [Io.MapPack(i, ok)];
    }

    /** The bytes of a mapped pack, gathered. */
    method UsePack(pack: Pack, ghost i: nat)
      requires Valid() && GoodPack(pack)
      modifies this`allocs, this`copyAu, this`hasIrap, this`trace
      modifies vps, vps.memory, sps, sps.memory, pps, pps.memory, au, au.memory
      ensures Valid() && Regrown() && trace == old(trace) + [Io.UsePack(i)]
      ensures State() == FeedBuffer(env, old(State()), pack.data).0
    {
      hide FeedBuffer, Valid, State, ValidSnap;
      var _ := FeedOneBuffer(pack.data);
      trace := trace + [Io.UsePack(i)];
    }

    /** `nalu_datafifo_munmap_pack`; a failure is only logged here. */
    ghost method UnmapPack(i: nat)
      modifies this`trace
      ensures trace == old(trace) + [Io.UnmapPack(i)]
    {
      trace := trace + [Io.UnmapPack(i)];
    }

    /** One round of the pack loop: mapped, gathered whether or not it parses, unmapped. */
    method GatherPack(pack: Pack, ghost i: nat) returns (ok: bool)
      requires Valid() && GoodPack(pack)
      modifies this`allocs, this`maps, this`copyAu, this`hasIrap, this`trace
      modifies vps, vps.memory, sps, sps.memory, pps, pps.memory, au, au.memory
      ensures Valid() && Regrown() && ok == CanMap(pack, env.mmap(old(State()).maps))
      ensures var mapped := old(State()).(maps := old(State()).maps + 1);
              State() == if ok then FeedBuffer(env, mapped, pack.data).0 else mapped
      ensures trace == old(trace) + PackIo(ok, i)
    {
      hide FeedBuffer, CanMap, Valid, State, ValidSnap;
      ok := MapPack(pack, i);
      if ok {
        UsePack(pack, i);
        UnmapPack(i);
      }
    }

    /** The pack loop of `datafifo_snapshot_process`. */
    method GatherPacks(m: IpcMsg) returns (ok: bool)
      requires Valid() && IsValid(m)
      modifies this`allocs, this`maps, this`copyAu, this`hasIrap, this`trace
      modifies vps, vps.memory, sps, sps.memory, pps, pps.memory, au, au.memory
      ensures Valid() && Regrown()
      ensures (State(), ok) == FeedPacks(env, old(State()), m.packs, 0, m.packCnt)
      ensures trace == old(trace) + SnapIo(env, old(State()).maps, m.packs, 0, m.packCnt)
    {
      hide FeedBuffer, CanMap, Valid, State, ValidSnap, PackIo;
      var i := 0;
      while i < m.packCnt
        invariant Valid() && Regrown() && 0 <= i <= m.packCnt
        invariant FeedPacks(env, State(), m.packs, i, m.packCnt) == FeedPacks(env, old(State()), m.packs, 0, m.packCnt)
        invariant trace + SnapIo(env, State().maps, m.packs, i, m.packCnt)
               == old(trace) + SnapIo(env, old(State()).maps, m.packs, 0, m.packCnt)
      {
        assert GoodPack(m.packs[i]);
        ok := GatherPack(m.packs[i], i);
        if !ok {
          return;
        }
        i := i + 1;
      }
      ok := true;
    }

    /** `memset(&frame, 0, sizeof(frame))` and `frame.copy_au = 1`. */
    method StartFrame()
      requires Valid()
      modifies this`au, this`copyAu, this`hasIrap
      ensures Valid() && CachesRegrown() && fresh(au) && fresh(au.memory)
      ensures State() == old(State()).(frame := Frame(EMPTY, true, false))
    {
      au := new ByteBuffer();
      copyAu := true;
      hasIrap := false;
    }

    /** `datafifo_snapshot_process`; what it returns goes to `snapshot_writer_enqueue_h265_take`. */
    method ProcessMessage(m: IpcMsg, writerReady: bool) returns (shot: Option<Shot>)
      requires Valid() && IsValid(m)
      modifies this, vps, vps.memory, sps, sps.memory, pps, pps.memory, lastIrap, lastIrap.memory, gop, gop.memory
      ensures Valid() && CachesRegrown()
      ensures if Flagged(m) then fresh(au) && fresh(au.memory) else au == old(au) && au.memory == old(au.memory)
      ensures (State(), shot) == Process(env, old(State()), m, writerReady)
      ensures trace == old(trace) + if Flagged(m) then SnapIo(env, old(State()).maps, m.packs, 0, m.packCnt) else []
    {
      hide SnapIo, FeedPacks, UpdateGop, UpdateIrap, BuildOutput, Valid, State, ValidSnap, ByteBuffer.Value;
      if !Flagged(m) {
        return None;
      }
      StartFrame();
      var mapped := GatherPacks(m);
      if !mapped {
        return None;
      }
      UpdateGopCache(m);
      UpdateLastIrap(m);
      if !writerReady {
        return None;
      }
      shot := HandOver(m);
    }

    /** The end of `datafifo_snapshot_process`: the output, if there is one, with its time stamp. */
    method HandOver(m: Msg) returns (shot: Option<Shot>)
      requires Valid()
      modifies this`allocs
      ensures Valid() && Regrown()
      ensures var r := BuildOutput(env, old(State()).cache, old(State()).allocs);
              && State() == old(State()).(allocs := r.1)
              && shot == if !r.2 || r.0.bytes == [] then None
                         else Some(Shot(r.0.bytes, if r.3 then old(State()).cache.gopPts else m.framePts, r.3))
    {
      hide BuildOutput;
      var out := new ByteBuffer();
      var ok, usedCachedGop := BuildSnapshot(out);
      if !ok || out.len == 0 {
        return None;
      }
      shot := Some(Shot(out.memory[..out.len], if usedCachedGop then gopPts else m.framePts, usedCachedGop));
    }
  }
}
