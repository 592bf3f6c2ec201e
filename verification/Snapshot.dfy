/**
 * The snapshot GOP cache of datafifo_snapshot.c as functions on its buffers. `alloc(k)` answers the k-th
 * non-empty append, should it have to grow its buffer; `mmap(k)` is the outcome of the k-th mapping.
 */
module Snapshot {
  import opened Bytes
  import opened AnnexB
  import opened ByteBuffers
  import opened DataFifo

  const MAX_GOP: nat := 8 * 1024 * 1024

  datatype SnapEnv = SnapEnv(alloc: nat -> bool, mmap: nat -> bool)

  datatype Cache = Cache(vps: Buf, sps: Buf, pps: Buf, lastIrap: Buf, gop: Buf, gopHasIrap: bool,
                         gopPts: u64, gopStart: u64, gopLast: u64, irapPts: u64, irapSeq: u64)

  const NO_CACHE := Cache(EMPTY, EMPTY, EMPTY, EMPTY, EMPTY, false, 0, 0, 0, 0, 0)

  /** `h265_snapshot_frame_t` without the has_vps/sps/pps marks, which nothing reads. */
  datatype Frame = Frame(au: Buf, copyAu: bool, hasIrap: bool)

  /** The cache, the frame being gathered, and how many appends and mappings were made so far. */
  datatype Snap = Snap(cache: Cache, frame: Frame, allocs: nat, maps: nat)

  predicate ValidCache(c: Cache) {
    c.vps.Valid() && c.sps.Valid() && c.pps.Valid() && c.lastIrap.Valid() && c.gop.Valid()
  }

  predicate ValidSnap(s: Snap) {
    ValidCache(s.cache) && s.frame.au.Valid()
  }

  function Trimmed(nalu: seq<byte>): seq<byte> {
    nalu[..TrimEnd(nalu, 0, |nalu|)]
  }

  const CODE4: seq<byte> := [0, 0, 0, 1]

  /** `h265_append_annexb_nalu`; the number is the count of appends made. */
  function AppendAnnexb(env: SnapEnv, au: Buf, allocs: nat, nalu: seq<byte>): (r: (Buf, nat, bool))
    requires au.Valid()
    ensures r.0.Valid() && |au.bytes| <= |r.0.bytes|
  {
    var t := Trimmed(nalu);
    if |t| < 2 then (au, allocs, true)
    else
      var (a, ok) := Append(au, CODE4, env.alloc(allocs));
      if !ok then (a, allocs + 1, false)
      else
        var (b, ok2) := Append(a, t, env.alloc(allocs + 1));
        (b, allocs + 2, ok2)
  }

  /** `h265_snapshot_update_param_set`: what was just appended replaces the cached set of its type. */
  function UpdateSet(env: SnapEnv, s: Snap, t: int, data: seq<byte>): (r: Snap)
    requires ValidSnap(s)
    ensures ValidSnap(r) && r.frame == s.frame && r.maps == s.maps
  {
    var used := if data == [] then 0 else 1;
    var alloc := env.alloc(s.allocs);
    if t == VPS then s.(cache := s.cache.(vps := Replace(s.cache.vps, data, alloc).0), allocs := s.allocs + used)
    else if t == SPS then s.(cache := s.cache.(sps := Replace(s.cache.sps, data, alloc).0), allocs := s.allocs + used)
    else if t == PPS then s.(cache := s.cache.(pps := Replace(s.cache.pps, data, alloc).0), allocs := s.allocs + used)
    else s
  }

  /** `h265_snapshot_feed_nalu`. */
  function FeedNalu(env: SnapEnv, s: Snap, nalu: seq<byte>): (r: (Snap, bool))
    requires ValidSnap(s)
    ensures ValidSnap(r.0) && r.0.maps == s.maps
  {
    if |nalu| < 2 then (s, false)
    else
      var t := NalType(nalu);
      var hasIrap := s.frame.hasIrap || IsIrap(t);
      var s1 := s.(frame := s.frame.(hasIrap := hasIrap));
      if !s.frame.copyAu && !hasIrap && !IsParameterSet(t) && !s.cache.gopHasIrap then (s1, true)
      else
        var (au, n, ok) := AppendAnnexb(env, s.frame.au, s.allocs, nalu);
        var s2 := s1.(frame := s1.frame.(au := au), allocs := n);
        if !ok then (s2, false)
        else
          var data := au.bytes[|s.frame.au.bytes|..];
          var s3 := UpdateSet(env, s2, t, data);
          var copy := s.frame.copyAu || hasIrap || (!IsParameterSet(t) && s.cache.gopHasIrap);
          (s3.(frame := s3.frame.(copyAu := copy)), true)
  }

  /** Units from the i-th on, up to the first that cannot be fed. */
  function FeedUnits(env: SnapEnv, s: Snap, us: seq<Unit>, i: nat): (r: (Snap, bool))
    requires ValidSnap(s) && i <= |us|
    ensures ValidSnap(r.0) && r.0.maps == s.maps
    decreases |us| - i
  {
    if i == |us| then (s, true)
    else
      var (s', ok) := FeedNalu(env, s, us[i].nalu);
      if ok then FeedUnits(env, s', us, i + 1) else (s', false)
  }

  /** `h265_snapshot_feed_buffer`. */
  function FeedBuffer(env: SnapEnv, s: Snap, buf: seq<byte>): (r: (Snap, bool))
    requires ValidSnap(s)
    ensures ValidSnap(r.0) && r.0.maps == s.maps
  {
    if |buf| < 2 then (s, false)
    else if !StartsWithCode(buf) then FeedNalu(env, s, buf)
    else
      var us := Split(buf, 0);
      var (s', ok) := FeedUnits(env, s, us, 0);
      (s', ok && |us| > 0)
  }

  /** The pack loop of `datafifo_snapshot_process`: false when a mapping failed. A pack that does not parse is passed over. */
  function FeedPacks(env: SnapEnv, s: Snap, packs: seq<Pack>, i: nat, n: nat): (r: (Snap, bool))
    requires ValidSnap(s) && i <= n <= |packs|
    ensures ValidSnap(r.0)
    decreases n - i
  {
    if i == n then (s, true)
    else if !CanMap(packs[i], env.mmap(s.maps)) then (s.(maps := s.maps + 1), false)
    else FeedPacks(env, FeedBuffer(env, s.(maps := s.maps + 1), packs[i].data).0, packs, i + 1, n)
  }

  /** What handling one pack shows the big core. */
  function PackIo(ok: bool, i: nat): seq<Io> {
    if ok then [MapPack(i, true), UsePack(i), UnmapPack(i)] else [MapPack(i, false)]
  }

  /** The mapping traffic of a snapshot, which stops at the first pack it cannot map. */
  function SnapIo(env: SnapEnv, maps: nat, packs: seq<Pack>, i: nat, n: nat): seq<Io>
    requires i <= n <= |packs|
    decreases n - i
  {
    if i == n then []
    else
      var ok := CanMap(packs[i], env.mmap(maps));
      PackIo(ok, i) + if ok then SnapIo(env, maps + 1, packs, i + 1, n) else []
  }

  /** `h265_snapshot_update_gop_cache`. */
  function UpdateGop(env: SnapEnv, s: Snap, m: Msg): (r: Snap)
    requires ValidSnap(s)
    ensures ValidSnap(r) && r.frame == s.frame && r.maps == s.maps
  {
    var au := s.frame.au.bytes;
    if au == [] || (!s.frame.hasIrap && !s.cache.gopHasIrap) then s
    else
      var c := if s.frame.hasIrap
               then s.cache.(gop := Reset(s.cache.gop), gopHasIrap := true, gopPts := m.framePts, gopStart := m.number)
               else s.cache;
      if |au| > MAX_GOP || |c.gop.bytes| > MAX_GOP - |au| then
        s.(cache := c.(gop := Reset(c.gop), gopHasIrap := false))
      else
        var (gop, ok) := Append(c.gop, au, env.alloc(s.allocs));
        if ok then s.(cache := c.(gop := gop, gopLast := m.number), allocs := s.allocs + 1)
        else s.(cache := c.(gop := Reset(gop), gopHasIrap := false), allocs := s.allocs + 1)
  }

  /** The `last_irap` block of `datafifo_snapshot_process`. */
  function UpdateIrap(env: SnapEnv, s: Snap, m: Msg): (r: Snap)
    requires ValidSnap(s)
    ensures ValidSnap(r) && r.frame == s.frame && r.maps == s.maps
  {
    if !s.frame.hasIrap || s.frame.au.bytes == [] then s
    else
      var (b, ok) := Replace(s.cache.lastIrap, s.frame.au.bytes, env.alloc(s.allocs));
      var c := s.cache.(lastIrap := b);
      s.(cache := if ok then c.(irapPts := m.framePts, irapSeq := m.number) else c, allocs := s.allocs + 1)
  }

  /** Appends `source` to the output unless an earlier append failed. */
  function Put(env: SnapEnv, out: (Buf, nat, bool), source: seq<byte>): (r: (Buf, nat, bool))
    requires out.0.Valid()
    ensures r.0.Valid()
  {
    if !out.2 || source == [] then out
    else
      var (b, ok) := Append(out.0, source, env.alloc(out.1));
      (b, out.1 + 1, ok)
  }

  /** `h265_snapshot_build_output` into an empty buffer: the output, and whether the cached GOP was used. */
  function BuildOutput(env: SnapEnv, c: Cache, allocs: nat): (r: (Buf, nat, bool, bool))
    requires ValidCache(c)
    ensures r.0.Valid()
  {
    if c.vps.bytes == [] || c.sps.bytes == [] || c.pps.bytes == [] then (EMPTY, allocs, false, false)
    else
      var useGop := c.gopHasIrap && c.gop.bytes != [];
      if !useGop && c.lastIrap.bytes == [] then (EMPTY, allocs, false, false)
      else
        var p := Put(env, Put(env, Put(env, (EMPTY, allocs, true), c.vps.bytes), c.sps.bytes), c.pps.bytes);
        var o := Put(env, p, if useGop then c.gop.bytes else c.lastIrap.bytes);
        (o.0, o.1, o.2, useGop)
  }

  /** What is handed to the writer. */
  datatype Shot = Shot(bytes: seq<byte>, pts: u64, cachedGop: bool)

  /** `datafifo_snapshot_process` up to the enqueueing; unflagged messages change nothing. */
  function Process(env: SnapEnv, s: Snap, m: Msg, writerReady: bool): (r: (Snap, Option<Shot>))
    requires ValidSnap(s) && m.packCnt <= |m.packs|
    ensures ValidSnap(r.0)
  {
    if !Flagged(m) then (s, None)
    else
      var (s1, mapped) := FeedPacks(env, s.(frame := Frame(EMPTY, true, false)), m.packs, 0, m.packCnt);
      if !mapped then (s1, None)
      else
        var s2 := UpdateIrap(env, UpdateGop(env, s1, m), m);
        if !writerReady then (s2, None)
        else
          var (out, n, ok, useGop) := BuildOutput(env, s2.cache, s2.allocs);
          (s2.(allocs := n),
           if !ok || out.bytes == [] then None
           else Some(Shot(out.bytes, if useGop then s2.cache.gopPts else m.framePts, useGop)))
  }

  // ----- what every message keeps, allocation or not -----

  /** A cached GOP exists exactly when it begins with an IRAP message, and it never exceeds its cap. */
  predicate GopInv(c: Cache) {
    (c.gopHasIrap <==> c.gop.bytes != []) && |c.gop.bytes| <= 0x80_0000
  }

  lemma {:induction false} UpdateGopKeeps(env: SnapEnv, s: Snap, m: Msg)
    requires ValidSnap(s) && GopInv(s.cache)
    ensures GopInv(UpdateGop(env, s, m).cache)
  {
    var c := if s.frame.hasIrap then Reset(s.cache.gop) else s.cache.gop;
    AppendExact(c, s.frame.au.bytes, env.alloc(s.allocs));
  }

  /** Feeding touches the parameter sets only. */
  predicate SameGop(c: Cache, c': Cache) {
    && c'.gop == c.gop && c'.gopHasIrap == c.gopHasIrap && c'.gopPts == c.gopPts && c'.gopStart == c.gopStart
    && c'.lastIrap == c.lastIrap
  }

  lemma {:induction false} FeedUnitsGop(env: SnapEnv, s: Snap, us: seq<Unit>, i: nat)
    requires ValidSnap(s) && i <= |us|
    ensures var c := FeedUnits(env, s, us, i).0.cache;
            SameGop(s.cache, c)
    decreases |us| - i
  {
    if i < |us| {
      FeedNaluGop(env, s, us[i].nalu);
      var (s', ok) := FeedNalu(env, s, us[i].nalu);
      if ok {
        FeedUnitsGop(env, s', us, i + 1);
      }
    }
  }

  lemma {:induction false} FeedNaluGop(env: SnapEnv, s: Snap, nalu: seq<byte>)
    requires ValidSnap(s)
    ensures var c := FeedNalu(env, s, nalu).0.cache;
            SameGop(s.cache, c)
  {
    hide AppendAnnexb, Replace;
  }

  lemma {:induction false} FeedPacksGop(env: SnapEnv, s: Snap, packs: seq<Pack>, i: nat, n: nat)
    requires ValidSnap(s) && i <= n <= |packs|
    ensures var c := FeedPacks(env, s, packs, i, n).0.cache;
            SameGop(s.cache, c)
    decreases n - i
  {
    if i < n && CanMap(packs[i], env.mmap(s.maps)) {
      hide FeedNalu, FeedUnits, Split;
      var s1, buf := s.(maps := s.maps + 1), packs[i].data;
      if StartsWithCode(buf) {
        FeedUnitsGop(env, s1, Split(buf, 0), 0);
      } else {
        FeedNaluGop(env, s1, buf);
      }
      FeedPacksGop(env, FeedBuffer(env, s1, buf).0, packs, i + 1, n);
    }
  }

  /** The GOP cache invariant after every message, for every outcome of allocation and mapping. */
  lemma {:induction false} ProcessKeepsGop(env: SnapEnv, s: Snap, m: Msg, writerReady: bool)
    requires ValidSnap(s) && m.packCnt <= |m.packs| && GopInv(s.cache)
    ensures GopInv(Process(env, s, m, writerReady).0.cache)
  {
    if Flagged(m) {
      hide UpdateGop, BuildOutput, FeedPacks, Append;
      var s0 := s.(frame := Frame(EMPTY, true, false));
      FeedPacksGop(env, s0, m.packs, 0, m.packCnt);
      UpdateGopKeeps(env, FeedPacks(env, s0, m.packs, 0, m.packCnt).0, m);
    }
  }
}
