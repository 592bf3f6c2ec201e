/**
 * The GOP cache against a plain history of the flagged messages: what was fed, message by message. The caches
 * are functions of that history, and the stream rebuilt from them re-parses to the NAL units it names.
 */
module SnapshotHistory {
  import opened Bytes
  import opened AnnexB
  import opened AnnexBWriter
  import opened ByteBuffers
  import opened DataFifo
  import opened Snapshot

  // ----- what a message feeds -----

  /** One NAL unit fed: its type, and its bytes without trailing zeros, or nothing if fewer than two are left. */
  datatype Fed = Fed(kind: int, nalu: seq<byte>)

  function FedOf(nalu: seq<byte>): Fed {
    Fed(NalType(nalu), if |Trimmed(nalu)| < 2 then [] else Trimmed(nalu))
  }

  /** A one-byte unit ends the pack. */
  function UnitsFed(us: seq<Unit>, i: nat): seq<Fed>
    requires i <= |us|
    decreases |us| - i
  {
    if i == |us| || |us[i].nalu| < 2 then [] else [FedOf(us[i].nalu)] + UnitsFed(us, i + 1)
  }

  function BufferFed(buf: seq<byte>): seq<Fed> {
    if |buf| < 2 then [] else if !StartsWithCode(buf) then [FedOf(buf)] else UnitsFed(Split(buf, 0), 0)
  }

  function PacksFed(packs: seq<Pack>, i: nat, n: nat): seq<Fed>
    requires i <= n <= |packs|
    decreases n - i
  {
    if i == n then [] else BufferFed(packs[i].data) + PacksFed(packs, i + 1, n)
  }

  /** How many packs are mapped before the first that cannot be. */
  function MappedTo(env: SnapEnv, maps: nat, packs: seq<Pack>, i: nat, n: nat): (k: nat)
    requires i <= n <= |packs|
    ensures i <= k <= n
    decreases n - i
  {
    if i < n && CanMap(packs[i], env.mmap(maps)) then MappedTo(env, maps + 1, packs, i + 1, n) else i
  }

  function Kept(feds: seq<Fed>): seq<seq<byte>> {
    if feds == [] then []
    else if feds[0].nalu == [] then Kept(feds[1..])
    else [feds[0].nalu] + Kept(feds[1..])
  }

  predicate HasIrap(feds: seq<Fed>) {
    feds != [] && (16 <= feds[0].kind <= 21 || HasIrap(feds[1..]))
  }

  function LastSet(feds: seq<Fed>, t: int): Option<Fed> {
    if feds == [] then None
    else
      var later := LastSet(feds[1..], t);
      if later.Some? then later else if feds[0].kind == t then Some(feds[0]) else None
  }

  function Weight(feds: seq<Fed>): nat {
    if feds == [] then 0 else 4 + |feds[0].nalu| + Weight(feds[1..])
  }

  // ----- feeding, seen through the contents of the buffers -----

  datatype View = View(au: seq<byte>, irap: bool, vps: seq<byte>, sps: seq<byte>, pps: seq<byte>)

  function ViewOf(s: Snap): View {
    View(s.frame.au.bytes, s.frame.hasIrap, s.cache.vps.bytes, s.cache.sps.bytes, s.cache.pps.bytes)
  }

  function Text(nalu: seq<byte>): seq<byte> {
    if nalu == [] then [] else [0, 0, 0, 1] + nalu
  }

  function StepView(v: View, f: Fed): View {
    View(v.au + Text(f.nalu), v.irap || IsIrap(f.kind),
         if f.kind == VPS then Text(f.nalu) else v.vps,
         if f.kind == SPS then Text(f.nalu) else v.sps,
         if f.kind == PPS then Text(f.nalu) else v.pps)
  }

  function FoldView(v: View, feds: seq<Fed>): View
    decreases |feds|
  {
    if feds == [] then v else FoldView(StepView(v, feds[0]), feds[1..])
  }

  ghost predicate Ample(env: SnapEnv) {
    forall k :: env.alloc(k)
  }

  /** Everything but the frame and the sets, which feeding does not touch. */
  predicate SameRest(s: Snap, s': Snap) {
    && s'.cache.lastIrap == s.cache.lastIrap && s'.cache.gop == s.cache.gop
    && s'.cache.gopHasIrap == s.cache.gopHasIrap && s'.cache.gopPts == s.cache.gopPts
    && s'.cache.gopStart == s.cache.gopStart && s'.cache.gopLast == s.cache.gopLast
    && s'.cache.irapPts == s.cache.irapPts && s'.cache.irapSeq == s.cache.irapSeq
    && s'.frame.copyAu == s.frame.copyAu
  }

  lemma {:induction false} AppendAnnexbIs(env: SnapEnv, au: Buf, allocs: nat, nalu: seq<byte>)
    requires au.Valid() && Ample(env) && |au.bytes| + 4 + |FedOf(nalu).nalu| <= SIZE_MAX
    ensures var (b, n, ok) := AppendAnnexb(env, au, allocs, nalu);
            ok && b.bytes == au.bytes + Text(FedOf(nalu).nalu)
  {
    hide Trimmed, Append;
    var t := Trimmed(nalu);
    if |t| >= 2 {
      AppendExact(au, CODE4, env.alloc(allocs));
      AppendExact(Append(au, CODE4, env.alloc(allocs)).0, t, env.alloc(allocs + 1));
      assert au.bytes + CODE4 + t == au.bytes + (CODE4 + t);
    }
  }

  lemma {:induction false} ReplaceIs(b: Buf, data: seq<byte>)
    requires b.Valid() && |data| <= SIZE_MAX
    ensures Replace(b, data, true).0.bytes == data && Replace(b, data, true).1
  {
    AppendExact(Reset(b), data, true);
  }

  lemma {:induction false} FeedNaluIs(env: SnapEnv, s: Snap, nalu: seq<byte>)
    requires ValidSnap(s) && Ample(env) && s.frame.copyAu && |nalu| >= 2
    requires |s.frame.au.bytes| + 4 + |FedOf(nalu).nalu| <= SIZE_MAX
    ensures var (s', ok) := FeedNalu(env, s, nalu);
            ok && ViewOf(s') == StepView(ViewOf(s), FedOf(nalu)) && SameRest(s, s')
  {
    hide AppendAnnexb, Trimmed, Replace, Text;
    AppendAnnexbIs(env, s.frame.au, s.allocs, nalu);
    var au := AppendAnnexb(env, s.frame.au, s.allocs, nalu).0;
    var text := Text(FedOf(nalu).nalu);
    assert au.bytes[|s.frame.au.bytes|..] == text;
    TextLength(FedOf(nalu).nalu);
    ReplaceIs(s.cache.vps, text);
    ReplaceIs(s.cache.sps, text);
    ReplaceIs(s.cache.pps, text);
  }

  lemma {:induction false} TextLength(nalu: seq<byte>)
    ensures |Text(nalu)| <= 4 + |nalu|
  {
  }

  lemma {:induction false} FeedUnitsIs(env: SnapEnv, s: Snap, us: seq<Unit>, i: nat)
    requires ValidSnap(s) && Ample(env) && s.frame.copyAu && i <= |us|
    requires |s.frame.au.bytes| + Weight(UnitsFed(us, i)) <= SIZE_MAX
    ensures var s' := FeedUnits(env, s, us, i).0;
            ViewOf(s') == FoldView(ViewOf(s), UnitsFed(us, i)) && SameRest(s, s')
    decreases |us| - i
  {
    if i < |us| {
      hide FedOf, FeedNalu, Text;
      if |us[i].nalu| >= 2 {
        var f := FedOf(us[i].nalu);
        assert UnitsFed(us, i)[1..] == UnitsFed(us, i + 1);
        FeedNaluIs(env, s, us[i].nalu);
        TextLength(f.nalu);
        FeedUnitsIs(env, FeedNalu(env, s, us[i].nalu).0, us, i + 1);
      } else {
        FeedShort(env, s, us[i].nalu);
      }
    }
  }

  lemma {:induction false} FeedShort(env: SnapEnv, s: Snap, nalu: seq<byte>)
    requires ValidSnap(s) && |nalu| < 2
    ensures FeedNalu(env, s, nalu) == (s, false)
  {
  }

  lemma {:induction false} FeedBufferIs(env: SnapEnv, s: Snap, buf: seq<byte>)
    requires ValidSnap(s) && Ample(env) && s.frame.copyAu
    requires |s.frame.au.bytes| + Weight(BufferFed(buf)) <= SIZE_MAX
    ensures var s' := FeedBuffer(env, s, buf).0;
            ViewOf(s') == FoldView(ViewOf(s), BufferFed(buf)) && SameRest(s, s')
  {
    hide FeedNalu, FeedUnits, FedOf, Split, StartsWithCode, UnitsFed;
    if |buf| >= 2 {
      if StartsWithCode(buf) {
        FeedUnitsIs(env, s, Split(buf, 0), 0);
      } else {
        var feds := [FedOf(buf)];
        assert feds[1..] == [];
        FeedNaluIs(env, s, buf);
        assert FoldView(ViewOf(s), feds) == StepView(ViewOf(s), FedOf(buf));
      }
    }
  }

  lemma {:induction false} FoldConcat(v: View, a: seq<Fed>, b: seq<Fed>)
    ensures FoldView(v, a + b) == FoldView(FoldView(v, a), b)
    decreases |a|
  {
    if a == [] {
      assert a + b == b;
    } else {
      hide StepView;
      assert (a + b)[1..] == a[1..] + b;
      FoldConcat(StepView(v, a[0]), a[1..], b);
    }
  }

  lemma {:induction false} WeightConcat(a: seq<Fed>, b: seq<Fed>)
    ensures Weight(a + b) == Weight(a) + Weight(b)
  {
    if a == [] {
      assert a + b == b;
    } else {
      assert (a + b)[1..] == a[1..] + b;
      WeightConcat(a[1..], b);
    }
  }

  lemma {:induction false} FoldLength(v: View, feds: seq<Fed>)
    ensures |FoldView(v, feds).au| <= |v.au| + Weight(feds)
    decreases |feds|
  {
    if feds != [] {
      FoldLength(StepView(v, feds[0]), feds[1..]);
    }
  }

  lemma {:induction false} FoldNone(v: View)
    ensures FoldView(v, []) == v
  {
  }

  lemma {:induction false} FeedPacksStep(env: SnapEnv, s: Snap, packs: seq<Pack>, i: nat, n: nat)
    requires ValidSnap(s) && i < n <= |packs| && CanMap(packs[i], env.mmap(s.maps))
    ensures var s2 := FeedBuffer(env, s.(maps := s.maps + 1), packs[i].data).0;
            && FeedPacks(env, s, packs, i, n) == FeedPacks(env, s2, packs, i + 1, n)
            && MappedTo(env, s.maps, packs, i, n) == MappedTo(env, s2.maps, packs, i + 1, n)
  {
    hide FeedBuffer, CanMap;
  }

  lemma {:induction false} FeedPacksStop(env: SnapEnv, s: Snap, packs: seq<Pack>, i: nat, n: nat)
    requires ValidSnap(s) && i <= n <= |packs| && (i < n ==> !CanMap(packs[i], env.mmap(s.maps)))
    ensures var (s', mapped) := FeedPacks(env, s, packs, i, n);
            && ViewOf(s') == ViewOf(s) && SameRest(s, s') && mapped == (i == n)
            && MappedTo(env, s.maps, packs, i, n) == i
  {
  }

  lemma {:induction false} SameRestThen(a: Snap, b: Snap, c: Snap)
    requires SameRest(a, b) && SameRest(b, c)
    ensures SameRest(a, c)
  {
  }

  lemma {:induction false} FeedPacksIs(env: SnapEnv, s: Snap, packs: seq<Pack>, i: nat, n: nat)
    requires ValidSnap(s) && Ample(env) && s.frame.copyAu && i <= n <= |packs|
    requires |s.frame.au.bytes| + Weight(PacksFed(packs, i, n)) <= SIZE_MAX
    ensures var (s', mapped) := FeedPacks(env, s, packs, i, n);
            var k := MappedTo(env, s.maps, packs, i, n);
            && ViewOf(s') == FoldView(ViewOf(s), PacksFed(packs, i, k)) && SameRest(s, s')
            && mapped == (k == n)
    decreases n - i
  {
    hide FeedBuffer, FoldView, Weight, ValidSnap, Ample, CanMap, FeedPacks, MappedTo, BufferFed;
    if i == n || !CanMap(packs[i], env.mmap(s.maps)) {
      FoldNone(ViewOf(s));
      FeedPacksStop(env, s, packs, i, n);
    } else {
      var s1, fed := s.(maps := s.maps + 1), BufferFed(packs[i].data);
      assert ValidSnap(s1) by {
        CountersValid(s, s1);
      }
      var s2 := FeedBuffer(env, s1, packs[i].data).0;
      FeedPacksStep(env, s, packs, i, n);
      WeightConcat(fed, PacksFed(packs, i + 1, n));
      FeedBufferIs(env, s1, packs[i].data);
      FoldLength(ViewOf(s1), fed);
      assert s2.frame.copyAu;
      FeedPacksIs(env, s2, packs, i + 1, n);
      var k := MappedTo(env, s.maps, packs, i, n);
      FoldConcat(ViewOf(s), fed, PacksFed(packs, i + 1, k));
      hide SameRest;
      SameRestThen(s, s2, FeedPacks(env, s, packs, i, n).0);
    }
  }

  lemma {:induction false} CountersValid(s: Snap, s': Snap)
    requires ValidSnap(s) && s'.cache == s.cache && s'.frame == s.frame
    ensures ValidSnap(s')
  {
  }

  // ----- the contents in terms of the list fed -----

  lemma {:induction false} FoldAu(v: View, feds: seq<Fed>)
    ensures FoldView(v, feds).au == v.au + Annexb(Kept(feds))
    decreases |feds|
  {
    if feds != [] {
      var f, rest := feds[0], Kept(feds[1..]);
      FoldAu(StepView(v, f), feds[1..]);
      if f.nalu != [] {
        assert Annexb([f.nalu] + rest) == Text(f.nalu) + Annexb(rest) by {
          assert ([f.nalu] + rest)[1..] == rest;
        }
        assert v.au + Text(f.nalu) + Annexb(rest) == v.au + (Text(f.nalu) + Annexb(rest));
      }
    }
  }

  lemma {:induction false} FoldSets(v: View, feds: seq<Fed>)
    ensures var w := FoldView(v, feds);
            && w.irap == (v.irap || HasIrap(feds))
            && w.vps == (var l := LastSet(feds, VPS); if l.Some? then Text(l.value.nalu) else v.vps)
            && w.sps == (var l := LastSet(feds, SPS); if l.Some? then Text(l.value.nalu) else v.sps)
            && w.pps == (var l := LastSet(feds, PPS); if l.Some? then Text(l.value.nalu) else v.pps)
    decreases |feds|
  {
    if feds != [] {
      hide Text;
      FoldSets(StepView(v, feds[0]), feds[1..]);
    }
  }

  // ----- how large a message can get -----

  lemma {:induction false} UnitsWeight(us: seq<Unit>, i: nat, buf: seq<byte>, from: nat)
    requires i <= |us| && Laid(buf, us[i..], from) && from <= |buf|
    ensures Weight(UnitsFed(us, i)) <= 2 * (|buf| - from)
    decreases |us| - i
  {
    if i < |us| && |us[i].nalu| >= 2 {
      hide FedOf, NoCode, CodeAt;
      assert us[i..][1..] == us[i + 1..];
      var end := us[i].start + |us[i].nalu|;
      UnitsWeight(us, i + 1, buf, end);
      assert UnitsFed(us, i)[1..] == UnitsFed(us, i + 1);
      FedLength(us[i].nalu);
    }
  }

  lemma {:induction false} FedLength(nalu: seq<byte>)
    ensures |FedOf(nalu).nalu| <= |nalu|
  {
  }

  lemma {:induction false} BufferWeight(buf: seq<byte>)
    ensures Weight(BufferFed(buf)) <= 3 * |buf|
  {
    hide Split, FedOf, StartsWithCode, UnitsFed;
    if |buf| >= 2 {
      if StartsWithCode(buf) {
        SplitLaid(buf, 0);
        assert Split(buf, 0)[0..] == Split(buf, 0);
        UnitsWeight(Split(buf, 0), 0, buf, 0);
      } else {
        FedLength(buf);
        assert [FedOf(buf)][1..] == [];
        assert Weight([FedOf(buf)]) == 4 + |FedOf(buf).nalu|;
      }
    }
  }

  lemma {:induction false} PacksWeight(packs: seq<Pack>, i: nat, n: nat)
    requires i <= n <= |packs| && forall k :: 0 <= k < n ==> GoodPack(packs[k])
    ensures Weight(PacksFed(packs, i, n)) <= 0x180_0000 * (n - i)
    decreases n - i
  {
    if i < n {
      hide BufferFed;
      BufferWeight(packs[i].data);
      PacksWeight(packs, i + 1, n);
      WeightConcat(BufferFed(packs[i].data), PacksFed(packs, i + 1, n));
    }
  }
}
