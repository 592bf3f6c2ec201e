/**
 * After any run of flagged messages the snapshot caches are what the history says, and the stream rebuilt
 * from them re-parses to the latest VPS, SPS and PPS followed by the GOP.
 */
module SnapshotRefinement {
  import opened Bytes
  import opened AnnexB
  import opened AnnexBWriter
  import opened ByteBuffers
  import opened DataFifo
  import opened Snapshot
  import opened SnapshotHistory

  /** A flagged message: what was fed from it, and whether all its packs could be mapped. */
  datatype Record = Record(feds: seq<Fed>, complete: bool, number: u64, pts: u64)

  function RecordOf(env: SnapEnv, maps: nat, m: Msg): Record
    requires m.packCnt <= |m.packs|
  {
    var k := MappedTo(env, maps, m.packs, 0, m.packCnt);
    Record(PacksFed(m.packs, 0, k), k == m.packCnt, m.number, m.framePts)
  }

  // ----- the history, folded -----

  /** The latest NAL unit of type t, from any flagged message, complete or not. */
  function SetOf(h: seq<Record>, t: int, n: nat): seq<byte>
    requires n <= |h|
  {
    if n == 0 then []
    else
      var l := LastSet(h[n - 1].feds, t);
      if l.Some? then l.value.nalu else SetOf(h, t, n - 1)
  }

  /** Messages that add to a GOP, and those that open one. */
  predicate Counts(r: Record) {
    r.complete && Kept(r.feds) != []
  }

  predicate Opens(r: Record) {
    Counts(r) && HasIrap(r.feds)
  }

  /** The latest opening message and everything that counts since: first and last number, and the NAL units. */
  datatype Gop = Gop(first: Record, last: Record, nalus: seq<seq<byte>>)

  function GopOf(h: seq<Record>, n: nat): Option<Gop>
    requires n <= |h|
  {
    if n == 0 then None
    else
      var r, g := h[n - 1], GopOf(h, n - 1);
      if Opens(r) then Some(Gop(r, r, Kept(r.feds)))
      else if Counts(r) && g.Some? then Some(g.value.(last := r, nalus := g.value.nalus + Kept(r.feds)))
      else g
  }

  predicate Small(g: Gop) {
    |Annexb(g.nalus)| <= 0x80_0000
  }

  // ----- the refinement -----

  /** No flagged message feeds more than this. */
  const BIG: nat := 0x1000_0000

  /** The last IRAP message, and the GOP it opens unless that outgrew the cap. */
  ghost predicate GopRefines(c: Cache, g: Option<Gop>) {
    && (g.None? ==> c.lastIrap.bytes == [] && c.gop.bytes == [] && !c.gopHasIrap)
    && (g.Some? ==>
          && c.lastIrap.bytes == Annexb(Kept(g.value.first.feds)) && |c.lastIrap.bytes| <= BIG
          && c.irapSeq == g.value.first.number && c.irapPts == g.value.first.pts
          && (Small(g.value) ==>
                && c.gopHasIrap && c.gop.bytes == Annexb(g.value.nalus)
                && c.gopStart == g.value.first.number && c.gopPts == g.value.first.pts
                && c.gopLast == g.value.last.number)
          && (!Small(g.value) ==> !c.gopHasIrap && c.gop.bytes == []))
  }

  ghost predicate Refines(c: Cache, h: seq<Record>) {
    && ValidCache(c)
    && c.vps.bytes == Text(SetOf(h, VPS, |h|)) && |c.vps.bytes| <= BIG
    && c.sps.bytes == Text(SetOf(h, SPS, |h|)) && |c.sps.bytes| <= BIG
    && c.pps.bytes == Text(SetOf(h, PPS, |h|)) && |c.pps.bytes| <= BIG
    && GopRefines(c, GopOf(h, |h|))
  }

  lemma {:induction false} SetOfMore(h: seq<Record>, r: Record, t: int, n: nat)
    requires n <= |h|
    ensures SetOf(h + [r], t, n) == SetOf(h, t, n)
  {
    if n > 0 {
      SetOfMore(h, r, t, n - 1);
    }
  }

  lemma {:induction false} GopOfMore(h: seq<Record>, r: Record, n: nat)
    requires n <= |h|
    ensures GopOf(h + [r], n) == GopOf(h, n)
  {
    if n > 0 {
      GopOfMore(h, r, n - 1);
    }
  }

  lemma {:induction false} AnnexbLength(nalus: seq<seq<byte>>)
    ensures Annexb(nalus) == [] <==> nalus == []
    ensures |Annexb(nalus)| >= 4 * |nalus|
  {
    if nalus != [] {
      AnnexbLength(nalus[1..]);
    }
  }

  lemma {:induction false} HasOpening(h: seq<Record>, n: nat)
    requires n <= |h| && GopOf(h, n).Some?
    ensures GopOf(h, n).value.nalus != []
  {
    if n > 0 && !Opens(h[n - 1]) {
      HasOpening(h, n - 1);
    }
  }

  /** The fresh frame a message starts with. */
  function Fresh(s: Snap): Snap {
    s.(frame := Frame(EMPTY, true, false))
  }

  /** What feeding leaves: the sets of the longer history, the access unit of the message, the rest untouched. */
  lemma {:induction false} FedIs(env: SnapEnv, s: Snap, m: Msg, h: seq<Record>)
    requires ValidSnap(s) && Ample(env) && WellFormed(m) && IsValid(m) && Refines(s.cache, h)
    ensures var (s1, mapped) := FeedPacks(env, Fresh(s), m.packs, 0, m.packCnt);
            var r := RecordOf(env, s.maps, m);
            var h' := h + [r];
            && s1.cache.vps.bytes == Text(SetOf(h', VPS, |h'|)) && |s1.cache.vps.bytes| <= BIG
            && s1.cache.sps.bytes == Text(SetOf(h', SPS, |h'|)) && |s1.cache.sps.bytes| <= BIG
            && s1.cache.pps.bytes == Text(SetOf(h', PPS, |h'|)) && |s1.cache.pps.bytes| <= BIG
            && s1.frame.au.bytes == Annexb(Kept(r.feds)) && |s1.frame.au.bytes| <= BIG
            && s1.frame.hasIrap == HasIrap(r.feds)
            && SameRest(Fresh(s), s1) && mapped == r.complete
  {
    hide FeedPacks, PacksFed, MappedTo, FoldView, Text, Annexb, Kept, HasIrap, LastSet, Weight, SameRest, GopOf, Ample;
    var n := m.packCnt;
    var s0 := Fresh(s);
    var (s1, mapped) := FeedPacks(env, s0, m.packs, 0, n);
    var r := RecordOf(env, s.maps, m);
    PacksWeight(m.packs, 0, n);
    assert s0.frame.au.bytes == [];
    FeedPacksIs(env, s0, m.packs, 0, n);
    PacksWeight(m.packs, 0, MappedTo(env, s.maps, m.packs, 0, n));
    FoldAu(ViewOf(s0), r.feds);
    FoldSets(ViewOf(s0), r.feds);
    FoldLength(ViewOf(s0), r.feds);
    assert [] + Annexb(Kept(r.feds)) == Annexb(Kept(r.feds));
    SetsAfter(h, r, VPS);
    SetsAfter(h, r, SPS);
    SetsAfter(h, r, PPS);
  }

  /** The set texts after one more record, and how long they can be. */
  lemma {:induction false} SetsAfter(h: seq<Record>, r: Record, t: int)
    ensures var l := LastSet(r.feds, t);
            Text(SetOf(h + [r], t, |h| + 1)) == if l.Some? then Text(l.value.nalu) else Text(SetOf(h, t, |h|))
    ensures var l := LastSet(r.feds, t); l.Some? ==> |Text(l.value.nalu)| <= Weight(r.feds)
  {
    SetOfMore(h, r, t, |h|);
    LastSetWeight(r.feds, t);
  }

  lemma {:induction false} LastSetWeight(feds: seq<Fed>, t: int)
    ensures var l := LastSet(feds, t); l.Some? ==> |Text(l.value.nalu)| <= Weight(feds)
  {
    if feds != [] {
      LastSetWeight(feds[1..], t);
    }
  }

  /** The GOP cache after one access unit: opened, extended, dropped, or left alone. */
  lemma {:induction false} UpdateGopIs(env: SnapEnv, s: Snap, m: Msg)
    requires ValidSnap(s) && Ample(env) && |s.cache.gop.bytes| <= MAX_GOP
    ensures var s', au := UpdateGop(env, s, m), s.frame.au.bytes;
            var base := if s.frame.hasIrap then [] else s.cache.gop.bytes;
            && s'.cache.vps == s.cache.vps && s'.cache.sps == s.cache.sps && s'.cache.pps == s.cache.pps
            && s'.cache.lastIrap == s.cache.lastIrap
            && s'.cache.irapSeq == s.cache.irapSeq && s'.cache.irapPts == s.cache.irapPts
            && (au == [] || (!s.frame.hasIrap && !s.cache.gopHasIrap) ==> s' == s)
            && (au != [] && (s.frame.hasIrap || s.cache.gopHasIrap) ==>
                  if |base| + |au| > MAX_GOP then !s'.cache.gopHasIrap && s'.cache.gop.bytes == []
                  else && s'.cache.gopHasIrap && s'.cache.gop.bytes == base + au && s'.cache.gopLast == m.number
                       && s'.cache.gopStart == (if s.frame.hasIrap then m.number else s.cache.gopStart)
                       && s'.cache.gopPts == (if s.frame.hasIrap then m.framePts else s.cache.gopPts))
  {
    hide Append;
    var au := s.frame.au.bytes;
    var gop := if s.frame.hasIrap then Reset(s.cache.gop) else s.cache.gop;
    if |gop.bytes| + |au| <= MAX_GOP {
      AppendExact(gop, au, env.alloc(s.allocs));
    }
  }

  lemma {:induction false} UpdateIrapIs(env: SnapEnv, s: Snap, m: Msg)
    requires ValidSnap(s) && Ample(env) && |s.frame.au.bytes| <= SIZE_MAX
    ensures var s' := UpdateIrap(env, s, m);
            && (!s.frame.hasIrap || s.frame.au.bytes == [] ==> s' == s)
            && (s.frame.hasIrap && s.frame.au.bytes != [] ==>
                  && s'.cache.(lastIrap := s.cache.lastIrap)
                  == s.cache.(irapSeq := m.number, irapPts := m.framePts)
                  && s'.cache.lastIrap.bytes == s.frame.au.bytes)
  {
    hide Replace;
    ReplaceIs(s.cache.lastIrap, s.frame.au.bytes);
  }

  lemma {:induction false} GopStep(env: SnapEnv, s: Snap, m: Msg, h: seq<Record>, r: Record)
    requires ValidSnap(s) && Ample(env) && GopRefines(s.cache, GopOf(h, |h|)) && |s.cache.gop.bytes| <= MAX_GOP
    requires r.complete && r.number == m.number && r.pts == m.framePts
    requires s.frame.au.bytes == Annexb(Kept(r.feds)) && s.frame.hasIrap == HasIrap(r.feds)
    requires |s.frame.au.bytes| <= BIG
    ensures var s' := UpdateIrap(env, UpdateGop(env, s, m), m);
            && GopRefines(s'.cache, GopOf(h + [r], |h| + 1))
            && s'.cache.vps == s.cache.vps && s'.cache.sps == s.cache.sps && s'.cache.pps == s.cache.pps
  {
    hide Annexb, Kept, HasIrap, UpdateGop, UpdateIrap, Ample;
    GopOfMore(h, r, |h|);
    AnnexbLength(Kept(r.feds));
    var g := GopOf(h, |h|);
    UpdateGopIs(env, s, m);
    UpdateIrapIs(env, UpdateGop(env, s, m), m);
    assert [] + s.frame.au.bytes == s.frame.au.bytes;
    if g.Some? {
      AnnexbConcat(g.value.nalus, Kept(r.feds));
      HasOpening(h, |h|);
      AnnexbLength(g.value.nalus);
    }
  }

  /** One flagged message: the caches follow the history, whatever is mapped and however much there is. */
  lemma {:induction false} ProcessRefines(env: SnapEnv, s: Snap, m: Msg, writerReady: bool, h: seq<Record>)
    requires ValidSnap(s) && Ample(env) && WellFormed(m) && IsValid(m) && Flagged(m) && Refines(s.cache, h)
    ensures Refines(Process(env, s, m, writerReady).0.cache, h + [RecordOf(env, s.maps, m)])
  {
    hide FeedPacks, UpdateGop, UpdateIrap, BuildOutput, Text, GopOf, SetOf, Annexb, Kept, HasIrap, Ample, RecordOf;
    var r := RecordOf(env, s.maps, m);
    assert r.number == m.number && r.pts == m.framePts by {
      RecordNames(env, s.maps, m);
    }
    FedIs(env, s, m, h);
    var (s1, mapped) := FeedPacks(env, Fresh(s), m.packs, 0, m.packCnt);
    if mapped {
      GopSmall(s.cache, h);
      GopStep(env, s1, m, h, r);
    } else {
      GopSkips(h, r);
    }
  }

  lemma {:induction false} GopSmall(c: Cache, h: seq<Record>)
    requires GopRefines(c, GopOf(h, |h|))
    ensures |c.gop.bytes| <= MAX_GOP
  {
    hide GopOf;
  }

  lemma {:induction false} RecordNames(env: SnapEnv, maps: nat, m: Msg)
    requires m.packCnt <= |m.packs|
    ensures RecordOf(env, maps, m).number == m.number && RecordOf(env, maps, m).pts == m.framePts
  {
  }

  lemma {:induction false} GopSkips(h: seq<Record>, r: Record)
    requires !r.complete
    ensures GopOf(h + [r], |h| + 1) == GopOf(h, |h|)
  {
    GopOfMore(h, r, |h|);
  }

  // ----- the rebuilt stream -----

  /** The NAL units a snapshot must hold after the first n messages, if they allow one at all. */
  function Expected(h: seq<Record>, n: nat): Option<seq<seq<byte>>>
    requires n <= |h|
  {
    var v, p, q := SetOf(h, 32, n), SetOf(h, 33, n), SetOf(h, 34, n);
    var g := GopOf(h, n);
    if v == [] || p == [] || q == [] || g.None? then None
    else Some([v, p, q] + (if Small(g.value) then g.value.nalus else Kept(g.value.first.feds)))
  }

  /** The n-th message asks for a snapshot that can be made. */
  predicate IsDue(h: seq<Record>, n: nat)
    requires 0 < n <= |h|
  {
    h[n - 1].complete && Expected(h, n).Some?
  }

  /** That snapshot: those NAL units, with the time stamp of the GOP if it is the GOP, of the message otherwise. */
  function ShotFor(h: seq<Record>, n: nat): Shot
    requires 0 < n <= |h| && IsDue(h, n)
  {
    var g := GopOf(h, n).value;
    Shot(Annexb(Expected(h, n).value), if Small(g) then g.first.pts else h[n - 1].pts, Small(g))
  }

  /** All snapshots the first n messages ask for, in order, and the NAL units each must hold. */
  function Due(h: seq<Record>, n: nat): seq<Shot>
    requires n <= |h|
  {
    if n == 0 then [] else Due(h, n - 1) + (if IsDue(h, n) then [ShotFor(h, n)] else [])
  }

  function DueNalus(h: seq<Record>, n: nat): seq<seq<seq<byte>>>
    requires n <= |h|
  {
    if n == 0 then [] else DueNalus(h, n - 1) + (if IsDue(h, n) then [Expected(h, n).value] else [])
  }

  lemma {:induction false} ExpectedMore(h: seq<Record>, r: Record, n: nat)
    requires n <= |h|
    ensures Expected(h + [r], n) == Expected(h, n)
  {
    SetOfMore(h, r, VPS, n);
    SetOfMore(h, r, SPS, n);
    SetOfMore(h, r, PPS, n);
    GopOfMore(h, r, n);
  }

  lemma {:induction false} DueMore(h: seq<Record>, r: Record, n: nat)
    requires n <= |h|
    ensures Due(h + [r], n) == Due(h, n)
  {
    if n > 0 {
      hide Expected, Annexb, Small, GopOf;
      DueMore(h, r, n - 1);
      ExpectedMore(h, r, n);
      GopOfMore(h, r, n);
    }
  }

  lemma {:induction false} PutIs(env: SnapEnv, out: (Buf, nat, bool), source: seq<byte>)
    requires out.0.Valid() && Ample(env) && out.2 && |out.0.bytes| + |source| <= SIZE_MAX
    ensures Put(env, out, source).2 && Put(env, out, source).0.bytes == out.0.bytes + source
  {
    AppendExact(out.0, source, env.alloc(out.1));
  }

  lemma {:induction false} AnnexbFirst(x: seq<byte>, rest: seq<seq<byte>>)
    requires x != []
    ensures Annexb([x] + rest) == Text(x) + Annexb(rest)
  {
    assert ([x] + rest)[1..] == rest;
  }

  lemma {:induction false} AnnexbFour(v: seq<byte>, p: seq<byte>, q: seq<byte>, rest: seq<seq<byte>>)
    requires v != [] && p != [] && q != []
    ensures Annexb([v, p, q] + rest) == Text(v) + Text(p) + Text(q) + Annexb(rest)
  {
    hide Annexb, Text;
    assert [v, p, q] + rest == [v] + ([p] + ([q] + rest));
    AnnexbFirst(v, [p] + ([q] + rest));
    AnnexbFirst(p, [q] + rest);
    AnnexbFirst(q, rest);
    assert Text(v) + (Text(p) + (Text(q) + Annexb(rest))) == Text(v) + Text(p) + Text(q) + Annexb(rest);
  }

  lemma {:induction false} OpeningKept(h: seq<Record>, n: nat)
    requires n <= |h| && GopOf(h, n).Some?
    ensures Kept(GopOf(h, n).value.first.feds) != []
  {
    if n > 0 && !Opens(h[n - 1]) {
      OpeningKept(h, n - 1);
    }
  }

  /** The bytes built are the expected NAL units behind four-byte start codes; nothing is built when none are expected. */
  lemma {:induction false} BuildIs(env: SnapEnv, c: Cache, allocs: nat, h: seq<Record>)
    requires Ample(env) && Refines(c, h)
    ensures var (out, n, ok, useGop) := BuildOutput(env, c, allocs);
            && (ok <==> Expected(h, |h|).Some?)
            && (ok ==> out.bytes == Annexb(Expected(h, |h|).value) && out.bytes != [] && useGop == Small(GopOf(h, |h|).value))
  {
    hide Put, Annexb, GopOf, SetOf, Append;
    var g := GopOf(h, |h|);
    if g.Some? {
      HasOpening(h, |h|);
      AnnexbLength(g.value.nalus);
      OpeningKept(h, |h|);
      AnnexbLength(Kept(g.value.first.feds));
    }
    if Expected(h, |h|).Some? {
      var tail := if Small(g.value) then g.value.nalus else Kept(g.value.first.feds);
      AnnexbFour(SetOf(h, VPS, |h|), SetOf(h, SPS, |h|), SetOf(h, PPS, |h|), tail);
      AnnexbLength(Expected(h, |h|).value);
      var p0: (Buf, nat, bool) := (EMPTY, allocs, true);
      PutIs(env, p0, c.vps.bytes);
      var p1 := Put(env, p0, c.vps.bytes);
      PutIs(env, p1, c.sps.bytes);
      var p2 := Put(env, p1, c.sps.bytes);
      PutIs(env, p2, c.pps.bytes);
      var p3 := Put(env, p2, c.pps.bytes);
      PutIs(env, p3, if Small(g.value) then c.gop.bytes else c.lastIrap.bytes);
      assert [] + c.vps.bytes == c.vps.bytes;
    }
  }

  /** What one flagged message hands to the writer: the snapshot due, if one is. */
  lemma {:induction false} SnapshotIs(env: SnapEnv, s: Snap, m: Msg, h: seq<Record>)
    requires ValidSnap(s) && Ample(env) && WellFormed(m) && IsValid(m) && Flagged(m) && Refines(s.cache, h)
    ensures var h' := h + [RecordOf(env, s.maps, m)];
            Process(env, s, m, true).1 == if IsDue(h', |h'|) then Some(ShotFor(h', |h'|)) else None
  {
    hide FeedPacks, UpdateGop, UpdateIrap, BuildOutput, Refines, RecordOf, Expected, Annexb, GopOf, Small;
    ProcessRefines(env, s, m, true, h);
    ProcessMapped(env, s, m, h);
    RecordNames(env, s.maps, m);
    var h' := h + [RecordOf(env, s.maps, m)];
    var s1 := FeedPacks(env, Fresh(s), m.packs, 0, m.packCnt).0;
    var s2 := UpdateIrap(env, UpdateGop(env, s1, m), m);
    if h'[|h|].complete {
      BuildIs(env, s2.cache, s2.allocs, h');
      if Expected(h', |h'|).Some? {
        GopPtsIs(s2.cache, h');
      }
    }
  }

  lemma {:induction false} GopPtsIs(c: Cache, h: seq<Record>)
    requires Refines(c, h) && Expected(h, |h|).Some?
    ensures var g := GopOf(h, |h|).value; Small(g) ==> c.gopPts == g.first.pts
  {
    hide GopOf, SetOf, Text, Annexb, Small;
  }

  lemma {:induction false} ProcessMapped(env: SnapEnv, s: Snap, m: Msg, h: seq<Record>)
    requires ValidSnap(s) && Ample(env) && WellFormed(m) && IsValid(m) && Refines(s.cache, h)
    ensures FeedPacks(env, Fresh(s), m.packs, 0, m.packCnt).1 == RecordOf(env, s.maps, m).complete
  {
    hide FeedPacks, RecordOf, Refines, Text, Annexb;
    FedIs(env, s, m, h);
  }

  // ----- parsing it again -----

  /** Raw packs hold no start code in their interior, so that each is one NAL unit for any Annex-B reader. */
  ghost predicate RawIsOne(buf: seq<byte>) {
    StartsWithCode(buf) || NoCode(buf)
  }

  ghost predicate FedValid(feds: seq<Fed>) {
    forall i :: 0 <= i < |feds| ==> feds[i].nalu == [] || ValidNalu(feds[i].nalu)
  }

  lemma {:induction false} TrimmedValid(nalu: seq<byte>)
    requires NoCode(nalu)
    ensures FedOf(nalu).nalu == [] || ValidNalu(FedOf(nalu).nalu)
  {
    var t := Trimmed(nalu);
    assert forall i :: 0 <= i < |t| && CodeAt(t, i) ==> CodeAt(nalu, i);
  }

  lemma {:induction false} UnitsFedValid(us: seq<Unit>, i: nat)
    requires i <= |us| && forall k :: 0 <= k < |us| ==> ValidNalu(us[k].nalu)
    ensures FedValid(UnitsFed(us, i))
    decreases |us| - i
  {
    if i < |us| && |us[i].nalu| >= 2 {
      hide FedOf, NoCode;
      assert ValidNalu(us[i].nalu);
      TrimmedValid(us[i].nalu);
      UnitsFedValid(us, i + 1);
    }
  }

  lemma {:induction false} BufferFedValid(buf: seq<byte>)
    requires RawIsOne(buf)
    ensures FedValid(BufferFed(buf))
  {
    hide FedOf, NoCode, Split, StartsWithCode;
    if StartsWithCode(buf) {
      SplitValid(buf);
      assert forall k :: 0 <= k < |Split(buf, 0)| ==> Split(buf, 0)[k].nalu == Nalus(Split(buf, 0))[k];
      UnitsFedValid(Split(buf, 0), 0);
    } else {
      TrimmedValid(buf);
    }
  }

  lemma {:induction false} FedValidConcat(a: seq<Fed>, b: seq<Fed>)
    requires FedValid(a) && FedValid(b)
    ensures FedValid(a + b)
  {
    hide ValidNalu;
  }

  lemma {:induction false} PacksFedValid(packs: seq<Pack>, i: nat, n: nat)
    requires i <= n <= |packs| && forall k :: 0 <= k < n ==> RawIsOne(packs[k].data)
    ensures FedValid(PacksFed(packs, i, n))
    decreases n - i
  {
    hide BufferFed, RawIsOne, ValidNalu;
    if i < n {
      hide FedValid;
      assert RawIsOne(packs[i].data);
      BufferFedValid(packs[i].data);
      PacksFedValid(packs, i + 1, n);
      FedValidConcat(BufferFed(packs[i].data), PacksFed(packs, i + 1, n));
    }
  }

  lemma {:induction false} KeptValid(feds: seq<Fed>)
    requires FedValid(feds)
    ensures AllValid(Kept(feds))
  {
    if feds != [] {
      hide ValidNalu;
      assert forall i :: 0 <= i < |feds| - 1 ==> feds[1..][i] == feds[i + 1];
      KeptValid(feds[1..]);
    }
  }

  lemma {:induction false} LastSetValid(feds: seq<Fed>, t: int)
    requires FedValid(feds)
    ensures var l := LastSet(feds, t); l.Some? ==> l.value.nalu == [] || ValidNalu(l.value.nalu)
  {
    if feds != [] {
      hide ValidNalu;
      assert forall i :: 0 <= i < |feds| - 1 ==> feds[1..][i] == feds[i + 1];
      LastSetValid(feds[1..], t);
    }
  }

  ghost predicate HistoryValid(h: seq<Record>) {
    forall i :: 0 <= i < |h| ==> FedValid(h[i].feds)
  }

  lemma {:induction false} SetOfValid(h: seq<Record>, t: int, n: nat)
    requires HistoryValid(h) && n <= |h|
    ensures SetOf(h, t, n) == [] || ValidNalu(SetOf(h, t, n))
  {
    if n > 0 {
      hide ValidNalu, FedValid, LastSet;
      LastSetValid(h[n - 1].feds, t);
      SetOfValid(h, t, n - 1);
    }
  }

  lemma {:induction false} GopValid(h: seq<Record>, n: nat)
    requires HistoryValid(h) && n <= |h| && GopOf(h, n).Some?
    ensures AllValid(GopOf(h, n).value.nalus) && AllValid(Kept(GopOf(h, n).value.first.feds))
  {
    if n > 0 {
      hide ValidNalu, FedValid, Kept, HasIrap;
      KeptValid(h[n - 1].feds);
      if !Opens(h[n - 1]) {
        GopValid(h, n - 1);
      }
    }
  }

  lemma {:induction false} ExpectedValid(h: seq<Record>, n: nat)
    requires n <= |h| && HistoryValid(h) && Expected(h, n).Some?
    ensures AllValid(Expected(h, n).value)
  {
    hide GopOf, SetOf, ValidNalu, Small, HistoryValid, Kept;
    SetOfValid(h, VPS, n);
    SetOfValid(h, SPS, n);
    SetOfValid(h, PPS, n);
    GopValid(h, n);
  }

  /**
   * Re-parsing: splitting the bytes handed to the writer gives the latest VPS, SPS and PPS of the flagged
   * messages, then every NAL unit from the latest IRAP message on, or only that message's own NAL units
   * when the GOP outgrew its cap.
   */
  lemma {:induction false} SnapshotReparses(env: SnapEnv, s: Snap, m: Msg, h: seq<Record>)
    requires ValidSnap(s) && Ample(env) && WellFormed(m) && IsValid(m) && Flagged(m) && Refines(s.cache, h)
    requires HistoryValid(h) && forall k :: 0 <= k < m.packCnt ==> RawIsOne(m.packs[k].data)
    ensures var shot := Process(env, s, m, true).1;
            shot.Some? ==> Expected(h + [RecordOf(env, s.maps, m)], |h| + 1) == Some(Nalus(Split(shot.value.bytes, 0)))
  {
    hide Refines, Process, Expected, Split, Nalus, Annexb, AllValid, RecordOf;
    SnapshotIs(env, s, m, h);
    var h' := h + [RecordOf(env, s.maps, m)];
    RecordValid(env, s.maps, m);
    if IsDue(h', |h'|) {
      assert HistoryValid(h') by {
        assert forall i :: 0 <= i < |h| ==> h'[i] == h[i];
      }
      ExpectedValid(h', |h'|);
      AnnexbRoundTrip(Expected(h', |h'|).value);
    }
  }

  lemma {:induction false} ShotReparses(h: seq<Record>, n: nat)
    requires 0 < n <= |h| && HistoryValid(h) && IsDue(h, n)
    ensures Nalus(Split(ShotFor(h, n).bytes, 0)) == Expected(h, n).value
  {
    hide Expected, Split, Nalus, Annexb, AllValid, HistoryValid, GopOf, Small;
    ExpectedValid(h, n);
    AnnexbRoundTrip(Expected(h, n).value);
  }

  /** Every snapshot due re-parses to its own NAL units, in order. */
  lemma {:induction false} DueReparses(h: seq<Record>, n: nat)
    requires n <= |h| && HistoryValid(h)
    ensures |Due(h, n)| == |DueNalus(h, n)|
    ensures forall i :: 0 <= i < |Due(h, n)| ==> Nalus(Split(Due(h, n)[i].bytes, 0)) == DueNalus(h, n)[i]
  {
    hide Expected, IsDue, ShotFor, Split, Nalus, HistoryValid;
    if n > 0 {
      DueReparses(h, n - 1);
      if IsDue(h, n) {
        DueSome(h, n);
        ShotReparses(h, n);
      }
    }
  }

  lemma {:induction false} DueSome(h: seq<Record>, n: nat)
    requires 0 < n <= |h| && IsDue(h, n)
    ensures Expected(h, n).Some?
  {
  }

  lemma {:induction false} RecordValid(env: SnapEnv, maps: nat, m: Msg)
    requires m.packCnt <= |m.packs| && forall k :: 0 <= k < m.packCnt ==> RawIsOne(m.packs[k].data)
    ensures FedValid(RecordOf(env, maps, m).feds)
  {
    hide FedValid, RawIsOne;
    PacksFedValid(m.packs, 0, MappedTo(env, maps, m.packs, 0, m.packCnt));
  }

  /** In general a snapshot re-parses to what it should hold exactly when no raw pack brought a start code inside. */
  lemma {:induction false} ReparsesExactly(env: SnapEnv, s: Snap, m: Msg, h: seq<Record>)
    requires ValidSnap(s) && Ample(env) && WellFormed(m) && IsValid(m) && Flagged(m) && Refines(s.cache, h)
    requires Process(env, s, m, true).1.Some?
    ensures var expected := Expected(h + [RecordOf(env, s.maps, m)], |h| + 1);
            && expected.Some?
            && (Nalus(Split(Process(env, s, m, true).1.value.bytes, 0)) == expected.value <==> AllValid(expected.value))
  {
    hide Refines, Process, Expected, Split, Nalus, Annexb, AllValid, RecordOf;
    SnapshotIs(env, s, m, h);
    RoundTripExactly(Expected(h + [RecordOf(env, s.maps, m)], |h| + 1).value);
  }
}
