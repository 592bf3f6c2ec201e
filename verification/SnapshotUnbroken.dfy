/**
 * The snapshot caches when memory may be refused at any point: a cached GOP still has no hole, and what is handed to
 * the writer still is three parameter sets and either that GOP or the last IRAP access unit.
 */
module SnapshotUnbroken {
  import opened Bytes
  import opened AnnexB
  import opened AnnexBWriter
  import opened ByteBuffers
  import opened DataFifo
  import opened Snapshot
  import opened SnapshotHistory
  import opened SnapshotRefinement
  import opened SenderLoop
  import opened SenderInput
  import opened SenderWire

  /** The access unit gathered from a flagged message, whatever could be gathered of it. */
  datatype Gathered = Gathered(bytes: seq<byte>, irap: bool, mapped: bool, number: u64, pts: u64)

  function GatheredFrom(env: SnapEnv, s: Snap, m: Msg): Gathered
    requires ValidSnap(s) && m.packCnt <= |m.packs|
  {
    var (s1, mapped) := FeedPacks(env, Fresh(s), m.packs, 0, m.packCnt);
    Gathered(s1.frame.au.bytes, s1.frame.hasIrap, mapped, m.number, m.framePts)
  }

  predicate Adds(a: Gathered) {
    a.mapped && a.bytes != []
  }

  /** The last access unit with an IRAP among the first n, -1 if there is none. */
  function Opening(h: seq<Gathered>, n: nat): (j: int)
    requires n <= |h|
    ensures -1 <= j < n
  {
    if n == 0 then -1 else if Adds(h[n - 1]) && h[n - 1].irap then n - 1 else Opening(h, n - 1)
  }

  /** All that was gathered from the j-th message to the n-th, without a gap. */
  function Joined(h: seq<Gathered>, j: nat, n: nat): seq<byte>
    requires n <= |h|
  {
    if n <= j then [] else Joined(h, j, n - 1) + (if Adds(h[n - 1]) then h[n - 1].bytes else [])
  }

  ghost predicate Unbroken(c: Cache, h: seq<Gathered>) {
    var j := Opening(h, |h|);
    && (c.gopHasIrap ==> j >= 0 && c.gop.bytes == Joined(h, j, |h|) && c.gopStart == h[j].number && c.gopPts == h[j].pts)
    && (c.lastIrap.bytes != [] ==> j >= 0 && c.lastIrap.bytes == h[j].bytes)
  }

  lemma {:induction false} OpeningMore(h: seq<Gathered>, a: Gathered, n: nat)
    requires n <= |h|
    ensures Opening(h + [a], n) == Opening(h, n)
  {
    if n > 0 {
      OpeningMore(h, a, n - 1);
    }
  }

  lemma {:induction false} JoinedMore(h: seq<Gathered>, a: Gathered, j: nat, n: nat)
    requires n <= |h|
    ensures Joined(h + [a], j, n) == Joined(h, j, n)
  {
    if n > j {
      JoinedMore(h, a, j, n - 1);
    }
  }

  /** One more message: where the last opening is, and what is joined since. */
  lemma {:induction false} OneMore(h: seq<Gathered>, a: Gathered)
    ensures var h', j := h + [a], Opening(h, |h|);
            && Opening(h', |h'|) == (if Adds(a) && a.irap then |h| else j)
            && (Adds(a) && a.irap ==> Joined(h', |h|, |h'|) == a.bytes)
            && (j >= 0 ==> Joined(h', j, |h'|) == Joined(h, j, |h|) + if Adds(a) then a.bytes else [])
  {
    OpeningMore(h, a, |h|);
    if Opening(h, |h|) >= 0 {
      JoinedMore(h, a, Opening(h, |h|), |h|);
    }
  }

  /** The GOP cache after one access unit, with or without memory. */
  lemma {:induction false} GopKept(env: SnapEnv, s: Snap, m: Msg, h: seq<Gathered>, a: Gathered)
    requires ValidSnap(s) && Unbroken(s.cache, h) && a.mapped && a.bytes == s.frame.au.bytes && a.irap == s.frame.hasIrap
    requires a.number == m.number && a.pts == m.framePts
    ensures Unbroken(UpdateIrap(env, UpdateGop(env, s, m), m).cache, h + [a])
  {
    hide Append, Joined, Opening;
    OneMore(h, a);
    var au := s.frame.au.bytes;
    var gop := if s.frame.hasIrap then Reset(s.cache.gop) else s.cache.gop;
    AppendExact(gop, au, env.alloc(s.allocs));
    var s1 := UpdateGop(env, s, m);
    assert s1.cache.lastIrap == s.cache.lastIrap && s1.frame == s.frame;
    if au != [] {
      AppendExact(Reset(s.cache.lastIrap), au, env.alloc(s1.allocs));
      assert [] + au == au;
    }
  }

  /** One flagged message, whatever is refused: mappings, memory, or the writer. */
  lemma {:induction false} ProcessUnbroken(env: SnapEnv, s: Snap, m: Msg, writerReady: bool, h: seq<Gathered>)
    requires ValidSnap(s) && m.packCnt <= |m.packs| && Flagged(m) && Unbroken(s.cache, h)
    ensures Unbroken(Process(env, s, m, writerReady).0.cache, h + [GatheredFrom(env, s, m)])
  {
    hide FeedPacks, UpdateGop, UpdateIrap, BuildOutput, Unbroken;
    FeedPacksGop(env, Fresh(s), m.packs, 0, m.packCnt);
    var (s1, mapped) := FeedPacks(env, Fresh(s), m.packs, 0, m.packCnt);
    var a := GatheredFrom(env, s, m);
    SameUnbroken(s.cache, s1.cache, h);
    if mapped {
      GopKept(env, s1, m, h, a);
    } else {
      NothingAdded(s1.cache, h, a);
    }
  }

  lemma {:induction false} SameUnbroken(c: Cache, c': Cache, h: seq<Gathered>)
    requires Unbroken(c, h) && SameGop(c, c')
    ensures Unbroken(c', h)
  {
  }

  lemma {:induction false} NothingAdded(c: Cache, h: seq<Gathered>, a: Gathered)
    requires Unbroken(c, h) && !a.mapped
    ensures Unbroken(c, h + [a])
  {
    OneMore(h, a);
  }

  // ----- what a refusal does to the cached sets and the last IRAP -----

  /** Whether a buffer can take that many bytes once emptied: it has the room, or memory is granted. */
  predicate CanHold(b: Buf, n: nat, answer: bool) {
    n <= b.cap || (answer && n <= SIZE_MAX)
  }

  /** A set just gathered replaces the cached one of its type, which is lost if memory is refused; no other changes. */
  lemma {:induction false} SetReplaced(env: SnapEnv, s: Snap, t: int, data: seq<byte>)
    requires ValidSnap(s)
    ensures var c, c', answer := s.cache, UpdateSet(env, s, t, data).cache, env.alloc(s.allocs);
            && c'.vps.bytes == (if t != 32 then c.vps.bytes else if CanHold(c.vps, |data|, answer) then data else [])
            && c'.sps.bytes == (if t != 33 then c.sps.bytes else if CanHold(c.sps, |data|, answer) then data else [])
            && c'.pps.bytes == (if t != 34 then c.pps.bytes else if CanHold(c.pps, |data|, answer) then data else [])
            && SameGop(c, c')
  {
    hide Append;
    AppendExact(Reset(s.cache.vps), data, env.alloc(s.allocs));
    AppendExact(Reset(s.cache.sps), data, env.alloc(s.allocs));
    AppendExact(Reset(s.cache.pps), data, env.alloc(s.allocs));
    assert [] + data == data;
  }

  /**
   * An access unit with an IRAP replaces the last one, with its number and time stamp; if memory is refused that one is
   * lost and they stay.
   */
  lemma {:induction false} IrapReplaced(env: SnapEnv, s: Snap, m: Msg)
    requires ValidSnap(s)
    ensures var c, c', au := s.cache, UpdateIrap(env, s, m).cache, s.frame.au.bytes;
            if !s.frame.hasIrap || au == [] then c' == c
            else if CanHold(c.lastIrap, |au|, env.alloc(s.allocs)) then
              c'.lastIrap.bytes == au && c'.irapSeq == m.number && c'.irapPts == m.framePts
            else
              c'.lastIrap.bytes == [] && c'.irapSeq == c.irapSeq && c'.irapPts == c.irapPts
  {
    hide Append;
    AppendExact(Reset(s.cache.lastIrap), s.frame.au.bytes, env.alloc(s.allocs));
    assert [] + s.frame.au.bytes == s.frame.au.bytes;
  }

  /** An access unit that has to go into the GOP does, or the GOP is dropped: for its size, or for want of memory. */
  lemma {:induction false} GopReplaced(env: SnapEnv, s: Snap, m: Msg)
    requires ValidSnap(s) && GopInv(s.cache)
    ensures var c, c', au := s.cache, UpdateGop(env, s, m).cache, s.frame.au.bytes;
            var base := if s.frame.hasIrap then [] else c.gop.bytes;
            if au == [] || (!s.frame.hasIrap && !c.gopHasIrap) then c' == c
            else if |base| + |au| <= 0x80_0000 && CanHold(c.gop, |base| + |au|, env.alloc(s.allocs)) then
              c'.gop.bytes == base + au && c'.gopHasIrap && c'.gopLast == m.number
            else
              c'.gop.bytes == [] && !c'.gopHasIrap && c'.gopLast == c.gopLast
  {
    hide Append;
    var gop := if s.frame.hasIrap then Reset(s.cache.gop) else s.cache.gop;
    AppendExact(gop, s.frame.au.bytes, env.alloc(s.allocs));
  }

  // ----- one pack -----

  /** What gathering some NAL units adds: the first k of them in full, and where memory was refused a bare start code. */
  ghost predicate CutShort(feds: seq<Fed>, more: seq<byte>) {
    more == Annexb(Kept(feds)) || exists k: nat :: k < |feds| && CutAt(feds, more, k)
  }

  predicate CutAt(feds: seq<Fed>, more: seq<byte>, k: nat)
    requires k < |feds|
  {
    more == Annexb(Kept(feds[..k])) || more == Annexb(Kept(feds[..k])) + [0, 0, 0, 1]
  }

  lemma {:induction false} FeedNaluCut(env: SnapEnv, s: Snap, nalu: seq<byte>)
    requires ValidSnap(s) && s.frame.copyAu && |nalu| >= 2
    ensures var (s', ok) := FeedNalu(env, s, nalu);
            var au, au' := s.frame.au.bytes, s'.frame.au.bytes;
            && s'.frame.copyAu
            && (ok ==> au' == au + Text(FedOf(nalu).nalu))
            && (!ok ==> au' == au || au' == au + [0, 0, 0, 1])
  {
    hide Trimmed, Append, Replace;
    var t := Trimmed(nalu);
    AppendExact(s.frame.au, CODE4, env.alloc(s.allocs));
    AppendExact(Append(s.frame.au, CODE4, env.alloc(s.allocs)).0, t, env.alloc(s.allocs + 1));
    assert s.frame.au.bytes + CODE4 + t == s.frame.au.bytes + (CODE4 + t);
  }

  lemma {:induction false} KeptFirst(f: Fed, rest: seq<Fed>)
    ensures Annexb(Kept([f] + rest)) == Text(f.nalu) + Annexb(Kept(rest))
  {
    assert ([f] + rest)[1..] == rest;
    if f.nalu != [] {
      assert Kept([f] + rest)[1..] == Kept(rest);
    }
  }

  lemma {:induction false} CutNext(f: Fed, rest: seq<Fed>, more: seq<byte>)
    requires CutShort(rest, more)
    ensures CutShort([f] + rest, Text(f.nalu) + more)
  {
    hide Annexb, Kept, Text;
    KeptFirst(f, rest);
    if more != Annexb(Kept(rest)) {
      var k: nat :| k < |rest| && CutAt(rest, more, k);
      KeptFirst(f, rest[..k]);
      assert ([f] + rest)[..k + 1] == [f] + rest[..k];
      assert Text(f.nalu) + (Annexb(Kept(rest[..k])) + [0, 0, 0, 1]) == Text(f.nalu) + Annexb(Kept(rest[..k])) + [0, 0, 0, 1];
      assert CutAt([f] + rest, Text(f.nalu) + more, k + 1);
    }
  }

  lemma {:induction false} CutHere(f: Fed, rest: seq<Fed>, more: seq<byte>)
    requires more == [] || more == [0, 0, 0, 1]
    ensures CutShort([f] + rest, more)
  {
    assert ([f] + rest)[..0] == [];
    assert CutAt([f] + rest, more, 0);
  }

  lemma {:induction false} UnitsCut(env: SnapEnv, s: Snap, us: seq<Unit>, i: nat)
    requires ValidSnap(s) && s.frame.copyAu && i <= |us|
    ensures var s' := FeedUnits(env, s, us, i).0;
            exists more :: s'.frame.au.bytes == s.frame.au.bytes + more && CutShort(UnitsFed(us, i), more)
    decreases |us| - i
  {
    hide FeedNalu, FedOf, CutShort, Text;
    var au := s.frame.au.bytes;
    assert au == au + [];
    if i == |us| || |us[i].nalu| < 2 {
      NothingCut();
      if i < |us| {
        FeedShort(env, s, us[i].nalu);
      }
    } else {
      var f, rest := FedOf(us[i].nalu), UnitsFed(us, i + 1);
      FeedNaluCut(env, s, us[i].nalu);
      var (s1, ok) := FeedNalu(env, s, us[i].nalu);
      if ok {
        UnitsCut(env, s1, us, i + 1);
        var s' := FeedUnits(env, s1, us, i + 1).0;
        var more :| s'.frame.au.bytes == s1.frame.au.bytes + more && CutShort(rest, more);
        CutNext(f, rest, more);
        assert au + Text(f.nalu) + more == au + (Text(f.nalu) + more);
      } else if s1.frame.au.bytes == au {
        CutHere(f, rest, []);
      } else {
        CutHere(f, rest, [0, 0, 0, 1]);
      }
    }
  }

  lemma {:induction false} NothingCut()
    ensures CutShort([], [])
  {
  }

  /**
   * One pack, whatever memory is refused: what is gathered of it are its NAL units from the first on, without one
   * left out in between. A refused append ends the pack, at most with a bare start code.
   */
  lemma {:induction false} PackCut(env: SnapEnv, s: Snap, buf: seq<byte>)
    requires ValidSnap(s) && s.frame.copyAu
    ensures var s' := FeedBuffer(env, s, buf).0;
            exists more :: s'.frame.au.bytes == s.frame.au.bytes + more && CutShort(BufferFed(buf), more)
  {
    hide FeedNalu, FeedUnits, FedOf, CutShort, Text, Split, StartsWithCode, UnitsFed;
    var au := s.frame.au.bytes;
    assert au == au + [];
    if |buf| < 2 {
      NothingCut();
    } else if StartsWithCode(buf) {
      UnitsCut(env, s, Split(buf, 0), 0);
    } else {
      var f := FedOf(buf);
      FeedNaluCut(env, s, buf);
      assert [f] + [] == [f];
      if FeedNalu(env, s, buf).1 {
        NothingCut();
        CutNext(f, [], []);
        assert Text(f.nalu) + [] == Text(f.nalu);
      } else if FeedNalu(env, s, buf).0.frame.au.bytes == au {
        CutHere(f, [], []);
      } else {
        CutHere(f, [], [0, 0, 0, 1]);
      }
    }
  }

  // ----- what is handed over -----

  lemma {:induction false} PutAdds(env: SnapEnv, out: (Buf, nat, bool), source: seq<byte>)
    requires out.0.Valid()
    ensures var r := Put(env, out, source); r.2 ==> out.2 && r.0.bytes == out.0.bytes + source
  {
    hide Append;
    AppendExact(out.0, source, env.alloc(out.1));
  }

  /** Whatever is built in full is all three sets and then the GOP, or the last IRAP access unit if there is none. */
  lemma {:induction false} BuildIsWhole(env: SnapEnv, c: Cache, allocs: nat)
    requires ValidCache(c)
    ensures var (out, n, ok, useGop) := BuildOutput(env, c, allocs);
            ok ==> && c.vps.bytes != [] && c.sps.bytes != [] && c.pps.bytes != []
                   && useGop == (c.gopHasIrap && c.gop.bytes != [])
                   && out.bytes == c.vps.bytes + c.sps.bytes + c.pps.bytes + if useGop then c.gop.bytes else c.lastIrap.bytes
  {
    hide Put;
    var p0: (Buf, nat, bool) := (EMPTY, allocs, true);
    PutAdds(env, p0, c.vps.bytes);
    var p1 := Put(env, p0, c.vps.bytes);
    PutAdds(env, p1, c.sps.bytes);
    var p2 := Put(env, p1, c.sps.bytes);
    PutAdds(env, p2, c.pps.bytes);
    var p3 := Put(env, p2, c.pps.bytes);
    PutAdds(env, p3, c.gop.bytes);
    PutAdds(env, p3, c.lastIrap.bytes);
    assert [] + c.vps.bytes == c.vps.bytes;
  }

  /** The text of a snapshot: the cached sets, then all since the last opening, or the opening alone. */
  ghost predicate WholeShot(shot: Shot, c: Cache, h: seq<Gathered>) {
    var j := Opening(h, |h|);
    && j >= 0 && c.vps.bytes != [] && c.sps.bytes != [] && c.pps.bytes != []
    && shot.bytes == c.vps.bytes + c.sps.bytes + c.pps.bytes + (if shot.cachedGop then Joined(h, j, |h|) else h[j].bytes)
    && shot.pts == (if shot.cachedGop then h[j].pts else h[|h| - 1].pts)
  }

  lemma {:induction false} ProcessWhole(env: SnapEnv, s: Snap, m: Msg, writerReady: bool, h: seq<Gathered>)
    requires ValidSnap(s) && m.packCnt <= |m.packs| && Flagged(m) && Unbroken(s.cache, h)
    ensures var (s', shot) := Process(env, s, m, writerReady);
            shot.Some? ==> WholeShot(shot.value, s'.cache, h + [GatheredFrom(env, s, m)])
  {
    hide FeedPacks, UpdateGop, UpdateIrap, BuildOutput, Joined, Opening;
    ProcessUnbroken(env, s, m, writerReady, h);
    var s1 := FeedPacks(env, Fresh(s), m.packs, 0, m.packCnt).0;
    var s2 := UpdateIrap(env, UpdateGop(env, s1, m), m);
    BuildIsWhole(env, s2.cache, s2.allocs);
    BuildUses(env, s2.cache, s2.allocs);
  }

  lemma {:induction false} BuildUses(env: SnapEnv, c: Cache, allocs: nat)
    requires ValidCache(c)
    ensures var (out, n, ok, useGop) := BuildOutput(env, c, allocs); ok && !useGop ==> c.lastIrap.bytes != []
  {
    hide Put;
  }

  // ----- runs -----

  /** What was gathered from the flagged messages processed in the first n turns. */
  function GatheredIn(w: World, n: nat): seq<Gathered> {
    if n == 0 then []
    else
      GatheredIn(w, n - 1)
      + (if Takes(w, n - 1) && w.item(n - 1).value.flags % 2 == 1
         then [GatheredFrom(w.snap, Run(w, n - 1).snap, w.item(n - 1).value)] else [])
  }

  lemma {:induction false} TurnSnap(w: World, p: SenderLoop.Player)
    requires ValidSnap(p.snap)
    ensures var found, p' := w.item(p.polls), Turn(w, p);
            if found.Some? && IsValid(found.value) && !Stale(p, found.value) && found.value.flags % 2 == 1 then
              var (s', shot) := Process(w.snap, p.snap, found.value, w.writerReady);
              p'.snap == s' && p'.shots == p.shots + if shot.Some? then [shot.value] else []
            else p'.snap == p.snap && p'.shots == p.shots
  {
    hide PlayMessage, Process, PlaybackGate.Controlled, ValidSnap, SnapIo, RecordOf;
    var found := w.item(p.polls);
    if found.Some? {
      var m: IpcMsg := found.value;
      var p1 := p.(polls := p.polls + 1, io := p.io + [ReadItem(p.items)],
                   gate := PlaybackGate.Controlled(p.gate, w.between(p.items)), items := p.items + 1);
      if IsValid(m) && !Stale(p1, m) {
        PlayMessageLeaves(w, p1, m);
      }
    }
  }

  /**
   * Over every run, whatever mappings and memory are refused: a cached GOP is everything gathered since the last
   * access unit with an IRAP, without a hole, and a cached IRAP access unit is that one.
   */
  lemma {:induction false} RunUnbroken(w: World, n: nat)
    ensures Unbroken(Run(w, n).snap.cache, GatheredIn(w, n))
  {
    hide Run, Unbroken, GatheredIn;
    if n == 0 {
      NothingYet(w);
    } else {
      RunUnbroken(w, n - 1);
      StepUnbroken(w, n - 1);
    }
  }

  lemma {:induction false} StepUnbroken(w: World, k: nat)
    requires Unbroken(Run(w, k).snap.cache, GatheredIn(w, k))
    ensures Unbroken(Run(w, k + 1).snap.cache, GatheredIn(w, k + 1))
  {
    hide Turn, Process, Unbroken, GatheredFrom, Newer, Stale, Numbers, RecordsOf, AllNalus;
    var p, h := Run(w, k), GatheredIn(w, k);
    RunFaithful(w, k);
    TurnSnap(w, p);
    if w.item(k).Some? {
      TakesIs(w, k);
    }
    if Takes(w, k) && w.item(k).value.flags % 2 == 1 {
      ProcessUnbroken(w.snap, p.snap, w.item(k).value, w.writerReady, h);
    } else {
      assert GatheredIn(w, k + 1) == h;
    }
  }

  lemma {:induction false} NothingYet(w: World)
    ensures Unbroken(Run(w, 0).snap.cache, GatheredIn(w, 0))
  {
  }

  /** Every snapshot handed over, whatever was refused before, is whole. */
  lemma {:induction false} RunWhole(w: World, k: nat)
    ensures var p, p' := Run(w, k), Run(w, k + 1);
            p'.shots == p.shots
            || (|p'.shots| == |p.shots| + 1 && p.shots <= p'.shots
                && WholeShot(p'.shots[|p.shots|], p'.snap.cache, GatheredIn(w, k + 1)))
  {
    hide Turn, Process, Unbroken, GatheredFrom, Newer, Stale, Numbers, RecordsOf, AllNalus, WholeShot;
    var p, h := Run(w, k), GatheredIn(w, k);
    RunUnbroken(w, k);
    RunFaithful(w, k);
    TurnSnap(w, p);
    if w.item(k).Some? {
      TakesIs(w, k);
      if Takes(w, k) && w.item(k).value.flags % 2 == 1 {
        ProcessWhole(w.snap, p.snap, w.item(k).value, w.writerReady, h);
      }
    }
  }
}
