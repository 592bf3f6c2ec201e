/**
 * Whole runs of the sender towards the big core: how items and packs are handled, which messages are
 * processed, and what the snapshot path keeps and hands to the writer.
 */
module SenderItems {
  import opened Bytes
  import opened AnnexB
  import opened Rtp
  import opened DataFifo
  import opened PlaybackGate
  import opened Snapshot
  import opened SnapshotHistory
  import opened SnapshotRefinement
  import opened SenderLoop

  // ----- item discipline, as a monitor -----

  /** Between items; inside item k with nothing mapped, a pack mapped, a pack mapped and used; or a violation. */
  datatype Watch = Between(next: nat) | Inside(item: nat) | Holding(item: nat, pack: nat, used: bool) | Broken

  function WatchStep(m: Watch, e: Io): Watch {
    match (m, e)
    case (Between(k), ReadItem(item)) => if item == k then Inside(k) else Broken
    case (Inside(k), MapPack(pack, ok)) => if ok then Holding(k, pack, false) else m
    case (Holding(k, i, used), UsePack(pack)) => if pack == i && !used then Holding(k, i, true) else Broken
    case (Holding(k, i, used), UnmapPack(pack)) => if pack == i && used then Inside(k) else Broken
    case (Inside(k), ReadDone(item)) => if item == k then Between(k + 1) else Broken
    case _ => Broken
  }

  function Watched(m: Watch, io: seq<Io>, n: nat): Watch
    requires n <= |io|
  {
    if n == 0 then m else WatchStep(Watched(m, io, n - 1), io[n - 1])
  }

  lemma {:induction false} WatchedMore(m: Watch, io: seq<Io>, more: seq<Io>, n: nat)
    requires n <= |io|
    ensures Watched(m, io + more, n) == Watched(m, io, n)
  {
    if n > 0 {
      WatchedMore(m, io, more, n - 1);
    }
  }

  lemma {:induction false} WatchedConcat(m: Watch, a: seq<Io>, b: seq<Io>, n: nat)
    requires n <= |b|
    ensures Watched(m, a + b, |a| + n) == Watched(Watched(m, a, |a|), b, n)
  {
    if n == 0 {
      WatchedMore(m, a, b, |a|);
    } else {
      WatchedConcat(m, a, b, n - 1);
    }
  }

  /** Where the monitor stands after the traffic so far. */
  function Stands(io: seq<Io>): Watch {
    Watched(Between(0), io, |io|)
  }

  lemma {:induction false} StandsMore(io: seq<Io>, more: seq<Io>)
    ensures Stands(io + more) == Watched(Stands(io), more, |more|)
  {
    WatchedConcat(Between(0), io, more, |more|);
  }

  lemma {:induction false} PackWatched(k: nat, i: nat, ok: bool)
    ensures Watched(Inside(k), PackIo(ok, i), |PackIo(ok, i)|) == Inside(k)
  {
    var io := PackIo(ok, i);
    assert Watched(Inside(k), io, 0) == Inside(k);
    if ok {
      assert Watched(Inside(k), io, 1) == Holding(k, i, false);
      assert Watched(Inside(k), io, 2) == Holding(k, i, true);
    }
  }

  lemma {:induction false} PacksWatched(w: World, p: SenderLoop.Player, st: Stamp, m: IpcMsg, i: nat, canSend: bool, k: nat)
    requires i <= m.packCnt <= MAX_PACKS && Stands(p.io) == Inside(k)
    ensures Stands(ProcessPacks(w, p, st, m, i, canSend).io) == Inside(k)
    decreases m.packCnt - i
  {
    if i < m.packCnt {
      hide ProcessBuffer, CanMap, Stands, Watched, PackIo;
      var ok := CanMap(m.packs[i], w.mmap(p.maps));
      PackWatched(k, i, ok);
      StandsMore(p.io, PackIo(ok, i));
      PacksWatched(w, ProcessPack(w, p, st, m.packs[i], i, i + 1 == m.packCnt, canSend).0, st, m, i + 1, canSend, k);
    }
  }

  lemma {:induction false} SnapWatched(env: SnapEnv, maps: nat, packs: seq<Pack>, i: nat, n: nat, k: nat)
    requires i <= n <= |packs|
    ensures var io := SnapIo(env, maps, packs, i, n); Watched(Inside(k), io, |io|) == Inside(k)
    decreases n - i
  {
    if i < n {
      hide CanMap, Watched, PackIo;
      var ok := CanMap(packs[i], env.mmap(maps));
      var rest := if ok then SnapIo(env, maps + 1, packs, i + 1, n) else [];
      PackWatched(k, i, ok);
      if ok {
        SnapWatched(env, maps + 1, packs, i + 1, n, k);
      } else {
        NothingWatched(Inside(k));
      }
      WatchedConcat(Inside(k), PackIo(ok, i), rest, |rest|);
    } else {
      NothingWatched(Inside(k));
    }
  }

  lemma {:induction false} NothingWatched(m: Watch)
    ensures Watched(m, [], 0) == m
  {
  }

  lemma {:induction false} OneWatched(m: Watch, e: Io)
    ensures Watched(m, [e], 1) == WatchStep(m, e)
  {
    assert Watched(m, [e], 0) == m;
  }

  lemma {:induction false} PlayMessageWatched(w: World, p: SenderLoop.Player, m: IpcMsg, k: nat)
    requires ValidSnap(p.snap) && IsValid(m) && Stands(p.io) == Inside(k)
    ensures Stands(PlayMessage(w, p, m).io) == Inside(k)
  {
    hide Stands, ProcessPacks, Process, StampOf, SnapIo, ValidSnap, RecordOf, Watched;
    var p1 := p.(lastRead := m.number, numbers := p.numbers + [m.number]);
    var p2 := if Flagged(m) then TakeSnapshot(w, p1, m) else p1;
    SnapWatched(w.snap, p1.snap.maps, m.packs, 0, m.packCnt, k);
    StandsMore(p.io, SnapIo(w.snap, p1.snap.maps, m.packs, 0, m.packCnt));
    PacksWatched(w, p2, StampOf(p), m, 0, p.gate.session.play && p.gate.session.addrSet, k);
  }

  lemma {:induction false} TurnWatched(w: World, p: SenderLoop.Player)
    requires ValidSnap(p.snap) && Stands(p.io) == Between(p.items)
    ensures Stands(Turn(w, p).io) == Between(Turn(w, p).items)
  {
    hide Stands, Watched, PlayMessage, Controlled, ValidSnap;
    var k := p.items;
    var found := w.item(p.polls);
    if found.Some? {
      StandsMore(p.io, [ReadItem(k)]);
      OneWatched(Between(k), ReadItem(k));
      var p2 := p.(polls := p.polls + 1, io := p.io + [ReadItem(k)],
                   gate := Controlled(p.gate, w.between(k)), items := k + 1);
      var p3 := p2;
      if IsValid(found.value) && !Stale(p2, found.value) {
        PlayMessageWatched(w, p2, found.value, k);
        PlayMessageLeaves(w, p2, found.value);
        p3 := PlayMessage(w, p2, found.value);
      }
      StandsMore(p3.io, [ReadDone(k)]);
      OneWatched(Inside(k), ReadDone(k));
    }
  }

  /**
   * Item discipline over every run: items are read in turn and each gets exactly one READ_DONE before the next
   * read, be it valid, invalid, stale or not played; packs are read only while mapped and before that
   * READ_DONE, and every mapping that succeeds gets exactly one unmapping.
   */
  lemma {:induction false} RunItems(w: World, n: nat)
    ensures Stands(Run(w, n).io) == Between(Run(w, n).items)
  {
    hide Turn;
    if n > 0 {
      hide Stands;
      RunItems(w, n - 1);
      TurnWatched(w, Run(w, n - 1));
    }
  }

  // ----- message numbers -----

  /** The numbers of the messages processed, and the last of them. */
  ghost predicate Climbing(numbers: seq<u64>, last: u64) {
    && last == (if numbers == [] then 0 else numbers[|numbers| - 1])
    && forall i, j :: 0 <= i < j < |numbers| && numbers[i] != 0 ==> numbers[i] < numbers[j]
  }

  lemma {:induction false} ClimbingMore(numbers: seq<u64>, last: u64, x: u64)
    requires Climbing(numbers, last) && (last == 0 || x > last)
    ensures Climbing(numbers + [x], x)
  {
    var more := numbers + [x];
    forall i, j | 0 <= i < j < |more| && more[i] != 0
      ensures more[i] < more[j]
    {
      if j == |numbers| && i < |numbers| - 1 {
        assert numbers[i] < numbers[|numbers| - 1];
      }
    }
  }

  lemma {:induction false} TurnClimbs(w: World, p: SenderLoop.Player)
    requires ValidSnap(p.snap) && Climbing(p.numbers, p.lastRead)
    ensures Climbing(Turn(w, p).numbers, Turn(w, p).lastRead)
  {
    hide Climbing, Controlled, PlayMessage, TakeSnapshot, ValidSnap;
    var found := w.item(p.polls);
    if found.Some? {
      var m: IpcMsg := found.value;
      var p1 := p.(polls := p.polls + 1, io := p.io + [ReadItem(p.items)],
                   gate := Controlled(p.gate, w.between(p.items)), items := p.items + 1);
      if IsValid(m) && !Stale(p1, m) {
        ClimbingMore(p.numbers, p.lastRead, m.number);
        PlayMessageLeaves(w, p1, m);
      }
    }
  }

  /** The numbers of processed messages strictly increase once one is not zero. */
  lemma {:induction false} RunClimbs(w: World, n: nat)
    ensures Climbing(Run(w, n).numbers, Run(w, n).lastRead)
  {
    hide Turn;
    if n > 0 {
      hide Climbing;
      RunClimbs(w, n - 1);
      TurnClimbs(w, Run(w, n - 1));
    }
  }

  // ----- snapshots -----

  /** Raw packs hold no start code and do not end in zero: each is one NAL unit. */
  ghost predicate CleanPacks(m: Msg) {
    m.packCnt <= |m.packs| ==> forall k :: 0 <= k < m.packCnt ==> RawIsOne(m.packs[k].data)
  }

  ghost predicate CleanItems(w: World) {
    forall k :: w.item(k).Some? ==> CleanPacks(w.item(k).value)
  }

  /** The GOP cache invariant, the caches as the history says, and exactly the snapshots due handed over. */
  ghost predicate Snapped(w: World, p: SenderLoop.Player) {
    && ValidSnap(p.snap) && GopInv(p.snap.cache)
    && (Ample(w.snap) ==>
          && Refines(p.snap.cache, p.records)
          && p.shots == if w.writerReady then Due(p.records, |p.records|) else [])
    && (CleanItems(w) ==> HistoryValid(p.records))
  }

  lemma {:induction false} NotReady(env: SnapEnv, s: Snap, m: Msg)
    requires ValidSnap(s) && m.packCnt <= |m.packs|
    ensures Process(env, s, m, false).1.None?
  {
  }

  lemma {:induction false} HistoryValidMore(h: seq<Record>, r: Record)
    requires HistoryValid(h) && FedValid(r.feds)
    ensures HistoryValid(h + [r])
  {
    hide FedValid;
    assert forall i :: 0 <= i < |h| ==> (h + [r])[i] == h[i];
  }

  lemma {:induction false} TakeSnapshotKeeps(w: World, p: SenderLoop.Player, m: IpcMsg)
    requires Snapped(w, p) && IsValid(m) && Flagged(m) && (CleanItems(w) ==> CleanPacks(m))
    ensures Snapped(w, TakeSnapshot(w, p, m))
  {
    hide Process, Refines, RecordOf, CleanItems, HistoryValid, Due, IsDue, ShotFor, SnapIo, ValidSnap, GopInv, Ample, RawIsOne, FedValid;
    var r := RecordOf(w.snap, p.snap.maps, m);
    ProcessKeepsGop(w.snap, p.snap, m, w.writerReady);
    if CleanItems(w) {
      RecordValid(w.snap, p.snap.maps, m);
      HistoryValidMore(p.records, r);
    }
    if Ample(w.snap) {
      ProcessRefines(w.snap, p.snap, m, w.writerReady, p.records);
      ShotsKept(w, p, m);
    }
  }

  lemma {:induction false} ShotsKept(w: World, p: SenderLoop.Player, m: IpcMsg)
    requires Snapped(w, p) && IsValid(m) && Flagged(m) && Ample(w.snap)
    ensures var p' := TakeSnapshot(w, p, m); p'.shots == if w.writerReady then Due(p'.records, |p'.records|) else []
  {
    hide Process, Refines, RecordOf, HistoryValid, IsDue, ShotFor, SnapIo, ValidSnap, GopInv, Ample;
    if w.writerReady {
      SnapshotIs(w.snap, p.snap, m, p.records);
      DueMore(p.records, RecordOf(w.snap, p.snap.maps, m), |p.records|);
    } else {
      NotReady(w.snap, p.snap, m);
    }
  }

  lemma {:induction false} TurnSnapped(w: World, p: SenderLoop.Player)
    requires Snapped(w, p)
    ensures Snapped(w, Turn(w, p))
  {
    hide Controlled, ProcessPacks, Process, StampOf, SnapIo, ValidSnap, RecordOf, Snapped, CleanPacks;
    SnappedValid(w, p);
    var found := w.item(p.polls);
    var p0 := p.(polls := p.polls + 1);
    if found.None? {
      SnappedSame(w, p, p0);
      return;
    }
    var m: IpcMsg := found.value;
    var p1 := p0.(io := p.io + [ReadItem(p.items)],
                  gate := Controlled(p.gate, w.between(p.items)), items := p.items + 1);
    if IsValid(m) && !Stale(p1, m) {
      var p2 := p1.(lastRead := m.number, numbers := p1.numbers + [m.number]);
      SnappedSame(w, p, p2);
      var p3 := if Flagged(m) then TakeSnapshot(w, p2, m) else p2;
      if Flagged(m) {
        TakeSnapshotKeeps(w, p2, m);
      }
      PacksKeepSnap(w, p3, StampOf(p1), m, 0, p1.gate.session.play && p1.gate.session.addrSet);
      SnappedSame(w, p3, Turn(w, p));
    } else {
      SnappedSame(w, p, Turn(w, p));
    }
  }

  lemma {:induction false} SnappedValid(w: World, p: SenderLoop.Player)
    requires Snapped(w, p)
    ensures ValidSnap(p.snap)
  {
  }

  lemma {:induction false} SnappedSame(w: World, p: SenderLoop.Player, p': SenderLoop.Player)
    requires Snapped(w, p) && p'.snap == p.snap && p'.records == p.records && p'.shots == p.shots
    ensures Snapped(w, p')
  {
  }

  lemma {:induction false} StartSnapped(w: World)
    ensures Snapped(w, START)
  {
    assert SnapshotHistory.Text([]) == [];
  }

  /**
   * The snapshot path over every run: the GOP cache keeps its invariant whatever fails, and when memory does not
   * fail the caches are what the flagged messages processed say and what was handed to the writer are exactly
   * the snapshots due, in order.
   */
  lemma {:induction false} RunSnapped(w: World, n: nat)
    ensures Snapped(w, Run(w, n))
  {
    hide Turn, Snapped;
    if n == 0 {
      StartSnapped(w);
    } else {
      RunSnapped(w, n - 1);
      TurnSnapped(w, Run(w, n - 1));
    }
  }

  /** When raw packs are single NAL units, each of them re-parses to the NAL units due, one for one. */
  lemma {:induction false} RunReparses(w: World, n: nat)
    requires Ample(w.snap) && w.writerReady && CleanItems(w)
    ensures var p := Run(w, n); var due := DueNalus(p.records, |p.records|);
            |p.shots| == |due| && forall i :: 0 <= i < |due| ==> Nalus(Split(p.shots[i].bytes, 0)) == due[i]
  {
    hide Run, Due, DueNalus, Nalus, Split, HistoryValid, Refines, GopInv, Ample, CleanItems;
    RunSnapped(w, n);
    var p := Run(w, n);
    DueReparses(p.records, |p.records|);
  }
}
