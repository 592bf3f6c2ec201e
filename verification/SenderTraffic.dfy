/**
 * All the traffic of a run with the big core, read off the items and the answers of the mapping calls alone.
 */
module SenderTraffic {
  import opened Rtp
  import opened DataFifo
  import opened PlaybackGate
  import opened Snapshot
  import opened SenderLoop
  import opened SenderInput
  import opened SenderWire

  /** One pack: mapped, used and unmapped, or refused and left alone. */
  function PackTraffic(i: nat, answer: bool): seq<Io> {
    if answer then [MapPack(i, true)] + [UsePack(i)] + [UnmapPack(i)] else [MapPack(i, false)]
  }

  /** Playback goes through all packs, whatever the answers, which are the k-th and following. */
  function PlayTraffic(answers: nat -> bool, k: nat, i: nat, n: nat): seq<Io>
    decreases n - i
  {
    if i >= n then [] else PackTraffic(i, answers(k)) + PlayTraffic(answers, k + 1, i + 1, n)
  }

  /** A snapshot gives up at the first refusal. */
  function SnapTraffic(answers: nat -> bool, k: nat, i: nat, n: nat): seq<Io>
    decreases n - i
  {
    if i >= n then []
    else if !answers(k) then PackTraffic(i, false)
    else PackTraffic(i, true) + SnapTraffic(answers, k + 1, i + 1, n)
  }

  /** How many items the first n polls found. */
  function ItemsFound(w: World, n: nat): nat {
    if n == 0 then 0 else ItemsFound(w, n - 1) + (if w.item(n - 1).Some? then 1 else 0)
  }

  /** What the item of the k-th poll brings about between its reading and its READ_DONE. */
  function MessageTraffic(w: World, k: nat): seq<Io> {
    if !Takes(w, k) then []
    else
      var m, ms := w.item(k).value, Accepted(w, k);
      var fs := FlaggedOf(ms, |ms|);
      (if m.flags % 2 == 1 then SnapTraffic(w.snap.mmap, SnapCalls(w, fs, |fs|), 0, m.packCnt) else [])
      + PlayTraffic(w.mmap, PlayCalls(ms, |ms|), 0, m.packCnt)
  }

  function Traffic(w: World, n: nat): seq<Io> {
    if n == 0 then []
    else
      Traffic(w, n - 1)
      + (if w.item(n - 1).None? then []
         else [ReadItem(ItemsFound(w, n - 1))] + MessageTraffic(w, n - 1) + [ReadDone(ItemsFound(w, n - 1))])
  }

  lemma {:induction false} SnapTrafficIs(env: SnapEnv, k: nat, m: IpcMsg, i: nat)
    requires IsValid(m) && i <= m.packCnt
    ensures SnapIo(env, k, m.packs, i, m.packCnt) == SnapTraffic(env.mmap, k, i, m.packCnt)
    decreases m.packCnt - i
  {
    if i < m.packCnt {
      assert GoodPack(m.packs[i]);
      SnapTrafficIs(env, k + 1, m, i + 1);
      assert PackTraffic(i, false) + [] == PackTraffic(i, false);
    }
  }

  lemma {:induction false} PackTrafficIs(w: World, p: SenderLoop.Player, st: Stamp, pack: Pack, i: nat, marker: bool, canSend: bool)
    requires GoodPack(pack)
    ensures var p' := ProcessPack(w, p, st, pack, i, marker, canSend).0;
            p'.io == p.io + PackTraffic(i, w.mmap(p.maps)) && p'.maps == p.maps + 1
  {
    hide ProcessBuffer;
  }

  lemma {:induction false} PlayTrafficIs(w: World, p: SenderLoop.Player, st: Stamp, m: IpcMsg, i: nat, canSend: bool)
    requires IsValid(m) && i <= m.packCnt
    ensures ProcessPacks(w, p, st, m, i, canSend).io == p.io + PlayTraffic(w.mmap, p.maps, i, m.packCnt)
    decreases m.packCnt - i
  {
    hide ProcessPack, PackTraffic;
    if i < m.packCnt {
      assert GoodPack(m.packs[i]);
      PackTrafficIs(w, p, st, m.packs[i], i, i + 1 == m.packCnt, canSend);
      PlayTrafficIs(w, ProcessPack(w, p, st, m.packs[i], i, i + 1 == m.packCnt, canSend).0, st, m, i + 1, canSend);
    }
  }

  lemma {:induction false} MessageTrafficIs(w: World, p: SenderLoop.Player, m: IpcMsg)
    requires ValidSnap(p.snap) && IsValid(m)
    ensures PlayMessage(w, p, m).io ==
            p.io + ((if m.flags % 2 == 1 then SnapTraffic(w.snap.mmap, p.snap.maps, 0, m.packCnt) else [])
                    + PlayTraffic(w.mmap, p.maps, 0, m.packCnt))
  {
    hide ProcessPacks, Process, SnapIo, SnapTraffic, PlayTraffic, ValidSnap, StampOf;
    var canSend := p.gate.session.play && p.gate.session.addrSet;
    var p1 := p.(lastRead := m.number, numbers := p.numbers + [m.number]);
    var p2 := if Flagged(m) then TakeSnapshot(w, p1, m) else p1;
    SnapTrafficIs(w.snap, p.snap.maps, m, 0);
    PlayTrafficIs(w, p2, StampOf(p), m, 0, canSend);
    if !Flagged(m) {
      assert [] + PlayTraffic(w.mmap, p.maps, 0, m.packCnt) == PlayTraffic(w.mmap, p.maps, 0, m.packCnt);
    }
  }

  lemma {:induction false} TurnTraffic(w: World, p: SenderLoop.Player)
    requires ValidSnap(p.snap)
    ensures var found, p' := w.item(p.polls), Turn(w, p);
            if found.None? then p'.io == p.io && p'.items == p.items
            else
              var m: IpcMsg := found.value;
              && p'.items == p.items + 1
              && p'.io == p.io + ([ReadItem(p.items)]
                                  + (if IsValid(m) && !Stale(p, m)
                                     then (if m.flags % 2 == 1 then SnapTraffic(w.snap.mmap, p.snap.maps, 0, m.packCnt) else [])
                                          + PlayTraffic(w.mmap, p.maps, 0, m.packCnt)
                                     else [])
                                  + [ReadDone(p.items)])
  {
    hide PlayMessage, Controlled, ValidSnap, SnapTraffic, PlayTraffic;
    var found := w.item(p.polls);
    if found.Some? {
      var m: IpcMsg := found.value;
      var p1 := p.(polls := p.polls + 1, io := p.io + [ReadItem(p.items)],
                   gate := Controlled(p.gate, w.between(p.items)), items := p.items + 1);
      if IsValid(m) && !Stale(p1, m) {
        MessageTrafficIs(w, p1, m);
        PlayMessageLeaves(w, p1, m);
      }
    }
  }

  lemma {:induction false} TakenCalls(w: World, k: nat)
    ensures var p, ms := Run(w, k), Accepted(w, k);
            var fs := FlaggedOf(ms, |ms|);
            p.polls == k && p.maps == PlayCalls(ms, |ms|) && p.snap.maps == SnapCalls(w, fs, |fs|)
  {
    hide Run, Numbers, RecordsOf, AllNalus;
    RunFaithful(w, k);
  }

  lemma {:induction false} TrafficStep(w: World, k: nat)
    requires Run(w, k).io == Traffic(w, k) && Run(w, k).items == ItemsFound(w, k)
    ensures Run(w, k + 1).io == Traffic(w, k + 1) && Run(w, k + 1).items == ItemsFound(w, k + 1)
  {
    hide Turn, SnapTraffic, PlayTraffic, PlayCalls, SnapCalls, Newer, Stale, IsValid;
    TakenCalls(w, k);
    TurnTraffic(w, Run(w, k));
    if w.item(k).Some? {
      TakesIs(w, k);
    } else {
      assert Traffic(w, k) + [] == Traffic(w, k);
    }
  }

  /**
   * The traffic of every run, exactly: each item is read and given back once; a message that is valid and not stale
   * has, if flagged, its packs mapped in turn for the snapshot up to the first refusal, and then all of them for
   * playback; and a pack is used and unmapped if and only if the call that mapped it was answered with success.
   */
  lemma {:induction false} RunTraffic(w: World, n: nat)
    ensures Run(w, n).io == Traffic(w, n) && Run(w, n).items == ItemsFound(w, n)
  {
    hide Run, Traffic;
    if n == 0 {
      NoTraffic(w);
    } else {
      RunTraffic(w, n - 1);
      TrafficStep(w, n - 1);
    }
  }

  lemma {:induction false} NoTraffic(w: World)
    ensures Run(w, 0).io == Traffic(w, 0) && Run(w, 0).items == ItemsFound(w, 0)
  {
  }
}
