/**
 * Nothing is lost on the way in: over every run the sender processes exactly the valid messages that are not
 * stale, records exactly the flagged ones, and, when nothing fails, looks at every NAL unit they hold.
 */
module SenderInput {
  import opened Bytes
  import opened AnnexB
  import opened Rtp
  import opened DataFifo
  import opened PlaybackGate
  import opened GateLanguage
  import opened GateHistory
  import opened GateInStep
  import opened Snapshot
  import opened SnapshotHistory
  import opened SnapshotRefinement
  import opened SenderLoop
  import opened SenderRuns

  // ----- what should be processed, read off the items alone -----

  /** Newer than the last message accepted, unless that one had number 0. */
  predicate Newer(ms: seq<IpcMsg>, m: IpcMsg) {
    ms == [] || ms[|ms| - 1].number == 0 || m.number > ms[|ms| - 1].number
  }

  function Accepted(w: World, n: nat): seq<IpcMsg> {
    if n == 0 then []
    else
      var ms, item := Accepted(w, n - 1), w.item(n - 1);
      if item.Some? && IsValid(item.value) && Newer(ms, item.value) then ms + [item.value] else ms
  }

  function Numbers(ms: seq<IpcMsg>): (r: seq<u64>)
    ensures |r| == |ms|
  {
    seq(|ms|, i requires 0 <= i < |ms| => ms[i].number)
  }

  function FlaggedOf(ms: seq<IpcMsg>, n: nat): seq<IpcMsg>
    requires n <= |ms|
  {
    if n == 0 then [] else FlaggedOf(ms, n - 1) + (if ms[n - 1].flags % 2 == 1 then [ms[n - 1]] else [])
  }

  // ----- the answers of the mapping calls -----

  /** How many of n mappings succeed, from the k-th answer on, before the first that does not. */
  function Granted(answers: nat -> bool, k: nat, n: nat): (g: nat)
    ensures g <= n
    decreases n
  {
    if n == 0 || !answers(k) then 0 else 1 + Granted(answers, k + 1, n - 1)
  }

  /** The mapping calls a snapshot makes: up to the first refusal, that one included. */
  function Asked(answers: nat -> bool, k: nat, n: nat): nat {
    var g := Granted(answers, k, n);
    if g == n then n else g + 1
  }

  /** The mapping calls playback makes for the first n messages: one for each pack. */
  function PlayCalls(ms: seq<IpcMsg>, n: nat): nat
    requires n <= |ms|
  {
    if n == 0 then 0 else PlayCalls(ms, n - 1) + ms[n - 1].packCnt
  }

  /** Those that the snapshots of the first n flagged messages make. */
  function SnapCalls(w: World, fs: seq<IpcMsg>, n: nat): nat
    requires n <= |fs|
  {
    if n == 0 then 0
    else
      var k := SnapCalls(w, fs, n - 1);
      k + Asked(w.snap.mmap, k, fs[n - 1].packCnt)
  }

  /** The record of a flagged message: what its packs before the first that was refused hold. */
  function RecordFor(w: World, k: nat, m: IpcMsg): Record {
    var g := Granted(w.snap.mmap, k, m.packCnt);
    Record(if g <= MAX_PACKS then PacksFed(m.packs, 0, g) else [], g == m.packCnt, m.number, m.framePts)
  }

  function RecordsOf(w: World, fs: seq<IpcMsg>, n: nat): seq<Record>
    requires n <= |fs|
  {
    if n == 0 then [] else RecordsOf(w, fs, n - 1) + [RecordFor(w, SnapCalls(w, fs, n - 1), fs[n - 1])]
  }

  // ----- NAL units -----

  function LongUnits(us: seq<Unit>, i: nat): seq<seq<byte>>
    requires i <= |us|
    decreases |us| - i
  {
    if i == |us| then [] else (if |us[i].nalu| >= 2 then [us[i].nalu] else []) + LongUnits(us, i + 1)
  }

  /** The NAL units of at least two bytes in a pack. */
  function PackNalus(buf: seq<byte>): seq<seq<byte>> {
    if |buf| < 2 then [] else if !StartsWithCode(buf) then [buf] else LongUnits(Split(buf, 0), 0)
  }

  /** Those in the packs of a message whose mappings, from the k-th answer on, succeed. */
  function MessageNalus(answers: nat -> bool, k: nat, m: IpcMsg, i: nat): seq<seq<byte>>
    requires i <= m.packCnt <= MAX_PACKS
    decreases m.packCnt - i
  {
    if i == m.packCnt then []
    else (if answers(k) then PackNalus(m.packs[i].data) else []) + MessageNalus(answers, k + 1, m, i + 1)
  }

  function AllNalus(w: World, ms: seq<IpcMsg>, n: nat): seq<seq<byte>>
    requires n <= |ms|
  {
    if n == 0 then []
    else
      AllNalus(w, ms, n - 1)
      + (if ms[n - 1].packCnt <= MAX_PACKS then MessageNalus(w.mmap, PlayCalls(ms, n - 1), ms[n - 1], 0) else [])
  }

  /** The NAL units the gate has looked at. */
  function SeenOf(log: seq<Event>, n: nat): seq<seq<byte>>
    requires n <= |log|
  {
    if n == 0 then [] else SeenOf(log, n - 1) + (if log[n - 1].Seen? then [log[n - 1].nalu] else [])
  }

  function Saw(g: Gate): seq<seq<byte>> {
    SeenOf(g.log, |g.log|)
  }

  lemma {:induction false} SeenMore(log: seq<Event>, e: Event, n: nat)
    requires n <= |log|
    ensures SeenOf(log + [e], n) == SeenOf(log, n)
  {
    if n > 0 {
      SeenMore(log, e, n - 1);
    }
  }

  lemma {:induction false} SawMore(g: Gate, g': Gate, e: Event)
    requires g'.log == g.log + [e]
    ensures Saw(g') == Saw(g) + (if e.Seen? then [e.nalu] else [])
  {
    SeenMore(g.log, e, |g.log|);
  }

  lemma {:induction false} ControlledSaw(g: Gate, cs: seq<Control>)
    ensures Saw(Controlled(g, cs)) == Saw(g)
    decreases |cs|
  {
    if cs != [] {
      hide Saw, Apply;
      SawMore(g, ControlStep(g, cs[0]), Ctl(cs[0]));
      ControlledSaw(ControlStep(g, cs[0]), cs[1..]);
    }
  }

  lemma {:induction false} SameLog(g: Gate, g': Gate)
    requires g'.log == g.log
    ensures Saw(g') == Saw(g)
  {
  }

  lemma {:induction false} TrySendSaw(env: Env, g: Gate, st: Stamp, nalu: seq<byte>, marker: bool, cached: bool)
    ensures Saw(TrySend(env, g, st, nalu, marker, cached).0) == Saw(g)
  {
    hide Saw, SendNalu, Controlled;
    var c, h := Controlled(g, env.atSend(g.tries)), AtSend(env, g);
    var (g', ok) := TrySend(env, g, st, nalu, marker, cached);
    ControlledSaw(g, env.atSend(g.tries));
    SameLog(c, h);
    SawMore(h, g', Tried(st.dest, nalu, cached, ok));
  }

  lemma {:induction false} SendSetsSaw(env: Env, g: Gate, st: Stamp)
    ensures Saw(SendSets(env, g, st).0) == Saw(g)
  {
    if HaveAll(g.sets) {
      hide Saw, SendNalu;
      TrySendSaw(env, g, st, g.sets.vps.value, false, true);
      var (g1, ok1) := TrySend(env, g, st, g.sets.vps.value, false, true);
      if ok1 {
        TrySendSaw(env, g1, st, g.sets.sps.value, false, true);
        var (g2, ok2) := TrySend(env, g1, st, g.sets.sps.value, false, true);
        if ok2 {
          TrySendSaw(env, g2, st, g.sets.pps.value, false, true);
        }
      }
    }
  }

  lemma {:induction false} PassSaw(env: Env, g: Gate, st: Stamp, nalu: seq<byte>, marker: bool)
    requires |nalu| >= 2
    ensures var (g', ok) := Pass(env, g, st, nalu, marker); Saw(g') == Saw(g) && (AlwaysSends(env) ==> ok)
  {
    hide Saw, SendFrom, Controlled;
    if !(g.waitIdr && !IsIdr(NalType(nalu))) {
      var h := g.(waitIdr := false);
      SameLog(g, h);
      TrySendSaw(env, h, st, nalu, marker, false);
      if AlwaysSends(env) {
        AllFromSent(env.send, AtSend(env, h).link, st, nalu, 0, marker);
      }
    }
  }

  lemma {:induction false} NotedSaw(env: Env, g: Gate, nalu: seq<byte>)
    ensures Saw(Noted(env, g, nalu)) == Saw(g) + [nalu]
  {
    hide Saw;
    SawMore(g, Noted(env, g, nalu), Seen(nalu));
  }

  lemma {:induction false} NaluSaw(env: Env, g: Gate, st: Stamp, nalu: seq<byte>, marker: bool, canSend: bool)
    ensures var (g', ok) := ProcessNalu(env, g, st, nalu, marker, canSend);
            Saw(g') == Saw(g) + (if |nalu| >= 2 then [nalu] else []) && (AlwaysSends(env) ==> ok)
  {
    hide Saw, AlwaysSends, Noted, SendSets, Pass, Controlled;
    if |nalu| < 2 { return; }
    NotedSaw(env, g, nalu);
    if !canSend { return; }
    var g1 := Noted(env, g, nalu);
    ControlledSaw(g1, env.atRead(g1.readings));
    var g2 := AtRead(env, g1);
    SameLog(Controlled(g1, env.atRead(g1.readings)), g2);
    if !g2.session.need {
      PassSaw(env, g2, st, nalu, marker);
    } else {
      SendSetsSaw(env, g2, st);
      var (g3, ok) := SendSets(env, g2, st);
      if ok {
        ControlledSaw(g3, env.atMark(g3.markings));
        SameLog(Controlled(g3, env.atMark(g3.markings)), AtMark(env, g3));
        PassSaw(env, AtMark(env, g3), st, nalu, marker);
      }
    }
  }

  lemma {:induction false} UnitsSaw(env: Env, g: Gate, st: Stamp, us: seq<Unit>, i: nat, marker: bool, canSend: bool)
    requires i <= |us| && AlwaysSends(env)
    ensures Saw(ProcessUnits(env, g, st, us, i, marker, canSend).0) == Saw(g) + LongUnits(us, i)
    decreases |us| - i
  {
    hide Saw, AlwaysSends, ProcessNalu;
    if i < |us| {
      NaluSaw(env, g, st, us[i].nalu, marker && us[i].final, canSend);
      UnitsSaw(env, ProcessNalu(env, g, st, us[i].nalu, marker && us[i].final, canSend).0, st, us, i + 1, marker, canSend);
    }
  }

  lemma {:induction false} BufferSaw(env: Env, g: Gate, st: Stamp, buf: seq<byte>, marker: bool, canSend: bool)
    requires AlwaysSends(env)
    ensures Saw(ProcessBuffer(env, g, st, buf, marker, canSend).0) == Saw(g) + PackNalus(buf)
  {
    hide Saw, AlwaysSends, ProcessNalu, ProcessUnits, Split, StartsWithCode, LongUnits;
    NaluSaw(env, g, st, buf, marker, canSend);
    UnitsSaw(env, g, st, Split(buf, 0), 0, marker, canSend);
  }

  /** The last thing that happened is a stream NAL unit whose send failed. */
  predicate FailedLast(log: seq<Event>) {
    StreamLast(log) && !log[|log| - 1].ok
  }

  /** `more` are the NAL units looked at out of `nalus`: all of them, or those up to one whose send failed. */
  ghost predicate LookedAt(nalus: seq<seq<byte>>, more: seq<seq<byte>>, log: seq<Event>) {
    more <= nalus && (more != nalus ==> FailedLast(log))
  }

  lemma {:induction false} NaluFails(env: Env, g: Gate, st: Stamp, nalu: seq<byte>, marker: bool, canSend: bool)
    ensures var (g', ok) := ProcessNalu(env, g, st, nalu, marker, canSend); !ok ==> |nalu| >= 2 && FailedLast(g'.log)
  {
    hide ProcessNalu, AtRead, Noted, SendSets, CarriesIdr, StreamLast;
    if |nalu| >= 2 && canSend {
      ProcessNaluOpens(env, g, st, nalu, marker);
    } else {
      NeverSent(env, g, st, nalu, marker, canSend);
    }
  }

  lemma {:induction false} NeverSent(env: Env, g: Gate, st: Stamp, nalu: seq<byte>, marker: bool, canSend: bool)
    requires |nalu| < 2 || !canSend
    ensures ProcessNalu(env, g, st, nalu, marker, canSend).1
  {
  }

  lemma {:induction false} UnitsLooked(env: Env, g: Gate, st: Stamp, us: seq<Unit>, i: nat, marker: bool, canSend: bool)
    requires i <= |us|
    ensures var g' := ProcessUnits(env, g, st, us, i, marker, canSend).0;
            exists more :: Saw(g') == Saw(g) + more && LookedAt(LongUnits(us, i), more, g'.log)
    decreases |us| - i
  {
    hide Saw, ProcessNalu, FailedLast;
    if i == |us| {
      assert Saw(g) == Saw(g) + [] && LookedAt([], [], g.log);
    } else {
      var x := if |us[i].nalu| >= 2 then [us[i].nalu] else [];
      NaluSaw(env, g, st, us[i].nalu, marker && us[i].final, canSend);
      NaluFails(env, g, st, us[i].nalu, marker && us[i].final, canSend);
      var (g1, ok) := ProcessNalu(env, g, st, us[i].nalu, marker && us[i].final, canSend);
      if ok {
        UnitsLooked(env, g1, st, us, i + 1, marker, canSend);
        var g' := ProcessUnits(env, g1, st, us, i + 1, marker, canSend).0;
        var more :| Saw(g') == Saw(g1) + more && LookedAt(LongUnits(us, i + 1), more, g'.log);
        assert Saw(g) + x + more == Saw(g) + (x + more) && LookedAt(LongUnits(us, i), x + more, g'.log);
      } else {
        assert LookedAt(LongUnits(us, i), x, g1.log);
      }
    }
  }

  /**
   * One pack, under any failures: the gate looks at its NAL units of at least two bytes in order, and leaves some out
   * only behind one whose own send failed. A triple that could not be sent in full stops nothing.
   */
  lemma {:induction false} PackLookedAt(env: Env, g: Gate, st: Stamp, buf: seq<byte>, marker: bool, canSend: bool)
    ensures var g' := ProcessBuffer(env, g, st, buf, marker, canSend).0;
            exists more :: Saw(g') == Saw(g) + more && LookedAt(PackNalus(buf), more, g'.log)
  {
    hide Saw, ProcessNalu, ProcessUnits, Split, StartsWithCode, LongUnits, FailedLast;
    if |buf| < 2 {
      assert Saw(g) == Saw(g) + [] && LookedAt([], [], g.log);
    } else if StartsWithCode(buf) {
      UnitsLooked(env, g, st, Split(buf, 0), 0, marker, canSend);
    } else {
      NaluSaw(env, g, st, buf, marker, canSend);
      assert LookedAt(PackNalus(buf), [buf], ProcessNalu(env, g, st, buf, marker, canSend).0.log);
    }
  }

  lemma {:induction false} PackSaw(w: World, p: SenderLoop.Player, st: Stamp, pack: Pack, i: nat, marker: bool, canSend: bool)
    requires GoodPack(pack)
    ensures var p' := ProcessPack(w, p, st, pack, i, marker, canSend).0;
            && p'.maps == p.maps + 1
            && (AlwaysSends(w.gate) ==>
                  Saw(p'.gate) == Saw(p.gate) + if w.mmap(p.maps) then PackNalus(pack.data) else [])
  {
    hide Saw, AlwaysSends, ProcessBuffer, PackNalus, PackIo;
    if AlwaysSends(w.gate) {
      BufferSaw(w.gate, p.gate, st, pack.data, marker, canSend);
    }
  }

  lemma {:induction false} MessageNalusStep(answers: nat -> bool, k: nat, m: IpcMsg, i: nat)
    requires i < m.packCnt <= MAX_PACKS
    ensures MessageNalus(answers, k, m, i) ==
            (if answers(k) then PackNalus(m.packs[i].data) else []) + MessageNalus(answers, k + 1, m, i + 1)
  {
    hide PackNalus;
  }

  lemma {:induction false} PacksSaw(w: World, p: SenderLoop.Player, st: Stamp, m: IpcMsg, i: nat, canSend: bool)
    requires i <= m.packCnt && IsValid(m)
    ensures var p' := ProcessPacks(w, p, st, m, i, canSend);
            && p'.maps == p.maps + m.packCnt - i
            && (AlwaysSends(w.gate) ==> Saw(p'.gate) == Saw(p.gate) + MessageNalus(w.mmap, p.maps, m, i))
    decreases m.packCnt - i
  {
    hide Saw, AlwaysSends, ProcessPack, PackNalus;
    if i < m.packCnt {
      assert GoodPack(m.packs[i]);
      hide MessageNalus;
      MessageNalusStep(w.mmap, p.maps, m, i);
      PackSaw(w, p, st, m.packs[i], i, i + 1 == m.packCnt, canSend);
      PacksSaw(w, ProcessPack(w, p, st, m.packs[i], i, i + 1 == m.packCnt, canSend).0, st, m, i + 1, canSend);
    }
  }

  // ----- the snapshot's mappings -----

  /** For good packs the code's own count is the count of answers. */
  lemma {:induction false} GrantedIs(env: SnapEnv, maps: nat, m: IpcMsg, i: nat)
    requires i <= m.packCnt && IsValid(m)
    ensures MappedTo(env, maps, m.packs, i, m.packCnt) == i + Granted(env.mmap, maps, m.packCnt - i)
    decreases m.packCnt - i
  {
    if i < m.packCnt {
      assert GoodPack(m.packs[i]);
      GrantedIs(env, maps + 1, m, i + 1);
    }
  }

  lemma {:induction false} AskedStep(answers: nat -> bool, k: nat, n: nat)
    ensures Asked(answers, k, n) == if n == 0 then 0 else if answers(k) then 1 + Asked(answers, k + 1, n - 1) else 1
  {
  }

  lemma {:induction false} FeedStops(env: SnapEnv, s: Snap, packs: seq<Pack>, i: nat, n: nat)
    requires ValidSnap(s) && i <= n <= |packs| && (i < n ==> !env.mmap(s.maps))
    ensures FeedPacks(env, s, packs, i, n).0.maps == if i == n then s.maps else s.maps + 1
  {
  }

  lemma {:induction false} FeedAsks(env: SnapEnv, s: Snap, m: IpcMsg, i: nat)
    requires ValidSnap(s) && i <= m.packCnt && IsValid(m)
    ensures FeedPacks(env, s, m.packs, i, m.packCnt).0.maps == s.maps + Asked(env.mmap, s.maps, m.packCnt - i)
    decreases m.packCnt - i
  {
    hide FeedPacks, FeedBuffer, ValidSnap, Asked, MappedTo;
    AskedStep(env.mmap, s.maps, m.packCnt - i);
    if i < m.packCnt && env.mmap(s.maps) {
      assert GoodPack(m.packs[i]);
      var s1 := s.(maps := s.maps + 1);
      CountersValid(s, s1);
      FeedPacksStep(env, s, m.packs, i, m.packCnt);
      FeedAsks(env, FeedBuffer(env, s1, m.packs[i].data).0, m, i + 1);
    } else {
      FeedStops(env, s, m.packs, i, m.packCnt);
    }
  }

  lemma {:induction false} ProcessAsks(env: SnapEnv, s: Snap, m: IpcMsg, writerReady: bool)
    requires ValidSnap(s) && IsValid(m) && Flagged(m)
    ensures Process(env, s, m, writerReady).0.maps == s.maps + Asked(env.mmap, s.maps, m.packCnt)
  {
    hide FeedPacks, UpdateGop, UpdateIrap, BuildOutput, Asked;
    FeedAsks(env, Fresh(s), m, 0);
  }

  lemma {:induction false} RecordIs(w: World, k: nat, m: IpcMsg)
    requires IsValid(m)
    ensures RecordOf(w.snap, k, m) == RecordFor(w, k, m)
  {
    hide PacksFed, MappedTo, Granted;
    GrantedIs(w.snap, k, m, 0);
  }

  // ----- runs -----

  ghost predicate Faithful(w: World, p: SenderLoop.Player, ms: seq<IpcMsg>) {
    && p.lastRead == (if ms == [] then 0 else ms[|ms| - 1].number)
    && p.numbers == Numbers(ms)
    && (var fs := FlaggedOf(ms, |ms|); p.records == RecordsOf(w, fs, |fs|) && p.snap.maps == SnapCalls(w, fs, |fs|))
    && p.maps == PlayCalls(ms, |ms|)
    && (AlwaysSends(w.gate) ==> Saw(p.gate) == AllNalus(w, ms, |ms|))
  }

  lemma {:induction false} FlaggedMore(ms: seq<IpcMsg>, m: IpcMsg, n: nat)
    requires n <= |ms|
    ensures FlaggedOf(ms + [m], n) == FlaggedOf(ms, n)
  {
    if n > 0 {
      FlaggedMore(ms, m, n - 1);
    }
  }

  lemma {:induction false} PlayCallsMore(ms: seq<IpcMsg>, m: IpcMsg, n: nat)
    requires n <= |ms|
    ensures PlayCalls(ms + [m], n) == PlayCalls(ms, n)
  {
    if n > 0 {
      PlayCallsMore(ms, m, n - 1);
    }
  }

  lemma {:induction false} AllNalusMore(w: World, ms: seq<IpcMsg>, m: IpcMsg, n: nat)
    requires n <= |ms|
    ensures AllNalus(w, ms + [m], n) == AllNalus(w, ms, n)
  {
    if n > 0 {
      hide MessageNalus;
      PlayCallsMore(ms, m, n - 1);
      AllNalusMore(w, ms, m, n - 1);
    }
  }

  lemma {:induction false} RecordsMore(w: World, fs: seq<IpcMsg>, m: IpcMsg, n: nat)
    requires n <= |fs|
    ensures RecordsOf(w, fs + [m], n) == RecordsOf(w, fs, n) && SnapCalls(w, fs + [m], n) == SnapCalls(w, fs, n)
  {
    if n > 0 {
      hide RecordFor, Asked;
      RecordsMore(w, fs, m, n - 1);
    }
  }

  /** What one flagged message adds to the records. */
  lemma {:induction false} SnapshotFaithful(w: World, p: SenderLoop.Player, fs: seq<IpcMsg>, m: IpcMsg)
    requires ValidSnap(p.snap) && IsValid(m) && Flagged(m)
    requires p.records == RecordsOf(w, fs, |fs|) && p.snap.maps == SnapCalls(w, fs, |fs|)
    ensures var p', fs' := TakeSnapshot(w, p, m), fs + [m];
            p'.records == RecordsOf(w, fs', |fs'|) && p'.snap.maps == SnapCalls(w, fs', |fs'|)
  {
    hide Process, SnapIo, ValidSnap, RecordOf, RecordFor, Asked;
    RecordIs(w, p.snap.maps, m);
    RecordsMore(w, fs, m, |fs|);
    ProcessAsks(w.snap, p.snap, m, w.writerReady);
  }

  lemma {:induction false} PlayMessageSaw(w: World, p: SenderLoop.Player, m: IpcMsg)
    requires ValidSnap(p.snap) && IsValid(m)
    ensures var p' := PlayMessage(w, p, m);
            && p'.maps == p.maps + m.packCnt
            && (AlwaysSends(w.gate) ==> Saw(p'.gate) == Saw(p.gate) + MessageNalus(w.mmap, p.maps, m, 0))
  {
    hide ProcessPacks, TakeSnapshot, StampOf, ValidSnap, Saw, AlwaysSends, MessageNalus;
    var p1 := p.(lastRead := m.number, numbers := p.numbers + [m.number]);
    SnapshotLeaves(w, p1, m);
    var p2 := if Flagged(m) then TakeSnapshot(w, p1, m) else p1;
    PacksSaw(w, p2, StampOf(p), m, 0, p.gate.session.play && p.gate.session.addrSet);
  }

  lemma {:induction false} PlayMessageFaithful(w: World, p: SenderLoop.Player, ms: seq<IpcMsg>, m: IpcMsg)
    requires ValidSnap(p.snap) && IsValid(m) && Faithful(w, p, ms)
    ensures Faithful(w, PlayMessage(w, p, m), ms + [m])
  {
    hide PlayMessage, TakeSnapshot, ValidSnap, Saw, AlwaysSends, MessageNalus, RecordsOf, SnapCalls;
    var fs := FlaggedOf(ms, |ms|);
    PlayMessageLeaves(w, p, m);
    PlayMessageSaw(w, p, m);
    FlaggedMore(ms, m, |ms|);
    PlayCallsMore(ms, m, |ms|);
    AllNalusMore(w, ms, m, |ms|);
    assert Numbers(ms + [m]) == Numbers(ms) + [m.number];
    if Flagged(m) {
      SnapshotFaithful(w, p, fs, m);
    } else {
      assert FlaggedOf(ms + [m], |ms| + 1) == fs;
    }
  }

  lemma {:induction false} FaithfulSame(w: World, p: SenderLoop.Player, p': SenderLoop.Player, ms: seq<IpcMsg>)
    requires Faithful(w, p, ms) && p'.lastRead == p.lastRead && p'.numbers == p.numbers && p'.records == p.records
    requires p'.snap.maps == p.snap.maps && p'.maps == p.maps && Saw(p'.gate) == Saw(p.gate)
    ensures Faithful(w, p', ms)
  {
    hide Saw, RecordsOf, AllNalus;
  }

  /** A turn without a message to process. */
  lemma {:induction false} TurnSkips(w: World, p: SenderLoop.Player)
    requires ValidSnap(p.snap)
    requires w.item(p.polls).None? || !IsValid(w.item(p.polls).value) || Stale(p, w.item(p.polls).value)
    ensures var p' := Turn(w, p);
            && p'.polls == p.polls + 1 && p'.lastRead == p.lastRead && p'.numbers == p.numbers
            && p'.records == p.records && p'.snap == p.snap && p'.maps == p.maps && Saw(p'.gate) == Saw(p.gate)
  {
    hide Saw, Controlled, PlayMessage, ValidSnap;
    ControlledSaw(p.gate, w.between(p.items));
  }

  /** The state a turn samples the target in. */
  function SampledState(w: World, p: SenderLoop.Player): SenderLoop.Player {
    p.(polls := p.polls + 1, io := p.io + [ReadItem(p.items)], gate := Controlled(p.gate, w.between(p.items)),
       items := p.items + 1)
  }

  /** A turn with one. */
  lemma {:induction false} TurnPlays(w: World, p: SenderLoop.Player)
    requires ValidSnap(p.snap) && w.item(p.polls).Some? && IsValid(w.item(p.polls).value)
    requires !Stale(p, w.item(p.polls).value)
    ensures var p1 := SampledState(w, p);
            var q, p' := PlayMessage(w, p1, w.item(p.polls).value), Turn(w, p);
            && p'.polls == p.polls + 1 && p' == q.(io := p'.io)
            && p1.lastRead == p.lastRead && p1.numbers == p.numbers && p1.records == p.records && p1.snap == p.snap
            && p1.maps == p.maps && Saw(p1.gate) == Saw(p.gate)
  {
    hide Saw, Controlled, PlayMessage, ValidSnap;
    ControlledSaw(p.gate, w.between(p.items));
    PlayMessageLeaves(w, SampledState(w, p), w.item(p.polls).value);
  }

  lemma {:induction false} TurnFaithful(w: World, p: SenderLoop.Player)
    requires ValidSnap(p.snap) && Faithful(w, p, Accepted(w, p.polls))
    ensures var p' := Turn(w, p); p'.polls == p.polls + 1 && Faithful(w, p', Accepted(w, p'.polls))
  {
    hide Turn, PlayMessage, Controlled, ValidSnap, Saw, Faithful, SampledState;
    var ms, found := Accepted(w, p.polls), w.item(p.polls);
    LastIs(w, p, ms);
    if found.None? || !IsValid(found.value) || Stale(p, found.value) {
      TurnSkips(w, p);
      FaithfulSame(w, p, Turn(w, p), ms);
    } else {
      TurnPlays(w, p);
      var p1 := SampledState(w, p);
      FaithfulSame(w, p, p1, ms);
      PlayMessageFaithful(w, p1, ms, found.value);
      FaithfulSame(w, PlayMessage(w, p1, found.value), Turn(w, p), ms + [found.value]);
    }
  }

  lemma {:induction false} LastIs(w: World, p: SenderLoop.Player, ms: seq<IpcMsg>)
    requires Faithful(w, p, ms)
    ensures p.lastRead == if ms == [] then 0 else ms[|ms| - 1].number
  {
  }

  /**
   * Over every run: the messages processed are exactly the valid items each newer than the one accepted before,
   * in order; the snapshot history has one record for each flagged one of them; and if no send and no mapping
   * fails, the gate has looked at all their NAL units of at least two bytes, in order, played or not.
   */
  lemma {:induction false} RunFaithful(w: World, n: nat)
    ensures Run(w, n).polls == n && Faithful(w, Run(w, n), Accepted(w, n))
  {
    hide Turn;
    if n == 0 {
      assert Numbers([]) == [];
    } else {
      hide Faithful;
      RunFaithful(w, n - 1);
      TurnFaithful(w, Run(w, n - 1));
    }
  }

  // ----- the cache, read off the items -----

  /** The last NAL unit of type t, of at most 16 KiB, among the first n. */
  function LastFit(nalus: seq<seq<byte>>, t: int, n: nat): Option<seq<byte>>
    requires n <= |nalus|
  {
    if n == 0 then None
    else if NalType(nalus[n - 1]) == t && |nalus[n - 1]| <= 0x4000 then Some(nalus[n - 1])
    else LastFit(nalus, t, n - 1)
  }

  lemma {:induction false} LastFitMore(nalus: seq<seq<byte>>, x: seq<byte>, t: int, n: nat)
    requires n <= |nalus|
    ensures LastFit(nalus + [x], t, n) == LastFit(nalus, t, n)
  {
    if n > 0 {
      LastFitMore(nalus, x, t, n - 1);
    }
  }

  lemma {:induction false} LastSeenFits(log: seq<Event>, t: int, n: nat)
    requires n <= |log|
    ensures LastSeen(log, t, n) == LastFit(SeenOf(log, n), t, |SeenOf(log, n)|)
  {
    if n > 0 {
      LastSeenFits(log, t, n - 1);
      var seen := SeenOf(log, n - 1);
      if log[n - 1].Seen? {
        LastFitMore(seen, log[n - 1].nalu, t, |seen|);
      } else {
        assert SeenOf(log, n) == seen;
      }
    }
  }

  /**
   * Over every run without a failure of memory, mapping or sending: each cache entry is the last NAL unit of its
   * type, of at most 16 KiB, in the valid messages that are not stale, played or not.
   */
  lemma {:induction false} RunCacheOfItems(w: World, n: nat, t: int)
    requires AlwaysAllocates(w.gate) && AlwaysSends(w.gate) && IsParameterSet(t)
    ensures var nalus := AllNalus(w, Accepted(w, n), |Accepted(w, n)|);
            Get(Run(w, n).gate.sets, t) == LastFit(nalus, t, |nalus|)
  {
    hide Run, Accepted, AllNalus, LastSeen, LastFit, AlwaysAllocates, AlwaysSends, Numbers, RecordsOf, SnapCalls, PlayCalls, SeenOf;
    RunCache(w, n, t);
    RunFaithful(w, n);
    var log := Run(w, n).gate.log;
    LastSeenFits(log, t, |log|);
  }
}
