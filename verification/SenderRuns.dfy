/**
 * Whole runs of the sender: everything proved of one NAL unit, lifted over units, packs, messages and turns,
 * for every world (every interleaving, every item, every failure).
 */
module SenderRuns {
  import opened Bytes
  import opened AnnexB
  import opened Rtp
  import opened Transport
  import opened Depacketiser
  import opened DataFifo
  import opened PlaybackGate
  import opened GateLanguage
  import opened GateHistory
  import opened GateInStep
  import opened Snapshot
  import opened SenderLoop

  // ----- what the datagrams of one message look like -----

  lemma {:induction false} TrySendExtends(env: Env, g: Gate, st: Stamp, nalu: seq<byte>, marker: bool, cached: bool)
    ensures var g' := TrySend(env, g, st, nalu, marker, cached).0;
            Extends(g.link, g'.link, st, marker) && (Ordered(env.send, g.link) ==> Ordered(env.send, g'.link)) && g'.sets == g.sets
  {
    hide Extends, Ordered, SendNalu, Controlled;
    ControlledLink(g, env.atSend(g.tries));
    NaluShape(env.send, g.link, st, nalu, marker);
  }

  lemma {:induction false} SendSetsExtends(env: Env, g: Gate, st: Stamp)
    ensures var g' := SendSets(env, g, st).0;
            Extends(g.link, g'.link, st, false) && (Ordered(env.send, g.link) ==> Ordered(env.send, g'.link))
  {
    hide Extends, Ordered, SendNalu, TrySend;
    Unextended(g.link, st, false);
    if HaveAll(g.sets) {
      TrySendExtends(env, g, st, g.sets.vps.value, false, true);
      var (g1, ok1) := TrySend(env, g, st, g.sets.vps.value, false, true);
      if ok1 {
        TrySendExtends(env, g1, st, g.sets.sps.value, false, true);
        var (g2, ok2) := TrySend(env, g1, st, g.sets.sps.value, false, true);
        ExtendsThen(g.link, g1.link, g2.link, st, false);
        if ok2 {
          TrySendExtends(env, g2, st, g.sets.pps.value, false, true);
          ExtendsThen(g.link, g2.link, TrySend(env, g2, st, g.sets.pps.value, false, true).0.link, st, false);
        }
      }
    }
  }

  lemma {:induction false} PassExtends(env: Env, g: Gate, st: Stamp, nalu: seq<byte>, marker: bool)
    ensures var g' := Pass(env, g, st, nalu, marker).0;
            Extends(g.link, g'.link, st, marker) && (Ordered(env.send, g.link) ==> Ordered(env.send, g'.link))
  {
    hide Extends, Ordered, TrySend;
    Unextended(g.link, st, marker);
    TrySendExtends(env, g.(waitIdr := false), st, nalu, marker, false);
  }

  lemma {:induction false} ControlledLink(g: Gate, cs: seq<Control>)
    ensures Controlled(g, cs).link == g.link && Controlled(g, cs).sets == g.sets
    decreases |cs|
  {
    if cs != [] {
      ControlledLink(ControlStep(g, cs[0]), cs[1..]);
    }
  }

  lemma {:induction false} NotedLink(env: Env, g: Gate, nalu: seq<byte>)
    ensures Noted(env, g, nalu).link == g.link
  {
  }

  lemma {:induction false} NaluExtends(env: Env, g: Gate, st: Stamp, nalu: seq<byte>, marker: bool, canSend: bool)
    ensures var g' := ProcessNalu(env, g, st, nalu, marker, canSend).0;
            && Extends(g.link, g'.link, st, marker) && (Ordered(env.send, g.link) ==> Ordered(env.send, g'.link))
            && (!canSend ==> g'.link == g.link)
  {
    hide Extends, Ordered, Noted, SendSets, Pass, Controlled;
    Unextended(g.link, st, marker);
    if |nalu| < 2 { return; }
    NotedLink(env, g, nalu);
    if !canSend { return; }
    var g1 := Noted(env, g, nalu);
    ControlledLink(g1, env.atRead(g1.readings));
    var g2 := AtRead(env, g1);
    if !g2.session.need {
      PassExtends(env, g2, st, nalu, marker);
    } else {
      SendSetsExtends(env, g2, st);
      var (g3, ok) := SendSets(env, g2, st);
      Unmarked(g.link, g3.link, st, marker);
      if ok {
        ControlledLink(g3, env.atMark(g3.markings));
        var g4 := AtMark(env, g3);
        PassExtends(env, g4, st, nalu, marker);
        ExtendsThen(g.link, g3.link, Pass(env, g4, st, nalu, marker).0.link, st, marker);
      }
    }
  }

  ghost predicate FinalLast(us: seq<Unit>) {
    forall i :: 0 <= i < |us| && us[i].final ==> i == |us| - 1
  }

  lemma {:induction false} UnitsExtends(env: Env, g: Gate, st: Stamp, us: seq<Unit>, i: nat, marker: bool, canSend: bool)
    requires i <= |us| && FinalLast(us)
    ensures var g' := ProcessUnits(env, g, st, us, i, marker, canSend).0;
            && Extends(g.link, g'.link, st, marker) && (!canSend ==> g'.link == g.link)
    decreases |us| - i
  {
    hide Extends, Ordered, ProcessNalu;
    Unextended(g.link, st, marker);
    if i < |us| {
      NaluExtends(env, g, st, us[i].nalu, marker && us[i].final, canSend);
      var (g', ok) := ProcessNalu(env, g, st, us[i].nalu, marker && us[i].final, canSend);
      if !us[i].final {
        Unmarked(g.link, g'.link, st, marker);
      }
      if ok {
        UnitsExtends(env, g', st, us, i + 1, marker, canSend);
        if !us[i].final {
          ExtendsThen(g.link, g'.link, ProcessUnits(env, g', st, us, i + 1, marker, canSend).0.link, st, marker);
        }
      }
    }
  }

  lemma {:induction false} BufferExtends(env: Env, g: Gate, st: Stamp, buf: seq<byte>, marker: bool, canSend: bool)
    ensures var g' := ProcessBuffer(env, g, st, buf, marker, canSend).0;
            && Extends(g.link, g'.link, st, marker) && (!canSend ==> g'.link == g.link)
  {
    hide Extends, Ordered, ProcessNalu, ProcessUnits, Split, StartsWithCode;
    Unextended(g.link, st, marker);
    NaluExtends(env, g, st, buf, marker, canSend);
    var us := Split(buf, 0);
    forall i | 0 <= i < |us| && us[i].final
      ensures i == |us| - 1
    {
      SplitSpans(buf, i, i);
    }
    UnitsExtends(env, g, st, us, 0, marker, canSend);
  }

  lemma {:induction false} PacksExtends(w: World, p: SenderLoop.Player, st: Stamp, m: IpcMsg, i: nat, canSend: bool)
    requires i <= m.packCnt <= MAX_PACKS
    ensures var l, l' := p.gate.link, ProcessPacks(w, p, st, m, i, canSend).gate.link;
            Extends(l, l', st, true) && (!canSend ==> l' == l)
    decreases m.packCnt - i
  {
    hide Extends, Ordered, ProcessBuffer, CanMap;
    Unextended(p.gate.link, st, true);
    if i < m.packCnt {
      var marker := i + 1 == m.packCnt;
      Unextended(p.gate.link, st, marker);
      BufferExtends(w.gate, p.gate, st, m.packs[i].data, marker, canSend);
      var p' := ProcessPack(w, p, st, m.packs[i], i, marker, canSend).0;
      PacksExtends(w, p', st, m, i + 1, canSend);
      if !marker {
        ExtendsThen(p.gate.link, p'.gate.link, ProcessPacks(w, p', st, m, i + 1, canSend).gate.link, st, true);
      }
    }
  }

  // ----- the invariant of the gate, lifted -----

  ghost predicate Good(env: Env, g: Gate) {
    && Inv(g) && History(env, g) && Ordered(env.send, g.link)
    && (AlwaysAllocates(env) ==> FromCache(g.log))
    && (NeverAllocates(env) ==> Starved(g))
    && (Smooth(env) ==> StepInv(g))
  }

  /** While a message is processed: its sampled target still stands for the session. */
  ghost predicate Aimed(env: Env, g: Gate, st: Stamp, canSend: bool) {
    && (canSend ==> g.session.addrSet)
    && Sampled(env, g, st, canSend)
    && (Smooth(env) ==> canSend == (g.session.play && g.session.addrSet) && (canSend ==> st.dest == g.session.addr))
  }

  lemma {:induction false} NaluFromCache(env: Env, g: Gate, st: Stamp, nalu: seq<byte>, marker: bool, canSend: bool)
    requires Inv(g) && History(env, g) && FromCache(g.log) && AlwaysAllocates(env)
    ensures FromCache(ProcessNalu(env, g, st, nalu, marker, canSend).0.log)
  {
    assert Cached(g);
    hide ProcessNalu, Inv, History, FromCache, CacheIsLast;
    ProcessNaluCached(env, g, st, nalu, marker, canSend);
  }

  lemma {:induction false} NaluGood(env: Env, g: Gate, st: Stamp, nalu: seq<byte>, marker: bool, canSend: bool)
    requires Good(env, g) && Aimed(env, g, st, canSend)
    ensures var g' := ProcessNalu(env, g, st, nalu, marker, canSend).0;
            Good(env, g') && Aimed(env, g', st, canSend)
  {
    hide ProcessNalu, Inv, History, Ordered, FromCache, Starved, StepInv, AlwaysAllocates, NeverAllocates, Smooth, Extends, Sampled;
    ProcessNaluInv(env, g, st, nalu, marker, canSend);
    ProcessNaluHistory(env, g, st, nalu, marker, canSend);
    NaluExtends(env, g, st, nalu, marker, canSend);
    if AlwaysAllocates(env) {
      NaluFromCache(env, g, st, nalu, marker, canSend);
    }
    if NeverAllocates(env) {
      ProcessNaluStarved(env, g, st, nalu, marker, canSend);
    }
    if Smooth(env) {
      ProcessNaluInStep(env, g, st, nalu, marker, canSend);
    }
  }

  lemma {:induction false} UnitsGood(env: Env, g: Gate, st: Stamp, us: seq<Unit>, i: nat, marker: bool, canSend: bool)
    requires i <= |us| && Good(env, g) && Aimed(env, g, st, canSend)
    ensures var g' := ProcessUnits(env, g, st, us, i, marker, canSend).0;
            Good(env, g') && Aimed(env, g', st, canSend)
    decreases |us| - i
  {
    if i < |us| {
      hide Good, Aimed, ProcessNalu;
      NaluGood(env, g, st, us[i].nalu, marker && us[i].final, canSend);
      var (g', ok) := ProcessNalu(env, g, st, us[i].nalu, marker && us[i].final, canSend);
      if ok {
        UnitsGood(env, g', st, us, i + 1, marker, canSend);
      }
    }
  }

  lemma {:induction false} BufferGood(env: Env, g: Gate, st: Stamp, buf: seq<byte>, marker: bool, canSend: bool)
    requires Good(env, g) && Aimed(env, g, st, canSend)
    ensures var g' := ProcessBuffer(env, g, st, buf, marker, canSend).0;
            Good(env, g') && Aimed(env, g', st, canSend)
  {
    hide Good, Aimed, ProcessNalu, ProcessUnits, Split, StartsWithCode;
    NaluGood(env, g, st, buf, marker, canSend);
    UnitsGood(env, g, st, Split(buf, 0), 0, marker, canSend);
  }

  lemma {:induction false} PacksGood(w: World, p: SenderLoop.Player, st: Stamp, m: IpcMsg, i: nat, canSend: bool)
    requires i <= m.packCnt <= MAX_PACKS && Good(w.gate, p.gate) && Aimed(w.gate, p.gate, st, canSend)
    ensures Good(w.gate, ProcessPacks(w, p, st, m, i, canSend).gate)
    decreases m.packCnt - i
  {
    hide Good, Aimed, ProcessBuffer, CanMap, PackIo;
    if i < m.packCnt {
      var marker := i + 1 == m.packCnt;
      BufferGood(w.gate, p.gate, st, m.packs[i].data, marker, canSend);
      PacksGood(w, ProcessPack(w, p, st, m.packs[i], i, marker, canSend).0, st, m, i + 1, canSend);
    }
  }

  lemma {:induction false} ControlStepInStep(g: Gate, c: Control)
    requires StepInv(g)
    ensures StepInv(ControlStep(g, c))
  {
    hide CacheIsLast, Fits, Typed, SyncedAt;
    var g', e := ControlStep(g, c), Ctl(c);
    CacheIsLastMore(g, g', e);
    if g'.session.play && g'.session.addrSet && !g'.session.need {
      assert false;
    }
  }

  lemma {:induction false} ControlStepGood(env: Env, g: Gate, c: Control)
    requires Good(env, g)
    ensures Good(env, ControlStep(g, c))
  {
    hide Inv, History, Ordered, FromCache, Starved, StepInv, AlwaysAllocates, NeverAllocates, Smooth;
    var g' := ControlStep(g, c);
    ControlStepInv(g, c);
    ControlStepHistory(env, g, c);
    if AlwaysAllocates(env) {
      FromCacheMore(g.log, Ctl(c));
    }
    if NeverAllocates(env) {
      StepStarved(g, c);
    }
    if Smooth(env) {
      ControlStepInStep(g, c);
    }
  }

  lemma {:induction false} StepStarved(g: Gate, c: Control)
    requires Starved(g)
    ensures Starved(ControlStep(g, c))
  {
  }

  lemma {:induction false} ControlledGood(env: Env, g: Gate, cs: seq<Control>)
    requires Good(env, g)
    ensures Good(env, Controlled(g, cs))
    decreases |cs|
  {
    if cs != [] {
      hide Good, Apply;
      ControlStepGood(env, g, cs[0]);
      ControlledGood(env, ControlStep(g, cs[0]), cs[1..]);
    }
  }

  // ----- turns and runs -----

  /** The f-th message sent: where its datagrams begin, and that all carry its timestamp, none but the last marked. */
  ghost predicate FrameAt(wire: seq<Datagram>, sent: seq<Sent>, f: nat)
    requires f < |sent|
  {
    && sent[f].timestamp == (0x1234_5678 + 6000 * f) % 0x1_0000_0000
    && sent[f].first == (if f == 0 then 0 else sent[f - 1].end)
    && sent[f].first <= sent[f].end <= |wire|
    && forall i :: sent[f].first <= i < sent[f].end ==>
         && HeaderOf(wire[i]).Some? && HeaderOf(wire[i]).value.timestamp == sent[f].timestamp
         && HeaderOf(wire[i]).value.ssrc == 0x2233_4455
         && (Marked(wire[i]) ==> i == sent[f].end - 1)
  }

  /** Every datagram belongs to exactly one message sent, in order; `timestamp` is the next message's. */
  ghost predicate Framed(wire: seq<Datagram>, sent: seq<Sent>, timestamp: u32) {
    && timestamp == Timestamp(FIRST_TIMESTAMP, |sent|)
    && (forall f :: 0 <= f < |sent| ==> FrameAt(wire, sent, f))
    && (if sent == [] then wire == [] else sent[|sent| - 1].end == |wire|)
  }

  ghost predicate AllFramed(p: SenderLoop.Player) {
    Framed(p.gate.link.wire, p.sent, p.timestamp)
  }

  /** Sampling the target after the RTSP steps before an item: the message that follows is aimed at the session. */
  lemma {:induction false} AimedAtStart(w: World, p: SenderLoop.Player)
    ensures var s := p.gate.session; Aimed(w.gate, p.gate, StampOf(p), s.play && s.addrSet)
  {
  }

  lemma {:induction false} PlayMessageGate(w: World, p: SenderLoop.Player, m: IpcMsg)
    requires ValidSnap(p.snap) && IsValid(m)
    ensures var canSend := p.gate.session.play && p.gate.session.addrSet;
            var p1 := p.(lastRead := m.number, numbers := p.numbers + [m.number]);
            var p2 := if Flagged(m) then TakeSnapshot(w, p1, m) else p1;
            var p3, p' := ProcessPacks(w, p2, StampOf(p), m, 0, canSend), PlayMessage(w, p, m);
            && p2.gate == p.gate && p'.gate == p3.gate
            && p'.timestamp == (if canSend then (p.timestamp + TS_STEP) % 0x1_0000_0000 else p.timestamp)
            && p'.sent == if canSend then p.sent + [Sent(|p.gate.link.wire|, |p3.gate.link.wire|, p.timestamp)] else p.sent
  {
    hide ProcessPacks, Process, StampOf, SnapIo, ValidSnap;
    var canSend := p.gate.session.play && p.gate.session.addrSet;
    var p1 := p.(lastRead := m.number, numbers := p.numbers + [m.number]);
    var p2 := if Flagged(m) then TakeSnapshot(w, p1, m) else p1;
    PacksKeepSnap(w, p2, StampOf(p), m, 0, canSend);
  }

  lemma {:induction false} PlayMessageGood(w: World, p: SenderLoop.Player, m: IpcMsg)
    requires ValidSnap(p.snap) && IsValid(m) && Good(w.gate, p.gate)
    ensures Good(w.gate, PlayMessage(w, p, m).gate)
  {
    hide Good, Aimed, ProcessPacks, PlayMessage, TakeSnapshot, StampOf, ValidSnap;
    var p1 := p.(lastRead := m.number, numbers := p.numbers + [m.number]);
    var p2 := if Flagged(m) then TakeSnapshot(w, p1, m) else p1;
    AimedAtStart(w, p);
    PlayMessageGate(w, p, m);
    PacksGood(w, p2, StampOf(p), m, 0, p.gate.session.play && p.gate.session.addrSet);
  }

  lemma {:induction false} TurnGood(w: World, p: SenderLoop.Player)
    requires ValidSnap(p.snap) && Good(w.gate, p.gate)
    ensures Good(w.gate, Turn(w, p).gate)
  {
    hide Good, PlayMessage, Controlled, ValidSnap;
    var found := w.item(p.polls);
    if found.Some? {
      ControlledGood(w.gate, p.gate, w.between(p.items));
      var p1 := p.(polls := p.polls + 1, io := p.io + [ReadItem(p.items)],
                   gate := Controlled(p.gate, w.between(p.items)), items := p.items + 1);
      if IsValid(found.value) && !Stale(p1, found.value) {
        PlayMessageGood(w, p1, found.value);
      }
    }
  }

  lemma {:induction false} StartGood(env: Env)
    ensures Good(env, START.gate)
  {
    forall a
      ensures Ear(START.gate.link, a).out == []
    {
    }
    hide Ear;
    assert Recovered(START.gate);
  }

  lemma {:induction false} RunGood(w: World, n: nat)
    ensures Good(w.gate, Run(w, n).gate)
  {
    hide Good, Turn;
    if n == 0 {
      StartGood(w.gate);
    } else {
      RunGood(w, n - 1);
      TurnGood(w, Run(w, n - 1));
    }
  }

  // ----- message framing -----

  lemma {:induction false} FrameOlder(wire: seq<Datagram>, sent: seq<Sent>, f: nat, wire': seq<Datagram>, e: Sent)
    requires f < |sent| && FrameAt(wire, sent, f) && |wire| <= |wire'| && wire'[..|wire|] == wire
    ensures FrameAt(wire', sent + [e], f)
  {
    hide HeaderOf, Marked, Timestamp;
    var sent' := sent + [e];
    assert sent'[f] == sent[f] && (f > 0 ==> sent'[f - 1] == sent[f - 1]);
    forall i | sent[f].first <= i < sent[f].end
      ensures wire'[i] == wire[i]
    {
      assert wire'[..|wire|][i] == wire'[i];
    }
  }

  lemma {:induction false} FrameNew(l: Link, l': Link, st: Stamp, sent: seq<Sent>)
    requires Framed(l.wire, sent, st.timestamp) && Extends(l, l', st, true) && st.ssrc == 0x2233_4455
    ensures FrameAt(l'.wire, sent + [Sent(|l.wire|, |l'.wire|, st.timestamp)], |sent|)
  {
    hide HeaderOf, Marked, FrameAt;
    var sent' := sent + [Sent(|l.wire|, |l'.wire|, st.timestamp)];
    forall i | |l.wire| <= i < |l'.wire|
      ensures HeaderOf(l'.wire[i]).Some? && HeaderOf(l'.wire[i]).value.timestamp == st.timestamp
      ensures HeaderOf(l'.wire[i]).value.ssrc == st.ssrc
      ensures Marked(l'.wire[i]) ==> i == |l'.wire| - 1
    {
      assert StampedAs(l'.wire[i], st);
    }
    FrameMade(l'.wire, sent', |sent|);
  }

  lemma {:induction false} FrameMade(wire: seq<Datagram>, sent: seq<Sent>, f: nat)
    requires f < |sent| && sent[f].timestamp == (0x1234_5678 + 6000 * f) % 0x1_0000_0000
    requires sent[f].first == (if f == 0 then 0 else sent[f - 1].end) && sent[f].first <= sent[f].end <= |wire|
    requires forall i :: sent[f].first <= i < sent[f].end ==>
               && HeaderOf(wire[i]).Some? && HeaderOf(wire[i]).value.timestamp == sent[f].timestamp
               && HeaderOf(wire[i]).value.ssrc == 0x2233_4455
               && (Marked(wire[i]) ==> i == sent[f].end - 1)
    ensures FrameAt(wire, sent, f)
  {
    hide HeaderOf, Marked, Timestamp;
  }

  lemma {:induction false} FrameMore(l: Link, l': Link, st: Stamp, sent: seq<Sent>)
    requires Framed(l.wire, sent, st.timestamp) && Extends(l, l', st, true) && st.ssrc == 0x2233_4455
    ensures Framed(l'.wire, sent + [Sent(|l.wire|, |l'.wire|, st.timestamp)], (st.timestamp + TS_STEP) % 0x1_0000_0000)
  {
    hide FrameAt, Timestamp, StampedAs, Marked;
    var e := Sent(|l.wire|, |l'.wire|, st.timestamp);
    TimestampNext(FIRST_TIMESTAMP, |sent|);
    FrameNew(l, l', st, sent);
    forall f: nat | f < |sent|
      ensures FrameAt(l'.wire, sent + [e], f)
    {
      FrameOlder(l.wire, sent, f, l'.wire, e);
    }
  }

  lemma {:induction false} TimestampNext(first: u32, sent: nat)
    ensures Timestamp(first, sent + 1) == (Timestamp(first, sent) + TS_STEP) % 0x1_0000_0000
  {
  }

  lemma {:induction false} PlayMessageFramed(w: World, p: SenderLoop.Player, m: IpcMsg)
    requires ValidSnap(p.snap) && IsValid(m) && AllFramed(p)
    ensures AllFramed(PlayMessage(w, p, m))
  {
    hide Framed, Extends, ProcessPacks, PlayMessage, TakeSnapshot, ValidSnap;
    var canSend := p.gate.session.play && p.gate.session.addrSet;
    var p1 := p.(lastRead := m.number, numbers := p.numbers + [m.number]);
    var p2 := if Flagged(m) then TakeSnapshot(w, p1, m) else p1;
    PlayMessageGate(w, p, m);
    PacksExtends(w, p2, StampOf(p), m, 0, canSend);
    if canSend {
      FrameMore(p.gate.link, PlayMessage(w, p, m).gate.link, StampOf(p), p.sent);
    }
  }

  lemma {:induction false} TurnFramed(w: World, p: SenderLoop.Player)
    requires ValidSnap(p.snap) && AllFramed(p)
    ensures AllFramed(Turn(w, p))
  {
    hide Framed, PlayMessage, Controlled, ValidSnap;
    var found := w.item(p.polls);
    var p1 := p.(polls := p.polls + 1);
    if found.Some? {
      ControlledLink(p.gate, w.between(p.items));
      var p2 := p1.(io := p.io + [ReadItem(p.items)], gate := Controlled(p.gate, w.between(p.items)), items := p.items + 1);
      if IsValid(found.value) && !Stale(p2, found.value) {
        PlayMessageFramed(w, p2, found.value);
      }
    }
  }

  lemma {:induction false} RunFramed(w: World, n: nat)
    ensures AllFramed(Run(w, n))
  {
    hide Turn;
    if n > 0 {
      hide AllFramed;
      RunFramed(w, n - 1);
      TurnFramed(w, Run(w, n - 1));
    }
  }

  // ----- what holds of every run -----

  /**
   * Framing and numbering: the i-th datagram carries i modulo 2^16 whatever failed, every datagram belongs
   * to one message sent and carries its timestamp, only the last of a message can be marked, and messages
   * share a timestamp exactly when 2^28 or a multiple of it apart.
   */
  lemma {:induction false} RunFraming(w: World, n: nat, f: nat, d: nat)
    requires f + d < |Run(w, n).sent|
    ensures var p := Run(w, n);
            && Numbered(p.gate.link) && AllFramed(p)
            && (p.sent[f].timestamp == p.sent[f + d].timestamp <==> d % 0x1000_0000 == 0)
  {
    hide Good, Run, Ordered, Timestamp;
    RunGood(w, n);
    RunFramed(w, n);
    RunNumbered(w, n);
    TimestampsDiffer(FIRST_TIMESTAMP, f, d);
    TimestampIs(f);
    TimestampIs(f + d);
    hide FrameAt;
    var p := Run(w, n);
    FrameStamped(p.gate.link.wire, p.sent, f);
    FrameStamped(p.gate.link.wire, p.sent, f + d);
    assert FrameAt(p.gate.link.wire, p.sent, f) && FrameAt(p.gate.link.wire, p.sent, f + d);
  }

  lemma {:induction false} TimestampIs(f: nat)
    ensures Timestamp(FIRST_TIMESTAMP, f) == (0x1234_5678 + 6000 * f) % 0x1_0000_0000
  {
  }

  lemma {:induction false} FrameStamped(wire: seq<Datagram>, sent: seq<Sent>, f: nat)
    requires f < |sent| && FrameAt(wire, sent, f)
    ensures sent[f].timestamp == (0x1234_5678 + 6000 * f) % 0x1_0000_0000
  {
  }

  lemma {:induction false} RunNumbered(w: World, n: nat)
    ensures Numbered(Run(w, n).gate.link)
    ensures var l := Run(w, n).gate.link; |l.wire| == Successes(w.gate.send, l.attempts)
  {
    hide Run, Inv, History, Numbered, Successes, FromCache, StepInv;
    RunGood(w, n);
  }

  /**
   * The gate, over every run: every interleaving with RTSP steps and every failure. Nothing before a whole
   * triple, an IDR next after every triple, cached sets only in order.
   */
  lemma {:induction false} RunLanguage(w: World, n: nat)
    ensures Language(Run(w, n).gate.log)
  {
    hide Run, History, Ordered, FromCache, StepInv, Language;
    RunGood(w, n);
  }

  /**
   * The same in the words of the standard: a triple is a VPS, an SPS and a PPS by their NAL unit types 32, 33 and 34,
   * and the first stream NAL unit attempted after one, to whomever, has type 19 or 20.
   */
  lemma {:induction false} RunTypes(w: World, n: nat, k: int, i: int)
    requires var log := Run(w, n).gate.log; TripleEnd(log, k) && k < i && StreamAt(log, i) && Quiet(log, k + 1, i)
    ensures var log := Run(w, n).gate.log;
            && TypeIs(log[Start(log, k)].nalu, 32) && TypeIs(log[Prev(log, k)].nalu, 33) && TypeIs(log[k].nalu, 34)
            && (TypeIs(log[i].nalu, 19) || TypeIs(log[i].nalu, 20))
  {
    hide Run, Quiet;
    RunLanguage(w, n);
  }

  /** The six type bits of the two-byte NAL unit header (section 7.3.1.2 of ITU-T H.265). */
  predicate TypeIs(nalu: seq<byte>, t: nat) {
    |nalu| >= 2 && (nalu[0] / 2) % 64 == t
  }

  /** With RTSP steps between messages only, nothing is sent but to the client of the last SETUP while it plays. */
  lemma {:induction false} RunOnTarget(w: World, n: nat)
    requires BetweenMessages(w.gate)
    ensures OnTarget(Run(w, n).gate.log)
  {
    hide Run, Inv, Ordered, FromCache, StepInv, OnTarget;
    RunGood(w, n);
  }

  /** Every client has recovered, in order, exactly the NAL units whose send to it returned 0. */
  lemma {:induction false} RunRecovered(w: World, n: nat, a: Address)
    requires TriedTransportable(Run(w, n).gate.log)
    ensures var g := Run(w, n).gate; Ear(g.link, a).out == Delivered(g.log, a, |g.log|)
  {
    hide Run, Inv, Ordered, FromCache, StepInv, Ear, TriedTransportable;
    RunGood(w, n);
  }

  /** The cache holds the last parameter set of each type, of at most 16 KiB, that was processed. */
  lemma {:induction false} RunCache(w: World, n: nat, t: int)
    requires AlwaysAllocates(w.gate) && IsParameterSet(t)
    ensures var g := Run(w, n).gate; Get(g.sets, t) == LastSeen(g.log, t, |g.log|)
  {
    hide Run, Inv, Ordered, FromCache, StepInv;
    RunGood(w, n);
  }

  /** So what goes out as a cached set was the last of its type at that time. */
  lemma {:induction false} RunFromCache(w: World, n: nat, i: nat)
    requires AlwaysAllocates(w.gate)
    requires var log := Run(w, n).gate.log; i < |log| && log[i].Tried? && log[i].cached
    ensures var log := Run(w, n).gate.log;
            IsParameterSet(NalType(log[i].nalu)) && LastSeen(log, NalType(log[i].nalu), i) == Some(log[i].nalu)
  {
    hide Run, History, Ordered, StepInv, LastSeen;
    RunGood(w, n);
    RunLanguage(w, n);
    var log := Run(w, n).gate.log;
    assert InPlace(log, i, NalType(log[i].nalu));
  }

  /** A run in which memory is refused every time attempts nothing. */
  lemma {:induction false} RunStarved(w: World, n: nat, i: nat)
    requires NeverAllocates(w.gate) && i < |Run(w, n).gate.log|
    ensures !Run(w, n).gate.log[i].Tried?
  {
    hide Run, Inv, History, Ordered, FromCache, StepInv;
    RunGood(w, n);
  }

  /**
   * The playing client and the cache in step: what the depacketiser recovered ends with the cached VPS, SPS
   * and PPS exactly when none of them changed since the latest triple and came only before the IDR behind it.
   */
  lemma {:induction false} RunInStep(w: World, n: nat, t: int)
    requires Smooth(w.gate) && IsParameterSet(t)
    requires var g := Run(w, n).gate;
             && Fits(g.log) && TriedTransportable(g.log)
             && g.session.play && g.session.addrSet && !g.session.need
    ensures var g := Run(w, n).gate;
            var heard := Ear(g.link, g.session.addr).out;
            LastOf(heard, t, |heard|) == Get(g.sets, t) <==> !Missed(g.log, t)
  {
    hide Run, Inv, Ordered, FromCache, StepInv, Ear, TriedTransportable, Smooth, Missed, Fits, History;
    RunGood(w, n);
    var g := Run(w, n).gate;
    RunRecovered(w, n, g.session.addr);
    LastRecovered(g.log, g.session.addr, t, |g.log|);
    InStepExactly(g, t);
  }
}
