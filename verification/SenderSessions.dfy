/**
 * Over whole runs: per-session safety and where the attempts go, each with its exact condition on the RTSP steps
 * that get in while messages are processed.
 */
module SenderSessions {
  import opened Bytes
  import opened AnnexB
  import opened Rtp
  import opened DataFifo
  import opened PlaybackGate
  import opened GateLanguage
  import opened GateHistory
  import opened GateSession
  import opened Snapshot
  import opened SenderLoop
  import opened SenderRuns

  // ----- the NAL units a run puts to the gate, each with the state it finds -----

  datatype Call = Call(gate: Gate, st: Stamp, nalu: seq<byte>, marker: bool, canSend: bool)

  function After(env: Env, c: Call): Gate {
    ProcessNalu(env, c.gate, c.st, c.nalu, c.marker, c.canSend).0
  }

  function UnitCalls(env: Env, g: Gate, st: Stamp, us: seq<Unit>, i: nat, marker: bool, canSend: bool): seq<Call>
    requires i <= |us|
    decreases |us| - i
  {
    if i == |us| then []
    else
      var (g', ok) := ProcessNalu(env, g, st, us[i].nalu, marker && us[i].final, canSend);
      [Call(g, st, us[i].nalu, marker && us[i].final, canSend)]
      + (if ok then UnitCalls(env, g', st, us, i + 1, marker, canSend) else [])
  }

  function BufferCalls(env: Env, g: Gate, st: Stamp, buf: seq<byte>, marker: bool, canSend: bool): seq<Call> {
    if |buf| < 2 then []
    else if !StartsWithCode(buf) then [Call(g, st, buf, marker, canSend)]
    else UnitCalls(env, g, st, Split(buf, 0), 0, marker, canSend)
  }

  function PackCalls(w: World, p: SenderLoop.Player, st: Stamp, m: IpcMsg, i: nat, canSend: bool): seq<Call>
    requires i <= m.packCnt <= MAX_PACKS
    decreases m.packCnt - i
  {
    if i == m.packCnt then []
    else
      var marker := i + 1 == m.packCnt;
      var mapped := CanMap(m.packs[i], w.mmap(p.maps));
      (if mapped then BufferCalls(w.gate, p.gate, st, m.packs[i].data, marker, canSend) else [])
      + PackCalls(w, ProcessPack(w, p, st, m.packs[i], i, marker, canSend).0, st, m, i + 1, canSend)
  }

  function TurnCalls(w: World, p: SenderLoop.Player): seq<Call> {
    var found := w.item(p.polls);
    var p1 := p.(gate := Controlled(p.gate, w.between(p.items)));
    if found.None? || !IsValid(found.value) || Stale(p1, found.value) then []
    else PackCalls(w, p1, StampOf(p1), found.value, 0, p1.gate.session.play && p1.gate.session.addrSet)
  }

  function Calls(w: World, n: nat): seq<Call> {
    if n == 0 then [] else Calls(w, n - 1) + TurnCalls(w, Run(w, n - 1))
  }

  // ----- per-session safety -----

  predicate Harmless(env: Env, c: Call) {
    |c.nalu| >= 2 && c.canSend ==> NoHarm(env, c.gate, c.st, c.nalu)
  }

  ghost predicate AllHarmless(env: Env, cs: seq<Call>) {
    forall i :: 0 <= i < |cs| ==> Harmless(env, cs[i])
  }

  ghost predicate AllSafe(env: Env, cs: seq<Call>) {
    forall i :: 0 <= i < |cs| ==> Safe(After(env, cs[i]))
  }

  ghost predicate AllGood(env: Env, cs: seq<Call>) {
    forall i :: 0 <= i < |cs| ==> Good(env, cs[i].gate) && Aimed(env, cs[i].gate, cs[i].st, cs[i].canSend)
  }

  /** What a stretch of the run that puts these NAL units to the gate, and leaves g', has to satisfy. */
  ghost predicate Exact(env: Env, cs: seq<Call>, g': Gate) {
    (AllSafe(env, cs) <==> AllHarmless(env, cs)) && (AllHarmless(env, cs) ==> Settled(g'))
  }

  lemma {:induction false} NoCalls(env: Env, g: Gate)
    requires Settled(g)
    ensures Exact(env, [], g) && AllGood(env, [])
  {
  }

  lemma {:induction false} ExactThen(env: Env, a: seq<Call>, b: seq<Call>, g1: Gate, g2: Gate)
    requires Exact(env, a, g1) && (Settled(g1) ==> Exact(env, b, g2))
    ensures Exact(env, a + b, g2)
  {
    hide Safe, Settled, Harmless, After;
    var cs := a + b;
    assert AllSafe(env, cs) <==> AllSafe(env, a) && AllSafe(env, b) by {
      assert forall i :: 0 <= i < |a| ==> cs[i] == a[i];
      assert forall i :: 0 <= i < |b| ==> cs[|a| + i] == b[i];
    }
    assert AllHarmless(env, cs) <==> AllHarmless(env, a) && AllHarmless(env, b) by {
      assert forall i :: 0 <= i < |a| ==> cs[i] == a[i];
      assert forall i :: 0 <= i < |b| ==> cs[|a| + i] == b[i];
    }
  }

  lemma {:induction false} OneCall(env: Env, g: Gate, st: Stamp, nalu: seq<byte>, marker: bool, canSend: bool)
    requires Good(env, g) && Aimed(env, g, st, canSend)
    ensures var cs := [Call(g, st, nalu, marker, canSend)];
            (Settled(g) ==> Exact(env, cs, ProcessNalu(env, g, st, nalu, marker, canSend).0)) && AllGood(env, cs)
  {
    hide ProcessNalu, NoHarm, Inv, History, Sampled, Settled, Safe;
    var cs := [Call(g, st, nalu, marker, canSend)];
    assert cs[0].gate == g;
    if Settled(g) {
      ProcessNaluExactly(env, g, st, nalu, marker, canSend);
    }
  }

  lemma {:induction false} UnitsExact(env: Env, g: Gate, st: Stamp, us: seq<Unit>, i: nat, marker: bool, canSend: bool)
    requires i <= |us| && Good(env, g) && Aimed(env, g, st, canSend)
    ensures var cs := UnitCalls(env, g, st, us, i, marker, canSend);
            AllGood(env, cs) && (Settled(g) ==> Exact(env, cs, ProcessUnits(env, g, st, us, i, marker, canSend).0))
    decreases |us| - i
  {
    hide Good, Aimed, ProcessNalu, Exact, Settled;
    if i == |us| {
      if Settled(g) {
        NoCalls(env, g);
      }
    } else {
      var last := marker && us[i].final;
      var (g', ok) := ProcessNalu(env, g, st, us[i].nalu, last, canSend);
      OneCall(env, g, st, us[i].nalu, last, canSend);
      NaluGood(env, g, st, us[i].nalu, last, canSend);
      if ok {
        UnitsExact(env, g', st, us, i + 1, marker, canSend);
        if Settled(g) {
          ExactThen(env, [Call(g, st, us[i].nalu, last, canSend)], UnitCalls(env, g', st, us, i + 1, marker, canSend), g',
                    ProcessUnits(env, g', st, us, i + 1, marker, canSend).0);
        }
      } else {
        assert [Call(g, st, us[i].nalu, last, canSend)] + [] == [Call(g, st, us[i].nalu, last, canSend)];
      }
    }
  }

  lemma {:induction false} BufferExact(env: Env, g: Gate, st: Stamp, buf: seq<byte>, marker: bool, canSend: bool)
    requires Good(env, g) && Aimed(env, g, st, canSend)
    ensures var cs := BufferCalls(env, g, st, buf, marker, canSend);
            AllGood(env, cs) && (Settled(g) ==> Exact(env, cs, ProcessBuffer(env, g, st, buf, marker, canSend).0))
  {
    hide Good, Aimed, ProcessNalu, ProcessUnits, UnitCalls, Split, StartsWithCode, Exact, Settled, AllGood;
    if |buf| < 2 {
      assert AllGood(env, []) by {
        NothingGood(env);
      }
      if Settled(g) {
        NoCalls(env, g);
      }
    } else if StartsWithCode(buf) {
      UnitsExact(env, g, st, Split(buf, 0), 0, marker, canSend);
    } else {
      OneCall(env, g, st, buf, marker, canSend);
    }
  }

  lemma {:induction false} NothingGood(env: Env)
    ensures AllGood(env, [])
  {
  }

  lemma {:induction false} GoodThen(env: Env, a: seq<Call>, b: seq<Call>)
    requires AllGood(env, a) && AllGood(env, b)
    ensures AllGood(env, a + b)
  {
    hide Good, Aimed;
  }

  lemma {:induction false} PacksExact(w: World, p: SenderLoop.Player, st: Stamp, m: IpcMsg, i: nat, canSend: bool)
    requires i <= m.packCnt <= MAX_PACKS && Good(w.gate, p.gate) && Aimed(w.gate, p.gate, st, canSend)
    ensures var cs := PackCalls(w, p, st, m, i, canSend);
            && AllGood(w.gate, cs)
            && (Settled(p.gate) ==> Exact(w.gate, cs, ProcessPacks(w, p, st, m, i, canSend).gate))
    decreases m.packCnt - i
  {
    hide Good, Aimed, ProcessBuffer, BufferCalls, CanMap, PackIo, Exact, Settled, AllGood;
    var env := w.gate;
    NothingGood(env);
    if i == m.packCnt {
      if Settled(p.gate) {
        NoCalls(env, p.gate);
      }
      return;
    }
    var marker := i + 1 == m.packCnt;
    var buf := m.packs[i].data;
    var p' := ProcessPack(w, p, st, m.packs[i], i, marker, canSend).0;
    var first := if CanMap(m.packs[i], w.mmap(p.maps)) then BufferCalls(env, p.gate, st, buf, marker, canSend) else [];
    var rest := PackCalls(w, p', st, m, i + 1, canSend);
    BufferExact(env, p.gate, st, buf, marker, canSend);
    BufferGood(env, p.gate, st, buf, marker, canSend);
    PacksExact(w, p', st, m, i + 1, canSend);
    GoodThen(env, first, rest);
    if Settled(p.gate) {
      NoCalls(env, p.gate);
      ExactThen(env, first, rest, p'.gate, ProcessPacks(w, p', st, m, i + 1, canSend).gate);
    }
  }

  lemma {:induction false} TurnExact(w: World, p: SenderLoop.Player)
    requires ValidSnap(p.snap) && Good(w.gate, p.gate)
    ensures var cs := TurnCalls(w, p);
            AllGood(w.gate, cs) && (Settled(p.gate) ==> Exact(w.gate, cs, Turn(w, p).gate))
  {
    hide Good, Aimed, PlayMessage, PackCalls, TakeSnapshot, Controlled, ValidSnap, Settled, Exact, AllGood, StampOf;
    NothingGood(w.gate);
    var found := w.item(p.polls);
    if found.None? {
      if Settled(p.gate) {
        NoCalls(w.gate, p.gate);
      }
      return;
    }
    var m: IpcMsg := found.value;
    var c := Controlled(p.gate, w.between(p.items));
    ControlledGood(w.gate, p.gate, w.between(p.items));
    if Settled(p.gate) {
      ControlledSettled(p.gate, w.between(p.items));
    }
    var p1 := p.(polls := p.polls + 1, io := p.io + [ReadItem(p.items)], gate := c, items := p.items + 1);
    if IsValid(m) && !Stale(p1, m) {
      var p2 := Before(w, p1, m);
      var canSend := c.session.play && c.session.addrSet;
      AimedAtStart(w, p1);
      BeforeLeaves(w, p1, m);
      PlayMessageGate(w, p1, m);
      PacksExact(w, p2, StampOf(p1), m, 0, canSend);
      SameCalls(w, p.(gate := c), p2, StampOf(p1), m, 0, canSend);
      SameStamp(p1, p.(gate := c));
    } else if Settled(p.gate) {
      NoCalls(w.gate, c);
    }
  }

  /** The state in which a message's packs are gone through. */
  function Before(w: World, p: SenderLoop.Player, m: IpcMsg): SenderLoop.Player
    requires ValidSnap(p.snap) && IsValid(m)
  {
    var p1 := p.(lastRead := m.number, numbers := p.numbers + [m.number]);
    if Flagged(m) then TakeSnapshot(w, p1, m) else p1
  }

  lemma {:induction false} BeforeLeaves(w: World, p: SenderLoop.Player, m: IpcMsg)
    requires ValidSnap(p.snap) && IsValid(m)
    ensures var p' := Before(w, p, m); p'.gate == p.gate && p'.maps == p.maps && p'.unmaps == p.unmaps
  {
    hide TakeSnapshot, ValidSnap;
    SnapshotLeaves(w, p.(lastRead := m.number, numbers := p.numbers + [m.number]), m);
  }

  lemma {:induction false} SameStamp(p: SenderLoop.Player, p': SenderLoop.Player)
    requires p.gate == p'.gate && p.timestamp == p'.timestamp
    ensures StampOf(p) == StampOf(p')
  {
  }

  /** What is put to the gate depends on the gate, the mappings made and the unmappings only. */
  lemma {:induction false} SameCalls(w: World, p: SenderLoop.Player, p': SenderLoop.Player, st: Stamp, m: IpcMsg, i: nat,
                                     canSend: bool)
    requires i <= m.packCnt <= MAX_PACKS && p.gate == p'.gate && p.maps == p'.maps && p.unmaps == p'.unmaps
    ensures PackCalls(w, p, st, m, i, canSend) == PackCalls(w, p', st, m, i, canSend)
    decreases m.packCnt - i
  {
    hide ProcessBuffer, BufferCalls, CanMap, PackIo;
    if i < m.packCnt {
      var marker := i + 1 == m.packCnt;
      SameCalls(w, ProcessPack(w, p, st, m.packs[i], i, marker, canSend).0,
                ProcessPack(w, p', st, m.packs[i], i, marker, canSend).0, st, m, i + 1, canSend);
    }
  }

  lemma {:induction false} CallsExact(w: World, n: nat)
    ensures AllGood(w.gate, Calls(w, n)) && Exact(w.gate, Calls(w, n), Run(w, n).gate)
  {
    hide Turn, TurnCalls, Settled, Exact, AllGood, Good;
    if n == 0 {
      StartSettled();
      NoCalls(w.gate, START.gate);
    } else {
      CallsExact(w, n - 1);
      var p := Run(w, n - 1);
      RunGood(w, n - 1);
      TurnExact(w, p);
      GoodThen(w.gate, Calls(w, n - 1), TurnCalls(w, p));
      ExactThen(w.gate, Calls(w, n - 1), TurnCalls(w, p), p.gate, Turn(w, p).gate);
    }
  }

  lemma {:induction false} StartSettled()
    ensures Settled(START.gate)
  {
  }

  /**
   * Per-session safety, exactly: it holds, and no request is forgotten, after every NAL unit of a run if and only
   * if no request got in where it does harm, whatever else happened.
   */
  lemma {:induction false} RunSessionsExactly(w: World, n: nat)
    ensures AllSafe(w.gate, Calls(w, n)) <==> AllHarmless(w.gate, Calls(w, n))
    ensures AllHarmless(w.gate, Calls(w, n)) ==> Safe(Run(w, n).gate)
  {
    hide Run, Calls, AllGood, AllSafe, AllHarmless, Settled, Safe;
    CallsExact(w, n);
    if AllHarmless(w.gate, Calls(w, n)) {
      SettledIsSafe(Run(w, n).gate);
    }
  }

  // ----- conditions on the schedule that suffice -----

  lemma {:induction false} SameClient(g: Gate, cs: seq<Control>)
    requires NoSetup(cs)
    ensures Controlled(g, cs).session.addr == g.session.addr
    decreases |cs|
  {
    if cs != [] {
      assert !cs[0].Setup?;
      assert NoSetup(cs[1..]);
      SameClient(ControlStep(g, cs[0]), cs[1..]);
    }
  }

  lemma {:induction false} OrderlyHarmless(env: Env, c: Call)
    requires NoRequestInside(env) && NoSetupInside(env) && Aimed(env, c.gate, c.st, c.canSend)
    ensures Harmless(env, c)
  {
    hide Controlled, SendSets, Calm, NoSetup, Loyal;
    if |c.nalu| >= 2 && c.canSend {
      var g1 := Noted(env, c.gate, c.nalu);
      var h := AtRead(env, g1);
      SameClient(g1, env.atRead(g1.readings));
      SameClient(h, env.atSend(h.tries));
    }
  }

  /**
   * After every SETUP or PLAY the first NAL unit attempted to a client is the cached VPS, and the first stream
   * NAL unit an IDR behind a triple for that client, if no SETUP comes inside a message and no request between
   * the reading of the flag and what is sent on the strength of it.
   */
  lemma {:induction false} RunSessions(w: World, n: nat)
    requires NoRequestInside(w.gate) && NoSetupInside(w.gate)
    ensures ClientLanguage(Run(w, n).gate.log) && VpsFirst(Run(w, n).gate.log)
  {
    hide Run, Calls, ClientLanguage, VpsFirst, Harmless, Good, Aimed, NoRequestInside, NoSetupInside;
    CallsExact(w, n);
    RunSessionsExactly(w, n);
    var cs := Calls(w, n);
    forall i | 0 <= i < |cs|
      ensures Harmless(w.gate, cs[i])
    {
      OrderlyHarmless(w.gate, cs[i]);
    }
  }

  // ----- where the attempts go -----

  /** The history goes on from `log` with attempts at `a` only, and none without a target. */
  ghost predicate GoesTo(log: seq<Event>, more: seq<Event>, a: Address, canSend: bool) {
    && log <= more
    && forall i :: |log| <= i < |more| && more[i].Tried? ==> canSend && more[i].dest == a
  }

  lemma {:induction false} GoesThen(log: seq<Event>, mid: seq<Event>, more: seq<Event>, a: Address, canSend: bool)
    requires GoesTo(log, mid, a, canSend) && GoesTo(mid, more, a, canSend)
    ensures GoesTo(log, more, a, canSend)
  {
    assert forall i :: 0 <= i < |mid| ==> more[i] == mid[i];
  }

  lemma {:induction false} ControlledGoes(g: Gate, cs: seq<Control>, a: Address, canSend: bool)
    ensures GoesTo(g.log, Controlled(g, cs).log, a, canSend)
  {
    hide Controlled;
    ControlledLog(g, cs);
  }

  lemma {:induction false} TryGoes(env: Env, g: Gate, st: Stamp, nalu: seq<byte>, marker: bool, cached: bool)
    ensures GoesTo(g.log, TrySend(env, g, st, nalu, marker, cached).0.log, st.dest, true)
  {
    hide Controlled, SendNalu;
    ControlledGoes(g, env.atSend(g.tries), st.dest, true);
  }

  lemma {:induction false} SendSetsGoes(env: Env, g: Gate, st: Stamp)
    ensures GoesTo(g.log, SendSets(env, g, st).0.log, st.dest, true)
  {
    if HaveAll(g.sets) {
      hide TrySend, GoesTo;
      TryGoes(env, g, st, g.sets.vps.value, false, true);
      var (g1, ok1) := TrySend(env, g, st, g.sets.vps.value, false, true);
      if ok1 {
        TryGoes(env, g1, st, g.sets.sps.value, false, true);
        var (g2, ok2) := TrySend(env, g1, st, g.sets.sps.value, false, true);
        GoesThen(g.log, g1.log, g2.log, st.dest, true);
        if ok2 {
          TryGoes(env, g2, st, g.sets.pps.value, false, true);
          GoesThen(g.log, g2.log, TrySend(env, g2, st, g.sets.pps.value, false, true).0.log, st.dest, true);
        }
      }
    }
  }

  lemma {:induction false} PassGoes(env: Env, g: Gate, st: Stamp, nalu: seq<byte>, marker: bool)
    ensures GoesTo(g.log, Pass(env, g, st, nalu, marker).0.log, st.dest, true)
  {
    hide TrySend;
    TryGoes(env, g.(waitIdr := false), st, nalu, marker, false);
  }

  lemma {:induction false} NaluGoes(env: Env, g: Gate, st: Stamp, nalu: seq<byte>, marker: bool, canSend: bool)
    ensures GoesTo(g.log, ProcessNalu(env, g, st, nalu, marker, canSend).0.log, st.dest, canSend)
  {
    hide SendSets, Pass, Controlled;
    if |nalu| < 2 { return; }
    var g1 := Noted(env, g, nalu);
    assert GoesTo(g.log, g1.log, st.dest, canSend);
    if !canSend { return; }
    hide Noted, GoesTo;
    ControlledGoes(g1, env.atRead(g1.readings), st.dest, true);
    var g2 := AtRead(env, g1);
    GoesThen(g.log, g1.log, g2.log, st.dest, true);
    if !g2.session.need {
      PassGoes(env, g2, st, nalu, marker);
      GoesThen(g.log, g2.log, Pass(env, g2, st, nalu, marker).0.log, st.dest, true);
    } else {
      SendSetsGoes(env, g2, st);
      var (g3, ok) := SendSets(env, g2, st);
      GoesThen(g.log, g2.log, g3.log, st.dest, true);
      if ok {
        ControlledGoes(g3, env.atMark(g3.markings), st.dest, true);
        var g4 := AtMark(env, g3);
        GoesThen(g.log, g3.log, g4.log, st.dest, true);
        PassGoes(env, g4, st, nalu, marker);
        GoesThen(g.log, g4.log, Pass(env, g4, st, nalu, marker).0.log, st.dest, true);
      }
    }
  }

  lemma {:induction false} UnitsGoes(env: Env, g: Gate, st: Stamp, us: seq<Unit>, i: nat, marker: bool, canSend: bool)
    requires i <= |us|
    ensures GoesTo(g.log, ProcessUnits(env, g, st, us, i, marker, canSend).0.log, st.dest, canSend)
    decreases |us| - i
  {
    hide ProcessNalu;
    if i < |us| {
      hide GoesTo;
      var (g', ok) := ProcessNalu(env, g, st, us[i].nalu, marker && us[i].final, canSend);
      NaluGoes(env, g, st, us[i].nalu, marker && us[i].final, canSend);
      if ok {
        UnitsGoes(env, g', st, us, i + 1, marker, canSend);
        GoesThen(g.log, g'.log, ProcessUnits(env, g', st, us, i + 1, marker, canSend).0.log, st.dest, canSend);
      }
    }
  }

  lemma {:induction false} PacksGoes(w: World, p: SenderLoop.Player, st: Stamp, m: IpcMsg, i: nat, canSend: bool)
    requires i <= m.packCnt <= MAX_PACKS
    ensures GoesTo(p.gate.log, ProcessPacks(w, p, st, m, i, canSend).gate.log, st.dest, canSend)
    decreases m.packCnt - i
  {
    hide ProcessNalu, ProcessUnits, Split, StartsWithCode, CanMap, PackIo;
    if i < m.packCnt {
      var buf, marker := m.packs[i].data, i + 1 == m.packCnt;
      NaluGoes(w.gate, p.gate, st, buf, marker, canSend);
      UnitsGoes(w.gate, p.gate, st, Split(buf, 0), 0, marker, canSend);
      var p' := ProcessPack(w, p, st, m.packs[i], i, marker, canSend).0;
      assert GoesTo(p.gate.log, p'.gate.log, st.dest, canSend);
      hide GoesTo, ProcessPack;
      PacksGoes(w, p', st, m, i + 1, canSend);
      GoesThen(p.gate.log, p'.gate.log, ProcessPacks(w, p', st, m, i + 1, canSend).gate.log, st.dest, canSend);
    }
  }

  /** How long the history is when the target of the k-th turn's item is sampled. */
  function SampledAt(w: World, k: nat): nat {
    |Controlled(Run(w, k).gate, w.between(Run(w, k).items)).log|
  }

  /** While the k-th turn's item is processed the RTSP steps leave its target the client that plays. */
  ghost predicate StaysAimed(w: World, k: nat) {
    var log, m := Run(w, k + 1).gate.log, SampledAt(w, k);
    forall i :: m <= i < |log| && log[i].Tried? ==> StillFor(log, m, i, log[i].dest)
  }

  lemma {:induction false} TurnGoes(w: World, p: SenderLoop.Player)
    requires ValidSnap(p.snap)
    ensures var c, g' := Controlled(p.gate, w.between(p.items)), Turn(w, p).gate;
            if w.item(p.polls).None? then g' == p.gate
            else GoesTo(c.log, g'.log, c.session.addr, c.session.play && c.session.addrSet)
  {
    hide PlayMessage, ProcessPacks, TakeSnapshot, Controlled, ValidSnap, GoesTo;
    var found := w.item(p.polls);
    if found.Some? {
      var m: IpcMsg := found.value;
      var c := Controlled(p.gate, w.between(p.items));
      var p1 := p.(polls := p.polls + 1, io := p.io + [ReadItem(p.items)], gate := c, items := p.items + 1);
      if IsValid(m) && !Stale(p1, m) {
        var canSend := c.session.play && c.session.addrSet;
        PlayMessageGate(w, p1, m);
        BeforeLeaves(w, p1, m);
        PacksGoes(w, Before(w, p1, m), StampOf(p1), m, 0, canSend);
        Nobody(c.log, PlayMessage(w, p1, m).gate.log, StampOf(p1).dest, c.session.addr, canSend);
      } else {
        Stays(c.log, c.session.addr, c.session.play && c.session.addrSet);
      }
    }
  }

  lemma {:induction false} LogGrows(w: World, k: nat)
    ensures Run(w, k).gate.log <= Run(w, k + 1).gate.log
  {
    hide Turn, Controlled;
    var p := Run(w, k);
    TurnGoes(w, p);
    ControlledLog(p.gate, w.between(p.items));
  }

  lemma {:induction false} Nobody(log: seq<Event>, more: seq<Event>, a: Address, b: Address, canSend: bool)
    requires GoesTo(log, more, a, canSend) && (canSend ==> a == b)
    ensures GoesTo(log, more, b, canSend)
  {
  }

  lemma {:induction false} Stays(log: seq<Event>, a: Address, canSend: bool)
    ensures GoesTo(log, log, a, canSend)
  {
  }

  lemma {:induction false} OnTargetSplit(log: seq<Event>, mid: seq<Event>, more: seq<Event>, a: Address, canSend: bool)
    requires log <= mid && (forall i :: |log| <= i < |mid| ==> mid[i].Ctl?) && GoesTo(mid, more, a, canSend)
    requires canSend ==> PlaysFor(SessionAfter(mid, |mid|), a)
    ensures OnTarget(more) <==>
            && OnTarget(log)
            && forall i :: |mid| <= i < |more| && more[i].Tried? ==> StillFor(more, |mid|, i, more[i].dest)
  {
    hide PlaysFor, SessionAfter, StillFor;
    forall i | 0 <= i < |log|
      ensures more[i] == log[i] && SessionAfter(more, i) == SessionAfter(log, i)
    {
      assert log[i] == mid[i] == more[i];
      StepsSame(mid, more, i);
      StepsSame(log, mid, i);
    }
    forall i | |log| <= i < |mid|
      ensures !more[i].Tried?
    {
      assert more[i] == mid[i];
    }
    StepsSame(mid, more, |mid|);
    forall i | |mid| <= i < |more| && more[i].Tried?
      ensures PlaysFor(SessionAfter(more, i), more[i].dest) <==> StillFor(more, |mid|, i, more[i].dest)
    {
      StillPlaysExactly(more, |mid|, i, a);
    }
  }

  lemma {:induction false} TurnOnTarget(w: World, k: nat)
    ensures OnTarget(Run(w, k + 1).gate.log) <==> OnTarget(Run(w, k).gate.log) && StaysAimed(w, k)
  {
    var p := Run(w, k);
    var c := Controlled(p.gate, w.between(p.items));
    assert Run(w, k + 1) == Turn(w, p) && SampledAt(w, k) == |c.log|;
    RunGood(w, k);
    hide Run, Turn, Controlled, OnTarget, SessionAfter, StillFor, PlaysFor, Good, GoesTo;
    TurnGoes(w, p);
    ControlledLog(p.gate, w.between(p.items));
    if w.item(p.polls).Some? {
      ControlledGood(w.gate, p.gate, w.between(p.items));
      GoodMatches(w.gate, c);
      OnTargetSplit(p.gate.log, c.log, Run(w, k + 1).gate.log, c.session.addr, c.session.play && c.session.addrSet);
    }
  }

  /**
   * Every attempt of a run goes to the client of the last SETUP, after a PLAY not yet undone, if and only if the
   * RTSP steps that got in since its message's target was sampled end in a PLAY, if there are any, and name no
   * other client.
   */
  lemma {:induction false} RunOnTargetExactly(w: World, n: nat)
    ensures OnTarget(Run(w, n).gate.log) <==> forall k: nat :: k < n ==> StaysAimed(w, k)
  {
    hide Run, OnTarget, StaysAimed;
    if n == 0 {
      StartOnTarget(w);
    } else {
      RunOnTargetExactly(w, n - 1);
      TurnOnTarget(w, n - 1);
    }
  }

  lemma {:induction false} StartOnTarget(w: World)
    ensures OnTarget(Run(w, 0).gate.log)
  {
  }

  lemma {:induction false} GoodMatches(env: Env, g: Gate)
    requires Good(env, g)
    ensures PlaysFor(SessionAfter(g.log, |g.log|), g.session.addr) <==> g.session.play && g.session.addrSet
  {
    hide Inv, Recovered, OnTarget;
  }
}
