/**
 * Runs from program start that go wrong. Three break per-session safety, one for each way a request can fall
 * inside a message: between a triple and the clearing of the flag, between the sampling of the target and the
 * reading of the flag, and between that reading and the send it allowed. One sends after a TEARDOWN, and in one the
 * client is left with an old parameter set.
 */
module SessionWitness {
  import opened Bytes
  import opened AnnexB
  import opened Rtp
  import opened Depacketiser
  import opened DataFifo
  import opened PlaybackGate
  import opened GateLanguage
  import opened GateHistory
  import opened GateInStep
  import opened GateSession
  import opened Snapshot
  import opened SenderLoop
  import opened SenderRuns

  const A := Address(1, 5004)
  const B := Address(2, 5004)

  type Short = x: seq<byte> | |x| == 2 witness [38, 1]

  /** VPS, SPS, PPS and two more NAL units, of two bytes each. */
  datatype Script = Script(fourth: Short, fifth: Short)

  /** An IDR and a trailing picture. */
  const PICTURES := Script([38, 1], [2, 1])

  /** Another SPS before the IDR. */
  const NEW_SPS := Script([66, 2], [38, 1])

  function Nth(x: Script, k: nat): Short {
    if k == 0 then [64, 1] else if k == 1 then [66, 1] else if k == 2 then [68, 1] else if k == 3 then x.fourth else x.fifth
  }

  /** One NAL unit to a message, without start code. */
  function RawMsg(x: Script, k: nat): IpcMsg
    requires k < 5
  {
    Msg(MAGIC, VERSION, 1, k + 1, 0, 0, 0,
        [Pack(1, Nth(x, k)), NO_PACK, NO_PACK, NO_PACK, NO_PACK, NO_PACK, NO_PACK, NO_PACK])
  }

  /** A sets up and plays before the first message; nothing fails; the rest of the RTSP steps are parameters. */
  function SceneOf(x: Script, atRead: nat -> seq<Control>, atMark: nat -> seq<Control>, atSend: nat -> seq<Control>): World
  {
    World(Env(k => true, k => true, atRead, atMark, atSend), SnapEnv(k => true, k => true),
          k => if k < 5 then Some(RawMsg(x, k)) else None, k => if k == 0 then [Setup(A), Play] else [],
          k => true, k => true, false)
  }

  function Scene(atRead: nat -> seq<Control>, atMark: nat -> seq<Control>, atSend: nat -> seq<Control>): World {
    SceneOf(PICTURES, atRead, atMark, atSend)
  }

  lemma {:induction false} TurnIs(w: World, x: Script, p: SenderLoop.Player, k: nat)
    requires k < 5 && w.item(k) == Some(RawMsg(x, k)) && p.polls == p.items == p.lastRead == k
    requires ValidSnap(p.snap) && w.mmap(p.maps)
    ensures var p', g := Turn(w, p), Controlled(p.gate, w.between(k));
            && p'.polls == p'.items == p'.lastRead == k + 1
            && p'.gate == ProcessNalu(w.gate, g, StampOf(p.(gate := g)), Nth(x, k), true,
                                      g.session.play && g.session.addrSet).0
  {
    hide ProcessNalu, Controlled, ValidSnap, Nth;
    var m := RawMsg(x, k);
    assert SumLen(m.packs, 0) == 0;
    assert IsValid(m) && !Flagged(m) && m.packs[0].data == Nth(x, k);
    RawNth(x, k);
    var g := Controlled(p.gate, w.between(k));
    var canSend := g.session.play && g.session.addrSet;
    var p1 := p.(polls := k + 1, io := p.io + [ReadItem(k)], gate := g, items := k + 1);
    var p2 := p1.(lastRead := m.number, numbers := p1.numbers + [m.number]);
    var p3 := ProcessPack(w, p2, StampOf(p1), m.packs[0], 0, true, canSend).0;
    assert ProcessPacks(w, p2, StampOf(p1), m, 0, canSend) == ProcessPacks(w, p3, StampOf(p1), m, 1, canSend) == p3;
  }

  lemma {:induction false} RawNth(x: Script, k: nat)
    ensures !StartsWithCode(Nth(x, k))
  {
  }

  /** The gate, but for the link and the count of allocations. */
  predicate Is(g: Gate, sets: Sets, wait: bool, session: Session, log: seq<Event>, readings: nat, markings: nat, tries: nat) {
    && g.sets == sets && g.waitIdr == wait && g.session == session && g.log == log
    && g.readings == readings && g.markings == markings && g.tries == tries
  }

  const TWO_SETS := Sets(Some([64, 1]), Some([66, 1]), None)
  const ALL_SETS := Sets(Some([64, 1]), Some([66, 1]), Some([68, 1]))

  function Attempts(a: Address): seq<Event> {
    [Tried(a, [64, 1], true, true)] + [Tried(a, [66, 1], true, true)] + [Tried(a, [68, 1], true, true)]
  }

  const SETUP_LOG: seq<Event> := [Ctl(Setup(A)), Ctl(Play)]
  const SETS_LOG: seq<Event> := SETUP_LOG + [Seen([64, 1])] + [Seen([66, 1])] + [Seen([68, 1])] + Attempts(A)

  const NEEDING := Session(true, true, true, A)
  const CLEARED := Session(true, true, false, A)

  ghost predicate NothingFails(env: Env) {
    AlwaysSends(env) && AlwaysAllocates(env)
  }

  lemma {:induction false} SendIs(env: Env, g: Gate, st: Stamp, nalu: seq<byte>, marker: bool, cached: bool)
    requires NothingFails(env) && |nalu| >= 2
    ensures var h := AtSend(env, g);
            var (g', ok) := TrySend(env, g, st, nalu, marker, cached);
            ok && Is(g', h.sets, h.waitIdr, h.session, h.log + [Tried(st.dest, nalu, cached, true)],
                     h.readings, h.markings, h.tries)
  {
    hide SendFrom;
    AllFromSent(env.send, AtSend(env, g).link, st, nalu, 0, marker);
  }

  lemma {:induction false} Undisturbed(g: Gate)
    ensures Controlled(g, []) == g
  {
  }

  lemma {:induction false} One(g: Gate, c: Control)
    ensures Controlled(g, [c]) == ControlStep(g, c)
  {
    var cs := [c];
    assert cs[1..] == [];
    Undisturbed(ControlStep(g, c));
  }

  lemma {:induction false} Two(g: Gate, c: Control, d: Control)
    ensures Controlled(g, [c, d]) == ControlStep(ControlStep(g, c), d)
  {
    var cs := [c, d];
    assert cs[1..] == [d];
    One(ControlStep(g, c), d);
  }

  /** A triple sent without a step in between. */
  lemma {:induction false} TripleIs(env: Env, g: Gate, st: Stamp)
    requires NothingFails(env) && g.sets == ALL_SETS
    requires env.atSend(g.tries) == env.atSend(g.tries + 1) == env.atSend(g.tries + 2) == []
    ensures var (g', ok) := SendSets(env, g, st);
            ok && Is(g', ALL_SETS, g.waitIdr, g.session, g.log + Attempts(st.dest), g.readings, g.markings, g.tries + 3)
  {
    hide TrySend, NothingFails, Controlled;
    SendIs(env, g, st, [64, 1], false, true);
    Undisturbed(g);
    var g1 := TrySend(env, g, st, [64, 1], false, true).0;
    SendIs(env, g1, st, [66, 1], false, true);
    Undisturbed(g1);
    var g2 := TrySend(env, g1, st, [66, 1], false, true).0;
    SendIs(env, g2, st, [68, 1], false, true);
    Undisturbed(g2);
    assert g.log + [Tried(st.dest, [64, 1], true, true)] + [Tried(st.dest, [66, 1], true, true)]
           + [Tried(st.dest, [68, 1], true, true)] == g.log + Attempts(st.dest);
  }

  // ----- the gate, message by message -----

  lemma {:induction false} PlayStarts()
    ensures Is(Controlled(START.gate, [Setup(A), Play]), Sets(None, None, None), false, NEEDING, SETUP_LOG, 0, 0, 0)
  {
    Two(START.gate, Setup(A), Play);
  }

  /** A set that leaves another one missing. */
  lemma {:induction false} GatherStep(env: Env, g: Gate, st: Stamp, nalu: seq<byte>)
    requires NothingFails(env) && env.atRead(g.readings) == [] && g.session.need
    requires |nalu| == 2 && IsParameterSet(NalType(nalu)) && Get(g.sets, NalType(nalu)).None?
    requires !HaveAll(PlaybackGate.Put(g.sets, NalType(nalu), nalu))
    ensures Is(ProcessNalu(env, g, st, nalu, true, true).0, PlaybackGate.Put(g.sets, NalType(nalu), nalu), g.waitIdr, g.session,
               g.log + [Seen(nalu)], g.readings + 1, g.markings, g.tries)
  {
    hide Controlled;
    Undisturbed(Noted(env, g, nalu));
    NoTriple(env, AtRead(env, Noted(env, g, nalu)), st);
  }

  /** The PPS, which completes the sets: the triple goes out, the flag is cleared, the PPS is held back. */
  lemma {:induction false} CompleteStep(env: Env, g: Gate, st: Stamp)
    requires NothingFails(env) && st.dest == A
    requires Is(g, TWO_SETS, false, NEEDING, SETUP_LOG + [Seen([64, 1])] + [Seen([66, 1])], 2, 0, 0)
    requires env.atRead(2) == env.atSend(0) == env.atSend(1) == env.atSend(2) == []
    ensures var g' := ProcessNalu(env, g, st, [68, 1], true, true).0;
            && (env.atMark(0) == [] ==> Is(g', ALL_SETS, true, CLEARED, SETS_LOG, 3, 1, 3))
            && (env.atMark(0) == [Play] ==> Is(g', ALL_SETS, true, CLEARED, SETS_LOG + [Ctl(Play)], 3, 1, 3))
  {
    hide Controlled, SendSets, SendNalu;
    var g1 := Noted(env, g, [68, 1]);
    Undisturbed(g1);
    var g2 := AtRead(env, g1);
    assert g2.sets == ALL_SETS;
    TripleIs(env, g2, st);
    var g3 := SendSets(env, g2, st).0;
    Undisturbed(g3);
    One(g3, Play);
  }

  /** A picture with the flag down and the gate open, or an IDR; one RTSP step may come right before the send. */
  lemma {:induction false} StreamStep(env: Env, g: Gate, st: Stamp, nalu: seq<byte>)
    requires NothingFails(env) && !g.session.need && |nalu| == 2 && !IsParameterSet(NalType(nalu))
    requires (g.waitIdr ==> IsIdr(NalType(nalu))) && env.atRead(g.readings) == []
    ensures var g', log := ProcessNalu(env, g, st, nalu, true, true).0, g.log + [Seen(nalu)];
            var e := Tried(st.dest, nalu, false, true);
            && (env.atSend(g.tries) == [] ==>
                  Is(g', g.sets, false, g.session, log + [e], g.readings + 1, g.markings, g.tries + 1))
            && (forall c :: env.atSend(g.tries) == [c] ==> g'.log == log + [Ctl(c)] + [e])
  {
    hide Controlled, TrySend;
    var g1 := Noted(env, g, nalu);
    Undisturbed(g1);
    var g2 := AtRead(env, g1).(waitIdr := false);
    SendIs(env, g2, st, nalu, true, false);
    Undisturbed(g2);
    forall c | env.atSend(g.tries) == [c] {
      One(g2, c);
    }
  }

  /** The IDR, with B setting up and playing between the sampling of A and the reading of the flag. */
  lemma {:induction false} TakenOverStep(env: Env, g: Gate, st: Stamp)
    requires NothingFails(env) && st.dest == A && Is(g, ALL_SETS, true, CLEARED, SETS_LOG, 3, 1, 3)
    requires env.atRead(3) == [Setup(B), Play] && env.atMark(1) == []
    requires env.atSend(3) == env.atSend(4) == env.atSend(5) == env.atSend(6) == []
    ensures Is(ProcessNalu(env, g, st, [38, 1], true, true).0, ALL_SETS, false, Session(true, true, false, B),
               SETS_LOG + [Seen([38, 1])] + [Ctl(Setup(B))] + [Ctl(Play)] + Attempts(A) + [Tried(A, [38, 1], false, true)],
               4, 2, 7)
  {
    hide Controlled, SendSets, TrySend;
    var g1 := Noted(env, g, [38, 1]);
    Two(g1, Setup(B), Play);
    var g2 := AtRead(env, g1);
    TripleIs(env, g2, st);
    var g3 := SendSets(env, g2, st).0;
    Undisturbed(g3);
    var g4 := AtMark(env, g3).(waitIdr := false);
    SendIs(env, g4, st, [38, 1], true, false);
    Undisturbed(g4);
  }

  // ----- the runs -----

  ghost predicate Staged(w: World, x: Script) {
    && w == SceneOf(x, w.gate.atRead, w.gate.atMark, w.gate.atSend)
    && w.gate.atRead(0) == w.gate.atRead(1) == w.gate.atRead(2) == []
    && w.gate.atSend(0) == w.gate.atSend(1) == w.gate.atSend(2) == []
  }

  /** One message of a staged run, after the first. */
  lemma {:induction false} Next(w: World, x: Script, k: nat)
    requires Staged(w, x) && 0 < k < 5 && Run(w, k).polls == Run(w, k).items == Run(w, k).lastRead == k
    requires Run(w, k).gate.session.play && Run(w, k).gate.session.addrSet
    ensures var p, p' := Run(w, k), Run(w, k + 1);
            && p'.polls == p'.items == p'.lastRead == k + 1 && NothingFails(w.gate)
            && p'.gate == ProcessNalu(w.gate, p.gate, StampOf(p), Nth(x, k), true, true).0
  {
    hide Turn, ProcessNalu, Nth;
    TurnIs(w, x, Run(w, k), k);
    Undisturbed(Run(w, k).gate);
  }

  lemma {:induction false} FirstThree(w: World, x: Script)
    requires Staged(w, x)
    ensures var p := Run(w, 3);
            && p.polls == p.items == p.lastRead == 3 && NothingFails(w.gate)
            && (w.gate.atMark(0) == [] ==> Is(p.gate, ALL_SETS, true, CLEARED, SETS_LOG, 3, 1, 3))
            && (w.gate.atMark(0) == [Play] ==> Is(p.gate, ALL_SETS, true, CLEARED, SETS_LOG + [Ctl(Play)], 3, 1, 3))
  {
    hide Turn, ProcessNalu, Controlled;
    assert Run(w, 0) == START && NothingFails(w.gate);
    TurnIs(w, x, START, 0);
    assert Run(w, 1) == Turn(w, START);
    PlayStarts();
    var g0 := Controlled(START.gate, [Setup(A), Play]);
    GatherStep(w.gate, g0, StampOf(START.(gate := g0)), [64, 1]);
    Next(w, x, 1);
    GatherStep(w.gate, Run(w, 1).gate, StampOf(Run(w, 1)), [66, 1]);
    Next(w, x, 2);
    CompleteStep(w.gate, Run(w, 2).gate, StampOf(Run(w, 2)));
  }

  function Nowhere(): nat -> seq<Control> {
    k => []
  }

  function AtOnly(n: nat, cs: seq<Control>): nat -> seq<Control> {
    k => if k == n then cs else []
  }

  /** A PLAY between the triple and the clearing: the IDR goes out with no triple since. */
  lemma {:induction false} PlayAtClearing()
    ensures !ClientLanguage(Run(Scene(Nowhere(), AtOnly(0, [Play]), Nowhere()), 4).gate.log)
  {
    hide Run, ProcessNalu;
    var w := Scene(Nowhere(), AtOnly(0, [Play]), Nowhere());
    FirstThree(w, PICTURES);
    Next(w, PICTURES, 3);
    StreamStep(w.gate, Run(w, 3).gate, StampOf(Run(w, 3)), [38, 1]);
    var log := Run(w, 4).gate.log;
    assert log == SETS_LOG + [Ctl(Play)] + [Seen([38, 1])] + [Tried(A, [38, 1], false, true)];
    assert |SETS_LOG| == 8 && log[8] == Ctl(Play) && log[9].Seen? && StreamAt(log, 10);
    assert log[7] == SETS_LOG[7] && log[6] == SETS_LOG[6];
    assert Prev(log, 9) == Prev(log, 8) == 7 && Prev(log, 10) == 7 && Prev(log, 7) == 6;
    forall k | k < 10
      ensures Start(log, k) <= 6
    {
      PrevMonotone(log, k, 10);
      PrevMonotone(log, Prev(log, k), 7);
    }
    assert RequestAt(log, 8) && QuietTo(log, 9, 10, A) && !TripleTo(log, 8, 10, A);
  }

  /** A stream NAL unit first after a request that is no IDR. */
  lemma {:induction false} Breaks(log: seq<Event>, j: int, i: int)
    requires RequestAt(log, j) && j < i && StreamAt(log, i) && QuietTo(log, j + 1, i, log[i].dest)
    requires !IsIdr(NalType(log[i].nalu))
    ensures !ClientLanguage(log)
  {
  }

  const TAKEOVER: seq<Event> := [Seen([38, 1]), Ctl(Setup(B)), Ctl(Play)] + Attempts(A)
                                + [Tried(A, [38, 1], false, true), Seen([2, 1]), Tried(B, [2, 1], false, true)]

  lemma {:induction false} TakeoverBreaks(before: seq<Event>)
    ensures !ClientLanguage(before + TAKEOVER)
  {
    var log, n := before + TAKEOVER, |before|;
    assert |TAKEOVER| == 9;
    assert log[n + 2] == TAKEOVER[2] && log[n + 3] == TAKEOVER[3] && log[n + 4] == TAKEOVER[4] && log[n + 5] == TAKEOVER[5];
    assert log[n + 6] == TAKEOVER[6] && log[n + 7] == TAKEOVER[7] && log[n + 8] == TAKEOVER[8];
    Breaks(log, n + 2, n + 8);
  }

  /** B takes over between the sampling and the reading: A gets B's triple and IDR, B a trailing picture. */
  lemma {:induction false} TakeoverBeforeReading()
    ensures var w := Scene(AtOnly(3, [Setup(B), Play]), Nowhere(), Nowhere());
            NoRequestInside(w.gate) && !ClientLanguage(Run(w, 5).gate.log)
  {
    hide Run, ProcessNalu, ClientLanguage;
    var w := Scene(AtOnly(3, [Setup(B), Play]), Nowhere(), Nowhere());
    FirstThree(w, PICTURES);
    Next(w, PICTURES, 3);
    TakenOverStep(w.gate, Run(w, 3).gate, StampOf(Run(w, 3)));
    Next(w, PICTURES, 4);
    StreamStep(w.gate, Run(w, 4).gate, StampOf(Run(w, 4)), [2, 1]);
    assert Run(w, 5).gate.log == SETS_LOG + TAKEOVER;
    TakeoverBreaks(SETS_LOG);
  }

  /** A PLAY between the reading and the send: the picture goes out with no triple and is no IDR. */
  lemma {:induction false} PlayBeforeSend()
    ensures var w := Scene(Nowhere(), Nowhere(), AtOnly(4, [Play]));
            NoSetupInside(w.gate) && !ClientLanguage(Run(w, 5).gate.log)
  {
    hide Run, ProcessNalu, ClientLanguage;
    var w := Scene(Nowhere(), Nowhere(), AtOnly(4, [Play]));
    FirstThree(w, PICTURES);
    Next(w, PICTURES, 3);
    StreamStep(w.gate, Run(w, 3).gate, StampOf(Run(w, 3)), [38, 1]);
    Next(w, PICTURES, 4);
    StreamStep(w.gate, Run(w, 4).gate, StampOf(Run(w, 4)), [2, 1]);
    var log, n := Run(w, 5).gate.log, |SETS_LOG| + 3;
    var before := SETS_LOG + [Seen([38, 1])] + [Tried(A, [38, 1], false, true)] + [Seen([2, 1])];
    assert log == before + [Ctl(Play)] + [Tried(A, [2, 1], false, true)];
    assert log[n] == Ctl(Play) && log[n + 1] == Tried(A, [2, 1], false, true);
    Breaks(log, n, n + 1);
  }

  /** A TEARDOWN right before the send: the picture goes out all the same. */
  lemma {:induction false} TeardownBeforeSend()
    ensures var w := Scene(Nowhere(), Nowhere(), AtOnly(4, [Teardown]));
            NoSetupInside(w.gate) && !OnTarget(Run(w, 5).gate.log)
  {
    hide Run, ProcessNalu, OnTarget;
    var w := Scene(Nowhere(), Nowhere(), AtOnly(4, [Teardown]));
    FirstThree(w, PICTURES);
    Next(w, PICTURES, 3);
    StreamStep(w.gate, Run(w, 3).gate, StampOf(Run(w, 3)), [38, 1]);
    Next(w, PICTURES, 4);
    StreamStep(w.gate, Run(w, 4).gate, StampOf(Run(w, 4)), [2, 1]);
    var before := SETS_LOG + [Seen([38, 1])] + [Tried(A, [38, 1], false, true)] + [Seen([2, 1])];
    assert Run(w, 5).gate.log == before + [Ctl(Teardown)] + [Tried(A, [2, 1], false, true)];
    OffTarget(before, Teardown, Tried(A, [2, 1], false, true));
  }

  lemma {:induction false} OffTarget(before: seq<Event>, c: Control, e: Event)
    requires c.Teardown? && e.Tried?
    ensures !OnTarget(before + [Ctl(c)] + [e])
  {
    var log, n := before + [Ctl(c)] + [e], |before|;
    assert log[n] == Ctl(c) && log[n + 1] == e;
    assert !SessionAfter(log, n + 1).play;
  }

  /** A set that comes while the sender waits for an IDR: cached, not sent. */
  lemma {:induction false} HeldBackStep(env: Env, g: Gate, st: Stamp, nalu: seq<byte>)
    requires NothingFails(env) && g.waitIdr && !g.session.need && |nalu| == 2 && env.atRead(g.readings) == []
    requires IsParameterSet(NalType(nalu)) && Get(g.sets, NalType(nalu)) != Some(nalu)
    ensures Is(ProcessNalu(env, g, st, nalu, true, true).0, PlaybackGate.Put(g.sets, NalType(nalu), nalu), true, g.session,
               g.log + [Seen(nalu)], g.readings + 1, g.markings, g.tries)
  {
    hide Controlled;
    Undisturbed(Noted(env, g, nalu));
  }

  /**
   * A new SPS between a triple and the IDR behind it: the client plays, nothing is pending, the gate is open, and
   * still the client has the old SPS and the cache the new one.
   */
  lemma {:induction false} NewSpsHeldBack()
    ensures var w := SceneOf(NEW_SPS, Nowhere(), Nowhere(), Nowhere());
            var g := Run(w, 5).gate;
            var heard := Ear(g.link, A).out;
            && Smooth(w.gate) && PlaysFor(g.session, A) && !g.session.need && !g.waitIdr
            && Get(g.sets, SPS) == Some([66, 2]) && LastOf(heard, SPS, |heard|) == Some([66, 1])
  {
    hide Run, ProcessNalu, Ear;
    var w := SceneOf(NEW_SPS, Nowhere(), Nowhere(), Nowhere());
    FirstThree(w, NEW_SPS);
    Next(w, NEW_SPS, 3);
    HeldBackStep(w.gate, Run(w, 3).gate, StampOf(Run(w, 3)), [66, 2]);
    Next(w, NEW_SPS, 4);
    StreamStep(w.gate, Run(w, 4).gate, StampOf(Run(w, 4)), [38, 1]);
    var log := Run(w, 5).gate.log;
    assert log == SETS_LOG + [Seen([66, 2])] + [Seen([38, 1])] + [Tried(A, [38, 1], false, true)];
    SpsHeard(log);
    RunRecovered(w, 5, A);
    LastRecovered(log, A, SPS, |log|);
  }

  lemma {:induction false} SpsHeard(log: seq<Event>)
    requires log == SETS_LOG + [Seen([66, 2])] + [Seen([38, 1])] + [Tried(A, [38, 1], false, true)]
    ensures TriedTransportable(log) && LastTo(log, A, SPS, |log|) == Some([66, 1])
  {
    assert |SETS_LOG| == 8 && |log| == 11;
    assert log[10] == Tried(A, [38, 1], false, true) && log[9].Seen? && log[8].Seen?;
    assert log[7] == SETS_LOG[7] && log[6] == SETS_LOG[6];
    assert LastTo(log, A, SPS, 11) == LastTo(log, A, SPS, 10) == LastTo(log, A, SPS, 9) == LastTo(log, A, SPS, 8);
    assert LastTo(log, A, SPS, 8) == LastTo(log, A, SPS, 7) == Some([66, 1]);
    forall i | 0 <= i < |log| && log[i].Tried?
      ensures Transportable(log[i].nalu)
    {
      assert i < 8 ==> log[i] == SETS_LOG[i];
    }
  }
}
