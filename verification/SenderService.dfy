/**
 * What a client gets from a PLAY on when nothing fails and RTSP steps fall between messages: the parameter sets with
 * the first NAL unit from which on all three are known, then every NAL unit from the first IDR on.
 */
module SenderService {
  import opened Bytes
  import opened AnnexB
  import opened Rtp
  import opened Depacketiser
  import opened DataFifo
  import opened PlaybackGate
  import opened GateHistory
  import opened GateInStep
  import opened GateProgress
  import opened Snapshot
  import opened SenderLoop
  import opened SenderRuns
  import SenderSessions
  import opened SenderInput

  // ----- the service, read off the NAL units alone -----

  /** All three sets are among the first n NAL units. */
  predicate Complete(nalus: seq<seq<byte>>, n: nat)
    requires n <= |nalus|
  {
    LastFit(nalus, VPS, n).Some? && LastFit(nalus, SPS, n).Some? && LastFit(nalus, PPS, n).Some?
  }

  /** How many NAL units there are when all three sets are first known to a request that came after b of them. */
  function FirstComplete(nalus: seq<seq<byte>>, b: nat, n: nat): (s: Option<nat>)
    requires n <= |nalus|
    ensures s.Some? ==> b < s.value <= n && Complete(nalus, s.value)
  {
    if n <= b then None
    else
      var s := FirstComplete(nalus, b, n - 1);
      if s.Some? then s else if Complete(nalus, n) then Some(n) else None
  }

  /** The first IDR among the first n NAL units from the s-th on. */
  function FirstIdr(nalus: seq<seq<byte>>, s: nat, n: nat): (d: Option<nat>)
    requires n <= |nalus|
    ensures d.Some? ==> s <= d.value < n
  {
    if n <= s then None
    else
      var d := FirstIdr(nalus, s, n - 1);
      if d.Some? then d else if IsIdr(NalType(nalus[n - 1])) then Some(n - 1) else None
  }

  function SetsAt(nalus: seq<seq<byte>>, s: nat): seq<seq<byte>>
    requires s <= |nalus| && Complete(nalus, s)
  {
    [LastFit(nalus, VPS, s).value, LastFit(nalus, SPS, s).value, LastFit(nalus, PPS, s).value]
  }

  /** Everything from the first IDR on, the s-th NAL unit at the earliest. */
  function FromIdr(nalus: seq<seq<byte>>, s: nat, n: nat): seq<seq<byte>>
    requires n <= |nalus|
  {
    var d := FirstIdr(nalus, s, n);
    if d.None? then [] else nalus[d.value..n]
  }

  /**
   * What a PLAY that comes after b NAL units brings of the first n: with the first of them to find the sets complete
   * the sets, then everything from the first IDR on, that NAL unit included.
   */
  function Service(nalus: seq<seq<byte>>, b: nat, n: nat): seq<seq<byte>>
    requires n <= |nalus|
  {
    var s := FirstComplete(nalus, b, n);
    if s.None? then [] else SetsAt(nalus, s.value) + FromIdr(nalus, s.value - 1, n)
  }

  lemma {:induction false} CompleteMore(nalus: seq<seq<byte>>, x: seq<byte>, n: nat)
    requires n <= |nalus|
    ensures Complete(nalus + [x], n) == Complete(nalus, n)
    ensures Complete(nalus, n) ==> SetsAt(nalus + [x], n) == SetsAt(nalus, n)
  {
    LastFitMore(nalus, x, VPS, n);
    LastFitMore(nalus, x, SPS, n);
    LastFitMore(nalus, x, PPS, n);
    hide LastFit;
  }

  lemma {:induction false} FirstCompleteMore(nalus: seq<seq<byte>>, x: seq<byte>, b: nat, n: nat)
    requires n <= |nalus|
    ensures FirstComplete(nalus + [x], b, n) == FirstComplete(nalus, b, n)
  {
    if n > b {
      hide Complete;
      CompleteMore(nalus, x, n);
      FirstCompleteMore(nalus, x, b, n - 1);
    }
  }

  lemma {:induction false} FirstIdrMore(nalus: seq<seq<byte>>, x: seq<byte>, s: nat, n: nat)
    requires n <= |nalus|
    ensures FirstIdr(nalus + [x], s, n) == FirstIdr(nalus, s, n)
  {
    if n > s {
      FirstIdrMore(nalus, x, s, n - 1);
    }
  }

  lemma {:induction false} FromIdrMore(nalus: seq<seq<byte>>, x: seq<byte>, s: nat)
    requires s <= |nalus|
    ensures var more, n := nalus + [x], |nalus|;
            var passes := FirstIdr(nalus, s, n).Some? || IsIdr(NalType(x));
            && FirstIdr(more, s, n + 1).Some? == passes
            && FromIdr(more, s, n + 1) == FromIdr(nalus, s, n) + (if passes then [x] else [])
  {
    var more, n := nalus + [x], |nalus|;
    FirstIdrMore(nalus, x, s, n);
    var d := FirstIdr(nalus, s, n);
    if d.Some? {
      assert more[d.value..n + 1] == nalus[d.value..n] + [x];
    } else {
      assert more[n..n + 1] == [x];
    }
  }

  /** One more NAL unit while a set is missing, and the one that finds them complete. */
  lemma {:induction false} ServiceBegins(nalus: seq<seq<byte>>, x: seq<byte>, b: nat)
    requires b <= |nalus| && FirstComplete(nalus, b, |nalus|).None?
    ensures var more, n, idr := nalus + [x], |nalus|, IsIdr(NalType(x));
            var s' := FirstComplete(more, b, n + 1);
            && Service(nalus, b, n) == []
            && (!Complete(more, n + 1) ==> s'.None? && Service(more, b, n + 1) == [])
            && (Complete(more, n + 1) ==>
                  && Service(more, b, n + 1) == SetsAt(more, n + 1) + (if idr then [x] else [])
                  && s' == Some(n + 1) && FirstIdr(more, n, n + 1).Some? == idr)
  {
    hide Complete, SetsAt, FromIdr;
    var n := |nalus|;
    FirstCompleteMore(nalus, x, b, n);
    FromIdrMore(nalus, x, n);
    assert FirstIdr(nalus, n, n).None? && FromIdr(nalus, n, n) == [] by {
      NoIdrYet(nalus, n);
    }
  }

  lemma {:induction false} NoIdrYet(nalus: seq<seq<byte>>, n: nat)
    requires n <= |nalus|
    ensures FirstIdr(nalus, n, n).None? && FromIdr(nalus, n, n) == []
  {
  }

  lemma {:induction false} FirstCompleteKept(nalus: seq<seq<byte>>, x: seq<byte>, b: nat)
    requires FirstComplete(nalus, b, |nalus|).Some?
    ensures FirstComplete(nalus + [x], b, |nalus| + 1) == FirstComplete(nalus, b, |nalus|)
  {
    hide Complete;
    FirstCompleteMore(nalus, x, b, |nalus|);
  }

  /** And one more once they are. */
  lemma {:induction false} ServiceMore(nalus: seq<seq<byte>>, x: seq<byte>, b: nat)
    requires b <= |nalus| && FirstComplete(nalus, b, |nalus|).Some?
    ensures var more, n, s := nalus + [x], |nalus|, FirstComplete(nalus, b, |nalus|);
            var passes := FirstIdr(nalus, s.value - 1, n).Some? || IsIdr(NalType(x));
            && FirstComplete(more, b, n + 1) == s && FirstIdr(more, s.value - 1, n + 1).Some? == passes
            && Service(more, b, n + 1) == Service(nalus, b, n) + (if passes then [x] else [])
  {
    hide FirstComplete, Complete, SetsAt, FirstIdr, FromIdr;
    var s := FirstComplete(nalus, b, |nalus|).value;
    FirstCompleteKept(nalus, x, b);
    CompleteMore(nalus, x, s);
    FromIdrMore(nalus, x, s - 1);
  }

  // ----- the gate keeps it -----

  /** A client, what it had recovered and how many NAL units had been looked at when its PLAY came. */
  datatype Onset = Onset(client: Address, before: seq<seq<byte>>, seen: nat)

  /** The session plays for the client, and since its PLAY it was served what it should. */
  ghost predicate Serves(g: Gate, x: Onset) {
    var nalus := Saw(g);
    var s := FirstComplete(nalus, x.seen, |nalus|);
    && g.session == Session(true, true, s.None?, x.client) && x.seen <= |nalus|
    && (s.Some? ==> g.waitIdr == FirstIdr(nalus, s.value - 1, |nalus|).None?)
    && Delivered(g.log, x.client, |g.log|) == x.before + Service(nalus, x.seen, |nalus|)
  }

  lemma {:induction false} DeliveredOne(log: seq<Event>, e: Event, a: Address)
    ensures Delivered(log + [e], a, |log| + 1) ==
            Delivered(log, a, |log|) + (if e.Tried? && e.ok && e.dest == a then [e.nalu] else [])
  {
    DeliveredMore(log, e, a, |log|);
  }

  lemma {:induction false} DeliveredTriple(log: seq<Event>, a: Address, s: Sets)
    requires HaveAll(s)
    ensures Delivered(log + Triple(a, s), a, |log| + 3) == Delivered(log, a, |log|) + [s.vps.value, s.sps.value, s.pps.value]
  {
    hide Delivered;
    var e1, e2, e3 := Tried(a, s.vps.value, true, true), Tried(a, s.sps.value, true, true), Tried(a, s.pps.value, true, true);
    DeliveredOne(log, e1, a);
    DeliveredOne(log + [e1], e2, a);
    DeliveredOne(log + [e1] + [e2], e3, a);
    assert log + Triple(a, s) == log + [e1] + [e2] + [e3];
    var d := Delivered(log, a, |log|);
    assert d + [s.vps.value] + [s.sps.value] + [s.pps.value] == d + [s.vps.value, s.sps.value, s.pps.value];
  }

  /** The cache after a NAL unit was noted, read off the NAL units seen. */
  lemma {:induction false} NotedComplete(env: Env, g: Gate, nalu: seq<byte>)
    requires AlwaysAllocates(env) && CacheIsLast(g)
    ensures var s, more := Noted(env, g, nalu).sets, Saw(g) + [nalu];
            && (HaveAll(s) <==> Complete(more, |more|))
            && (HaveAll(s) ==> [s.vps.value, s.sps.value, s.pps.value] == SetsAt(more, |more|))
  {
    var g1 := Noted(env, g, nalu);
    CacheSetIsLast(env, g, nalu);
    NotedSaw(env, g, nalu);
    LastSeenFits(g1.log, VPS, |g1.log|);
    LastSeenFits(g1.log, SPS, |g1.log|);
    LastSeenFits(g1.log, PPS, |g1.log|);
    hide LastFit, LastSeen, Noted;
    assert Get(g1.sets, VPS) == LastSeen(g1.log, VPS, |g1.log|);
    assert Get(g1.sets, SPS) == LastSeen(g1.log, SPS, |g1.log|);
    assert Get(g1.sets, PPS) == LastSeen(g1.log, PPS, |g1.log|);
  }

  lemma {:induction false} ServeNalu(env: Env, g: Gate, st: Stamp, nalu: seq<byte>, marker: bool, x: Onset)
    requires Smooth(env) && StepInv(g) && Serves(g, x) && x.client == st.dest && |nalu| >= 2
    ensures Serves(ProcessNalu(env, g, st, nalu, marker, true).0, x)
  {
    hide ProcessNalu, Noted, Saw, Complete, SetsAt, FirstComplete, FirstIdr, FromIdr, Service, Delivered, Smooth, Synced, Triple;
    assert AlwaysAllocates(env) by {
      SmoothAllocates(env);
    }
    var a, nalus := st.dest, Saw(g);
    OneNalu(env, g, st, nalu, marker);
    NaluSaw(env, g, st, nalu, marker, true);
    NotedComplete(env, g, nalu);
    if g.session.need {
      ServiceBegins(nalus, nalu, x.seen);
    } else {
      ServiceMore(nalus, nalu, x.seen);
    }
    var log1 := g.log + [Seen(nalu)];
    DeliveredOne(g.log, Seen(nalu), a);
    var sets := Noted(env, g, nalu).sets;
    if g.session.need {
      if HaveAll(sets) {
        DeliveredTriple(log1, a, sets);
        TripleSize(a, sets);
        var log2 := log1 + Triple(a, sets);
        assert log2 + [] == log2;
        DeliveredOne(log2, Tried(a, nalu, false, true), a);
      }
    } else if !Shut(g, nalu) {
      DeliveredOne(log1, Tried(a, nalu, false, true), a);
      assert log1 + [] + [Tried(a, nalu, false, true)] == log1 + [Tried(a, nalu, false, true)];
    } else {
      assert log1 + [] + [] == log1;
    }
  }

  lemma {:induction false} TripleSize(a: Address, s: Sets)
    requires HaveAll(s)
    ensures |Triple(a, s)| == 3
  {
  }

  lemma {:induction false} SmoothAllocates(env: Env)
    requires Smooth(env)
    ensures AlwaysAllocates(env)
  {
  }

  // ----- units, packs, messages -----

  /** The invariants carried along. */
  ghost predicate Steady(g: Gate, x: Onset) {
    StepInv(g) && Serves(g, x)
  }

  lemma {:induction false} NaluSteady(env: Env, g: Gate, st: Stamp, nalu: seq<byte>, marker: bool, x: Onset)
    requires Smooth(env) && Steady(g, x) && x.client == st.dest
    ensures Steady(ProcessNalu(env, g, st, nalu, marker, true).0, x)
  {
    hide Smooth, StepInv;
    ServesPlays(g, x);
    hide Serves;
    if |nalu| >= 2 {
      ProcessNaluInStep(env, g, st, nalu, marker, true);
      ServeNalu(env, g, st, nalu, marker, x);
    }
  }

  lemma {:induction false} ServesPlays(g: Gate, x: Onset)
    requires Serves(g, x)
    ensures PlaysFor(g.session, x.client)
  {
  }

  lemma {:induction false} UnitsSteady(env: Env, g: Gate, st: Stamp, us: seq<Unit>, i: nat, marker: bool, x: Onset)
    requires i <= |us| && Smooth(env) && Steady(g, x) && x.client == st.dest
    ensures Steady(ProcessUnits(env, g, st, us, i, marker, true).0, x)
    decreases |us| - i
  {
    hide Steady, Smooth, ProcessNalu;
    if i < |us| {
      NaluSteady(env, g, st, us[i].nalu, marker && us[i].final, x);
      var (g', ok) := ProcessNalu(env, g, st, us[i].nalu, marker && us[i].final, true);
      if ok {
        UnitsSteady(env, g', st, us, i + 1, marker, x);
      }
    }
  }

  lemma {:induction false} BufferSteady(env: Env, g: Gate, st: Stamp, buf: seq<byte>, marker: bool, x: Onset)
    requires Smooth(env) && Steady(g, x) && x.client == st.dest
    ensures Steady(ProcessBuffer(env, g, st, buf, marker, true).0, x)
  {
    hide Steady, Smooth, ProcessNalu, ProcessUnits, Split, StartsWithCode;
    NaluSteady(env, g, st, buf, marker, x);
    UnitsSteady(env, g, st, Split(buf, 0), 0, marker, x);
  }

  lemma {:induction false} PacksSteady(w: World, p: SenderLoop.Player, st: Stamp, m: IpcMsg, i: nat, x: Onset)
    requires i <= m.packCnt <= MAX_PACKS && Smooth(w.gate) && Steady(p.gate, x) && x.client == st.dest
    ensures Steady(ProcessPacks(w, p, st, m, i, true).gate, x)
    decreases m.packCnt - i
  {
    hide Steady, Smooth, ProcessBuffer, CanMap, PackIo;
    if i < m.packCnt {
      BufferSteady(w.gate, p.gate, st, m.packs[i].data, i + 1 == m.packCnt, x);
      PacksSteady(w, ProcessPack(w, p, st, m.packs[i], i, i + 1 == m.packCnt, true).0, st, m, i + 1, x);
    }
  }

  // ----- runs -----

  /** The session as it is sampled at the k-th turn. */
  function SampledSession(w: World, k: nat): Session {
    Controlled(Run(w, k).gate, w.between(Run(w, k).items)).session
  }

  /** A PLAY is the last RTSP step before the item of the k-th turn, for `a`, and none follows before the n-th. */
  ghost predicate PlaysFrom(w: World, k: nat, n: nat, a: Address) {
    var cs := w.between(Run(w, k).items);
    && k < n && w.item(k).Some? && cs != [] && cs[|cs| - 1].Play? && PlaysFor(SampledSession(w, k), a)
    && forall j :: k < j < n && w.item(j).Some? ==> w.between(Run(w, j).items) == []
  }

  function OnsetAt(w: World, k: nat, a: Address): Onset {
    var g := Run(w, k).gate;
    Onset(a, Delivered(g.log, a, |g.log|), |Saw(g)|)
  }

  lemma {:induction false} ControlledDelivered(g: Gate, cs: seq<Control>, a: Address)
    ensures var log := Controlled(g, cs).log; Delivered(log, a, |log|) == Delivered(g.log, a, |g.log|)
    decreases |cs|
  {
    if cs != [] {
      hide Apply;
      DeliveredMore(g.log, Ctl(cs[0]), a, |g.log|);
      ControlledDelivered(ControlStep(g, cs[0]), cs[1..], a);
    }
  }

  lemma {:induction false} EndsNeeding(g: Gate, cs: seq<Control>)
    requires cs != [] && cs[|cs| - 1].Play?
    ensures Controlled(g, cs).session.need
    decreases |cs|
  {
    if |cs| == 1 {
      assert cs[1..] == [];
    } else {
      EndsNeeding(ControlStep(g, cs[0]), cs[1..]);
    }
  }

  /** A PLAY starts the service afresh. */
  lemma {:induction false} PlayServes(w: World, k: nat, n: nat, a: Address)
    requires PlaysFrom(w, k, n, a) && Smooth(w.gate)
    ensures Steady(Controlled(Run(w, k).gate, w.between(Run(w, k).items)), OnsetAt(w, k, a))
  {
    var g, cs := Run(w, k).gate, w.between(Run(w, k).items);
    hide Run, Saw, Delivered, Controlled, Good, Smooth;
    ControlledDelivered(g, cs, a);
    ControlledSaw(g, cs);
    EndsNeeding(g, cs);
    RunGood(w, k);
    ControlledGood(w.gate, g, cs);
    GoodSteps(w.gate, Controlled(g, cs));
    hide StepInv;
    assert Delivered(g.log, a, |g.log|) + [] == Delivered(g.log, a, |g.log|);
  }

  lemma {:induction false} GoodSteps(env: Env, g: Gate)
    requires Good(env, g) && Smooth(env)
    ensures StepInv(g)
  {
    hide StepInv, History, Smooth;
  }

  lemma {:induction false} PlayMessageSteady(w: World, p: SenderLoop.Player, m: IpcMsg, x: Onset)
    requires ValidSnap(p.snap) && IsValid(m) && Smooth(w.gate) && Steady(p.gate, x)
    ensures Steady(PlayMessage(w, p, m).gate, x)
  {
    assert PlaysFor(p.gate.session, x.client);
    hide Steady, Smooth, ProcessPacks, PlayMessage, TakeSnapshot, ValidSnap;
    var p1 := p.(lastRead := m.number, numbers := p.numbers + [m.number]);
    var p2 := if Flagged(m) then TakeSnapshot(w, p1, m) else p1;
    PlayMessageGate(w, p, m);
    PacksSteady(w, p2, StampOf(p), m, 0, x);
  }

  lemma {:induction false} TurnSteady(w: World, p: SenderLoop.Player, x: Onset)
    requires ValidSnap(p.snap) && Smooth(w.gate) && w.item(p.polls).Some?
    requires Steady(Controlled(p.gate, w.between(p.items)), x)
    ensures Steady(Turn(w, p).gate, x)
  {
    hide Steady, Smooth, PlayMessage, Controlled, ValidSnap;
    var m: IpcMsg := w.item(p.polls).value;
    var p1 := p.(polls := p.polls + 1, io := p.io + [ReadItem(p.items)],
                 gate := Controlled(p.gate, w.between(p.items)), items := p.items + 1);
    if IsValid(m) && !Stale(p1, m) {
      PlayMessageSteady(w, p1, m, x);
    }
  }

  lemma {:induction false} RunSteady(w: World, k: nat, n: nat, a: Address)
    requires Smooth(w.gate) && PlaysFrom(w, k, n, a)
    ensures Steady(Run(w, n).gate, OnsetAt(w, k, a))
  {
    hide Turn, Steady, Smooth, OnsetAt, SampledSession, Controlled, Faithful;
    var p, x := Run(w, n - 1), OnsetAt(w, k, a);
    assert Run(w, n) == Turn(w, p);
    hide Run;
    RunFaithful(w, n - 1);
    if n == k + 1 {
      PlayServes(w, k, n, a);
      TurnSteady(w, p, x);
    } else {
      RunSteady(w, k, n - 1, a);
      if w.item(n - 1).Some? {
        Untouched(p.gate);
        TurnSteady(w, p, x);
      } else {
        IdleTurn(w, p);
      }
    }
  }

  lemma {:induction false} Untouched(g: Gate)
    ensures Controlled(g, []) == g
  {
  }

  lemma {:induction false} IdleTurn(w: World, p: SenderLoop.Player)
    requires ValidSnap(p.snap) && w.item(p.polls).None?
    ensures Turn(w, p).gate == p.gate
  {
  }

  lemma {:induction false} SteadyMeans(g: Gate, x: Onset)
    requires Steady(g, x)
    ensures var nalus := Saw(g); Delivered(g.log, x.client, |g.log|) == x.before + Service(nalus, x.seen, |nalus|)
  {
  }

  lemma {:induction false} TransportableBefore(w: World, k: nat, n: nat)
    requires k <= n && TriedTransportable(Run(w, n).gate.log)
    ensures TriedTransportable(Run(w, k).gate.log)
    decreases n - k
  {
    hide Run, Transportable;
    if k < n {
      SenderSessions.LogGrows(w, n - 1);
      var log, more := Run(w, n - 1).gate.log, Run(w, n).gate.log;
      assert forall i :: 0 <= i < |log| ==> more[i] == log[i];
      TransportableBefore(w, k, n - 1);
    }
  }

  /**
   * End to end: when nothing fails, what the client's depacketiser recovers from a PLAY on is the parameter sets,
   * with the first NAL unit that finds all three known, and then, from the first IDR on, every NAL unit of at least
   * two bytes of the messages accepted, in order, and nothing else.
   */
  lemma {:induction false} RunServes(w: World, k: nat, n: nat, a: Address)
    requires Smooth(w.gate) && PlaysFrom(w, k, n, a) && TriedTransportable(Run(w, n).gate.log)
    ensures var before, nalus := AllNalus(w, Accepted(w, k), |Accepted(w, k)|), AllNalus(w, Accepted(w, n), |Accepted(w, n)|);
            Ear(Run(w, n).gate.link, a).out == Ear(Run(w, k).gate.link, a).out + Service(nalus, |before|, |nalus|)
  {
    assert AlwaysSends(w.gate);
    RunSteady(w, k, n, a);
    hide Run, Steady, Smooth, PlaysFrom, TriedTransportable, Ear, Service, Saw, AllNalus, Accepted, Delivered,
      AlwaysSends, RecordsOf, SnapCalls, PlayCalls, Numbers;
    SteadyMeans(Run(w, n).gate, OnsetAt(w, k, a));
    TransportableBefore(w, k, n);
    RunRecovered(w, k, a);
    RunRecovered(w, n, a);
    RunFaithful(w, k);
    RunFaithful(w, n);
  }
}
