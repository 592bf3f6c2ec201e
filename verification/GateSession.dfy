/**
 * Per-session safety, with its exact condition. After every SETUP or PLAY the first NAL unit attempted to a client
 * is the cached VPS, and the first stream NAL unit is an IDR with a full parameter-set triple sent to that client in
 * between; and no such request is forgotten: one not yet answered by a triple still has its flag up. One NAL unit
 * keeps that if and only if none of the RTSP steps that get in at certain points is a request, and the target a
 * triple goes to is still the session's client.
 */
module GateSession {
  import opened Bytes
  import opened Rtp
  import opened PlaybackGate
  import opened GateLanguage
  import opened GateHistory

  predicate IsRequest(c: Control) {
    c.Setup? || c.Play?
  }

  predicate RequestAt(log: seq<Event>, j: int) {
    ControlAt(log, j) && IsRequest(log[j].control)
  }

  /** A triple for `a` ends at k. */
  predicate TripleFor(log: seq<Event>, k: int, a: Address) {
    TripleEnd(log, k) && log[k].dest == a
  }

  /** A triple for `a`, all of it attempted after j and before i. */
  ghost predicate TripleTo(log: seq<Event>, j: int, i: int, a: Address) {
    exists k :: k < i && TripleFor(log, k, a) && j < Start(log, k)
  }

  ghost predicate QuietTo(log: seq<Event>, from: int, to: int, a: Address) {
    forall i :: from <= i < to && StreamAt(log, i) ==> log[i].dest != a
  }

  /** The first stream NAL unit to a client after a request is an IDR, behind a triple for that client. */
  ghost predicate ClientLanguage(log: seq<Event>) {
    forall j, i :: RequestAt(log, j) && j < i && StreamAt(log, i) && QuietTo(log, j + 1, i, log[i].dest)
                   ==> IsIdr(NalType(log[i].nalu)) && TripleTo(log, j, i, log[i].dest)
  }

  ghost predicate NoneTo(log: seq<Event>, from: int, to: int, a: Address) {
    forall i :: 0 <= i < |log| && from <= i < to && log[i].Tried? ==> log[i].dest != a
  }

  /** The very first NAL unit attempted to a client after a request is the cached VPS. */
  ghost predicate VpsFirst(log: seq<Event>) {
    forall j, i :: RequestAt(log, j) && j < i < |log| && log[i].Tried? && NoneTo(log, j + 1, i, log[i].dest)
                   ==> SetAt(log, i, VPS)
  }

  predicate Calm(cs: seq<Control>) {
    forall i :: 0 <= i < |cs| ==> !IsRequest(cs[i])
  }

  /** No request takes place between the reading of the need flag and the clearing or the sends that follow. */
  ghost predicate NoRequestInside(env: Env) {
    forall k :: Calm(env.atMark(k)) && Calm(env.atSend(k))
  }

  ghost predicate NoRequestFrom(log: seq<Event>, from: int) {
    forall j :: RequestAt(log, j) ==> j < from
  }

  /** A request that no triple for the client `a` has answered still has its flag up. */
  ghost predicate Pending(log: seq<Event>, a: Address, need: bool) {
    forall j :: RequestAt(log, j) && !TripleTo(log, j, |log|, a) ==> need
  }

  /** Per-session safety so far, and no request forgotten. */
  ghost predicate Safe(g: Gate) {
    ClientLanguage(g.log) && VpsFirst(g.log) && Pending(g.log, g.session.addr, g.session.need)
  }

  /** With the flag down no request gets in right before the NAL unit is sent, if the gate lets it through. */
  predicate SendCalm(env: Env, g: Gate, nalu: seq<byte>) {
    (g.waitIdr && !IsIdr(NalType(nalu))) || Calm(env.atSend(g.tries))
  }

  /**
   * With the flag up none gets in after the VPS was handed over: before the SPS, before the PPS, before the clearing
   * and before the IDR, as far as the sender gets; and the target of a triple that goes out in full is still the
   * session's client at its start.
   */
  predicate TripleCalm(env: Env, g: Gate, st: Stamp, nalu: seq<byte>) {
    var t := g.tries;
    var (h, ok) := SendSets(env, g, st);
    && (h.tries >= t + 2 ==> Calm(env.atSend(t + 1)))
    && (h.tries >= t + 3 ==> Calm(env.atSend(t + 2)))
    && (ok ==> AtSend(env, g).session.addr == st.dest && Calm(env.atMark(g.markings)))
    && (ok && IsIdr(NalType(nalu)) ==> Calm(env.atSend(t + 3)))
  }

  /** No request gets in where it does harm while a NAL unit is processed for a client. */
  predicate NoHarm(env: Env, g: Gate, st: Stamp, nalu: seq<byte>) {
    var h := AtRead(env, Noted(env, g, nalu));
    if h.session.need then TripleCalm(env, h, st, nalu) else SendCalm(env, h, nalu)
  }

  // ----- what the proof carries along -----

  /** A triple for `a` after the request, and nothing attempted to anyone else since. */
  ghost predicate Answered(log: seq<Event>, j: int, a: Address) {
    exists k :: TripleFor(log, k, a) && j < Start(log, k) && AllTo(log, k + 1, a)
  }

  ghost predicate AllAnswered(log: seq<Event>, a: Address) {
    forall j :: RequestAt(log, j) ==> Answered(log, j, a)
  }

  ghost predicate Settled(g: Gate) {
    ClientLanguage(g.log) && VpsFirst(g.log) && (!g.session.need ==> AllAnswered(g.log, g.session.addr))
  }

  /** Since every request something was attempted to `a`. */
  ghost predicate Preceded(log: seq<Event>, a: Address) {
    forall j :: RequestAt(log, j) ==> !NoneTo(log, j + 1, |log|, a)
  }

  lemma {:induction false} SettledIsSafe(g: Gate)
    requires Settled(g)
    ensures Safe(g)
  {
    hide TripleFor, Start, ClientLanguage, VpsFirst;
    if !g.session.need {
      forall j | RequestAt(g.log, j)
        ensures TripleTo(g.log, j, |g.log|, g.session.addr)
      {
        var k :| TripleFor(g.log, k, g.session.addr) && j < Start(g.log, k) && AllTo(g.log, k + 1, g.session.addr);
        TripleIs(g.log, k, g.session.addr);
      }
    }
  }

  /** Where nothing is pending, the sampled target is the session's client. */
  lemma {:induction false} LoyalWhenSettled(g: Gate, target: Address)
    requires Settled(g) && !g.session.need && Loyal(g.log, g.session.addr, target)
    ensures g.session.addr == target
  {
    hide TripleFor, Start, ClientLanguage, VpsFirst;
    if g.session.addr != target {
      var j :| ControlAt(g.log, j) && g.log[j].control.Setup? && AllTo(g.log, j + 1, target);
      assert RequestAt(g.log, j);
      var k :| TripleFor(g.log, k, g.session.addr) && j < Start(g.log, k) && AllTo(g.log, k + 1, g.session.addr);
      TripleIs(g.log, k, g.session.addr);
    }
  }

  lemma {:induction false} TripleIs(log: seq<Event>, k: int, a: Address)
    requires TripleFor(log, k, a)
    ensures 0 <= Start(log, k) < k < |log| && log[k].Tried? && log[k].dest == a && TripleEnd(log, k)
  {
  }

  // ----- RTSP steps and one more event, on the history -----

  /** `more` is `log` and RTSP steps. */
  ghost predicate StepsAfter(log: seq<Event>, more: seq<Event>, cs: seq<Control>) {
    && log <= more && |more| == |log| + |cs|
    && forall i :: |log| <= i < |more| ==> more[i] == Ctl(cs[i - |log|])
  }

  lemma {:induction false} ControlledLog(g: Gate, cs: seq<Control>)
    ensures StepsAfter(g.log, Controlled(g, cs).log, cs)
    decreases |cs|
  {
    if cs != [] {
      hide Apply;
      ControlledLog(ControlStep(g, cs[0]), cs[1..]);
      var log := Controlled(g, cs).log;
      assert log[..|g.log| + 1] == g.log + [Ctl(cs[0])];
      assert log[|g.log|] == log[..|g.log| + 1][|g.log|];
      assert log[..|g.log|] == log[..|g.log| + 1][..|g.log|];
    }
  }

  /** The flag only goes up, and only a request raises it or changes the client. */
  lemma {:induction false} ControlledSession(g: Gate, cs: seq<Control>)
    ensures var s := Controlled(g, cs).session;
            && s.need == (g.session.need || !Calm(cs))
            && (Calm(cs) ==> s.addr == g.session.addr)
    decreases |cs|
  {
    if cs != [] {
      var g' := ControlStep(g, cs[0]);
      ControlledSession(g', cs[1..]);
      if IsRequest(cs[0]) {
        assert !Calm(cs);
      } else if !Calm(cs[1..]) {
        var i :| 0 <= i < |cs| - 1 && IsRequest(cs[1..][i]);
        assert IsRequest(cs[i + 1]);
      }
    }
  }

  /** What a longer history says about what came before. */
  lemma {:induction false} SameSoFar(log: seq<Event>, more: seq<Event>)
    requires log <= more
    ensures forall i :: i < |log| ==> RequestAt(more, i) == RequestAt(log, i) && StreamAt(more, i) == StreamAt(log, i)
    ensures forall k, a :: k < |log| ==> TripleFor(more, k, a) == TripleFor(log, k, a)
    ensures forall k :: k < |log| ==> Start(more, k) == Start(log, k)
  {
    hide Start;
    assert forall i :: 0 <= i < |log| ==> more[i] == log[i];
    forall k | k < |log|
      ensures Start(more, k) == Start(log, k)
    {
      TripleSame(log, more, k);
    }
    forall k, a | k < |log|
      ensures TripleFor(more, k, a) == TripleFor(log, k, a)
    {
      TripleSame(log, more, k);
      hide TripleEnd;
      if TripleEnd(log, k) {
        TripleBound(log, k);
      }
    }
  }

  lemma {:induction false} NoneSame(log: seq<Event>, more: seq<Event>, from: int, to: int, a: Address)
    requires log <= more && to <= |log|
    ensures NoneTo(more, from, to, a) == NoneTo(log, from, to, a)
  {
    assert forall i :: 0 <= i < |log| ==> more[i] == log[i];
  }

  /** Without a new stream NAL unit the first clause stands. */
  lemma {:induction false} ClientKept(log: seq<Event>, more: seq<Event>)
    requires ClientLanguage(log) && log <= more && forall i :: |log| <= i < |more| ==> !StreamAt(more, i)
    ensures ClientLanguage(more)
  {
    hide TripleFor, Start;
    SameSoFar(log, more);
    forall j, i | RequestAt(more, j) && j < i && StreamAt(more, i) && QuietTo(more, j + 1, i, more[i].dest)
      ensures IsIdr(NalType(more[i].nalu)) && TripleTo(more, j, i, more[i].dest)
    {
      assert i < |log| && more[i] == log[i];
      assert QuietTo(log, j + 1, i, log[i].dest) by {
        assert forall n :: 0 <= n < i ==> more[n] == log[n];
      }
      var k :| k < i && TripleFor(log, k, log[i].dest) && j < Start(log, k);
    }
  }

  /** Nothing but further attempts at the VPS: the second clause stands or falls as before. */
  lemma {:induction false} FirstKept(log: seq<Event>, more: seq<Event>)
    requires log <= more && forall i :: |log| <= i < |more| && more[i].Tried? ==> SetAt(more, i, VPS)
    ensures VpsFirst(more) <==> VpsFirst(log)
  {
    if VpsFirst(more) {
      FirstPrefix(log, more);
    }
    if VpsFirst(log) {
      forall j, i | RequestAt(more, j) && j < i < |more| && more[i].Tried? && NoneTo(more, j + 1, i, more[i].dest)
        ensures SetAt(more, i, VPS)
      {
        if i < |log| {
          SameSoFar(log, more);
          NoneSame(log, more, j + 1, i, log[i].dest);
          assert RequestAt(log, j) && more[i] == log[i];
        }
      }
    }
  }

  lemma {:induction false} FirstPrefix(log: seq<Event>, more: seq<Event>)
    requires log <= more && VpsFirst(more)
    ensures VpsFirst(log)
  {
    SameSoFar(log, more);
    hide TripleFor, Start;
    forall j, i | RequestAt(log, j) && j < i < |log| && log[i].Tried? && NoneTo(log, j + 1, i, log[i].dest)
      ensures SetAt(log, i, VPS)
    {
      NoneSame(log, more, j + 1, i, log[i].dest);
      assert RequestAt(more, j) && more[i] == log[i];
    }
  }

  /** Any other attempt must not be the first since a request. */
  lemma {:induction false} FirstExactly(log: seq<Event>, e: Event)
    requires e.Tried? && !(e.cached && NalType(e.nalu) == VPS)
    ensures VpsFirst(log + [e]) <==> VpsFirst(log) && Preceded(log, e.dest)
  {
    var more := log + [e];
    assert forall j :: RequestAt(more, j) == RequestAt(log, j);
    if VpsFirst(more) {
      FirstPrefix(log, more);
      forall j | RequestAt(log, j)
        ensures !NoneTo(log, j + 1, |log|, e.dest)
      {
        NoneSame(log, more, j + 1, |log|, e.dest);
        assert RequestAt(more, j) && !SetAt(more, |log|, VPS);
      }
    }
    if VpsFirst(log) && Preceded(log, e.dest) {
      forall j, i | RequestAt(more, j) && j < i < |more| && more[i].Tried? && NoneTo(more, j + 1, i, more[i].dest)
        ensures SetAt(more, i, VPS)
      {
        NoneSame(log, more, j + 1, i, more[i].dest);
        if i < |log| {
          assert more[i] == log[i];
        }
      }
    }
  }

  lemma {:induction false} PrecededSteps(log: seq<Event>, more: seq<Event>, cs: seq<Control>, a: Address)
    requires StepsAfter(log, more, cs) && Preceded(log, a)
    ensures Preceded(more, a) <==> Calm(cs)
  {
    assert forall i :: 0 <= i < |log| ==> more[i] == log[i];
    if Calm(cs) {
      forall j | RequestAt(more, j)
        ensures !NoneTo(more, j + 1, |more|, a)
      {
        CalmSteps(log, more, cs);
        assert RequestAt(log, j);
        var i :| 0 <= i < |log| && j + 1 <= i && log[i].Tried? && log[i].dest == a;
        assert more[i] == log[i];
      }
    } else {
      var i :| 0 <= i < |cs| && IsRequest(cs[i]);
      assert RequestAt(more, |log| + i) && NoneTo(more, |log| + i + 1, |more|, a);
    }
  }

  lemma {:induction false} PrecededNow(log: seq<Event>, e: Event)
    requires e.Tried?
    ensures Preceded(log + [e], e.dest)
  {
    assert (log + [e])[|log|] == e;
  }

  /** Attempts to the client itself and RTSP steps that are no requests leave every request answered. */
  lemma {:induction false} AnsweredKept(log: seq<Event>, more: seq<Event>, a: Address)
    requires AllAnswered(log, a) && log <= more
    requires forall i :: |log| <= i < |more| ==> !RequestAt(more, i) && (more[i].Tried? ==> more[i].dest == a)
    ensures AllAnswered(more, a)
  {
    hide TripleFor, Start;
    SameSoFar(log, more);
    forall j | RequestAt(more, j)
      ensures Answered(more, j, a)
    {
      assert RequestAt(log, j);
      var k :| TripleFor(log, k, a) && j < Start(log, k) && AllTo(log, k + 1, a);
      TripleIs(log, k, a);
      assert forall i :: 0 <= i < |log| ==> more[i] == log[i];
      assert AllTo(more, k + 1, a);
    }
  }

  /** Where all requests are answered and the gate lets it through, a stream NAL unit is in order. */
  lemma {:induction false} StreamInOrder(log: seq<Event>, e: Event, wait: bool)
    requires e.Tried? && !e.cached && ClientLanguage(log) && AllAnswered(log, e.dest)
    requires Armed(log, wait) && (wait ==> IsIdr(NalType(e.nalu)))
    ensures ClientLanguage(log + [e])
  {
    hide TripleFor, Start;
    var more := log + [e];
    SameSoFar(log, more);
    forall j, i | RequestAt(more, j) && j < i && StreamAt(more, i) && QuietTo(more, j + 1, i, more[i].dest)
      ensures IsIdr(NalType(more[i].nalu)) && TripleTo(more, j, i, more[i].dest)
    {
      assert RequestAt(log, j) && forall n :: 0 <= n < |log| ==> more[n] == log[n];
      assert QuietTo(log, j + 1, i, more[i].dest);
      if i < |log| {
        var k :| k < i && TripleFor(log, k, log[i].dest) && j < Start(log, k);
      } else {
        var k :| TripleFor(log, k, e.dest) && j < Start(log, k) && AllTo(log, k + 1, e.dest);
        TripleIs(log, k, e.dest);
        assert Quiet(log, k + 1, |log|);
      }
    }
  }

  /** One sent after a request that neither a triple nor a stream NAL unit to its client has followed is not. */
  lemma {:induction false} StreamTooSoon(log: seq<Event>, e: Event, j: int)
    requires e.Tried? && !e.cached && RequestAt(log, j)
    requires QuietTo(log, j + 1, |log|, e.dest) && !TripleTo(log, j, |log|, e.dest)
    ensures !ClientLanguage(log + [e])
  {
    hide TripleFor, Start;
    var more := log + [e];
    SameSoFar(log, more);
    assert forall n :: 0 <= n < |log| ==> more[n] == log[n];
    assert RequestAt(more, j) && StreamAt(more, |log|) && QuietTo(more, j + 1, |log|, e.dest);
    assert !TripleTo(more, j, |log|, e.dest);
  }

  // ----- the send behind the gate -----

  lemma {:induction false} PassLog(env: Env, g: Gate, st: Stamp, nalu: seq<byte>, marker: bool)
    requires !(g.waitIdr && !IsIdr(NalType(nalu)))
    ensures var (g', ok) := Pass(env, g, st, nalu, marker);
            var c := Controlled(g, env.atSend(g.tries));
            g'.log == c.log + [Tried(st.dest, nalu, false, ok)] && g'.session == c.session
  {
    hide SendNalu, Controlled;
    ControlledWait(g, env.atSend(g.tries), false);
  }

  /** A request right before the send breaks per-session safety at once. */
  lemma {:induction false} PassBreaks(env: Env, g: Gate, st: Stamp, nalu: seq<byte>, marker: bool)
    requires !(g.waitIdr && !IsIdr(NalType(nalu))) && !Calm(env.atSend(g.tries))
    ensures !ClientLanguage(Pass(env, g, st, nalu, marker).0.log)
  {
    hide Pass, Controlled, TripleFor, Start, ClientLanguage;
    var cs := env.atSend(g.tries);
    var log := Controlled(g, cs).log;
    PassLog(env, g, st, nalu, marker);
    ControlledLog(g, cs);
    var i :| 0 <= i < |cs| && IsRequest(cs[i]);
    var j := |g.log| + i;
    assert RequestAt(log, j);
    forall k | TripleFor(log, k, st.dest)
      ensures Start(log, k) <= j
    {
      TripleIs(log, k, st.dest);
    }
    StreamTooSoon(log, Tried(st.dest, nalu, false, Pass(env, g, st, nalu, marker).1), j);
  }

  lemma {:induction false} ArmedOf(g: Gate)
    requires Inv(g)
    ensures Armed(g.log, g.waitIdr)
  {
  }

  lemma {:induction false} PassSettled(env: Env, g: Gate, st: Stamp, nalu: seq<byte>, marker: bool)
    requires Inv(g) && Settled(g) && !g.session.need && g.session.addr == st.dest
    requires SendCalm(env, g, nalu)
    ensures Settled(Pass(env, g, st, nalu, marker).0)
  {
    hide Inv, Pass, Controlled, TripleFor, Start, ClientLanguage, VpsFirst, Armed, AllAnswered, Preceded;
    if g.waitIdr && !IsIdr(NalType(nalu)) {
      assert Pass(env, g, st, nalu, marker).0 == g by {
        Stopped(env, g, st, nalu, marker);
      }
      return;
    }
    var cs := env.atSend(g.tries);
    var c, g' := Controlled(g, cs), Pass(env, g, st, nalu, marker).0;
    var e := Tried(st.dest, nalu, false, Pass(env, g, st, nalu, marker).1);
    PassLog(env, g, st, nalu, marker);
    ControlledLog(g, cs);
    ControlledSession(g, cs);
    ControlledInv(g, cs);
    ArmedOf(c);
    CalmSteps(g.log, c.log, cs);
    AnsweredKept(g.log, c.log, st.dest);
    ClientKept(g.log, c.log);
    FirstKept(g.log, c.log);
    StreamInOrder(c.log, e, g.waitIdr);
    AnsweredPrecedes(c.log, st.dest);
    FirstExactly(c.log, e);
    AnsweredKept(c.log, g'.log, st.dest);
  }

  lemma {:induction false} Stopped(env: Env, g: Gate, st: Stamp, nalu: seq<byte>, marker: bool)
    requires g.waitIdr && !IsIdr(NalType(nalu))
    ensures Pass(env, g, st, nalu, marker) == (g, true)
  {
  }

  lemma {:induction false} CalmSteps(log: seq<Event>, more: seq<Event>, cs: seq<Control>)
    requires StepsAfter(log, more, cs)
    ensures forall i :: |log| <= i < |more| ==> more[i].Ctl? && !StreamAt(more, i)
    ensures Calm(cs) ==> forall i :: |log| <= i < |more| ==> !RequestAt(more, i)
  {
    if Calm(cs) {
      forall i | |log| <= i < |more|
        ensures !RequestAt(more, i)
      {
        assert !IsRequest(cs[i - |log|]);
      }
    }
  }

  lemma {:induction false} AnsweredPrecedes(log: seq<Event>, a: Address)
    requires AllAnswered(log, a)
    ensures Preceded(log, a)
  {
    hide TripleFor, Start;
    forall j | RequestAt(log, j)
      ensures !NoneTo(log, j + 1, |log|, a)
    {
      var k :| TripleFor(log, k, a) && j < Start(log, k) && AllTo(log, k + 1, a);
      TripleIs(log, k, a);
    }
  }

  // ----- the triple -----

  lemma {:induction false} TrySetLog(env: Env, g: Gate, st: Stamp, nalu: seq<byte>)
    ensures var c := Controlled(g, env.atSend(g.tries));
            var (g', ok) := TrySend(env, g, st, nalu, false, true);
            && g'.log == c.log + [Tried(st.dest, nalu, true, ok)] && g'.session == c.session
            && g'.tries == g.tries + 1 && g'.markings == g.markings
  {
    hide SendNalu, Controlled;
    ControlledWait(g, env.atSend(g.tries), g.waitIdr);
  }

  /** Nothing is attempted between an attempt and the one before it. */
  lemma {:induction false} PrevSteps(log: seq<Event>, more: seq<Event>, cs: seq<Control>)
    requires StepsAfter(log, more, cs)
    ensures Prev(more, |more|) == Prev(log, |log|) && Start(more, |more|) == Start(log, |log|)
  {
    PrevPast(log, more, |more|);
    PrevSame(log, more, |log|);
    PrevSame(log, more, Prev(log, |log|));
  }

  lemma {:induction false} PrevPast(log: seq<Event>, more: seq<Event>, n: nat)
    requires log <= more && |log| <= n <= |more| && forall i :: |log| <= i < |more| ==> more[i].Ctl?
    ensures Prev(more, n) == Prev(more, |log|)
  {
    if n > |log| {
      PrevPast(log, more, n - 1);
    }
  }

  /** One set of the triple is attempted, behind the steps that get in first. */
  lemma {:induction false} OneSet(env: Env, g: Gate, st: Stamp, nalu: seq<byte>, c: nat)
    requires c <= 2 && NalType(nalu) == SetType(c) && ClientLanguage(g.log) && g.session.need
    requires c > 0 ==> Preceded(g.log, st.dest)
    ensures var g', calm := TrySend(env, g, st, nalu, false, true).0, Calm(env.atSend(g.tries));
            && ClientLanguage(g'.log) && g'.session.need && Preceded(g'.log, st.dest)
            && (VpsFirst(g'.log) <==> VpsFirst(g.log) && (c > 0 ==> calm))
            && (calm ==> g'.session.addr == g.session.addr)
            && g'.tries == g.tries + 1 && g'.markings == g.markings
  {
    hide TrySend, Controlled, ClientLanguage, VpsFirst, Preceded;
    var cs, ok := env.atSend(g.tries), TrySend(env, g, st, nalu, false, true).1;
    var e, log := Tried(st.dest, nalu, true, ok), Controlled(g, cs).log;
    TrySetLog(env, g, st, nalu);
    ControlledLog(g, cs);
    ControlledSession(g, cs);
    CalmSteps(g.log, log, cs);
    ClientKept(g.log, log);
    ClientKept(log, log + [e]);
    FirstKept(g.log, log);
    PrecededNow(log, e);
    if c == 0 {
      FirstKept(log, log + [e]);
    } else {
      PrecededSteps(g.log, log, cs, st.dest);
      FirstExactly(log, e);
    }
  }

  /** Where it puts its set, and which requests come before. */
  lemma {:induction false} OneSetPlaced(env: Env, g: Gate, st: Stamp, nalu: seq<byte>, v: int)
    requires v <= |g.log|
    ensures var log, calm := TrySend(env, g, st, nalu, false, true).0.log, Calm(env.atSend(g.tries));
            && log != [] && NoRequestFrom(log, |log| - 1)
            && Prev(log, |log|) == |log| - 1 && Start(log, |log|) == Prev(g.log, |g.log|)
            && Start(log, |log| - 1) == Start(g.log, |g.log|)
            && (NoRequestFrom(log, v) <==> NoRequestFrom(g.log, v) && calm)
  {
    hide TrySend, Controlled;
    var cs, ok := env.atSend(g.tries), TrySend(env, g, st, nalu, false, true).1;
    var e, before := Tried(st.dest, nalu, true, ok), Controlled(g, cs).log;
    var log := before + [e];
    TrySetLog(env, g, st, nalu);
    ControlledLog(g, cs);
    PrevSteps(g.log, before, cs);
    PrevSame(before, log, |before|);
    PrevSame(before, log, Prev(before, |before|));
    hide Prev, Start;
    CalmSteps(g.log, before, cs);
    SameSoFar(before, log);
    SameSoFar(g.log, before);
    if !Calm(cs) {
      var i :| 0 <= i < |cs| && IsRequest(cs[i]);
      assert RequestAt(log, |g.log| + i);
    }
    if !NoRequestFrom(g.log, v) {
      var j :| RequestAt(g.log, j) && j >= v;
      assert RequestAt(log, j);
    }
  }

  /** What the attempts at the three sets leave of per-session safety. */
  lemma {:induction false} SendSetsSafe(env: Env, g: Gate, st: Stamp)
    requires Inv(g) && ClientLanguage(g.log) && g.session.need
    ensures var t := g.tries;
            var (g', ok) := SendSets(env, g, st);
            && ClientLanguage(g'.log) && g'.session.need && t <= g'.tries <= t + 3 && g'.markings == g.markings
            && (VpsFirst(g'.log) <==> VpsFirst(g.log) && (g'.tries >= t + 2 ==> Calm(env.atSend(t + 1)))
                                      && (g'.tries >= t + 3 ==> Calm(env.atSend(t + 2))))
            && (ok ==> g'.tries == t + 3)
            && (ok && Calm(env.atSend(t + 1)) && Calm(env.atSend(t + 2))
                ==> g'.session.addr == AtSend(env, g).session.addr)
  {
    hide TrySend, Inv, ClientLanguage, VpsFirst, Preceded, SetType, NalType, Calm;
    if HaveAll(g.sets) {
      SetTypes(g);
      OneSet(env, g, st, g.sets.vps.value, 0);
      var (g1, ok1) := TrySend(env, g, st, g.sets.vps.value, false, true);
      if ok1 {
        OneSet(env, g1, st, g.sets.sps.value, 1);
        var (g2, ok2) := TrySend(env, g1, st, g.sets.sps.value, false, true);
        if ok2 {
          OneSet(env, g2, st, g.sets.pps.value, 2);
          TrySetLog(env, g, st, g.sets.vps.value);
        }
      }
    }
  }

  /** Once its VPS is out, a triple has no request in or after it if none gets in before its SPS and its PPS. */
  lemma {:induction false} SendSetsUnbroken(env: Env, g: Gate, st: Stamp)
    requires SendSets(env, g, st).1
    ensures var log, t := SendSets(env, g, st).0.log, g.tries;
            NoRequestFrom(log, Start(log, |log| - 1)) <==> Calm(env.atSend(t + 1)) && Calm(env.atSend(t + 2))
  {
    hide TrySend, Calm, Prev, Start, NoRequestFrom;
    TrySetLog(env, g, st, g.sets.vps.value);
    OneSetPlaced(env, g, st, g.sets.vps.value, 0);
    var g1 := TrySend(env, g, st, g.sets.vps.value, false, true).0;
    var v := |g1.log| - 1;
    TrySetLog(env, g1, st, g.sets.sps.value);
    OneSetPlaced(env, g1, st, g.sets.sps.value, v);
    var g2 := TrySend(env, g1, st, g.sets.sps.value, false, true).0;
    assert Start(g2.log, |g2.log|) == v;
    Longer(env, g1, st, g.sets.sps.value);
    OneSetPlaced(env, g2, st, g.sets.pps.value, v);
  }

  lemma {:induction false} Longer(env: Env, g: Gate, st: Stamp, nalu: seq<byte>)
    ensures |g.log| <= |TrySend(env, g, st, nalu, false, true).0.log|
  {
    hide TrySend, Controlled;
    TrySetLog(env, g, st, nalu);
    ControlledLog(g, env.atSend(g.tries));
  }

  // ----- the clearing of the flag -----

  lemma {:induction false} PrevMonotone(log: seq<Event>, i: int, j: int)
    requires i <= j <= |log|
    ensures Prev(log, i) <= Prev(log, j)
    decreases j - i
  {
    if i < j {
      PrevMonotone(log, i, j - 1);
    }
  }

  /** A request at or after the VPS of the last triple has no triple after it. */
  lemma {:induction false} TooLate(g: Gate, log: seq<Event>, j: int, a: Address)
    requires TripleEnd(g.log, |g.log| - 1) && g.log <= log && Start(g.log, |g.log| - 1) <= j
    requires forall i :: |g.log| <= i < |log| ==> log[i].Ctl?
    ensures !TripleTo(log, j, |log|, a)
  {
    hide Prev;
    var last := |g.log| - 1;
    forall k | TripleFor(log, k, a)
      ensures Start(log, k) <= j
    {
      TripleIs(log, k, a);
      TripleSame(g.log, log, last);
      PrevMonotone(log, k, last);
      PrevMonotone(log, Prev(log, k), Prev(log, last));
    }
  }

  /** A triple that no request falls into or follows answers every request, for its client. */
  lemma {:induction false} AllFor(log: seq<Event>, more: seq<Event>, cs: seq<Control>, target: Address)
    requires TripleFor(log, |log| - 1, target) && NoRequestFrom(log, Start(log, |log| - 1))
    requires StepsAfter(log, more, cs) && Calm(cs)
    ensures AllAnswered(more, target)
  {
    hide TripleFor, Start;
    var last := |log| - 1;
    TripleIs(log, last, target);
    SameSoFar(log, more);
    CalmSteps(log, more, cs);
    assert AllTo(more, last + 1, target);
    forall j | RequestAt(more, j)
      ensures Answered(more, j, target)
    {
      assert RequestAt(log, j);
      assert TripleFor(more, last, target) && j < Start(more, last);
    }
  }

  lemma {:induction false} AnsweredMeans(log: seq<Event>, a: Address)
    requires AllAnswered(log, a)
    ensures Pending(log, a, false)
  {
    hide TripleFor, Start;
    forall j | RequestAt(log, j)
      ensures TripleTo(log, j, |log|, a)
    {
      var k :| TripleFor(log, k, a) && j < Start(log, k) && AllTo(log, k + 1, a);
      TripleIs(log, k, a);
    }
  }

  lemma {:induction false} NoTripleForClient(log: seq<Event>, more: seq<Event>, client: Address, target: Address)
    requires Loyal(log, client, target) && client != target && log <= more
    requires forall i :: |log| <= i < |more| ==> more[i].Ctl?
    ensures !Pending(more, client, false)
  {
    hide TripleFor, Start;
    var j :| ControlAt(log, j) && log[j].control.Setup? && AllTo(log, j + 1, target);
    SameSoFar(log, more);
    assert RequestAt(more, j);
    forall k | TripleFor(more, k, client)
      ensures Start(more, k) <= j
    {
      TripleIs(more, k, client);
      assert more[k] == log[k];
    }
  }

  /**
   * Clearing the flag after a triple leaves no request unanswered if and only if no request came in since its
   * VPS was handed over and the target it went to is still the session's client.
   */
  lemma {:induction false} MarkAnswersExactly(env: Env, g: Gate, target: Address)
    requires TripleFor(g.log, |g.log| - 1, target) && Loyal(g.log, g.session.addr, target)
    ensures var g' := AtMark(env, g);
            Pending(g'.log, g'.session.addr, g'.session.need) <==>
            && NoRequestFrom(g.log, Start(g.log, |g.log| - 1))
            && Calm(env.atMark(g.markings)) && g.session.addr == target
  {
    hide TripleFor, Start, Controlled;
    var cs := env.atMark(g.markings);
    var log, last := Controlled(g, cs).log, |g.log| - 1;
    var client := Controlled(g, cs).session.addr;
    ControlledLog(g, cs);
    ControlledSession(g, cs);
    TripleIs(g.log, last, target);
    CalmSteps(g.log, log, cs);
    if !NoRequestFrom(g.log, Start(g.log, last)) {
      var j :| RequestAt(g.log, j) && Start(g.log, last) <= j;
      TooLate(g, log, j, client);
      assert RequestAt(log, j);
    } else if !Calm(cs) {
      var i :| 0 <= i < |cs| && IsRequest(cs[i]);
      TooLate(g, log, |g.log| + i, client);
      assert RequestAt(log, |g.log| + i);
    } else if client != target {
      NoTripleForClient(g.log, log, client, target);
    } else {
      AllFor(g.log, log, cs, target);
      AnsweredMeans(log, target);
    }
  }

  /** Wherever the sender gets to the clearing, that is the condition, and it can be read off the schedule. */
  lemma {:induction false} ClearingExactly(env: Env, g: Gate, st: Stamp)
    requires Inv(g) && History(env, g) && Sampled(env, g, st, true) && SendSets(env, g, st).1
    ensures var h, t := SendSets(env, g, st).0, g.tries;
            var g' := AtMark(env, h);
            Pending(g'.log, g'.session.addr, g'.session.need) <==>
            && Calm(env.atSend(t + 1)) && Calm(env.atSend(t + 2))
            && Calm(env.atMark(h.markings)) && h.session.addr == st.dest
  {
    hide Inv, History, SendSets, TripleEnd, Start, Pending, AtMark;
    SendSetsInv(env, g, st);
    SendSetsHistory(env, g, st);
    SendSetsUnbroken(env, g, st);
    MarkAnswersExactly(env, SendSets(env, g, st).0, st.dest);
  }

  lemma {:induction false} MarkSettled(env: Env, g: Gate, target: Address)
    requires TripleFor(g.log, |g.log| - 1, target) && ClientLanguage(g.log) && VpsFirst(g.log)
    requires NoRequestFrom(g.log, Start(g.log, |g.log| - 1)) && Calm(env.atMark(g.markings)) && g.session.addr == target
    ensures Settled(AtMark(env, g)) && AtMark(env, g).session.addr == target && !AtMark(env, g).session.need
  {
    hide TripleFor, Start, Controlled, ClientLanguage, VpsFirst, AllAnswered;
    var cs := env.atMark(g.markings);
    var log := Controlled(g, cs).log;
    ControlledLog(g, cs);
    ControlledSession(g, cs);
    CalmSteps(g.log, log, cs);
    ClientKept(g.log, log);
    FirstKept(g.log, log);
    AllFor(g.log, log, cs, target);
  }

  /** A request forgotten at the clearing is still forgotten when the NAL unit behind it has gone out. */
  lemma {:induction false} ForgottenStays(env: Env, g: Gate, st: Stamp, nalu: seq<byte>, marker: bool)
    requires !Pending(g.log, g.session.addr, g.session.need)
    ensures !Safe(Pass(env, g, st, nalu, marker).0)
  {
    hide Pass, Controlled, TripleFor, Start, ClientLanguage, VpsFirst;
    if g.waitIdr && !IsIdr(NalType(nalu)) {
      Stopped(env, g, st, nalu, marker);
    } else if !Calm(env.atSend(g.tries)) {
      PassBreaks(env, g, st, nalu, marker);
    } else {
      var cs, g', a := env.atSend(g.tries), Pass(env, g, st, nalu, marker).0, g.session.addr;
      var log, more := Controlled(g, cs).log, g'.log;
      PassLog(env, g, st, nalu, marker);
      ControlledLog(g, cs);
      ControlledSession(g, cs);
      SameSoFar(g.log, log);
      SameSoFar(log, more);
      var j :| RequestAt(g.log, j) && !TripleTo(g.log, j, |g.log|, a);
      assert RequestAt(more, j);
      forall k | TripleFor(more, k, a)
        ensures TripleFor(g.log, k, a) && k < |g.log|
      {
        EndsInSet(more, k, a);
        TripleIs(more, k, a);
      }
      assert !TripleTo(more, j, |more|, a);
    }
  }

  lemma {:induction false} EndsInSet(log: seq<Event>, k: int, a: Address)
    requires TripleFor(log, k, a)
    ensures 0 <= k < |log| && log[k].Tried? && log[k].cached
  {
  }

  // ----- one NAL unit -----

  lemma {:induction false} GrowsTo(env: Env, g: Gate, st: Stamp, nalu: seq<byte>, marker: bool)
    ensures g.log <= Pass(env, AtMark(env, g), st, nalu, marker).0.log
  {
    hide Pass, Controlled;
    var h := AtMark(env, g);
    ControlledLog(g, env.atMark(g.markings));
    if h.waitIdr && !IsIdr(NalType(nalu)) {
      Stopped(env, h, st, nalu, marker);
    } else {
      PassLog(env, h, st, nalu, marker);
      ControlledLog(h, env.atSend(h.tries));
    }
  }

  /** From a clearing that went well. */
  lemma {:induction false} BehindMark(env: Env, g: Gate, st: Stamp, nalu: seq<byte>, marker: bool)
    requires Inv(g) && Settled(g) && !g.session.need && g.session.addr == st.dest
    ensures var g' := Pass(env, g, st, nalu, marker).0; (Safe(g') <==> SendCalm(env, g, nalu)) && (Safe(g') ==> Settled(g'))
  {
    hide Inv, Pass, Settled, ClientLanguage, VpsFirst, Pending, Calm;
    if SendCalm(env, g, nalu) {
      PassSettled(env, g, st, nalu, marker);
      SettledIsSafe(Pass(env, g, st, nalu, marker).0);
    } else {
      PassBreaks(env, g, st, nalu, marker);
    }
  }

  /** With the flag up. */
  lemma {:induction false} NeedingExactly(env: Env, g: Gate, st: Stamp, nalu: seq<byte>, marker: bool)
    requires Inv(g) && History(env, g) && Sampled(env, g, st, true) && Settled(g) && g.session.need
    ensures var (h, ok) := SendSets(env, g, st);
            var g' := if ok then Pass(env, AtMark(env, h), st, nalu, marker).0 else h;
            (Safe(g') <==> TripleCalm(env, g, st, nalu)) && (Safe(g') ==> Settled(g'))
  {
    hide Inv, History, Sampled, SendSets, Pass, AtMark, TripleFor, TripleEnd, Start, ClientLanguage, VpsFirst, Calm,
      Pending, AllAnswered, NoRequestFrom;
    var (h, ok) := SendSets(env, g, st);
    SendSetsSafe(env, g, st);
    if !ok {
      FlagUp(h);
    } else if !VpsFirst(h.log) {
      GrowsTo(env, h, st, nalu, marker);
      if VpsFirst(Pass(env, AtMark(env, h), st, nalu, marker).0.log) {
        FirstPrefix(h.log, Pass(env, AtMark(env, h), st, nalu, marker).0.log);
      }
    } else {
      SendSetsInv(env, g, st);
      SendSetsUnbroken(env, g, st);
      ClearingExactly(env, g, st);
      ForTarget(h.log, st.dest);
      MarkLeaves(env, h);
      if Calm(env.atMark(h.markings)) && h.session.addr == st.dest {
        MarkSettled(env, h, st.dest);
        TripleMeans(h.log, |h.log| - 1);
        AtMarkInv(env, h);
        BehindMark(env, AtMark(env, h), st, nalu, marker);
      } else {
        ForgottenStays(env, AtMark(env, h), st, nalu, marker);
      }
    }
  }

  lemma {:induction false} ForTarget(log: seq<Event>, a: Address)
    requires TripleEnd(log, |log| - 1) && log[|log| - 1].dest == a
    ensures TripleFor(log, |log| - 1, a)
  {
  }

  lemma {:induction false} MarkLeaves(env: Env, g: Gate)
    ensures AtMark(env, g).tries == g.tries && AtMark(env, g).waitIdr
  {
    ControlledWait(g, env.atMark(g.markings), g.waitIdr);
  }

  lemma {:induction false} FlagUp(g: Gate)
    requires g.session.need
    ensures Pending(g.log, g.session.addr, g.session.need)
  {
  }

  /** Noting a NAL unit and the RTSP steps before the reading do no harm. */
  lemma {:induction false} ReadSettled(env: Env, g: Gate, nalu: seq<byte>)
    requires Settled(g)
    ensures var h := AtRead(env, Noted(env, g, nalu));
            Settled(h) && h.tries == g.tries && h.markings == g.markings && Settled(Noted(env, g, nalu))
  {
    hide Controlled, ClientLanguage, VpsFirst, AllAnswered;
    var g1 := Noted(env, g, nalu);
    var cs := env.atRead(g1.readings);
    ControlledWait(g1, cs, g.waitIdr);
    NotedSettled(env, g, nalu);
    ControlledSettled(g1, cs);
  }

  lemma {:induction false} NotedSettled(env: Env, g: Gate, nalu: seq<byte>)
    requires Settled(g)
    ensures Settled(Noted(env, g, nalu))
  {
    hide ClientLanguage, VpsFirst, AllAnswered;
    var g1 := Noted(env, g, nalu);
    assert g1.log == g.log + [Seen(nalu)] && g1.session == g.session;
    ClientKept(g.log, g1.log);
    FirstKept(g.log, g1.log);
    if !g.session.need {
      AnsweredKept(g.log, g1.log, g.session.addr);
    }
  }

  lemma {:induction false} ControlledSettled(g: Gate, cs: seq<Control>)
    requires Settled(g)
    ensures Settled(Controlled(g, cs))
  {
    hide Controlled, ClientLanguage, VpsFirst, AllAnswered;
    var c := Controlled(g, cs);
    ControlledLog(g, cs);
    ControlledSession(g, cs);
    CalmSteps(g.log, c.log, cs);
    ClientKept(g.log, c.log);
    FirstKept(g.log, c.log);
    if !c.session.need {
      AnsweredKept(g.log, c.log, g.session.addr);
    }
  }

  /**
   * One NAL unit, under any RTSP steps at any of the points and any failures: per-session safety is kept, and no
   * request forgotten, if and only if no request gets in where it does harm.
   */
  lemma {:induction false} ProcessNaluExactly(env: Env, g: Gate, st: Stamp, nalu: seq<byte>, marker: bool, canSend: bool)
    requires Inv(g) && History(env, g) && Sampled(env, g, st, canSend) && Settled(g)
    ensures var g' := ProcessNalu(env, g, st, nalu, marker, canSend).0;
            && (Safe(g') <==> (|nalu| >= 2 && canSend ==> NoHarm(env, g, st, nalu)))
            && (Safe(g') ==> Settled(g'))
  {
    hide Inv, History, Sampled, Settled, Safe, Noted, SendSets, Pass, Calm, AtMark, AtRead;
    if |nalu| < 2 {
      SettledIsSafe(g);
      return;
    }
    ReadSettled(env, g, nalu);
    SettledIsSafe(Noted(env, g, nalu));
    if !canSend { return; }
    var h := AtRead(env, Noted(env, g, nalu));
    ReadFits(env, g, st, nalu);
    if h.session.need {
      NeedingExactly(env, h, st, nalu, marker);
    } else {
      LoyalWhenSettled(h, st.dest);
      BehindMark(env, h, st, nalu, marker);
    }
  }

  /** Up to the reading the other invariants stand, and the target is the one sampled. */
  lemma {:induction false} ReadFits(env: Env, g: Gate, st: Stamp, nalu: seq<byte>)
    requires Inv(g) && History(env, g) && Sampled(env, g, st, true)
    ensures var h := AtRead(env, Noted(env, g, nalu));
            Inv(h) && History(env, h) && Sampled(env, h, st, true) && Loyal(h.log, h.session.addr, st.dest)
  {
    hide Inv, History, Noted, Controlled, Loyal;
    var g1 := Noted(env, g, nalu);
    var cs := env.atRead(g1.readings);
    NotedInv(env, g, nalu);
    NotedHistory(env, g, nalu);
    NotedSampled(env, g, nalu, st, true);
    ControlledInv(g1, cs);
    InsideHistory(env, g1, cs, st);
    InvCounters(Controlled(g1, cs), AtRead(env, g1));
    CountersHistory(env, Controlled(g1, cs), AtRead(env, g1));
  }
}
