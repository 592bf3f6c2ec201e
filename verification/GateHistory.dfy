/**
 * What the sender's state has to do with its history: each client's recovered stream is exactly what was
 * sent to it with success, the parameter-set cache is the last set of each type seen, and nothing is sent
 * but to the client of the last SETUP while it plays.
 */
module GateHistory {
  import opened Bytes
  import opened Rtp
  import opened Depacketiser
  import opened PlaybackGate

  /** NAL units whose send to `a` returned 0, in order, among the first n events. */
  function Delivered(log: seq<Event>, a: Address, n: nat): seq<seq<byte>>
    requires n <= |log|
  {
    if n == 0 then []
    else
      var e := log[n - 1];
      Delivered(log, a, n - 1) + (if e.Tried? && e.ok && e.dest == a then [e.nalu] else [])
  }

  predicate SetToCache(e: Event, t: int) {
    e.Seen? && NalType(e.nalu) == t && |e.nalu| <= 0x4000
  }

  /** The last parameter set of type t, of at most 16 KiB, among the NAL units processed. */
  function LastSeen(log: seq<Event>, t: int, n: nat): Option<seq<byte>>
    requires n <= |log|
  {
    if n == 0 then None
    else if SetToCache(log[n - 1], t) then Some(log[n - 1].nalu)
    else LastSeen(log, t, n - 1)
  }

  const NO_SESSION := Session(false, false, false, Address(0, 0))

  /** The session as the RTSP steps alone left it. */
  function SessionAfter(log: seq<Event>, n: nat): Session
    requires n <= |log|
  {
    if n == 0 then NO_SESSION
    else
      var s := SessionAfter(log, n - 1);
      if log[n - 1].Ctl? then Apply(s, log[n - 1].control) else s
  }

  ghost predicate TriedTransportable(log: seq<Event>) {
    forall i :: 0 <= i < |log| && log[i].Tried? ==> Transportable(log[i].nalu)
  }

  /** End to end: every client has recovered exactly what was sent to it with success. */
  ghost predicate Recovered(g: Gate) {
    forall a :: Ear(g.link, a).out == Delivered(g.log, a, |g.log|)
  }

  ghost predicate AlwaysAllocates(env: Env) {
    forall k :: env.alloc(k)
  }

  ghost predicate CacheIsLast(g: Gate) {
    forall t :: IsParameterSet(t) ==> Get(g.sets, t) == LastSeen(g.log, t, |g.log|)
  }

  /** RTSP steps take place between messages only. */
  ghost predicate BetweenMessages(env: Env) {
    forall k :: env.atRead(k) == [] && env.atMark(k) == [] && env.atSend(k) == []
  }

  predicate NoSetup(cs: seq<Control>) {
    forall i :: 0 <= i < |cs| ==> !cs[i].Setup?
  }

  /** No SETUP takes place while a message is processed. */
  ghost predicate NoSetupInside(env: Env) {
    forall k :: NoSetup(env.atRead(k)) && NoSetup(env.atMark(k)) && NoSetup(env.atSend(k))
  }

  predicate ControlAt(log: seq<Event>, i: int) {
    0 <= i < |log| && log[i].Ctl?
  }

  ghost predicate AllTo(log: seq<Event>, from: int, a: Address) {
    forall i :: 0 <= i < |log| && from <= i && log[i].Tried? ==> log[i].dest == a
  }

  /** Where the session's client is no longer the sampled target, a SETUP came in since it was sampled. */
  ghost predicate Loyal(log: seq<Event>, client: Address, target: Address) {
    client != target ==> exists j :: ControlAt(log, j) && log[j].control.Setup? && AllTo(log, j + 1, target)
  }

  predicate PlaysFor(s: Session, a: Address) {
    s.play && s.addrSet && s.addr == a
  }

  /** Every attempt goes to the client of the last SETUP, after a PLAY not yet undone. */
  ghost predicate OnTarget(log: seq<Event>) {
    forall i :: 0 <= i < |log| && log[i].Tried? ==> PlaysFor(SessionAfter(log, i), log[i].dest)
  }

  ghost predicate SessionMatches(g: Gate) {
    var s := SessionAfter(g.log, |g.log|);
    s.play == g.session.play && s.addrSet == g.session.addrSet && s.addr == g.session.addr
  }

  ghost predicate History(env: Env, g: Gate) {
    && (TriedTransportable(g.log) ==> Recovered(g))
    && (AlwaysAllocates(env) ==> CacheIsLast(g))
    && SessionMatches(g)
    && (BetweenMessages(env) ==> OnTarget(g.log))
  }

  /** The target sampled for a message, while it is being processed. */
  ghost predicate Sampled(env: Env, g: Gate, st: Stamp, canSend: bool) {
    && (BetweenMessages(env) && canSend ==> g.session.play && g.session.addrSet && g.session.addr == st.dest)
    && (NoSetupInside(env) && canSend ==> g.session.addrSet && g.session.addr == st.dest)
    && (canSend ==> Loyal(g.log, g.session.addr, st.dest))
  }

  // ----- one more event -----

  lemma {:induction false} DeliveredMore(log: seq<Event>, e: Event, a: Address, n: nat)
    requires n <= |log|
    ensures Delivered(log + [e], a, n) == Delivered(log, a, n)
  {
    if n > 0 {
      DeliveredMore(log, e, a, n - 1);
    }
  }

  lemma {:induction false} LastSeenMore(log: seq<Event>, e: Event, t: int, n: nat)
    requires n <= |log|
    ensures LastSeen(log + [e], t, n) == LastSeen(log, t, n)
  {
    if n > 0 {
      LastSeenMore(log, e, t, n - 1);
    }
  }

  lemma {:induction false} SessionMore(log: seq<Event>, e: Event, n: nat)
    requires n <= |log|
    ensures SessionAfter(log + [e], n) == SessionAfter(log, n)
  {
    if n > 0 {
      SessionMore(log, e, n - 1);
    }
  }

  lemma {:induction false} TransportablePrefix(log: seq<Event>, e: Event)
    requires TriedTransportable(log + [e])
    ensures TriedTransportable(log) && (e.Tried? ==> Transportable(e.nalu))
  {
    var more := log + [e];
    hide Transportable;
    assert forall i :: 0 <= i < |log| ==> more[i] == log[i];
    assert more[|log|] == e;
  }

  lemma {:induction false} RecoveredMore(g: Gate, g': Gate, e: Event)
    requires g'.log == g.log + [e] && Recovered(g)
    requires forall a :: Ear(g'.link, a).out ==
                         Ear(g.link, a).out + (if e.Tried? && e.ok && e.dest == a then [e.nalu] else [])
    ensures Recovered(g')
  {
    hide Ear;
    forall a
      ensures Ear(g'.link, a).out == Delivered(g'.log, a, |g'.log|)
    {
      DeliveredMore(g.log, e, a, |g.log|);
    }
  }

  lemma {:induction false} OnTargetMore(log: seq<Event>, e: Event)
    requires OnTarget(log)
    requires e.Tried? ==> PlaysFor(SessionAfter(log, |log|), e.dest)
    ensures OnTarget(log + [e])
  {
    var more := log + [e];
    forall i | 0 <= i < |more| && more[i].Tried?
      ensures PlaysFor(SessionAfter(more, i), more[i].dest)
    {
      SessionMore(log, e, i);
      if i < |log| {
        assert more[i] == log[i];
      }
    }
  }

  /** An event that moves the session only by a SETUP, and is sent only to the target. */
  lemma {:induction false} LoyalMore(log: seq<Event>, e: Event, client: Address, client': Address, target: Address)
    requires Loyal(log, client, target) && (e.Tried? ==> e.dest == target)
    requires client' == if e.Ctl? && e.control.Setup? then e.control.client else client
    ensures Loyal(log + [e], client', target)
  {
    var more := log + [e];
    if e.Ctl? && e.control.Setup? {
      assert ControlAt(more, |log|) && AllTo(more, |log| + 1, target);
    } else if client != target {
      var j :| ControlAt(log, j) && log[j].control.Setup? && AllTo(log, j + 1, target);
      assert ControlAt(more, j) && AllTo(more, j + 1, target);
    }
  }

  // ----- the steps of the sender -----

  lemma {:induction false} ControlStepSampled(env: Env, g: Gate, c: Control, st: Stamp)
    requires Sampled(env, g, st, true) && !BetweenMessages(env) && (NoSetupInside(env) ==> !c.Setup?)
    ensures Sampled(env, ControlStep(g, c), st, true)
  {
    hide Loyal, NoSetupInside;
    LoyalMore(g.log, Ctl(c), g.session.addr, ControlStep(g, c).session.addr, st.dest);
  }

  /** RTSP steps inside a message leave its target sampled. */
  lemma {:induction false} ControlledSampled(env: Env, g: Gate, cs: seq<Control>, st: Stamp)
    requires Sampled(env, g, st, true) && (BetweenMessages(env) ==> cs == []) && (NoSetupInside(env) ==> NoSetup(cs))
    ensures Sampled(env, Controlled(g, cs), st, true)
    decreases |cs|
  {
    if cs != [] {
      hide Sampled, Apply, BetweenMessages, NoSetupInside;
      ControlStepSampled(env, g, cs[0], st);
      assert NoSetupInside(env) ==> NoSetup(cs[1..]);
      ControlledSampled(env, ControlStep(g, cs[0]), cs[1..], st);
    }
  }

  lemma {:induction false} SampledSame(env: Env, g: Gate, g': Gate, st: Stamp, canSend: bool)
    requires Sampled(env, g, st, canSend) && g'.log == g.log
    requires g'.session.play == g.session.play && g'.session.addrSet == g.session.addrSet && g'.session.addr == g.session.addr
    ensures Sampled(env, g', st, canSend)
  {
  }

  lemma {:induction false} ControlStepHistory(env: Env, g: Gate, c: Control)
    requires History(env, g)
    ensures History(env, ControlStep(g, c))
  {
    hide Ear, Transportable, Recovered, OnTarget, TriedTransportable;
    var e := Ctl(c);
    SessionMore(g.log, e, |g.log|);
    OnTargetIf(env, g, e);
    forall t | IsParameterSet(t) {
      LastSeenMore(g.log, e, t, |g.log|);
    }
    if TriedTransportable(g.log + [e]) {
      TransportablePrefix(g.log, e);
      RecoveredMore(g, ControlStep(g, c), e);
    }
  }

  lemma {:induction false} OnTargetIf(env: Env, g: Gate, e: Event)
    requires History(env, g)
    requires e.Tried? && BetweenMessages(env) ==> g.session.play && g.session.addrSet && g.session.addr == e.dest
    ensures BetweenMessages(env) ==> OnTarget(g.log + [e])
  {
    hide OnTarget, BetweenMessages, Recovered, TriedTransportable, CacheIsLast;
    if BetweenMessages(env) {
      OnTargetMore(g.log, e);
    }
  }

  lemma {:induction false} ControlledHistory(env: Env, g: Gate, cs: seq<Control>)
    requires History(env, g)
    ensures History(env, Controlled(g, cs))
    decreases |cs|
  {
    if cs != [] {
      hide History, Apply;
      ControlStepHistory(env, g, cs[0]);
      ControlledHistory(env, ControlStep(g, cs[0]), cs[1..]);
    }
  }

  lemma {:induction false} CacheSetIsLast(env: Env, g: Gate, nalu: seq<byte>)
    requires AlwaysAllocates(env) && CacheIsLast(g)
    ensures CacheIsLast(Noted(env, g, nalu))
  {
    var g' := Noted(env, g, nalu);
    forall t | IsParameterSet(t)
      ensures Get(g'.sets, t) == LastSeen(g'.log, t, |g'.log|)
    {
      LastSeenMore(g.log, Seen(nalu), t, |g.log|);
    }
  }

  lemma {:induction false} NotedHistory(env: Env, g: Gate, nalu: seq<byte>)
    requires History(env, g)
    ensures History(env, Noted(env, g, nalu))
  {
    hide Ear, Transportable, Recovered, OnTarget, TriedTransportable, CacheIsLast;
    var e := Seen(nalu);
    var g' := Noted(env, g, nalu);
    SessionMore(g.log, e, |g.log|);
    OnTargetIf(env, g, e);
    if AlwaysAllocates(env) {
      CacheSetIsLast(env, g, nalu);
    }
    if TriedTransportable(g.log + [e]) {
      TransportablePrefix(g.log, e);
      RecoveredMore(g, g', e);
    }
  }

  lemma {:induction false} AttemptHistory(env: Env, g: Gate, st: Stamp, nalu: seq<byte>, marker: bool, cached: bool)
    requires History(env, g) && Sampled(env, g, st, true)
    ensures History(env, Attempt(env, g, st, nalu, marker, cached).0)
  {
    hide Ear, Transportable, Recovered, OnTarget, TriedTransportable, SendNalu, Loyal, BetweenMessages, NoSetupInside;
    var (g', ok) := Attempt(env, g, st, nalu, marker, cached);
    var e := Tried(st.dest, nalu, cached, ok);
    SessionMore(g.log, e, |g.log|);
    OnTargetIf(env, g, e);
    forall t | IsParameterSet(t) {
      LastSeenMore(g.log, e, t, |g.log|);
    }
    if TriedTransportable(g.log + [e]) {
      TransportablePrefix(g.log, e);
      forall a
        ensures Ear(g'.link, a).out == Ear(g.link, a).out + (if ok && st.dest == a then [nalu] else [])
      {
        SendNaluHeard(env.send, g.link, st, nalu, marker, a);
      }
      RecoveredMore(g, g', e);
    }
  }

  lemma {:induction false} AttemptSampled(env: Env, g: Gate, st: Stamp, nalu: seq<byte>, marker: bool, cached: bool)
    requires Sampled(env, g, st, true)
    ensures Sampled(env, Attempt(env, g, st, nalu, marker, cached).0, st, true)
  {
    hide Loyal, SendNalu, BetweenMessages, NoSetupInside;
    var (g', ok) := Attempt(env, g, st, nalu, marker, cached);
    LoyalMore(g.log, Tried(st.dest, nalu, cached, ok), g.session.addr, g.session.addr, st.dest);
  }

  lemma {:induction false} CountersHistory(env: Env, g: Gate, g': Gate)
    requires History(env, g) && g'.sets == g.sets && g'.link == g.link && g'.log == g.log
    requires g'.session.play == g.session.play && g'.session.addrSet == g.session.addrSet && g'.session.addr == g.session.addr
    ensures History(env, g')
  {
    hide Recovered, OnTarget, BetweenMessages, TriedTransportable;
    if TriedTransportable(g.log) {
      RecoveredSame(g, g');
    }
  }

  lemma {:induction false} RecoveredSame(g: Gate, g': Gate)
    requires Recovered(g) && g'.link == g.link && g'.log == g.log
    ensures Recovered(g')
  {
  }

  /** RTSP steps at one of the points inside a message. */
  lemma {:induction false} InsideHistory(env: Env, g: Gate, cs: seq<Control>, st: Stamp)
    requires History(env, g) && Sampled(env, g, st, true)
    requires (BetweenMessages(env) ==> cs == []) && (NoSetupInside(env) ==> NoSetup(cs))
    ensures History(env, Controlled(g, cs)) && Sampled(env, Controlled(g, cs), st, true)
  {
    hide History, Sampled;
    ControlledHistory(env, g, cs);
    ControlledSampled(env, g, cs, st);
  }

  lemma {:induction false} TrySendHistory(env: Env, g: Gate, st: Stamp, nalu: seq<byte>, marker: bool, cached: bool)
    requires History(env, g) && Sampled(env, g, st, true)
    ensures var g' := TrySend(env, g, st, nalu, marker, cached).0; History(env, g') && Sampled(env, g', st, true)
  {
    hide History, Sampled, Attempt, Controlled;
    var c := Controlled(g, env.atSend(g.tries));
    InsideHistory(env, g, env.atSend(g.tries), st);
    CountersHistory(env, c, AtSend(env, g));
    SampledSame(env, c, AtSend(env, g), st, true);
    AttemptHistory(env, AtSend(env, g), st, nalu, marker, cached);
    AttemptSampled(env, AtSend(env, g), st, nalu, marker, cached);
  }

  lemma {:induction false} SendSetsHistory(env: Env, g: Gate, st: Stamp)
    requires History(env, g) && Sampled(env, g, st, true)
    ensures var g' := SendSets(env, g, st).0; History(env, g') && Sampled(env, g', st, true)
  {
    if HaveAll(g.sets) {
      hide History, Sampled, TrySend;
      TrySendHistory(env, g, st, g.sets.vps.value, false, true);
      var (g1, ok1) := TrySend(env, g, st, g.sets.vps.value, false, true);
      if ok1 {
        TrySendHistory(env, g1, st, g.sets.sps.value, false, true);
        var (g2, ok2) := TrySend(env, g1, st, g.sets.sps.value, false, true);
        if ok2 {
          TrySendHistory(env, g2, st, g.sets.pps.value, false, true);
        }
      }
    }
  }

  lemma {:induction false} PassHistory(env: Env, g: Gate, st: Stamp, nalu: seq<byte>, marker: bool)
    requires History(env, g) && Sampled(env, g, st, true)
    ensures var g' := Pass(env, g, st, nalu, marker).0; History(env, g') && Sampled(env, g', st, true)
  {
    hide History, Sampled, TrySend;
    CountersHistory(env, g, g.(waitIdr := false));
    SampledSame(env, g, g.(waitIdr := false), st, true);
    TrySendHistory(env, g.(waitIdr := false), st, nalu, marker, false);
  }

  lemma {:induction false} NotedSampled(env: Env, g: Gate, nalu: seq<byte>, st: Stamp, canSend: bool)
    requires Sampled(env, g, st, canSend)
    ensures Sampled(env, Noted(env, g, nalu), st, canSend)
  {
    hide Loyal, BetweenMessages, NoSetupInside;
    if canSend {
      LoyalMore(g.log, Seen(nalu), g.session.addr, g.session.addr, st.dest);
    }
  }

  /** One NAL unit keeps the whole history, whatever branch it takes. */
  lemma {:induction false} ProcessNaluHistory(env: Env, g: Gate, st: Stamp, nalu: seq<byte>, marker: bool, canSend: bool)
    requires History(env, g) && Sampled(env, g, st, canSend)
    ensures var g' := ProcessNalu(env, g, st, nalu, marker, canSend).0;
            History(env, g') && Sampled(env, g', st, canSend)
  {
    hide History, Sampled, Noted, SendSets, Pass, Controlled;
    if |nalu| < 2 { return; }
    NotedHistory(env, g, nalu);
    NotedSampled(env, g, nalu, st, canSend);
    var g1 := Noted(env, g, nalu);
    if !canSend { return; }
    var c1 := Controlled(g1, env.atRead(g1.readings));
    InsideHistory(env, g1, env.atRead(g1.readings), st);
    var g2 := AtRead(env, g1);
    CountersHistory(env, c1, g2);
    SampledSame(env, c1, g2, st, true);
    if !g2.session.need {
      PassHistory(env, g2, st, nalu, marker);
    } else {
      SendSetsHistory(env, g2, st);
      var (g3, ok) := SendSets(env, g2, st);
      if ok {
        var c3 := Controlled(g3, env.atMark(g3.markings));
        InsideHistory(env, g3, env.atMark(g3.markings), st);
        CountersHistory(env, c3, AtMark(env, g3));
        SampledSame(env, c3, AtMark(env, g3), st, true);
        PassHistory(env, AtMark(env, g3), st, nalu, marker);
      }
    }
  }

  // ----- the session, read off the history -----

  /** The last RTSP step before n is a PLAY. */
  ghost predicate Playing(log: seq<Event>, n: nat) {
    exists k :: 0 <= k < n && ControlAt(log, k) && log[k].control.Play?
                && forall m :: k < m < n ==> !(ControlAt(log, m) && !log[m].control.Play?)
  }

  /** The last SETUP before n names `a`. */
  ghost predicate SetUpFor(log: seq<Event>, a: Address, n: nat) {
    exists k :: 0 <= k < n && ControlAt(log, k) && log[k].control == Setup(a)
                && forall m :: k < m < n ==> !(ControlAt(log, m) && log[m].control.Setup?)
  }

  /** What the flags mean: `play` says that a PLAY was not yet undone, `client_addr` is the last SETUP's client. */
  lemma {:induction false} FlagsMean(log: seq<Event>, n: nat, a: Address)
    requires n <= |log|
    ensures SessionAfter(log, n).play <==> Playing(log, n)
    ensures SessionAfter(log, n).addrSet && SessionAfter(log, n).addr == a <==> SetUpFor(log, a, n)
  {
    if n > 0 {
      FlagsMean(log, n - 1, a);
      if !ControlAt(log, n - 1) || log[n - 1].control.Play? {
        PlayingStep(log, n);
      }
      if !ControlAt(log, n - 1) || !log[n - 1].control.Setup? {
        SetUpStep(log, a, n);
      } else {
        SetUpLast(log, a, n);
      }
      if ControlAt(log, n - 1) && !log[n - 1].control.Play? {
        assert !Playing(log, n);
      }
    }
  }

  lemma {:induction false} PlayingStep(log: seq<Event>, n: nat)
    requires 0 < n <= |log| && (!ControlAt(log, n - 1) || log[n - 1].control.Play?)
    ensures Playing(log, n) <==> ControlAt(log, n - 1) || Playing(log, n - 1)
  {
    if ControlAt(log, n - 1) {
      assert Playing(log, n);
    } else if Playing(log, n - 1) {
      var k :| 0 <= k < n - 1 && ControlAt(log, k) && log[k].control.Play?
               && forall m :: k < m < n - 1 ==> !(ControlAt(log, m) && !log[m].control.Play?);
      assert Playing(log, n);
    }
  }

  lemma {:induction false} SetUpStep(log: seq<Event>, a: Address, n: nat)
    requires 0 < n <= |log| && (!ControlAt(log, n - 1) || !log[n - 1].control.Setup?)
    ensures SetUpFor(log, a, n) <==> SetUpFor(log, a, n - 1)
  {
    if SetUpFor(log, a, n - 1) {
      var k :| 0 <= k < n - 1 && ControlAt(log, k) && log[k].control == Setup(a)
               && forall m :: k < m < n - 1 ==> !(ControlAt(log, m) && log[m].control.Setup?);
      assert SetUpFor(log, a, n);
    }
  }

  lemma {:induction false} SetUpLast(log: seq<Event>, a: Address, n: nat)
    requires 0 < n <= |log| && ControlAt(log, n - 1) && log[n - 1].control.Setup?
    ensures SetUpFor(log, a, n) <==> log[n - 1].control.client == a
  {
    if SetUpFor(log, a, n) {
      var k :| 0 <= k < n && ControlAt(log, k) && log[k].control == Setup(a)
               && forall m :: k < m < n ==> !(ControlAt(log, m) && log[m].control.Setup?);
      assert k == n - 1;
    }
  }

  /**
   * Nothing is attempted after a SETUP, TEARDOWN or disconnect until the next PLAY, nor to anyone but the
   * client of the last SETUP.
   */
  lemma {:induction false} OnTargetMeans(log: seq<Event>, i: nat)
    requires OnTarget(log) && i < |log| && log[i].Tried?
    ensures Playing(log, i) && SetUpFor(log, log[i].dest, i)
  {
    hide Playing, SetUpFor;
    FlagsMean(log, i, log[i].dest);
  }

  // ----- RTSP steps since the target was sampled -----

  /** The last RTSP step before n, -1 if there is none. */
  function LastStep(log: seq<Event>, n: nat): (k: int)
    requires n <= |log|
    ensures -1 <= k < n && (k >= 0 ==> ControlAt(log, k))
  {
    if n == 0 then -1 else if log[n - 1].Ctl? then n - 1 else LastStep(log, n - 1)
  }

  /** The last SETUP before n. */
  function LastSetup(log: seq<Event>, n: nat): (k: int)
    requires n <= |log|
    ensures -1 <= k < n && (k >= 0 ==> ControlAt(log, k) && log[k].control.Setup?)
  {
    if n == 0 then -1 else if ControlAt(log, n - 1) && log[n - 1].control.Setup? then n - 1 else LastSetup(log, n - 1)
  }

  /** Of the RTSP steps from m on the last, if any, is a PLAY, and the last SETUP, if any, names `a`. */
  predicate StillFor(log: seq<Event>, m: nat, n: nat, a: Address)
    requires m <= n <= |log|
  {
    && (LastStep(log, n) >= m ==> log[LastStep(log, n)].control.Play?)
    && (LastSetup(log, n) >= m ==> log[LastSetup(log, n)].control.client == a)
  }

  /** A session that played for `a` at m still does at n if and only if the RTSP steps in between were like that. */
  lemma {:induction false} StillPlaysExactly(log: seq<Event>, m: nat, n: nat, a: Address)
    requires m <= n <= |log| && PlaysFor(SessionAfter(log, m), a)
    ensures var s := SessionAfter(log, n);
            && s.addrSet && (s.play <==> (LastStep(log, n) >= m ==> log[LastStep(log, n)].control.Play?))
            && (s.addr == a <==> (LastSetup(log, n) >= m ==> log[LastSetup(log, n)].control.client == a))
    ensures PlaysFor(SessionAfter(log, n), a) <==> StillFor(log, m, n, a)
  {
    if m < n {
      StillPlaysExactly(log, m, n - 1, a);
    }
  }

  lemma {:induction false} StepsSame(log: seq<Event>, more: seq<Event>, n: nat)
    requires log <= more && n <= |log|
    ensures SessionAfter(more, n) == SessionAfter(log, n)
    ensures LastStep(more, n) == LastStep(log, n) && LastSetup(more, n) == LastSetup(log, n)
  {
    if n > 0 {
      assert more[n - 1] == log[n - 1];
      StepsSame(log, more, n - 1);
    }
  }
}
