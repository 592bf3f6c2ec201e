/**
 * The parameter-set cache and the receiver stay in step: while a client plays and no request is pending, the
 * last VPS, SPS and PPS it was sent are the cached ones, except a set that changed since the last triple and
 * arrived only before the IDR behind it, which the code caches but does not send.
 */
module GateInStep {
  import opened Bytes
  import opened Rtp
  import opened PlaybackGate
  import opened GateLanguage
  import opened GateHistory

  predicate SentTo(e: Event, a: Address, t: int) {
    e.Tried? && e.ok && e.dest == a && NalType(e.nalu) == t
  }

  /** The last NAL unit of type t sent to `a` with success. */
  function LastTo(log: seq<Event>, a: Address, t: int, n: nat): Option<seq<byte>>
    requires n <= |log|
  {
    if n == 0 then None
    else if SentTo(log[n - 1], a, t) then Some(log[n - 1].nalu)
    else LastTo(log, a, t, n - 1)
  }

  function LastOf(nalus: seq<seq<byte>>, t: int, n: nat): Option<seq<byte>>
    requires n <= |nalus|
  {
    if n == 0 then None
    else if NalType(nalus[n - 1]) == t then Some(nalus[n - 1])
    else LastOf(nalus, t, n - 1)
  }

  ghost predicate Latest(log: seq<Event>, k: int) {
    TripleEnd(log, k) && forall m :: k < m ==> !TripleEnd(log, m)
  }

  /** Since the triple that ends at k, sets of type t arrived only before the first stream NAL unit. */
  ghost predicate Early(log: seq<Event>, t: int, k: int) {
    forall i :: 0 <= i < |log| && k < i && log[i].Seen? && NalType(log[i].nalu) == t ==> Quiet(log, k + 1, i)
  }

  /** The set of type t changed since the latest triple, and only while the sender was waiting for an IDR. */
  ghost predicate Missed(log: seq<Event>, t: int) {
    exists k :: 0 <= k < |log| && Latest(log, k) && Early(log, t, k) && LastSeen(log, t, k) != LastSeen(log, t, |log|)
  }

  ghost predicate Fits(log: seq<Event>) {
    forall i :: 0 <= i < |log| && log[i].Seen? && IsParameterSet(NalType(log[i].nalu)) ==> |log[i].nalu| <= PARAM_SET_MAX
  }

  ghost predicate AlwaysSends(env: Env) {
    forall k :: env.send(k)
  }

  /** No send, allocation or RTSP step gets in the way. */
  ghost predicate Smooth(env: Env) {
    AlwaysSends(env) && AlwaysAllocates(env) && BetweenMessages(env)
  }

  /** What `a` holds of type t, if k ends the latest triple, sent to it. */
  function Held(log: seq<Event>, t: int, k: nat, early: bool): Option<seq<byte>>
    requires k <= |log|
  {
    if early then LastSeen(log, t, k) else LastSeen(log, t, |log|)
  }

  /** The sets of one type, told from the latest triple on. */
  ghost predicate HoldsAt(log: seq<Event>, a: Address, t: int, k: nat)
    requires k <= |log|
  {
    LastTo(log, a, t, |log|) == Held(log, t, k, Early(log, t, k))
  }

  ghost predicate SyncedAt(g: Gate, k: nat) {
    && k < |g.log| && Latest(g.log, k) && (g.waitIdr <==> Quiet(g.log, k + 1, |g.log|))
    && forall t :: IsParameterSet(t) ==> HoldsAt(g.log, g.session.addr, t, k)
  }

  ghost predicate Synced(g: Gate) {
    g.session.play && g.session.addrSet && !g.session.need ==> exists k: nat :: SyncedAt(g, k)
  }

  ghost predicate StepInv(g: Gate) {
    CacheIsLast(g) && Typed(g.sets) && (Fits(g.log) ==> Synced(g))
  }

  /** So a client is out of step exactly when it missed a set. */
  lemma {:induction false} InStepExactly(g: Gate, t: int)
    requires StepInv(g) && Fits(g.log) && g.session.play && g.session.addrSet && !g.session.need && IsParameterSet(t)
    ensures LastTo(g.log, g.session.addr, t, |g.log|) == Get(g.sets, t) <==> !Missed(g.log, t)
  {
    hide TripleEnd, Early, LastTo, LastSeen, Get, Fits, Typed;
    var k: nat :| SyncedAt(g, k);
    assert HoldsAt(g.log, g.session.addr, t, k);
    if Missed(g.log, t) {
      var k' :| 0 <= k' < |g.log| && Latest(g.log, k') && Early(g.log, t, k') && LastSeen(g.log, t, k') != LastSeen(g.log, t, |g.log|);
      assert k' == k;
    }
  }

  // ----- one more event -----

  lemma {:induction false} LastToMore(log: seq<Event>, e: Event, a: Address, t: int, n: nat)
    requires n <= |log|
    ensures LastTo(log + [e], a, t, n) == LastTo(log, a, t, n)
  {
    if n > 0 {
      LastToMore(log, e, a, t, n - 1);
    }
  }

  lemma {:induction false} EarlyMore(log: seq<Event>, e: Event, t: int, k: int)
    requires 0 <= k < |log|
    ensures Early(log + [e], t, k) <==>
            Early(log, t, k) && (e.Seen? && NalType(e.nalu) == t ==> Quiet(log, k + 1, |log|))
  {
    var more := log + [e];
    forall i | 0 <= i < |more|
      ensures Quiet(more, k + 1, i) == Quiet(log, k + 1, i)
      ensures i < |log| ==> more[i] == log[i]
    {
      QuietOlder(log, e, k + 1, i);
    }
    assert more[|log|] == e;
  }

  lemma {:induction false} LatestMore(log: seq<Event>, e: Event, k: int)
    requires Latest(log, k) && !(e.Tried? && e.cached)
    ensures Latest(log + [e], k)
  {
    hide TripleEnd;
    TripleBound(log, k);
    Older(log, e);
    NotSetEnd(log, e);
    forall m | k < m
      ensures !TripleEnd(log + [e], m)
    {
      TripleBounded(log + [e], m);
    }
  }

  lemma {:induction false} TripleBounded(log: seq<Event>, m: int)
    ensures TripleEnd(log, m) ==> m < |log|
  {
  }

  lemma {:induction false} NotSetEnd(log: seq<Event>, e: Event)
    requires !(e.Tried? && e.cached)
    ensures !TripleEnd(log + [e], |log|)
  {
  }

  /** What a client holds after one more event that is no cached set. */
  lemma {:induction false} HoldsMore(log: seq<Event>, e: Event, a: Address, t: int, k: nat)
    requires k < |log| && HoldsAt(log, a, t, k) && !SentTo(e, a, t) && !SetToCache(e, t)
    requires !(e.Seen? && NalType(e.nalu) == t)
    ensures HoldsAt(log + [e], a, t, k)
  {
    EarlyMore(log, e, t, k);
    LastToMore(log, e, a, t, |log|);
    LastSeenMore(log, e, t, |log|);
    LastSeenMore(log, e, t, k);
    hide Early;
  }

  /** A set that arrives while waiting. */
  lemma {:induction false} HoldsWaiting(log: seq<Event>, nalu: seq<byte>, a: Address, k: nat)
    requires var t := NalType(nalu); k < |log| && HoldsAt(log, a, t, k) && Quiet(log, k + 1, |log|)
    ensures HoldsAt(log + [Seen(nalu)], a, NalType(nalu), k)
  {
    var t, e := NalType(nalu), Seen(nalu);
    assert Early(log, t, k);
    EarlyMore(log, e, t, k);
    LastToMore(log, e, a, t, |log|);
    LastSeenMore(log, e, t, k);
    hide Early;
  }

  /** A set that arrives later and is sent on. */
  lemma {:induction false} HoldsSent(log: seq<Event>, nalu: seq<byte>, a: Address, k: nat)
    requires k < |log| && !Quiet(log, k + 1, |log|) && |nalu| <= PARAM_SET_MAX
    ensures var more := log + [Seen(nalu)] + [Tried(a, nalu, false, true)]; HoldsAt(more, a, NalType(nalu), k)
  {
    var t, l1, e2 := NalType(nalu), log + [Seen(nalu)], Tried(a, nalu, false, true);
    EarlyMore(log, Seen(nalu), t, k);
    EarlyMore(l1, e2, t, k);
    LastSeenMore(l1, e2, t, |l1|);
    hide Early;
  }

  lemma {:induction false} CacheIsLastMore(g: Gate, g': Gate, e: Event)
    requires CacheIsLast(g) && g'.log == g.log + [e] && g'.sets == g.sets && !e.Seen?
    ensures CacheIsLast(g')
  {
    forall t | IsParameterSet(t)
      ensures Get(g'.sets, t) == LastSeen(g'.log, t, |g'.log|)
    {
      LastSeenMore(g.log, e, t, |g.log|);
    }
  }

  // ----- what is sent from the cache -----

  /** Every cached set attempted is the last of its type, of at most 16 KiB, among the NAL units looked at before. */
  ghost predicate FromCache(log: seq<Event>) {
    forall i :: 0 <= i < |log| && log[i].Tried? && log[i].cached
                ==> LastSeen(log, NalType(log[i].nalu), i) == Some(log[i].nalu)
  }

  lemma {:induction false} FromCacheMore(log: seq<Event>, e: Event)
    requires FromCache(log)
    requires e.Tried? && e.cached ==> LastSeen(log, NalType(e.nalu), |log|) == Some(e.nalu)
    ensures FromCache(log + [e])
  {
    var more := log + [e];
    forall i | 0 <= i < |more| && more[i].Tried? && more[i].cached
      ensures LastSeen(more, NalType(more[i].nalu), i) == Some(more[i].nalu)
    {
      LastSeenMore(log, e, NalType(more[i].nalu), i);
      if i < |log| {
        assert more[i] == log[i];
      }
    }
  }

  /** The cache is up to date and has been whenever a set was sent from it. */
  ghost predicate Cached(g: Gate) {
    CacheIsLast(g) && FromCache(g.log)
  }

  lemma {:induction false} ControlledCached(g: Gate, cs: seq<Control>)
    requires Cached(g)
    ensures Cached(Controlled(g, cs)) && Controlled(g, cs).sets == g.sets
    decreases |cs|
  {
    if cs != [] {
      hide CacheIsLast, FromCache, Apply;
      var g' := ControlStep(g, cs[0]);
      CacheIsLastMore(g, g', Ctl(cs[0]));
      FromCacheMore(g.log, Ctl(cs[0]));
      ControlledCached(g', cs[1..]);
    }
  }

  lemma {:induction false} CachedSame(g: Gate, g': Gate)
    requires Cached(g) && g'.log == g.log && g'.sets == g.sets
    ensures Cached(g')
  {
  }

  lemma {:induction false} TrySendCached(env: Env, g: Gate, st: Stamp, nalu: seq<byte>, marker: bool, cached: bool)
    requires Cached(g) && (cached ==> IsParameterSet(NalType(nalu)) && Get(g.sets, NalType(nalu)) == Some(nalu))
    ensures var g' := TrySend(env, g, st, nalu, marker, cached).0; Cached(g') && g'.sets == g.sets
  {
    hide SendNalu, Controlled, FromCache;
    var h := AtSend(env, g);
    ControlledCached(g, env.atSend(g.tries));
    CachedSame(Controlled(g, env.atSend(g.tries)), h);
    var (g', ok) := TrySend(env, g, st, nalu, marker, cached);
    var e := Tried(st.dest, nalu, cached, ok);
    FromCacheMore(h.log, e);
    CacheIsLastMore(h, g', e);
  }

  lemma {:induction false} SendSetsCached(env: Env, g: Gate, st: Stamp)
    requires Cached(g) && Typed(g.sets)
    ensures Cached(SendSets(env, g, st).0)
  {
    if HaveAll(g.sets) {
      hide Cached, TrySend;
      TrySendCached(env, g, st, g.sets.vps.value, false, true);
      var (g1, ok1) := TrySend(env, g, st, g.sets.vps.value, false, true);
      if ok1 {
        TrySendCached(env, g1, st, g.sets.sps.value, false, true);
        var (g2, ok2) := TrySend(env, g1, st, g.sets.sps.value, false, true);
        if ok2 {
          TrySendCached(env, g2, st, g.sets.pps.value, false, true);
        }
      }
    }
  }

  lemma {:induction false} PassCached(env: Env, g: Gate, st: Stamp, nalu: seq<byte>, marker: bool)
    requires Cached(g)
    ensures Cached(Pass(env, g, st, nalu, marker).0)
  {
    hide Cached, TrySend;
    CachedSame(g, g.(waitIdr := false));
    TrySendCached(env, g.(waitIdr := false), st, nalu, marker, false);
  }

  lemma {:induction false} NotedCached(env: Env, g: Gate, nalu: seq<byte>)
    requires Cached(g) && AlwaysAllocates(env)
    ensures Cached(Noted(env, g, nalu))
  {
    CacheSetIsLast(env, g, nalu);
    hide CacheIsLast, FromCache;
    FromCacheMore(g.log, Seen(nalu));
  }

  /** One NAL unit, when memory is granted: whatever goes out from the cache is up to date. */
  lemma {:induction false} ProcessNaluCached(env: Env, g: Gate, st: Stamp, nalu: seq<byte>, marker: bool, canSend: bool)
    requires Inv(g) && Cached(g) && AlwaysAllocates(env)
    ensures Cached(ProcessNalu(env, g, st, nalu, marker, canSend).0)
  {
    hide Cached, Noted, SendSets, Pass, Controlled, Inv, AlwaysAllocates;
    if |nalu| < 2 { return; }
    NotedCached(env, g, nalu);
    if !canSend { return; }
    var g1 := Noted(env, g, nalu);
    NotedInv(env, g, nalu);
    ControlledCached(g1, env.atRead(g1.readings));
    var g2 := AtRead(env, g1);
    CachedSame(Controlled(g1, env.atRead(g1.readings)), g2);
    if !g2.session.need {
      PassCached(env, g2, st, nalu, marker);
    } else {
      InvTyped(g1);
      SendSetsCached(env, g2, st);
      var (g3, ok) := SendSets(env, g2, st);
      if ok {
        ControlledCached(g3, env.atMark(g3.markings));
        CachedSame(Controlled(g3, env.atMark(g3.markings)), AtMark(env, g3));
        PassCached(env, AtMark(env, g3), st, nalu, marker);
      }
    }
  }

  lemma {:induction false} InvTyped(g: Gate)
    requires Inv(g)
    ensures Typed(g.sets)
  {
  }

  // ----- sends that cannot fail -----

  lemma {:induction false} AllFromSent(send: nat -> bool, l: Link, st: Stamp, nalu: seq<byte>, j: nat, marker: bool)
    requires (forall k :: send(k)) && j <= |Payloads(nalu)|
    ensures SendFrom(send, l, st, Payloads(nalu), j, marker).1
    decreases |Payloads(nalu)| - j
  {
    hide Payloads;
    if j < |Payloads(nalu)| {
      PayloadFits(nalu, j);
      var l' := SendPacket(send, l, st, Payloads(nalu)[j], marker && j == |Payloads(nalu)| - 1).0;
      AllFromSent(send, l', st, nalu, j + 1, marker);
    }
  }

  lemma {:induction false} TrySendSucceeds(env: Env, g: Gate, st: Stamp, nalu: seq<byte>, marker: bool, cached: bool)
    requires AlwaysSends(env) && env.atSend(g.tries) == [] && |nalu| >= 2
    ensures var (g', ok) := TrySend(env, g, st, nalu, marker, cached);
            && ok && g'.log == g.log + [Tried(st.dest, nalu, cached, true)]
            && g'.sets == g.sets && g'.session == g.session && g'.waitIdr == g.waitIdr
  {
    assert AtSend(env, g) == g.(tries := g.tries + 1);
    AllFromSent(env.send, g.link, st, nalu, 0, marker);
  }

  // ----- the steps -----

  /** A triple brings every client it is sent to up to date with the cache. */
  lemma {:induction false} TripleBringsUp(env: Env, g: Gate, st: Stamp)
    requires AlwaysSends(env) && BetweenMessages(env) && Typed(g.sets) && HaveAll(g.sets)
    ensures var (g', ok) := SendSets(env, g, st);
            && ok && g'.sets == g.sets && g'.session == g.session && g'.waitIdr == g.waitIdr
            && g'.log == g.log + [Tried(st.dest, g.sets.vps.value, true, true)]
                         + [Tried(st.dest, g.sets.sps.value, true, true)]
                         + [Tried(st.dest, g.sets.pps.value, true, true)]
  {
    hide TrySend, AlwaysSends;
    TrySendSucceeds(env, g, st, g.sets.vps.value, false, true);
    var g1 := TrySend(env, g, st, g.sets.vps.value, false, true).0;
    TrySendSucceeds(env, g1, st, g.sets.sps.value, false, true);
    var g2 := TrySend(env, g1, st, g.sets.sps.value, false, true).0;
    TrySendSucceeds(env, g2, st, g.sets.pps.value, false, true);
  }

  lemma {:induction false} TripleLast(log: seq<Event>, a: Address, s: Sets)
    requires Typed(s) && HaveAll(s)
    ensures var more := log + [Tried(a, s.vps.value, true, true)] + [Tried(a, s.sps.value, true, true)]
                        + [Tried(a, s.pps.value, true, true)];
            forall t :: IsParameterSet(t) ==> LastTo(more, a, t, |more|) == Get(s, t)
  {
    var l1 := log + [Tried(a, s.vps.value, true, true)];
    var l2 := l1 + [Tried(a, s.sps.value, true, true)];
    var e3 := Tried(a, s.pps.value, true, true);
    forall t | IsParameterSet(t)
      ensures LastTo(l2 + [e3], a, t, |l2| + 1) == Get(s, t)
    {
      LastToMore(l2, e3, a, t, |l2|);
      LastToMore(l1, Tried(a, s.sps.value, true, true), a, t, |l1|);
      assert LastTo(l1, a, VPS, |l1|) == s.vps;
    }
  }

  /** Three successful attempts at sets of the right types are a triple. */
  lemma {:induction false} TripleAtEnd(log: seq<Event>, a: Address, s: Sets)
    requires Typed(s) && HaveAll(s)
    ensures var more := log + [Tried(a, s.vps.value, true, true)] + [Tried(a, s.sps.value, true, true)]
                        + [Tried(a, s.pps.value, true, true)];
            Latest(more, |more| - 1)
  {
    var l1 := log + [Tried(a, s.vps.value, true, true)];
    var l2 := l1 + [Tried(a, s.sps.value, true, true)];
    var l3 := l2 + [Tried(a, s.pps.value, true, true)];
    assert Prev(l3, |l2|) == |l1| && Prev(l3, |l1|) == |log|;
  }

  /** Caching a NAL unit keeps the cache as its history says. */
  lemma {:induction false} NotedSets(env: Env, g: Gate, nalu: seq<byte>)
    requires AlwaysAllocates(env) && (IsParameterSet(NalType(nalu)) ==> |nalu| <= PARAM_SET_MAX)
    ensures Noted(env, g, nalu).sets ==
            if Get(g.sets, NalType(nalu)) == Some(nalu) || !IsParameterSet(NalType(nalu)) then g.sets
            else Put(g.sets, NalType(nalu), nalu)
  {
  }

  lemma {:induction false} NotedRest(env: Env, g: Gate, nalu: seq<byte>)
    requires CacheIsLast(g) && Typed(g.sets) && AlwaysAllocates(env)
    ensures var g1 := Noted(env, g, nalu);
            && CacheIsLast(g1) && Typed(g1.sets) && g1.log == g.log + [Seen(nalu)]
            && g1.session == g.session && g1.waitIdr == g.waitIdr && g1.readings == g.readings && g1.tries == g.tries
            && g1.markings == g.markings
  {
    CacheSetIsLast(env, g, nalu);
    hide CacheIsLast;
  }

  /** While playing with nothing pending, a NAL unit noted and stopped by the gate. */
  lemma {:induction false} StoppedSynced(g: Gate, g': Gate, nalu: seq<byte>)
    requires Synced(g) && g.session.play && g.session.addrSet && !g.session.need && g.waitIdr
    requires g'.log == g.log + [Seen(nalu)] && g'.session == g.session && g'.waitIdr
    ensures Synced(g')
  {
    hide HoldsAt, Quiet, Latest;
    var k: nat :| SyncedAt(g, k);
    LatestMore(g.log, Seen(nalu), k);
    QuietEnd(g.log, Seen(nalu), k);
    forall t | IsParameterSet(t)
      ensures HoldsAt(g'.log, g.session.addr, t, k)
    {
      if NalType(nalu) == t {
        HoldsWaiting(g.log, nalu, g.session.addr, k);
      } else {
        HoldsMore(g.log, Seen(nalu), g.session.addr, t, k);
      }
    }
    assert SyncedAt(g', k);
  }

  lemma {:induction false} QuietEnd(log: seq<Event>, e: Event, k: nat)
    requires k < |log|
    ensures Quiet(log + [e], k + 1, |log| + 1) <==> Quiet(log, k + 1, |log|) && !(e.Tried? && !e.cached)
  {
    QuietOlder(log, e, k + 1, |log|);
    assert StreamAt(log + [e], |log|) == (e.Tried? && !e.cached);
  }

  /** A NAL unit noted and then sent on: an IDR behind the gate, or any one once the gate is open. */
  lemma {:induction false} SentSynced(g: Gate, g': Gate, nalu: seq<byte>)
    requires Synced(g) && g.session.play && g.session.addrSet && !g.session.need
    requires g.waitIdr ==> IsIdr(NalType(nalu))
    requires IsParameterSet(NalType(nalu)) ==> |nalu| <= PARAM_SET_MAX
    requires g'.log == g.log + [Seen(nalu)] + [Tried(g.session.addr, nalu, false, true)]
    requires g'.session == g.session && !g'.waitIdr
    ensures Synced(g')
  {
    hide HoldsAt, Quiet, Latest;
    var k: nat :| SyncedAt(g, k);
    var l1, e2 := g.log + [Seen(nalu)], Tried(g.session.addr, nalu, false, true);
    LatestMore(g.log, Seen(nalu), k);
    LatestMore(l1, e2, k);
    QuietEnd(l1, e2, k);
    forall t | IsParameterSet(t)
      ensures HoldsAt(g'.log, g.session.addr, t, k)
    {
      if NalType(nalu) == t {
        HoldsSent(g.log, nalu, g.session.addr, k);
      } else {
        HoldsMore(g.log, Seen(nalu), g.session.addr, t, k);
        HoldsMore(l1, e2, g.session.addr, t, k);
      }
    }
    assert SyncedAt(g', k);
  }

  /** A triple just sent to the playing client brings it in step, whatever it missed before. */
  lemma {:induction false} TripleSynced(g: Gate, g': Gate, st: Stamp)
    requires CacheIsLast(g) && Typed(g.sets) && HaveAll(g.sets) && st.dest == g.session.addr
    requires g'.log == g.log + [Tried(st.dest, g.sets.vps.value, true, true)]
                       + [Tried(st.dest, g.sets.sps.value, true, true)] + [Tried(st.dest, g.sets.pps.value, true, true)]
    requires g'.sets == g.sets && g'.session.addr == g.session.addr && g'.waitIdr
    ensures Synced(g') && CacheIsLast(g')
  {
    hide LastTo, Latest, CacheIsLast, LastSeen;
    var e1, e2, e3 := Tried(st.dest, g.sets.vps.value, true, true), Tried(st.dest, g.sets.sps.value, true, true),
                      Tried(st.dest, g.sets.pps.value, true, true);
    TripleLast(g.log, st.dest, g.sets);
    TripleAtEnd(g.log, st.dest, g.sets);
    CacheIsLastMore(g, g.(log := g.log + [e1]), e1);
    CacheIsLastMore(g.(log := g.log + [e1]), g.(log := g.log + [e1] + [e2]), e2);
    CacheIsLastMore(g.(log := g.log + [e1] + [e2]), g', e3);
    var k := |g'.log| - 1;
    forall t | IsParameterSet(t)
      ensures HoldsAt(g'.log, g'.session.addr, t, k)
    {
      assert Early(g'.log, t, k);
      CacheMeans(g', t);
      SameBefore(g'.log, t);
    }
    assert SyncedAt(g', k);
  }

  lemma {:induction false} CacheMeans(g: Gate, t: int)
    requires CacheIsLast(g) && IsParameterSet(t)
    ensures Get(g.sets, t) == LastSeen(g.log, t, |g.log|)
  {
  }

  lemma {:induction false} SameBefore(log: seq<Event>, t: int)
    requires log != [] && !log[|log| - 1].Seen?
    ensures LastSeen(log, t, |log| - 1) == LastSeen(log, t, |log|)
  {
  }

  lemma {:induction false} PassRest(env: Env, g: Gate, st: Stamp, nalu: seq<byte>, marker: bool)
    requires AlwaysSends(env) && env.atSend(g.tries) == [] && |nalu| >= 2 && CacheIsLast(g)
    ensures var g', shut := Pass(env, g, st, nalu, marker).0, g.waitIdr && !IsIdr(NalType(nalu));
            && CacheIsLast(g') && g'.sets == g.sets && g'.session == g.session && g'.waitIdr == shut
            && g'.log == g.log + (if shut then [] else [Tried(st.dest, nalu, false, true)])
  {
    hide TrySend, CacheIsLast, AlwaysSends;
    if !(g.waitIdr && !IsIdr(NalType(nalu))) {
      var h := g.(waitIdr := false);
      TrySendSucceeds(env, h, st, nalu, marker, false);
      CacheIsLastMore(g, TrySend(env, h, st, nalu, marker, false).0, Tried(st.dest, nalu, false, true));
    }
  }

  /** One NAL unit with the flag down. */
  lemma {:induction false} OpenInStep(env: Env, g: Gate, st: Stamp, nalu: seq<byte>, marker: bool)
    requires StepInv(g) && Smooth(env) && |nalu| >= 2 && st.dest == g.session.addr
    requires g.session.play && g.session.addrSet && !g.session.need
    ensures var g' := ProcessNalu(env, g, st, nalu, marker, true).0; StepInv(g') && g'.session == g.session
  {
    hide Noted, Pass, Typed, CacheIsLast, Fits, Synced, AlwaysSends, AlwaysAllocates;
    NotedRest(env, g, nalu);
    var g1 := Noted(env, g, nalu);
    var g2 := g1.(readings := g1.readings + 1);
    assert AtRead(env, g1) == g2;
    CacheSame(g1, g2);
    PassRest(env, g2, st, nalu, marker);
    var g' := Pass(env, g2, st, nalu, marker).0;
    if Fits(g'.log) {
      FitsOf(g.log, nalu, g'.log);
      if g2.waitIdr && !IsIdr(NalType(nalu)) {
        StoppedSynced(g, g', nalu);
      } else {
        SentSynced(g, g', nalu);
      }
    }
  }

  lemma {:induction false} CacheSame(g: Gate, g': Gate)
    requires CacheIsLast(g) && g'.log == g.log && g'.sets == g.sets
    ensures CacheIsLast(g')
  {
  }

  lemma {:induction false} FitsOf(log: seq<Event>, nalu: seq<byte>, more: seq<Event>)
    requires Fits(more) && log + [Seen(nalu)] <= more
    ensures Fits(log) && (IsParameterSet(NalType(nalu)) ==> |nalu| <= PARAM_SET_MAX)
  {
    assert forall i :: 0 <= i < |log| ==> more[i] == log[i];
    assert more[|log|] == Seen(nalu);
  }

  /** One NAL unit while the session needs parameter sets. */
  lemma {:induction false} NeedingInStep(env: Env, g: Gate, st: Stamp, nalu: seq<byte>, marker: bool)
    requires StepInv(g) && Smooth(env) && |nalu| >= 2 && st.dest == g.session.addr
    requires g.session.play && g.session.addrSet && g.session.need
    ensures var g' := ProcessNalu(env, g, st, nalu, marker, true).0;
            && StepInv(g') && g'.session.play && g'.session.addrSet && g'.session.addr == g.session.addr
  {
    hide Noted, Pass, Typed, CacheIsLast, Fits, Synced, SendSets, AlwaysSends, AlwaysAllocates;
    NotedRest(env, g, nalu);
    var g1 := Noted(env, g, nalu);
    var g2 := g1.(readings := g1.readings + 1);
    assert AtRead(env, g1) == g2;
    CacheSame(g1, g2);
    if HaveAll(g2.sets) {
      TripleBringsUp(env, g2, st);
      var g3 := SendSets(env, g2, st).0;
      var g4 := AtMark(env, g3);
      TripleSynced(g2, g4, st);
      PassRest(env, g4, st, nalu, marker);
      var g5 := Pass(env, g4, st, nalu, marker).0;
      if Fits(g5.log) && IsIdr(NalType(nalu)) {
        SentBehind(g4, g5, nalu);
      } else {
        SyncedKept(g4, g5);
      }
    } else {
      NoTriple(env, g2, st);
      NeedSynced(g2);
    }
  }

  lemma {:induction false} SyncedKept(g: Gate, g': Gate)
    requires Synced(g)
    ensures g'.log == g.log && g'.session == g.session && g'.waitIdr == g.waitIdr ==> Synced(g')
  {
    if g'.log == g.log && g'.session == g.session && g'.waitIdr == g.waitIdr && g.session.play && g.session.addrSet && !g.session.need {
      var k: nat :| SyncedAt(g, k);
      assert SyncedAt(g', k);
    }
  }

  lemma {:induction false} NeedSynced(g: Gate)
    requires g.session.need
    ensures Synced(g)
  {
  }

  /** An IDR sent right behind the triple. */
  lemma {:induction false} SentBehind(g: Gate, g': Gate, nalu: seq<byte>)
    requires Synced(g) && g.session.play && g.session.addrSet && !g.session.need && IsIdr(NalType(nalu))
    requires g'.log == g.log + [Tried(g.session.addr, nalu, false, true)] && g'.session == g.session && !g'.waitIdr
    ensures Synced(g')
  {
    hide HoldsAt, Quiet, Latest;
    var k: nat :| SyncedAt(g, k);
    var e := Tried(g.session.addr, nalu, false, true);
    LatestMore(g.log, e, k);
    QuietEnd(g.log, e, k);
    forall t | IsParameterSet(t)
      ensures HoldsAt(g'.log, g.session.addr, t, k)
    {
      HoldsMore(g.log, e, g.session.addr, t, k);
    }
    assert SyncedAt(g', k);
  }

  lemma {:induction false} NoTriple(env: Env, g: Gate, st: Stamp)
    requires !HaveAll(g.sets)
    ensures SendSets(env, g, st) == (g, false)
  {
  }

  lemma {:induction false} IdleInStep(env: Env, g: Gate, nalu: seq<byte>)
    requires StepInv(g) && Smooth(env) && !(g.session.play && g.session.addrSet)
    ensures StepInv(Noted(env, g, nalu)) && Noted(env, g, nalu).session == g.session
  {
    hide Noted, CacheIsLast, Typed, AlwaysSends, AlwaysAllocates;
    NotedRest(env, g, nalu);
  }

  /** One NAL unit between whole messages: every client stays as far in step as said. */
  lemma {:induction false} ProcessNaluInStep(env: Env, g: Gate, st: Stamp, nalu: seq<byte>, marker: bool, canSend: bool)
    requires StepInv(g) && Smooth(env)
    requires canSend == (g.session.play && g.session.addrSet) && (canSend ==> st.dest == g.session.addr)
    ensures var g' := ProcessNalu(env, g, st, nalu, marker, canSend).0;
            && StepInv(g')
            && canSend == (g'.session.play && g'.session.addrSet) && (canSend ==> st.dest == g'.session.addr)
  {
    hide StepInv, Smooth, Noted, SendSets, Pass;
    if |nalu| < 2 { return; }
    if !canSend {
      IdleInStep(env, g, nalu);
    } else if g.session.need {
      NeedingInStep(env, g, st, nalu, marker);
    } else {
      OpenInStep(env, g, st, nalu, marker);
    }
  }

  /** What the receiver recovered ends with the same sets as what was sent to it. */
  lemma {:induction false} LastRecovered(log: seq<Event>, a: Address, t: int, n: nat)
    requires n <= |log|
    ensures LastOf(Delivered(log, a, n), t, |Delivered(log, a, n)|) == LastTo(log, a, t, n)
  {
    if n > 0 {
      LastRecovered(log, a, t, n - 1);
      var e, d := log[n - 1], Delivered(log, a, n - 1);
      if e.Tried? && e.ok && e.dest == a {
        LastOfMore(d, e.nalu, t, |d|);
      } else {
        assert Delivered(log, a, n) == d;
      }
    }
  }

  lemma {:induction false} LastOfMore(d: seq<seq<byte>>, x: seq<byte>, t: int, n: nat)
    requires n <= |d|
    ensures LastOf(d + [x], t, n) == LastOf(d, t, n)
  {
    if n > 0 {
      LastOfMore(d, x, t, n - 1);
    }
  }

  /**
   * Why changed sets are excepted: a parameter set that arrives while the sender waits for an IDR leaves the
   * client in step if and only if it changes nothing.
   */
  lemma {:induction false} WaitingStaysInStep(env: Env, g: Gate, st: Stamp, nalu: seq<byte>, marker: bool)
    requires BetweenMessages(env) && AlwaysAllocates(env) && g.waitIdr && !g.session.need
    requires IsParameterSet(NalType(nalu)) && 2 <= |nalu| <= PARAM_SET_MAX
    requires LastTo(g.log, g.session.addr, NalType(nalu), |g.log|) == Get(g.sets, NalType(nalu))
    ensures var g', t := ProcessNalu(env, g, st, nalu, marker, true).0, NalType(nalu);
            LastTo(g'.log, g'.session.addr, t, |g'.log|) == Get(g'.sets, t) <==> Get(g.sets, t) == Some(nalu)
  {
    hide LastTo;
    var t := NalType(nalu);
    var g1 := Noted(env, g, nalu);
    NotedSets(env, g, nalu);
    assert AtRead(env, g1) == g1.(readings := g1.readings + 1);
    LastToMore(g.log, Seen(nalu), g.session.addr, t, |g.log|);
    NotSent(g.log, Seen(nalu), g.session.addr, t);
  }

  lemma {:induction false} NotSent(log: seq<Event>, e: Event, a: Address, t: int)
    requires !SentTo(e, a, t)
    ensures LastTo(log + [e], a, t, |log| + 1) == LastTo(log + [e], a, t, |log|)
  {
  }
}
