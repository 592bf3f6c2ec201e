/**
 * What a client may be sent, for every interleaving with the RTSP thread and every failure: a full cached
 * triple before anything else, and an IDR first after every triple.
 */
module GateLanguage {
  import opened Bytes
  import opened Rtp
  import opened PlaybackGate

  predicate StreamAt(log: seq<Event>, i: int) {
    0 <= i < |log| && log[i].Tried? && !log[i].cached
  }

  predicate SetAt(log: seq<Event>, i: int, t: int) {
    0 <= i < |log| && log[i].Tried? && log[i].cached && NalType(log[i].nalu) == t
  }

  predicate SetSentAt(log: seq<Event>, i: int, t: int) {
    SetAt(log, i, t) && log[i].ok
  }

  /** The last attempt before i, -1 if there is none. */
  function Prev(log: seq<Event>, i: int): (p: int)
    ensures -1 <= p && (p >= 0 ==> p < i && p < |log| && log[p].Tried?)
    decreases if i < 0 then 0 else i
  {
    if i <= 0 then -1 else if i <= |log| && log[i - 1].Tried? then i - 1 else Prev(log, i - 1)
  }

  /** Where the VPS of a triple that ends at k was attempted. */
  function Start(log: seq<Event>, k: int): int {
    Prev(log, Prev(log, k))
  }

  /** A cached VPS, SPS and PPS sent to one client, with no attempt in between, the PPS at k. */
  predicate TripleEnd(log: seq<Event>, k: int) {
    && SetSentAt(log, k, PPS) && SetSentAt(log, Prev(log, k), SPS) && SetSentAt(log, Start(log, k), VPS)
    && log[k].dest == log[Prev(log, k)].dest == log[Start(log, k)].dest
  }

  ghost predicate Quiet(log: seq<Event>, from: int, to: int) {
    forall i :: from <= i < to ==> !StreamAt(log, i)
  }

  ghost predicate HasTriple(log: seq<Event>) {
    exists k :: TripleEnd(log, k)
  }

  ghost predicate TripleFirst(log: seq<Event>) {
    forall i :: StreamAt(log, i) ==> exists k :: k < i && TripleEnd(log, k)
  }

  ghost predicate IdrNext(log: seq<Event>) {
    forall k, i :: TripleEnd(log, k) && k < i && StreamAt(log, i) && Quiet(log, k + 1, i)
                   ==> IsIdr(NalType(log[i].nalu))
  }

  /** A cached set of type t is due at i: a VPS always, the others only right after the success of the one before. */
  predicate InPlace(log: seq<Event>, i: int, t: int) {
    || t == VPS
    || (t == SPS && SetSentAt(log, Prev(log, i), VPS))
    || (t == PPS && SetSentAt(log, Prev(log, i), SPS) && SetSentAt(log, Start(log, i), VPS))
  }

  /** Cached sets are only ever attempted in the order VPS, SPS, PPS, each after the success of the one before. */
  ghost predicate SetsInOrder(log: seq<Event>) {
    forall i :: 0 <= i < |log| && log[i].Tried? && log[i].cached ==> InPlace(log, i, NalType(log[i].nalu))
  }

  ghost predicate Language(log: seq<Event>) {
    TripleFirst(log) && IdrNext(log) && SetsInOrder(log)
  }

  /** A triple with no stream NAL unit after it keeps the sender waiting. */
  ghost predicate Armed(log: seq<Event>, wait: bool) {
    forall k :: TripleEnd(log, k) && Quiet(log, k + 1, |log|) ==> wait
  }

  predicate Typed(s: Sets) {
    && (s.vps.Some? ==> NalType(s.vps.value) == VPS)
    && (s.sps.Some? ==> NalType(s.sps.value) == SPS)
    && (s.pps.Some? ==> NalType(s.pps.value) == PPS)
  }

  /** The invariant; `addrSet` never goes back to false, so a sampled target stays good for its second clause. */
  ghost predicate Inv(g: Gate) {
    && Typed(g.sets)
    && Language(g.log)
    && Armed(g.log, g.waitIdr)
    && (g.session.addrSet && !g.session.need ==> HasTriple(g.log))
  }

  // ----- one more event -----

  lemma {:induction false} PrevSame(log: seq<Event>, more: seq<Event>, i: int)
    requires log <= more && i <= |log|
    ensures Prev(more, i) == Prev(log, i)
    decreases if i < 0 then 0 else i
  {
    if i > 0 {
      PrevSame(log, more, i - 1);
    }
  }

  /** What was a triple stays one, and nothing before the end becomes one. */
  lemma {:induction false} TripleSame(log: seq<Event>, more: seq<Event>, k: int)
    requires log <= more && k < |log|
    ensures TripleEnd(more, k) == TripleEnd(log, k) && Start(more, k) == Start(log, k)
  {
    hide Prev;
    PrevSame(log, more, k);
    PrevSame(log, more, Prev(log, k));
  }

  lemma {:induction false} Older(log: seq<Event>, e: Event)
    ensures var more := log + [e];
            && (forall i :: i < |log| ==> StreamAt(more, i) == StreamAt(log, i))
            && (forall k :: k < |log| ==> TripleEnd(more, k) == TripleEnd(log, k))
  {
    hide TripleEnd;
    forall k | k < |log|
      ensures TripleEnd(log + [e], k) == TripleEnd(log, k)
    {
      TripleSame(log, log + [e], k);
    }
  }

  lemma {:induction false} QuietOlder(log: seq<Event>, e: Event, from: int, to: int)
    requires to <= |log|
    ensures Quiet(log + [e], from, to) == Quiet(log, from, to)
  {
    Older(log, e);
    forall i | from <= i < to
      ensures StreamAt(log + [e], i) == StreamAt(log, i)
    {
    }
  }

  lemma {:induction false} HasTripleOlder(log: seq<Event>, e: Event)
    requires HasTriple(log)
    ensures HasTriple(log + [e])
  {
    hide TripleEnd;
    var k :| TripleEnd(log, k);
    TripleBound(log, k);
    TripleSame(log, log + [e], k);
    assert TripleEnd(log + [e], k);
  }

  lemma {:induction false} TripleBound(log: seq<Event>, k: int)
    requires TripleEnd(log, k)
    ensures 0 <= Start(log, k) < k < |log|
  {
  }

  /** Appending keeps the first two clauses if a stream event brings its own reasons. */
  lemma {:induction false} TripleFirstMore(log: seq<Event>, e: Event)
    requires TripleFirst(log) && (e.Tried? && !e.cached ==> HasTriple(log))
    ensures TripleFirst(log + [e])
  {
    var more := log + [e];
    Older(log, e);
    forall i | StreamAt(more, i)
      ensures exists k :: k < i && TripleEnd(more, k)
    {
      if i < |log| {
        assert StreamAt(log, i);
        var k :| k < i && TripleEnd(log, k);
        assert TripleEnd(more, k);
      } else {
        var k :| TripleEnd(log, k);
        assert TripleEnd(more, k);
      }
    }
  }

  lemma {:induction false} IdrNextMore(log: seq<Event>, e: Event, wait: bool)
    requires IdrNext(log) && Armed(log, wait)
    requires e.Tried? && !e.cached && wait ==> IsIdr(NalType(e.nalu))
    ensures IdrNext(log + [e])
  {
    var more := log + [e];
    forall k, i | TripleEnd(more, k) && k < i && StreamAt(more, i) && Quiet(more, k + 1, i)
      ensures IsIdr(NalType(more[i].nalu))
    {
      Older(log, e);
      QuietOlder(log, e, k + 1, i);
      assert TripleEnd(log, k);
      if i < |log| {
        assert StreamAt(log, i);
      } else {
        assert i == |log|;
      }
    }
  }

  lemma {:induction false} ArmedMore(log: seq<Event>, e: Event, wait: bool)
    requires Armed(log, wait)
    ensures Armed(log + [e], wait || TripleEnd(log + [e], |log|))
    ensures e.Tried? && !e.cached ==> Armed(log + [e], false)
  {
    var more := log + [e];
    forall k | TripleEnd(more, k) && Quiet(more, k + 1, |more|)
      ensures wait || TripleEnd(more, |log|)
      ensures !(e.Tried? && !e.cached)
    {
      Older(log, e);
      if k < |log| {
        assert !StreamAt(more, |log|);
        assert TripleEnd(log, k);
        assert Quiet(more, k + 1, |log|);
        QuietOlder(log, e, k + 1, |log|);
      }
    }
  }

  lemma {:induction false} InPlaceOlder(log: seq<Event>, e: Event, i: int, t: int)
    requires i <= |log|
    ensures InPlace(log + [e], i, t) == InPlace(log, i, t)
  {
    hide Prev;
    PrevSame(log, log + [e], i);
    PrevSame(log, log + [e], Prev(log, i));
  }

  lemma {:induction false} SetsInOrderMore(log: seq<Event>, e: Event)
    requires SetsInOrder(log)
    requires e.Tried? && e.cached ==> InPlace(log, |log|, NalType(e.nalu))
    ensures SetsInOrder(log + [e])
  {
    hide InPlace;
    var more := log + [e];
    forall i | 0 <= i < |more| && more[i].Tried? && more[i].cached
      ensures InPlace(more, i, NalType(more[i].nalu))
    {
      InPlaceOlder(log, e, i, NalType(more[i].nalu));
      if i < |log| {
        assert more[i] == log[i];
      }
    }
  }

  // ----- the steps of the sender -----

  lemma {:induction false} PlainEvent(log: seq<Event>, e: Event, wait: bool)
    requires Language(log) && Armed(log, wait) && !e.Tried?
    ensures Language(log + [e]) && Armed(log + [e], wait) && (HasTriple(log) ==> HasTriple(log + [e]))
  {
    hide TripleFirst, IdrNext, SetsInOrder, Armed, HasTriple;
    TripleFirstMore(log, e);
    IdrNextMore(log, e, wait);
    SetsInOrderMore(log, e);
    ArmedMore(log, e, wait);
    assert !TripleEnd(log + [e], |log|);
    if HasTriple(log) {
      HasTripleOlder(log, e);
    }
  }

  lemma {:induction false} ControlStepInv(g: Gate, c: Control)
    requires Inv(g)
    ensures Inv(ControlStep(g, c)) && (g.session.addrSet ==> ControlStep(g, c).session.addrSet)
    ensures HasTriple(g.log) ==> HasTriple(ControlStep(g, c).log)
  {
    hide Language, Armed, HasTriple;
    PlainEvent(g.log, Ctl(c), g.waitIdr);
  }

  lemma {:induction false} ControlledInv(g: Gate, cs: seq<Control>)
    requires Inv(g)
    ensures Inv(Controlled(g, cs)) && (g.session.addrSet ==> Controlled(g, cs).session.addrSet)
    ensures HasTriple(g.log) ==> HasTriple(Controlled(g, cs).log)
    ensures Controlled(g, cs).sets == g.sets && Controlled(g, cs).waitIdr == g.waitIdr
    decreases |cs|
  {
    if cs != [] {
      hide Inv, HasTriple, Apply;
      ControlStepInv(g, cs[0]);
      ControlledInv(ControlStep(g, cs[0]), cs[1..]);
    }
  }

  lemma {:induction false} NotedInv(env: Env, g: Gate, nalu: seq<byte>)
    requires Inv(g)
    ensures Inv(Noted(env, g, nalu)) && Noted(env, g, nalu).session == g.session
  {
    hide Language, Armed, HasTriple;
    PlainEvent(g.log, Seen(nalu), g.waitIdr);
  }

  /** The first c sets of a triple for `a` were the last attempts made, all with success. */
  predicate Sofar(log: seq<Event>, a: Address, c: nat) {
    && (c >= 1 ==> SetSentAt(log, Prev(log, |log|), SetType(c - 1)) && log[Prev(log, |log|)].dest == a)
    && (c >= 2 ==> SetSentAt(log, Start(log, |log|), VPS) && log[Start(log, |log|)].dest == a)
  }

  function SetType(c: nat): int {
    if c == 0 then VPS else if c == 1 then SPS else PPS
  }

  lemma {:induction false} SofarPlain(log: seq<Event>, e: Event, a: Address, c: nat)
    requires Sofar(log, a, c) && !e.Tried?
    ensures Sofar(log + [e], a, c)
  {
    PrevSame(log, log + [e], |log|);
    PrevSame(log, log + [e], Prev(log, |log|));
  }

  lemma {:induction false} SofarControlled(g: Gate, cs: seq<Control>, a: Address, c: nat)
    requires Sofar(g.log, a, c)
    ensures Sofar(Controlled(g, cs).log, a, c)
    decreases |cs|
  {
    if cs != [] {
      hide Sofar, Apply;
      SofarPlain(g.log, Ctl(cs[0]), a, c);
      SofarControlled(ControlStep(g, cs[0]), cs[1..], a, c);
    }
  }

  lemma {:induction false} SofarNext(log: seq<Event>, e: Event, c: nat)
    requires c <= 2 && e.Tried? && e.cached && e.ok && NalType(e.nalu) == SetType(c) && Sofar(log, e.dest, c)
    ensures c < 2 ==> Sofar(log + [e], e.dest, c + 1)
    ensures c == 2 ==> TripleEnd(log + [e], |log|)
  {
    PrevSame(log, log + [e], |log|);
    PrevSame(log, log + [e], Prev(log, |log|));
  }

  /** One attempt at a cached set, in its place in the order. */
  lemma {:induction false} AttemptSetInv(env: Env, g: Gate, st: Stamp, nalu: seq<byte>, c: nat)
    requires Inv(g) && c <= 2 && NalType(nalu) == SetType(c) && Sofar(g.log, st.dest, c)
    ensures var (g', ok) := Attempt(env, g, st, nalu, false, true);
            && Inv(g'.(waitIdr := g.waitIdr || (ok && c == 2)))
            && (ok && c < 2 ==> Sofar(g'.log, st.dest, c + 1))
            && (ok && c == 2 ==> TripleEnd(g'.log, |g'.log| - 1) && g'.log[|g'.log| - 1].dest == st.dest)
            && g'.sets == g.sets && g'.session == g.session && g'.waitIdr == g.waitIdr
  {
    hide TripleFirst, IdrNext, SetsInOrder, Armed, HasTriple, SendNalu, Prev;
    var (g', ok) := Attempt(env, g, st, nalu, false, true);
    var e := Tried(st.dest, nalu, true, ok);
    TripleFirstMore(g.log, e);
    IdrNextMore(g.log, e, g.waitIdr);
    SetsInOrderMore(g.log, e);
    ArmedMore(g.log, e, g.waitIdr);
    if ok {
      SofarNext(g.log, e, c);
    }
    if HasTriple(g.log) {
      HasTripleOlder(g.log, e);
    }
    hide TripleEnd;
    if !(ok && c == 2) {
      NoTripleYet(g.log, e, c);
    }
    ArmedEither(g'.log, g.waitIdr || TripleEnd(g'.log, |g.log|), g.waitIdr || (ok && c == 2));
  }

  lemma {:induction false} ArmedEither(log: seq<Event>, wait: bool, wait': bool)
    requires Armed(log, wait) && (wait ==> wait')
    ensures Armed(log, wait')
  {
  }

  lemma {:induction false} NoTripleYet(log: seq<Event>, e: Event, c: nat)
    requires e.Tried? && NalType(e.nalu) == SetType(c) && (c < 2 || !e.ok)
    ensures !TripleEnd(log + [e], |log|)
  {
  }

  /** RTSP steps, then one attempt: only the completed triple needs the wait that AtMark sets. */
  lemma {:induction false} TrySetInv(env: Env, g: Gate, st: Stamp, nalu: seq<byte>, c: nat)
    requires Inv(g) && c <= 2 && NalType(nalu) == SetType(c) && Sofar(g.log, st.dest, c)
    ensures var (g', ok) := TrySend(env, g, st, nalu, false, true);
            && (if ok && c == 2 then Inv(g'.(waitIdr := true)) else Inv(g'))
            && (ok && c < 2 ==> Sofar(g'.log, st.dest, c + 1))
            && (ok && c == 2 ==> TripleEnd(g'.log, |g'.log| - 1) && g'.log[|g'.log| - 1].dest == st.dest)
            && g'.sets == g.sets && g'.waitIdr == g.waitIdr && (g.session.addrSet ==> g'.session.addrSet)
  {
    hide Inv, Sofar, Attempt, TripleEnd, HasTriple;
    var c1 := Controlled(g, env.atSend(g.tries));
    ControlledInv(g, env.atSend(g.tries));
    SofarControlled(g, env.atSend(g.tries), st.dest, c);
    InvCounters(c1, AtSend(env, g));
    AttemptSetInv(env, AtSend(env, g), st, nalu, c);
    SameWait(TrySend(env, g, st, nalu, false, true).0);
  }

  lemma {:induction false} SofarNone(log: seq<Event>, a: Address)
    ensures Sofar(log, a, 0)
  {
  }

  lemma {:induction false} SameWait(g: Gate)
    ensures g.(waitIdr := g.waitIdr) == g
  {
  }

  lemma {:induction false} SetTypes(g: Gate)
    requires Inv(g) && HaveAll(g.sets)
    ensures NalType(g.sets.vps.value) == SetType(0) && NalType(g.sets.sps.value) == SetType(1)
    ensures NalType(g.sets.pps.value) == SetType(2)
  {
  }

  /** A failed triple leaves the invariant; a completed one needs the wait that AtMark sets. */
  lemma {:induction false} SendSetsInv(env: Env, g: Gate, st: Stamp)
    requires Inv(g)
    ensures var (g', ok) := SendSets(env, g, st);
            && (!ok ==> Inv(g'))
            && (ok ==> Inv(g'.(waitIdr := true)) && TripleEnd(g'.log, |g'.log| - 1)
                       && g'.log[|g'.log| - 1].dest == st.dest)
            && g'.sets == g.sets && g'.waitIdr == g.waitIdr && (g.session.addrSet ==> g'.session.addrSet)
  {
    hide Inv, Sofar, TrySend, TripleEnd, NalType, SetType;
    if HaveAll(g.sets) {
      SetTypes(g);
      SofarNone(g.log, st.dest);
      TrySetInv(env, g, st, g.sets.vps.value, 0);
      var (g1, ok1) := TrySend(env, g, st, g.sets.vps.value, false, true);
      if ok1 {
        TrySetInv(env, g1, st, g.sets.sps.value, 1);
        var (g2, ok2) := TrySend(env, g1, st, g.sets.sps.value, false, true);
        if ok2 {
          TrySetInv(env, g2, st, g.sets.pps.value, 2);
        }
      }
    }
  }

  lemma {:induction false} AttemptStreamInv(env: Env, g: Gate, st: Stamp, nalu: seq<byte>, marker: bool)
    requires Inv(g) && HasTriple(g.log) && (g.waitIdr ==> IsIdr(NalType(nalu)))
    ensures var g' := Attempt(env, g.(waitIdr := false), st, nalu, marker, false).0;
            Inv(g') && g'.session == g.session
  {
    hide TripleFirst, IdrNext, SetsInOrder, Armed, HasTriple, SendNalu;
    var ok := SendNalu(env.send, g.link, st, nalu, marker).1;
    var e := Tried(st.dest, nalu, false, ok);
    TripleFirstMore(g.log, e);
    IdrNextMore(g.log, e, g.waitIdr);
    SetsInOrderMore(g.log, e);
    ArmedMore(g.log, e, g.waitIdr);
    HasTripleOlder(g.log, e);
  }

  lemma {:induction false} ControlledWait(g: Gate, cs: seq<Control>, wait: bool)
    ensures Controlled(g.(waitIdr := wait), cs) == Controlled(g, cs).(waitIdr := wait)
    ensures Controlled(g, cs).tries == g.tries && Controlled(g, cs).markings == g.markings
    ensures Controlled(g, cs).readings == g.readings && Controlled(g, cs).allocs == g.allocs
    decreases |cs|
  {
    if cs != [] {
      hide Apply;
      ControlledWait(ControlStep(g, cs[0]), cs[1..], wait);
    }
  }

  lemma {:induction false} PassInv(env: Env, g: Gate, st: Stamp, nalu: seq<byte>, marker: bool)
    requires Inv(g) && HasTriple(g.log)
    ensures var g' := Pass(env, g, st, nalu, marker).0; Inv(g') && (g.session.addrSet ==> g'.session.addrSet)
  {
    hide Inv, HasTriple, Attempt;
    if g.waitIdr && !IsIdr(NalType(nalu)) { return; }
    var cs := env.atSend(g.tries);
    ControlledInv(g, cs);
    ControlledWait(g, cs, false);
    InvCounters(Controlled(g, cs), AtSend(env, g));
    AttemptStreamInv(env, AtSend(env, g), st, nalu, marker);
  }

  /** Clearing the flag, whatever RTSP steps slipped in before, leaves a triple behind. */
  lemma {:induction false} AtMarkInv(env: Env, g: Gate)
    requires Inv(g.(waitIdr := true)) && HasTriple(g.log)
    ensures Inv(AtMark(env, g)) && HasTriple(AtMark(env, g).log)
  {
    hide Language, Armed, HasTriple;
    ControlledInv(g.(waitIdr := true), env.atMark(g.markings));
    ControlledWait(g, env.atMark(g.markings), true);
  }

  /** One NAL unit: the invariant is kept by every branch, under any interleaving and any failure. */
  lemma {:induction false} ProcessNaluInv(env: Env, g: Gate, st: Stamp, nalu: seq<byte>, marker: bool, canSend: bool)
    requires Inv(g) && (canSend ==> g.session.addrSet)
    ensures var g' := ProcessNalu(env, g, st, nalu, marker, canSend).0;
            Inv(g') && (g.session.addrSet ==> g'.session.addrSet)
  {
    hide Inv, Noted, SendSets, Pass, HasTriple, TripleEnd;
    if |nalu| < 2 { return; }
    NotedInv(env, g, nalu);
    if !canSend { return; }
    var g1 := Noted(env, g, nalu);
    ControlledInv(g1, env.atRead(g1.readings));
    var g2 := AtRead(env, g1);
    InvCounters(Controlled(g1, env.atRead(g1.readings)), g2);
    if !g2.session.need {
      TripleWhenClear(g2);
      PassInv(env, g2, st, nalu, marker);
    } else {
      SendSetsInv(env, g2, st);
      var (g3, ok) := SendSets(env, g2, st);
      if ok {
        TripleMeans(g3.log, |g3.log| - 1);
        AtMarkInv(env, g3);
        ControlledInv(g3.(waitIdr := true), env.atMark(g3.markings));
        ControlledWait(g3, env.atMark(g3.markings), true);
        PassInv(env, AtMark(env, g3), st, nalu, marker);
      }
    }
  }

  lemma {:induction false} InvCounters(g: Gate, g': Gate)
    requires Inv(g) && g'.sets == g.sets && g'.log == g.log && g'.waitIdr == g.waitIdr && g'.session == g.session
    ensures Inv(g')
  {
  }

  lemma {:induction false} TripleWhenClear(g: Gate)
    requires Inv(g) && g.session.addrSet && !g.session.need
    ensures HasTriple(g.log)
  {
  }

  lemma {:induction false} TripleMeans(log: seq<Event>, k: int)
    requires TripleEnd(log, k)
    ensures HasTriple(log)
  {
  }

  // ----- when the gate lets a NAL unit through -----

  /** The last thing attempted is a stream NAL unit, and nothing happened since. */
  predicate StreamLast(log: seq<Event>) {
    StreamAt(log, |log| - 1)
  }

  lemma {:induction false} ControlledLast(g: Gate, cs: seq<Control>)
    requires !StreamLast(g.log)
    ensures !StreamLast(Controlled(g, cs).log)
    decreases |cs|
  {
    if cs != [] {
      ControlledLast(ControlStep(g, cs[0]), cs[1..]);
    }
  }

  lemma {:induction false} TrySetLast(env: Env, g: Gate, st: Stamp, nalu: seq<byte>)
    ensures !StreamLast(TrySend(env, g, st, nalu, false, true).0.log)
  {
  }

  lemma {:induction false} SendSetsLast(env: Env, g: Gate, st: Stamp)
    requires !StreamLast(g.log)
    ensures !StreamLast(SendSets(env, g, st).0.log)
  {
    if HaveAll(g.sets) {
      hide TrySend;
      TrySetLast(env, g, st, g.sets.vps.value);
      var (g1, ok1) := TrySend(env, g, st, g.sets.vps.value, false, true);
      if ok1 {
        TrySetLast(env, g1, st, g.sets.sps.value);
        var (g2, ok2) := TrySend(env, g1, st, g.sets.sps.value, false, true);
        if ok2 {
          TrySetLast(env, g2, st, g.sets.pps.value);
        }
      }
    }
  }

  lemma {:induction false} NotedLast(env: Env, g: Gate, nalu: seq<byte>)
    ensures !StreamLast(Noted(env, g, nalu).log) && Noted(env, g, nalu).waitIdr == g.waitIdr
  {
  }

  /** IDR_W_RADL or IDR_N_LP in the first byte of the header (Table 7-1 of ITU-T H.265). */
  predicate CarriesIdr(nalu: seq<byte>)
    requires |nalu| >= 2
  {
    (nalu[0] / 2) % 64 == 19 || (nalu[0] / 2) % 64 == 20
  }

  lemma {:induction false} PassOpens(env: Env, g: Gate, st: Stamp, nalu: seq<byte>, marker: bool)
    requires |nalu| >= 2 && !StreamLast(g.log)
    ensures var (g', ok) := Pass(env, g, st, nalu, marker);
            && (StreamLast(g'.log) <==> !g.waitIdr || CarriesIdr(nalu))
            && g'.waitIdr == (g.waitIdr && !CarriesIdr(nalu))
            && (ok <==> StreamLast(g'.log) ==> g'.log[|g'.log| - 1].ok)
  {
    hide SendNalu, Controlled;
    ControlledWait(g, env.atSend(g.tries), false);
  }

  /**
   * One NAL unit for a client, under any RTSP steps and failures: it is attempted if and only if no triple is due and
   * the gate is not waiting, or it carries an IDR and a triple that is due went out in full; and processing it fails
   * if and only if it was attempted and its send failed.
   */
  lemma {:induction false} ProcessNaluOpens(env: Env, g: Gate, st: Stamp, nalu: seq<byte>, marker: bool)
    requires |nalu| >= 2
    ensures var h := AtRead(env, Noted(env, g, nalu));
            var (g', ok) := ProcessNalu(env, g, st, nalu, marker, true);
            && (StreamLast(g'.log) <==>
                if h.session.need then SendSets(env, h, st).1 && CarriesIdr(nalu) else !g.waitIdr || CarriesIdr(nalu))
            && (ok <==> StreamLast(g'.log) ==> g'.log[|g'.log| - 1].ok)
            && (!h.session.need ==> g'.waitIdr == (g.waitIdr && !CarriesIdr(nalu)))
  {
    hide Noted, SendSets, Pass, Controlled, CarriesIdr, StreamLast;
    var g1 := Noted(env, g, nalu);
    NotedLast(env, g, nalu);
    ControlledLast(g1, env.atRead(g1.readings));
    ControlledWait(g1, env.atRead(g1.readings), g.waitIdr);
    var h := AtRead(env, g1);
    if !h.session.need {
      PassOpens(env, h, st, nalu, marker);
    } else {
      SendSetsLast(env, h, st);
      var (g3, ok) := SendSets(env, h, st);
      if ok {
        ControlledLast(g3, env.atMark(g3.markings));
        PassOpens(env, AtMark(env, g3), st, nalu, marker);
      }
    }
  }

  /** A CRA picture (type 21) does not open the gate. */
  lemma {:induction false} CraHeldBack(env: Env, g: Gate, st: Stamp, marker: bool)
    requires g.waitIdr && !AtRead(env, Noted(env, g, [42, 1])).session.need
    ensures var g' := ProcessNalu(env, g, st, [42, 1], marker, true).0; !StreamLast(g'.log) && g'.waitIdr
  {
    hide ProcessNalu, AtRead, Noted, StreamLast;
    ProcessNaluOpens(env, g, st, [42, 1], marker);
  }

  // ----- the cache and refused memory -----

  /**
   * What one NAL unit does to the cached set of type t: it takes its place if it has that type, at most 16 KiB, and
   * memory is granted for it, and memory is asked for only if it differs from the set it would replace.
   */
  lemma {:induction false} NotedExactly(env: Env, g: Gate, nalu: seq<byte>, t: int)
    requires |nalu| >= 2 && 32 <= t <= 34
    ensures var g', kind := Noted(env, g, nalu), (nalu[0] / 2) % 64;
            && Get(g'.sets, t) ==
               (if kind == t && |nalu| <= 0x4000 && env.alloc(g.allocs) then Some(nalu) else Get(g.sets, t))
            && g'.allocs == g.allocs + if 32 <= kind <= 34 && |nalu| <= 0x4000 && Get(g.sets, kind) != Some(nalu) then 1 else 0
  {
  }

  ghost predicate NeverAllocates(env: Env) {
    forall k :: !env.alloc(k)
  }

  /** Nothing cached and nothing attempted. */
  ghost predicate Starved(g: Gate) {
    g.sets == Sets(None, None, None) && forall i :: 0 <= i < |g.log| ==> !g.log[i].Tried?
  }

  lemma {:induction false} ControlledStarved(g: Gate, cs: seq<Control>)
    requires Starved(g)
    ensures Starved(Controlled(g, cs))
    decreases |cs|
  {
    if cs != [] {
      ControlledStarved(ControlStep(g, cs[0]), cs[1..]);
    }
  }

  lemma {:induction false} NotedStarved(env: Env, g: Gate, nalu: seq<byte>)
    requires Starved(g) && NeverAllocates(env)
    ensures Starved(Noted(env, g, nalu))
  {
  }

  lemma {:induction false} StarvedNeeds(g: Gate)
    requires Inv(g) && Starved(g) && g.session.addrSet
    ensures g.session.need
  {
    assert !HasTriple(g.log);
  }

  /** Without memory nothing is ever cached, so no triple can go out, and without a triple nothing else does. */
  lemma {:induction false} ProcessNaluStarved(env: Env, g: Gate, st: Stamp, nalu: seq<byte>, marker: bool, canSend: bool)
    requires Inv(g) && Starved(g) && NeverAllocates(env) && (canSend ==> g.session.addrSet)
    ensures Starved(ProcessNalu(env, g, st, nalu, marker, canSend).0)
  {
    hide Inv, Noted, Controlled, Pass;
    if |nalu| < 2 { return; }
    NotedStarved(env, g, nalu);
    if !canSend { return; }
    var g1 := Noted(env, g, nalu);
    var cs := env.atRead(g1.readings);
    NotedInv(env, g, nalu);
    ControlledInv(g1, cs);
    ControlledStarved(g1, cs);
    StarvedNeeds(Controlled(g1, cs));
  }
}
