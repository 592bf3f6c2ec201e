/**
 * What the gate lets through when nothing fails and no RTSP step intervenes: exactly what one NAL unit adds to
 * the history.
 */
module GateProgress {
  import opened Bytes
  import opened Rtp
  import opened PlaybackGate
  import opened GateInStep

  /** The cached triple as events. */
  function Triple(a: Address, s: Sets): seq<Event>
    requires HaveAll(s)
  {
    [Tried(a, s.vps.value, true, true)] + [Tried(a, s.sps.value, true, true)] + [Tried(a, s.pps.value, true, true)]
  }

  /** Whether the gate is shut for this NAL unit once a pending triple is out. */
  predicate Shut(g: Gate, nalu: seq<byte>) {
    (g.session.need || g.waitIdr) && !IsIdr(NalType(nalu))
  }

  /**
   * One NAL unit: it is noted; if the session needs parameter sets the cached triple goes out, or nothing at
   * all while one is missing; then the unit itself goes out unless the gate is shut.
   */
  lemma {:induction false} OneNalu(env: Env, g: Gate, st: Stamp, nalu: seq<byte>, marker: bool)
    requires Smooth(env) && GateLanguage.Typed(g.sets) && |nalu| >= 2
    ensures var g', s := ProcessNalu(env, g, st, nalu, marker, true).0, Noted(env, g, nalu).sets;
            if g.session.need && !HaveAll(s) then
              g'.log == g.log + [Seen(nalu)] && g'.session == g.session && g'.waitIdr == g.waitIdr
            else
              && g'.log == g.log + [Seen(nalu)] + (if g.session.need then Triple(st.dest, s) else [])
                           + (if Shut(g, nalu) then [] else [Tried(st.dest, nalu, false, true)])
              && !g'.session.need && g'.waitIdr == Shut(g, nalu)
              && g'.session == g.session.(need := false)
  {
    hide SendSets, CacheSet, AlwaysSends;
    NotedLog(env, g, nalu);
    var g1 := Noted(env, g, nalu);
    var g2 := g1.(readings := g1.readings + 1);
    assert AtRead(env, g1) == g2;
    if g.session.need && !HaveAll(g2.sets) {
      NoTriple(env, g2, st);
    } else if g.session.need {
      TripleBringsUp(env, g2, st);
      var g3 := SendSets(env, g2, st).0;
      var g4 := AtMark(env, g3);
      PassLog(env, g4, st, nalu, marker);
      assert g4.log == g.log + [Seen(nalu)] + Triple(st.dest, g2.sets);
    } else {
      PassLog(env, g2, st, nalu, marker);
    }
  }

  lemma {:induction false} NotedLog(env: Env, g: Gate, nalu: seq<byte>)
    requires GateLanguage.Typed(g.sets)
    ensures var g1 := Noted(env, g, nalu);
            && g1.log == g.log + [Seen(nalu)] && g1.session == g.session && g1.waitIdr == g.waitIdr
            && GateLanguage.Typed(g1.sets)
  {
  }

  lemma {:induction false} PassLog(env: Env, g: Gate, st: Stamp, nalu: seq<byte>, marker: bool)
    requires AlwaysSends(env) && env.atSend(g.tries) == [] && |nalu| >= 2
    ensures var g', shut := Pass(env, g, st, nalu, marker).0, g.waitIdr && !IsIdr(NalType(nalu));
            && g'.log == g.log + (if shut then [] else [Tried(st.dest, nalu, false, true)])
            && g'.session == g.session && g'.waitIdr == shut
  {
    hide SendNalu, AlwaysSends;
    if !(g.waitIdr && !IsIdr(NalType(nalu))) {
      TrySendSucceeds(env, g.(waitIdr := false), st, nalu, marker, false);
    }
  }
}
