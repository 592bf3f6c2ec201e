/**
 * The playback gate of RTSP_Create.c and the shared session state that rtsp.c writes, as functions.
 *
 * Two threads take the same mutex. The sender's critical sections are the sampling of the target (once per
 * message), the reading of the need flag (once per NAL unit) and its clearing (once per parameter-set triple);
 * between them it hands NAL units to the RTP sender. An interleaving is therefore given by the RTSP critical
 * sections that run just before each of those steps.
 */
module PlaybackGate {
  import opened Bytes
  import opened AnnexB
  import opened Rtp

  // ----- the session state, and what each RTSP critical section does to it -----

  datatype Control = Setup(client: Address) | Play | Teardown | Disconnect

  datatype Session = Session(play: bool, addrSet: bool, need: bool, addr: Address)

  function Apply(s: Session, c: Control): Session {
    match c
    case Setup(client) => Session(false, true, true, client)
    case Play => s.(play := true, need := true)
    case Teardown => s.(play := false)
    case Disconnect => s.(play := false)
  }

  // ----- the sender -----

  const PARAM_SET_MAX: nat := 16 * 1024

  datatype Sets = Sets(vps: Option<seq<byte>>, sps: Option<seq<byte>>, pps: Option<seq<byte>>)

  function Get(s: Sets, t: int): Option<seq<byte>> {
    if t == VPS then s.vps else if t == SPS then s.sps else if t == PPS then s.pps else None
  }

  function Put(s: Sets, t: int, nalu: seq<byte>): Sets {
    if t == VPS then s.(vps := Some(nalu))
    else if t == SPS then s.(sps := Some(nalu))
    else if t == PPS then s.(pps := Some(nalu))
    else s
  }

  /** The history: RTSP steps taken, NAL units processed, NAL units handed to the RTP sender and with what result. */
  datatype Event =
    | Ctl(control: Control)
    | Seen(nalu: seq<byte>)
    | Tried(dest: Address, nalu: seq<byte>, cached: bool, ok: bool)

  /**
   * Everything outside the sender's control: outcomes of `sendto` and `malloc`, and the RTSP steps that run
   * before the k-th reading and the k-th clearing of the need flag and before the k-th NAL unit is handed over.
   */
  datatype Env = Env(send: nat -> bool, alloc: nat -> bool,
                     atRead: nat -> seq<Control>, atMark: nat -> seq<Control>, atSend: nat -> seq<Control>)

  datatype Gate = Gate(sets: Sets, waitIdr: bool, session: Session, link: Link,
                       log: seq<Event>, allocs: nat, readings: nat, markings: nat, tries: nat)

  function ControlStep(g: Gate, c: Control): Gate {
    g.(session := Apply(g.session, c), log := g.log + [Ctl(c)])
  }

  function Controlled(g: Gate, cs: seq<Control>): Gate
    decreases |cs|
  {
    if cs == [] then g else Controlled(ControlStep(g, cs[0]), cs[1..])
  }

  /** `h265_cache_parameter_set`, for a NAL unit of at least two bytes. */
  function CacheSet(env: Env, g: Gate, nalu: seq<byte>): Gate {
    var t := NalType(nalu);
    if !IsParameterSet(t) || |nalu| > PARAM_SET_MAX || Get(g.sets, t) == Some(nalu) then g
    else if !env.alloc(g.allocs) then g.(allocs := g.allocs + 1)
    else g.(sets := Put(g.sets, t, nalu), allocs := g.allocs + 1)
  }

  /** RTSP steps that got in before a NAL unit is handed over. */
  function AtSend(env: Env, g: Gate): Gate {
    Controlled(g, env.atSend(g.tries)).(tries := g.tries + 1)
  }

  function Attempt(env: Env, g: Gate, st: Stamp, nalu: seq<byte>, marker: bool, cached: bool): (Gate, bool) {
    var (l, ok) := SendNalu(env.send, g.link, st, nalu, marker);
    (g.(link := l, log := g.log + [Tried(st.dest, nalu, cached, ok)]), ok)
  }

  /** One call of `send_h265_nalu_rtp`. */
  function TrySend(env: Env, g: Gate, st: Stamp, nalu: seq<byte>, marker: bool, cached: bool): (Gate, bool) {
    Attempt(env, AtSend(env, g), st, nalu, marker, cached)
  }

  predicate HaveAll(s: Sets) {
    s.vps.Some? && s.sps.Some? && s.pps.Some?
  }

  /** `send_cached_parameter_sets`. */
  function SendSets(env: Env, g: Gate, st: Stamp): (Gate, bool) {
    if !HaveAll(g.sets) then (g, false)
    else
      var (g1, ok1) := TrySend(env, g, st, g.sets.vps.value, false, true);
      if !ok1 then (g1, false)
      else
        var (g2, ok2) := TrySend(env, g1, st, g.sets.sps.value, false, true);
        if !ok2 then (g2, false) else TrySend(env, g2, st, g.sets.pps.value, false, true)
  }

  /** `rtsp_session_needs_parameter_sets`: RTSP steps that got in first, then the flag. */
  function AtRead(env: Env, g: Gate): Gate {
    Controlled(g, env.atRead(g.readings)).(readings := g.readings + 1)
  }

  /** `rtsp_mark_parameter_sets_sent`, and the switch to waiting. */
  function AtMark(env: Env, g: Gate): Gate {
    var g' := Controlled(g, env.atMark(g.markings));
    g'.(markings := g.markings + 1, session := g'.session.(need := false), waitIdr := true)
  }

  /** The IDR gate and the send behind it. */
  function Pass(env: Env, g: Gate, st: Stamp, nalu: seq<byte>, marker: bool): (Gate, bool) {
    if g.waitIdr && !IsIdr(NalType(nalu)) then (g, true)
    else TrySend(env, g.(waitIdr := false), st, nalu, marker, false)
  }

  function Noted(env: Env, g: Gate, nalu: seq<byte>): Gate {
    CacheSet(env, g.(log := g.log + [Seen(nalu)]), nalu)
  }

  /** `datafifo_process_nalu_for_playback`. */
  function ProcessNalu(env: Env, g: Gate, st: Stamp, nalu: seq<byte>, marker: bool, canSend: bool): (Gate, bool) {
    if |nalu| < 2 then (g, true)
    else
      var g1 := Noted(env, g, nalu);
      if !canSend then (g1, true)
      else
        var g2 := AtRead(env, g1);
        if !g2.session.need then Pass(env, g2, st, nalu, marker)
        else
          var (g3, ok) := SendSets(env, g2, st);
          if !ok then (g3, true) else Pass(env, AtMark(env, g3), st, nalu, marker)
  }

  /** The units from the i-th on, up to the first failure. */
  function ProcessUnits(env: Env, g: Gate, st: Stamp, us: seq<Unit>, i: nat, marker: bool, canSend: bool): (Gate, bool)
    requires i <= |us|
    decreases |us| - i
  {
    if i == |us| then (g, true)
    else
      var (g', ok) := ProcessNalu(env, g, st, us[i].nalu, marker && us[i].final, canSend);
      if ok then ProcessUnits(env, g', st, us, i + 1, marker, canSend) else (g', false)
  }

  /** `datafifo_process_h265_buffer_for_playback`. */
  function ProcessBuffer(env: Env, g: Gate, st: Stamp, buf: seq<byte>, marker: bool, canSend: bool): (Gate, bool) {
    if |buf| < 2 then (g, true)
    else if !StartsWithCode(buf) then ProcessNalu(env, g, st, buf, marker, canSend)
    else ProcessUnits(env, g, st, Split(buf, 0), 0, marker, canSend)
  }
}
