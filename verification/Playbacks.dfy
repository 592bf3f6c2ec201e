/**
 * The code of RTSP_Create.c and rtsp.c that shares the session flags: the RTSP critical sections, the
 * parameter-set caches and the gated sender, proved against the functions of PlaybackGate.dfy.
 */
module Playbacks {
  import opened Bytes
  import opened AnnexB
  import opened StartCodes
  import opened Rtp
  import opened RtpLinks
  import opened PlaybackGate

  class Playback {
    const env: Env
    const link: RtpLink
    var play: bool
    var clientAddrSet: bool
    var needParameterSets: bool
    var clientAddr: Address
    var vpsCache: Option<seq<byte>>
    var spsCache: Option<seq<byte>>
    var ppsCache: Option<seq<byte>>
    var waitForIdr: bool
    var allocs: nat
    var readings: nat
    var markings: nat
    var tries: nat
    ghost var log: seq<Event>

    ghost predicate Valid()
      reads this, link
    {
      link.send == env.send
    }

    ghost function State(): Gate
      reads this, link
    {
      Gate(Sets(vpsCache, spsCache, ppsCache), waitForIdr,
           Session(play, clientAddrSet, needParameterSets, clientAddr),
           link.State(), log, allocs, readings, markings, tries)
    }

    constructor (env: Env)
      ensures Valid() && fresh(link) && this.env == env
      ensures State() == Gate(Sets(None, None, None), false, Session(false, false, false, Address(0, 0)),
                              Link(0, [], 0), [], 0, 0, 0, 0)
    {
      this.env := env;
      link := new RtpLink(env.send);
      play, clientAddrSet, needParameterSets, clientAddr := false, false, false, Address(0, 0);
      vpsCache, spsCache, ppsCache := None, None, None;
      waitForIdr, allocs, readings, markings, tries, log := false, 0, 0, 0, 0, [];
    }

    // ----- the RTSP thread -----

    /** One critical section of `handle_rtsp_client`. */
    method HandleRequest(c: Control)
      modifies this`play, this`clientAddrSet, this`needParameterSets, this`clientAddr, this`log
      ensures State() == ControlStep(old(State()), c)
    {
      match c {
        case Setup(client) =>
          clientAddr := client;
          clientAddrSet := true;
          play := false;
          needParameterSets := true;
        case Play =>
          play := true;
          needParameterSets := true;
        case Teardown =>
          play := false;
        case Disconnect =>
          play := false;
      }
      log := log + [Ctl(c)];
    }

    /** RTSP critical sections that get the mutex before the sender does. */
    method HandleRequests(cs: seq<Control>)
      modifies this`play, this`clientAddrSet, this`needParameterSets, this`clientAddr, this`log
      ensures State() == Controlled(old(State()), cs)
    {
      var i := 0;
      assert cs[0..] == cs;
      while i < |cs|
        invariant 0 <= i <= |cs|
        invariant Controlled(State(), cs[i..]) == Controlled(old(State()), cs)
      {
        assert cs[i..][1..] == cs[i + 1..];
        HandleRequest(cs[i]);
        i := i + 1;
      }
    }

    // ----- the sender thread -----

    /** `get_rtsp_target`; the loop only logs the need flag. */
    method GetRtspTarget() returns (playing: bool, dest: Address, destValid: bool, needed: bool)
      ensures playing == play && destValid == clientAddrSet && needed == needParameterSets
      ensures dest == if clientAddrSet then clientAddr else Address(0, 0)
    {
      playing := play;
      destValid := clientAddrSet;
      needed := needParameterSets;
      dest := if clientAddrSet then clientAddr else Address(0, 0);
    }

    /** `rtsp_session_needs_parameter_sets`. */
    method NeedsParameterSets() returns (need: bool)
      modifies this
      ensures State() == AtRead(env, old(State())) && need == needParameterSets
    {
      HandleRequests(env.atRead(readings));
      readings := readings + 1;
      need := needParameterSets;
    }

    /** `rtsp_mark_parameter_sets_sent` and the switch to waiting that follows it. */
    method MarkParameterSetsSent()
      modifies this
      ensures State() == AtMark(env, old(State()))
    {
      HandleRequests(env.atMark(markings));
      markings := markings + 1;
      needParameterSets := false;
      waitForIdr := true;
    }

    /** `h265_cache_parameter_set`. */
    method CacheParameterSet(nalu: seq<byte>)
      modifies this
      ensures State() == if |nalu| < 2 then old(State()) else CacheSet(env, old(State()), nalu)
    {
      if |nalu| < 2 {
        return;
      }
      var t := NalType(nalu);
      if t != VPS && t != SPS && t != PPS {
        return;
      }
      if |nalu| > PARAM_SET_MAX {
        return;
      }
      var cached := if t == VPS then vpsCache else if t == SPS then spsCache else ppsCache;
      if cached.Some? && |cached.value| == |nalu| && cached.value == nalu {
        return;
      }
      var granted := env.alloc(allocs);
      allocs := allocs + 1;
      if !granted {
        return;
      }
      if t == VPS {
        vpsCache := Some(nalu);
      } else if t == SPS {
        spsCache := Some(nalu);
      } else {
        ppsCache := Some(nalu);
      }
    }

    /** RTSP steps that come first, then `send_h265_nalu_rtp`, with its outcome on record. */
    method SendNaluRtp(st: Stamp, nalu: seq<byte>, marker: bool, ghost cached: bool) returns (ok: bool)
      requires Valid()
      modifies this`play, this`clientAddrSet, this`needParameterSets, this`clientAddr, this`log, this`tries, link
      ensures Valid() && (State(), ok) == TrySend(env, old(State()), st, nalu, marker, cached)
    {
      hide SendNalu, Controlled;
      HandleRequests(env.atSend(tries));
      tries := tries + 1;
      ok := link.SendH265Nalu(st, nalu, marker);
      log := log + [Tried(st.dest, nalu, cached, ok)];
    }

    /** `send_cached_parameter_sets`. */
    method SendCachedParameterSets(st: Stamp) returns (ok: bool)
      requires Valid()
      modifies this`play, this`clientAddrSet, this`needParameterSets, this`clientAddr, this`log, this`tries, link
      ensures Valid() && (State(), ok) == SendSets(env, old(State()), st)
    {
      hide TrySend;
      if vpsCache.None? || spsCache.None? || ppsCache.None? {
        return false;
      }
      ok := SendNaluRtp(st, vpsCache.value, false, true);
      if ok {
        ok := SendNaluRtp(st, spsCache.value, false, true);
      }
      if ok {
        ok := SendNaluRtp(st, ppsCache.value, false, true);
      }
    }

    lemma {:induction false} Fields()
      ensures var g := State();
              && g.waitIdr == waitForIdr && g.session.need == needParameterSets && g.sets == Sets(vpsCache, spsCache, ppsCache)
    {
    }

    ghost method NoteSeen(nalu: seq<byte>)
      modifies this`log
      ensures State() == old(State()).(log := old(State()).log + [Seen(nalu)])
    {
      log := log + [Seen(nalu)];
    }

    method StopWaiting()
      modifies this`waitForIdr
      ensures State() == old(State()).(waitIdr := false)
    {
      waitForIdr := false;
    }

    /** `datafifo_process_nalu_for_playback`. */
    method ProcessNaluForPlayback(st: Stamp, nalu: seq<byte>, marker: bool, canSend: bool) returns (ok: bool)
      requires Valid()
      modifies this, link
      ensures Valid() && (State(), ok) == ProcessNalu(env, old(State()), st, nalu, marker, canSend)
    {
      hide TrySend, CacheSet, SendSets, Controlled, State;
      if |nalu| < 2 {
        return true;
      }
      var nalType := NalType(nalu);
      NoteSeen(nalu);
      CacheParameterSet(nalu);
      if !canSend {
        return true;
      }
      var need := NeedsParameterSets();
      Fields();
      if need {
        var sent := SendCachedParameterSets(st);
        if !sent {
          return true;
        }
        MarkParameterSetsSent();
      }
      Fields();
      assert !waitForIdr ==> State() == State().(waitIdr := false);
      if waitForIdr {
        if !IsIdr(nalType) {
          return true;
        }
        StopWaiting();
      }
      ok := SendNaluRtp(st, nalu, marker, false);
    }

    /** `datafifo_process_h265_buffer_for_playback`. */
    method ProcessBufferForPlayback(st: Stamp, buf: seq<byte>, lastMarker: bool, canSend: bool) returns (ok: bool)
      requires Valid()
      modifies this, link
      ensures Valid() && (State(), ok) == ProcessBuffer(env, old(State()), st, buf, lastMarker, canSend)
    {
      hide Split, ProcessNalu, StartsWithCode;
      if |buf| < 2 {
        return true;
      }
      var coded := BufferStartsWithStartCode(buf);
      if !coded {
        ok := ProcessNaluForPlayback(st, buf, lastMarker, canSend);
        return;
      }
      var searchOffset := 0;
      ghost var us := Split(buf, 0);
      ghost var n := 0;
      while true
        invariant Valid() && 0 <= searchOffset <= |buf| && 0 <= n <= |us|
        invariant Split(buf, searchOffset) == us[n..]
        invariant ProcessUnits(env, State(), st, us, n, lastMarker, canSend)
               == ProcessUnits(env, old(State()), st, us, 0, lastMarker, canSend)
        decreases |buf| - searchOffset
      {
        var found, start, end, next := CutUnit(LocalScanner, buf, searchOffset);
        if !found {
          break;
        }
        if end > start {
          assert us[n] == us[n..][0] == Unit(start, buf[start..end], next < 0);
          var marker := next < 0 && lastMarker;
          var processed := ProcessNaluForPlayback(st, buf[start..end], marker, canSend);
          if !processed {
            return false;
          }
          n := n + 1;
          assert us[n..] == us[n - 1..][1..];
        }
        if next < 0 {
          break;
        }
        searchOffset := next;
      }
      ok := true;
    }
  }
}
