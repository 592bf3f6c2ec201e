/**
 * The gated sender of RTSP_Create.c against the ungated one of rtp.c: with the gate held open both put the
 * same datagrams on the wire, except on packs where a one-byte unit comes before a longer one, which the
 * ungated sender gives up on and the gated one steps over.
 */
module Paths {
  import opened Bytes
  import opened AnnexB
  import opened Rtp
  import opened Transport
  import opened PlaybackGate
  import opened GateInStep

  /** Nothing pending, not waiting, and no RTSP step while the pack is processed. */
  ghost predicate HeldOpen(env: Env, g: Gate) {
    !g.session.need && !g.waitIdr && forall k :: env.atRead(k) == [] && env.atSend(k) == []
  }

  /** Every unit that has only its first header byte comes after all longer ones. */
  ghost predicate ShortLast(us: seq<Unit>) {
    forall a, b :: 0 <= a < b < |us| && |us[a].nalu| < 2 ==> |us[b].nalu| < 2
  }

  lemma {:induction false} OpenNalu(env: Env, g: Gate, st: Stamp, nalu: seq<byte>, marker: bool)
    requires HeldOpen(env, g) && |nalu| >= 2
    ensures var (g', ok) := ProcessNalu(env, g, st, nalu, marker, true);
            HeldOpen(env, g') && (g'.link, ok) == SendNalu(env.send, g.link, st, nalu, marker)
  {
    hide SendNalu;
    assert AtRead(env, Noted(env, g, nalu)) == Noted(env, g, nalu).(readings := g.readings + 1);
  }

  /** Units too short to send leave the link alone. */
  lemma {:induction false} OpenRest(env: Env, g: Gate, st: Stamp, us: seq<Unit>, i: nat, marker: bool)
    requires i <= |us| && forall k :: i <= k < |us| ==> |us[k].nalu| < 2
    ensures ProcessUnits(env, g, st, us, i, marker, true) == (g, true)
    decreases |us| - i
  {
    if i < |us| {
      OpenRest(env, g, st, us, i + 1, marker);
    }
  }

  lemma {:induction false} OpenUnits(env: Env, g: Gate, st: Stamp, us: seq<Unit>, i: nat, marker: bool)
    requires HeldOpen(env, g) && i <= |us| && ShortLast(us)
    ensures ProcessUnits(env, g, st, us, i, marker, true).0.link == SendUnits(env.send, g.link, st, us, i, marker).0
    decreases |us| - i
  {
    hide ProcessNalu, SendNalu, HeldOpen;
    if i < |us| {
      if |us[i].nalu| < 2 {
        OpenRest(env, g, st, us, i, marker);
        TooShort(env, g.link, st, us[i].nalu, marker && us[i].final);
      } else {
        OpenNalu(env, g, st, us[i].nalu, marker && us[i].final);
        var (g', ok) := ProcessNalu(env, g, st, us[i].nalu, marker && us[i].final, true);
        if ok {
          OpenUnits(env, g', st, us, i + 1, marker);
        }
      }
    }
  }

  lemma {:induction false} TooShort(env: Env, l: Link, st: Stamp, nalu: seq<byte>, marker: bool)
    requires |nalu| < 2
    ensures SendNalu(env.send, l, st, nalu, marker) == (l, false)
  {
  }

  /** When sends succeed, each unit of two bytes or more that is reached adds to the wire. */
  lemma {:induction false} OpenGrows(env: Env, g: Gate, st: Stamp, us: seq<Unit>, i: nat, marker: bool)
    requires HeldOpen(env, g) && i <= |us| && AlwaysSends(env)
    ensures var l := ProcessUnits(env, g, st, us, i, marker, true).0.link;
            && |g.link.wire| <= |l.wire|
            && ((exists k :: i <= k < |us| && |us[k].nalu| >= 2) ==> |g.link.wire| < |l.wire|)
    decreases |us| - i
  {
    hide ProcessNalu, SendNalu, HeldOpen, AlwaysSends;
    if i < |us| {
      var marked := marker && us[i].final;
      if |us[i].nalu| < 2 {
        SteppedOver(env, g, st, us[i].nalu, marked);
        OpenGrows(env, g, st, us, i + 1, marker);
      } else {
        OpenNalu(env, g, st, us[i].nalu, marked);
        SendAdds(env, g.link, st, us[i].nalu, marked);
        OpenGrows(env, ProcessNalu(env, g, st, us[i].nalu, marked, true).0, st, us, i + 1, marker);
      }
    }
  }

  lemma {:induction false} SteppedOver(env: Env, g: Gate, st: Stamp, nalu: seq<byte>, marker: bool)
    requires |nalu| < 2
    ensures ProcessNalu(env, g, st, nalu, marker, true) == (g, true)
  {
  }

  lemma {:induction false} SendAdds(env: Env, l: Link, st: Stamp, nalu: seq<byte>, marker: bool)
    requires AlwaysSends(env) && |nalu| >= 2
    ensures var (l', ok) := SendNalu(env.send, l, st, nalu, marker); ok && |l'.wire| > |l.wire|
  {
    hide SendFrom, Payloads;
    AllFromSent(env.send, l, st, nalu, 0, marker);
    NaluShape(env.send, l, st, nalu, marker);
    SomePayloads(nalu);
  }

  /** Where a short unit is followed by a longer one the two senders part ways, if no send fails. */
  lemma {:induction false} OpenParts(env: Env, g: Gate, st: Stamp, us: seq<Unit>, i: nat, marker: bool)
    requires HeldOpen(env, g) && i <= |us| && AlwaysSends(env)
    requires exists a, b :: i <= a < b < |us| && |us[a].nalu| < 2 <= |us[b].nalu|
    ensures ProcessUnits(env, g, st, us, i, marker, true).0.link != SendUnits(env.send, g.link, st, us, i, marker).0
    decreases |us| - i
  {
    hide ProcessNalu, SendNalu, HeldOpen, AlwaysSends;
    var a, b :| i <= a < b < |us| && |us[a].nalu| < 2 <= |us[b].nalu|;
    var marked := marker && us[i].final;
    if |us[i].nalu| < 2 {
      TooShort(env, g.link, st, us[i].nalu, marked);
      OpenGrows(env, g, st, us, i, marker);
    } else {
      OpenNalu(env, g, st, us[i].nalu, marked);
      SendAdds(env, g.link, st, us[i].nalu, marked);
      OpenParts(env, ProcessNalu(env, g, st, us[i].nalu, marked, true).0, st, us, i + 1, marker);
    }
  }

  /** The two senders on one pack: equal under any failures if no one-byte unit precedes a longer one. */
  lemma {:induction false} SameDatagrams(env: Env, g: Gate, st: Stamp, buf: seq<byte>, marker: bool)
    requires HeldOpen(env, g) && (StartsWithCode(buf) ==> ShortLast(Split(buf, 0)))
    ensures ProcessBuffer(env, g, st, buf, marker, true).0.link == SendBuffer(env.send, g.link, st, buf, marker).0
  {
    hide ProcessNalu, SendNalu, HeldOpen, ProcessUnits, SendUnits, Split, ShortLast, StartsWithCode;
    if |buf| >= 2 {
      if StartsWithCode(buf) {
        OpenUnits(env, g, st, Split(buf, 0), 0, marker);
      } else {
        OpenNalu(env, g, st, buf, marker);
      }
    }
  }

  /** And only then, when no send fails. */
  lemma {:induction false} SameDatagramsExactly(env: Env, g: Gate, st: Stamp, buf: seq<byte>, marker: bool)
    requires HeldOpen(env, g) && AlwaysSends(env) && StartsWithCode(buf)
    ensures ProcessBuffer(env, g, st, buf, marker, true).0.link == SendBuffer(env.send, g.link, st, buf, marker).0
            <==> ShortLast(Split(buf, 0))
  {
    hide ProcessNalu, SendNalu, HeldOpen, ProcessUnits, SendUnits, Split, AlwaysSends;
    var us := Split(buf, 0);
    if ShortLast(us) {
      SameDatagrams(env, g, st, buf, marker);
    } else {
      OpenParts(env, g, st, us, 0, marker);
    }
  }

  /** A one-byte unit and an IDR. */
  const ONE_BYTE_FIRST: seq<byte> := [0, 0, 1, 5, 0, 0, 1, 38, 1]

  lemma {:induction false} OneByteSplit()
    ensures StartsWithCode(ONE_BYTE_FIRST)
    ensures Split(ONE_BYTE_FIRST, 0) == [Unit(3, [5], false)] + [Unit(7, [38, 1], true)]
  {
    var buf := ONE_BYTE_FIRST;
    assert StartsWithCode(buf);
    hide StartsWithCode, Split;
    assert NextCode(buf, 3) == NextCode(buf, 4) == 4 && TrimEnd(buf, 3, 4) == 4;
    assert NextCode(buf, 7) == NextCode(buf, 8) == NextCode(buf, 9) == 9 && TrimEnd(buf, 7, 9) == 9;
    assert buf[3..4] == [5] && buf[7..9] == [38, 1];
    SplitRound(buf, 0);
    SplitRound(buf, 4);
  }

  /** The pack above: the ungated sender gives up at the first unit, the gated one sends the IDR. */
  lemma {:induction false} OneByteParts(env: Env, g: Gate, st: Stamp, marker: bool)
    requires HeldOpen(env, g) && AlwaysSends(env)
    ensures SendBuffer(env.send, g.link, st, ONE_BYTE_FIRST, marker) == (g.link, false)
    ensures ProcessBuffer(env, g, st, ONE_BYTE_FIRST, marker, true).0.link != g.link
  {
    hide HeldOpen, AlwaysSends, ProcessBuffer, StartsWithCode, Split;
    OneByteSplit();
    var us := Split(ONE_BYTE_FIRST, 0);
    assert |us[0].nalu| < 2 <= |us[1].nalu|;
    SameDatagramsExactly(env, g, st, ONE_BYTE_FIRST, marker);
  }
}
