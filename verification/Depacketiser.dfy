/**
 * An RFC 7798 depacketiser, and the proof that it recovers from whatever datagrams left the socket
 * exactly the NAL units whose send succeeded, for every schedule of `sendto` failures.
 */
module Depacketiser {
  import opened Bytes
  import opened Rtp

  /** Fragments gathered so far and the sequence number the next one must carry. */
  datatype Partial = Partial(next: u16, nalu: seq<byte>)

  datatype Receiver = Receiver(partial: Option<Partial>, out: seq<seq<byte>>)

  const SILENT := Receiver(None, [])

  /** Section 4.4.3: the header of the fragmented NAL unit, rebuilt from FU indicator and FU header. */
  function Rebuilt(indicator: byte, fuHeader: byte): byte {
    (indicator / 0x80) * 0x80 + (fuHeader % 0x40) * 2 + indicator % 2
  }

  /**
   * A run of fragments is completed by its E bit, and dropped when another packet, a gap in the
   * sequence numbers or a malformed fragment interrupts it. Types 48 and 50..63 are not understood.
   */
  function AcceptFragment(r: Receiver, number: u16, p: seq<byte>): Receiver {
    var start, end := |p| > 2 && p[2] >= 0x80, |p| > 2 && (p[2] / 0x40) % 2 == 1;
    var next := (number + 1) % 0x1_0000;
    if |p| <= 3 || (start && end) then Receiver(None, r.out)
    else if start then Receiver(Some(Partial(next, [Rebuilt(p[0], p[2]), p[1]] + p[3..])), r.out)
    else if r.partial.None? || r.partial.value.next != number then Receiver(None, r.out)
    else
      var nalu := r.partial.value.nalu + p[3..];
      if end then Receiver(None, r.out + [nalu]) else Receiver(Some(Partial(next, nalu)), r.out)
  }

  function AcceptPayload(r: Receiver, number: u16, p: seq<byte>): Receiver {
    var t := NalType(p);
    if 0 <= t < 48 then Receiver(None, r.out + [p])
    else if t == 49 then AcceptFragment(r, number, p)
    else Receiver(None, r.out)
  }

  function Accept(r: Receiver, bytes: seq<byte>): Receiver {
    match ParseHeader(bytes)
    case None => r
    case Some(h) => AcceptPayload(r, h.number, bytes[12..])
  }

  /** What the client at `a` holds after the first n datagrams on the wire, hearing only its own. */
  function Heard(wire: seq<Datagram>, a: Address, n: nat): Receiver
    requires n <= |wire|
  {
    if n == 0 then SILENT
    else
      var r := Heard(wire, a, n - 1);
      if wire[n - 1].dest == a then Accept(r, wire[n - 1].bytes) else r
  }

  function Ear(l: Link, a: Address): Receiver {
    Heard(l.wire, a, |l.wire|)
  }

  /** NAL units a receiver can tell from fragments and aggregates: types 0..47, or long enough to be fragmented. */
  predicate Transportable(nalu: seq<byte>) {
    |nalu| >= 2 && (NalType(nalu) < 48 || |nalu| > 1200)
  }

  // ----- one datagram -----

  lemma {:induction false} HeardPrefix(w: seq<Datagram>, more: seq<Datagram>, a: Address, n: nat)
    requires n <= |w|
    ensures Heard(w + more, a, n) == Heard(w, a, n)
  {
    if n > 0 {
      HeardPrefix(w, more, a, n - 1);
    }
  }

  lemma {:induction false} HearOne(send: nat -> bool, l: Link, st: Stamp, p: seq<byte>, marker: bool, a: Address)
    ensures var (l', ok) := SendPacket(send, l, st, p, marker);
            && (ok && a == st.dest ==> Ear(l', a) == AcceptPayload(Ear(l, a), l.number, p))
            && (ok ==> l'.number == (l.number + 1) % 0x1_0000)
            && (!ok || a != st.dest ==> Ear(l', a) == Ear(l, a))
  {
    hide AcceptPayload, HeaderBytes, ParseHeader;
    HeardPrefix(l.wire, [PacketOf(l, st, p, marker)], a, |l.wire|);
    HeaderRoundTrip(Header(l.number, st.timestamp, st.ssrc, marker), p);
  }

  /** Sending to one client is not heard by another. */
  lemma {:induction false} OthersHearNothing(send: nat -> bool, l: Link, st: Stamp, ps: seq<seq<byte>>, j: nat,
                                             marker: bool, a: Address)
    requires j <= |ps| && a != st.dest
    ensures Ear(SendFrom(send, l, st, ps, j, marker).0, a) == Ear(l, a)
    decreases |ps| - j
  {
    if j < |ps| {
      hide Ear, SendPacket;
      HearOne(send, l, st, ps[j], marker && j == |ps| - 1, a);
      var (l', ok) := SendPacket(send, l, st, ps[j], marker && j == |ps| - 1);
      if ok {
        OthersHearNothing(send, l', st, ps, j + 1, marker, a);
      }
    }
  }

  // ----- one NAL unit -----

  lemma {:induction false} FragmentHeader(nalu: seq<byte>, j: nat)
    requires |nalu| > MAX_PAYLOAD && j < |Payloads(nalu)|
    ensures var p := Payloads(nalu)[j];
            && |p| > FU_HEADER_SIZE && NalType(p) == FU_TYPE && p[1] == nalu[1] && Rebuilt(p[0], p[2]) == nalu[0]
            && (p[2] >= 0x80 <==> j == 0) && ((p[2] / 0x40) % 2 == 1 <==> j == |Payloads(nalu)| - 1)
  {
    hide Payloads;
    FragmentShape(nalu, j);
    var p := Payloads(nalu)[j];
    assert p[2] % 0x40 == TypeBits(nalu[0]);
  }

  /** The receiver's state between the j-th and the next fragment of `nalu`. */
  ghost predicate Between(r: Receiver, number: u16, nalu: seq<byte>, j: nat, out: seq<seq<byte>>)
    requires |nalu| > MAX_PAYLOAD
  {
    && (j == 0 ==> r.out == out)
    && (0 < j < |Payloads(nalu)| ==> r == Receiver(Some(Partial(number, nalu[..Cut(|nalu|, j)])), out))
    && (j == |Payloads(nalu)| ==> r == Receiver(None, out + [nalu]))
  }

  lemma {:induction false} AcceptNext(r: Receiver, number: u16, nalu: seq<byte>, j: nat, out: seq<seq<byte>>)
    requires |nalu| > MAX_PAYLOAD && j < |Payloads(nalu)| && Between(r, number, nalu, j, out)
    ensures Between(AcceptPayload(r, number, Payloads(nalu)[j]), (number + 1) % 0x1_0000, nalu, j + 1, out)
  {
    hide Payloads, Fragment, Rebuilt;
    FragmentHeader(nalu, j);
    FragmentAt(nalu, 0);
    FragmentAt(nalu, j);
    FragmentData(nalu, j);
    var p, a, b := Payloads(nalu)[j], 2 + FU_DATA * j, Cut(|nalu|, j + 1);
    assert p[3..] == nalu[a..b];
    if j == 0 {
      assert [nalu[0], nalu[1]] + nalu[2..b] == nalu[..b];
    } else {
      FragmentAt(nalu, j - 1);
      assert nalu[..a] + nalu[a..b] == nalu[..b];
    }
    assert nalu[..|nalu|] == nalu;
  }

  lemma {:induction false} FragmentsHeard(send: nat -> bool, l: Link, st: Stamp, nalu: seq<byte>, j: nat,
                                          marker: bool, out: seq<seq<byte>>)
    requires |nalu| > MAX_PAYLOAD && j <= |Payloads(nalu)|
    requires Between(Ear(l, st.dest), l.number, nalu, j, out)
    ensures var (l', ok) := SendFrom(send, l, st, Payloads(nalu), j, marker);
            Ear(l', st.dest).out == out + (if ok then [nalu] else [])
    decreases |Payloads(nalu)| - j
  {
    hide Payloads, Ear, SendPacket, AcceptPayload;
    var ps := Payloads(nalu);
    if j < |ps| {
      HearOne(send, l, st, ps[j], marker && j == |ps| - 1, st.dest);
      var (l', ok) := SendPacket(send, l, st, ps[j], marker && j == |ps| - 1);
      if ok {
        AcceptNext(Ear(l, st.dest), l.number, nalu, j, out);
        FragmentsHeard(send, l', st, nalu, j + 1, marker, out);
      }
    } else {
      FragmentAt(nalu, 0);
    }
  }

  /**
   * Transport of one NAL unit: the addressed client recovers it exactly when the send returned 0,
   * a failed send leaves no trace in what any client recovers, and no other client is affected.
   */
  lemma {:induction false} SendNaluHeard(send: nat -> bool, l: Link, st: Stamp, nalu: seq<byte>, marker: bool, a: Address)
    requires Transportable(nalu)
    ensures var (l', ok) := SendNalu(send, l, st, nalu, marker);
            Ear(l', a).out == Ear(l, a).out + (if ok && a == st.dest then [nalu] else [])
  {
    hide Ear, SendPacket;
    if a != st.dest {
      OthersHearNothing(send, l, st, Payloads(nalu), 0, marker, a);
    } else if |nalu| > MAX_PAYLOAD {
      FragmentAt(nalu, 0);
      FragmentsHeard(send, l, st, nalu, 0, marker, Ear(l, a).out);
    } else {
      SendOne(send, l, st, nalu, marker);
      HearOne(send, l, st, nalu, marker, a);
    }
  }

  /** A short payload of type 48 or more completes nothing for a client that is not gathering fragments. */
  lemma {:induction false} NothingCompleted(r: Receiver, number: u16, p: seq<byte>)
    requires r.partial.None? && |p| >= 2 && NalType(p) >= 48
    ensures AcceptPayload(r, number, p).out == r.out
  {
  }

  /** Exactly when: a client between NAL units recovers one that was sent if and only if it is transportable. */
  lemma {:induction false} HeardExactly(send: nat -> bool, l: Link, st: Stamp, nalu: seq<byte>, marker: bool)
    requires Ear(l, st.dest).partial.None? && SendNalu(send, l, st, nalu, marker).1
    ensures Ear(SendNalu(send, l, st, nalu, marker).0, st.dest).out == Ear(l, st.dest).out + [nalu] <==> Transportable(nalu)
  {
    hide Ear, SendPacket, AcceptPayload;
    if Transportable(nalu) {
      SendNaluHeard(send, l, st, nalu, marker, st.dest);
    } else {
      SendOne(send, l, st, nalu, marker);
      HearOne(send, l, st, nalu, marker, st.dest);
      NothingCompleted(Ear(l, st.dest), l.number, nalu);
    }
  }

  /**
   * So types above 47 must be excluded: a short NAL unit of type 49 sent whole is taken for a fragment,
   * and the client recovers nothing although the send returned 0.
   */
  lemma {:induction false} ShortType49Lost(l: Link, st: Stamp, marker: bool)
    requires l.wire == []
    ensures var (l', ok) := SendNalu(k => true, l, st, [98, 1, 0x80, 7], marker);
            ok && Ear(l', st.dest).out == []
  {
    hide Ear, HeaderBytes;
    HearOne(k => true, l, st, [98, 1, 0x80, 7], marker, st.dest);
    SendOne(k => true, l, st, [98, 1, 0x80, 7], marker);
    EarSilent(l, st.dest);
  }

  lemma {:induction false} EarSilent(l: Link, a: Address)
    requires l.wire == []
    ensures Ear(l, a) == SILENT
  {
  }
}
