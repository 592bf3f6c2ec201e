/**
 * The code of rtp.c: header building, packet sending, fragmentation and pack sending, with the packet
 * and fragment buffers filled in place. Each method is proved against Rtp.dfy and Transport.dfy.
 */
module RtpLinks {
  import opened Bytes
  import opened AnnexB
  import opened StartCodes
  import opened Rtp
  import opened Transport

  /** `build_rtp_header`. */
  method BuildRtpHeader(packet: array<byte>, number: u16, timestamp: u32, ssrc: u32, marker: bool)
    requires packet.Length >= HEADER_SIZE
    modifies packet
    ensures packet[..HEADER_SIZE] == HeaderBytes(Header(number, timestamp, ssrc, marker))
    ensures packet[HEADER_SIZE..] == old(packet[HEADER_SIZE..])
  {
    packet[0] := 0x80;
    packet[1] := (if marker then 0x80 else 0) + PAYLOAD_TYPE % 0x80;
    packet[2] := (number / 0x100) % 0x100;
    packet[3] := number % 0x100;
    hide Bytes32;
    ghost var head := packet[..4];
    assert head == [packet[0], packet[1], packet[2], packet[3]];
    WriteWord(packet, 4, timestamp);
    ghost var eight := packet[..8];
    assert eight == packet[..4] + packet[4..8] == head + Bytes32(timestamp);
    WriteWord(packet, 8, ssrc);
    assert packet[..HEADER_SIZE] == packet[..8] + packet[8..12] == eight + Bytes32(ssrc);
  }

  /** Four bytes of the header, most significant first. */
  method WriteWord(packet: array<byte>, at: nat, x: u32)
    requires at + 4 <= packet.Length
    modifies packet
    ensures packet[at..at + 4] == Bytes32(x)
    ensures packet[..at] == old(packet[..at]) && packet[at + 4..] == old(packet[at + 4..])
  {
    packet[at] := (x / 0x100_0000) % 0x100;
    packet[at + 1] := (x / 0x1_0000) % 0x100;
    packet[at + 2] := (x / 0x100) % 0x100;
    packet[at + 3] := x % 0x100;
  }

  /** The loop body of `send_h265_nalu_rtp` that fills `fu_payload`. */
  method FillFragment(fuPayload: array<byte>, nalu: seq<byte>, offset: nat, size: nat, first: bool, last: bool)
    requires |nalu| >= 2 && offset + size <= |nalu| && FU_HEADER_SIZE + size <= fuPayload.Length
    modifies fuPayload
    ensures fuPayload[..FU_HEADER_SIZE + size] ==
            [FuIndicator(nalu[0]), nalu[1], FuHeader(first, last, TypeBits(nalu[0]))] + nalu[offset..offset + size]
  {
    var nalType := NalType(nalu);
    fuPayload[0] := (nalu[0] / 0x80) * 0x80 + FU_TYPE * 2 + nalu[0] % 2;
    fuPayload[1] := nalu[1];
    fuPayload[2] := (if first then 0x80 else 0) + (if last then 0x40 else 0) + nalType % 0x40;
    forall i | 0 <= i < size {
      fuPayload[FU_HEADER_SIZE + i] := nalu[offset + i];
    }
    assert nalType % 0x40 == TypeBits(nalu[0]);
    ghost var data := nalu[offset..offset + size];
    assert forall i :: 0 <= i < size ==> fuPayload[FU_HEADER_SIZE + i] == data[i];
    assert fuPayload[FU_HEADER_SIZE..FU_HEADER_SIZE + size] == data;
    assert fuPayload[..FU_HEADER_SIZE] == [fuPayload[0], fuPayload[1], fuPayload[2]];
    assert fuPayload[..FU_HEADER_SIZE + size]
        == fuPayload[..FU_HEADER_SIZE] + fuPayload[FU_HEADER_SIZE..FU_HEADER_SIZE + size];
  }

  /** The UDP socket and the `*seq` counter; `send(k)` is the outcome of the k-th `sendto`. */
  class RtpLink {
    const send: nat -> bool
    var attempts: nat
    var wire: seq<Datagram>
    var number: u16

    constructor (send: nat -> bool)
      ensures this.send == send && State() == Link(0, [], 0)
    {
      this.send := send;
      attempts, wire, number := 0, [], 0;
    }

    function State(): Link
      reads this
    {
      Link(attempts, wire, number)
    }

    method SendTo(dest: Address, bytes: seq<byte>) returns (ok: bool)
      modifies this
      ensures ok == send(old(attempts)) && attempts == old(attempts) + 1 && number == old(number)
      ensures wire == if ok then old(wire) + [Datagram(dest, bytes)] else old(wire)
    {
      ok := send(attempts);
      attempts := attempts + 1;
      if ok {
        wire := wire + [Datagram(dest, bytes)];
      }
    }

    /** `send_rtp_packet`. */
    method SendRtpPacket(st: Stamp, payload: seq<byte>, marker: bool) returns (ok: bool)
      modifies this
      ensures (State(), ok) == SendPacket(send, old(State()), st, payload, marker)
      ensures ok <==> 12 + |payload| <= 1500 && send(old(attempts))
    {
      hide HeaderBytes;
      var packet := new byte[PACKET_MAX_SIZE];
      var packetLen := HEADER_SIZE + |payload|;
      if packetLen > packet.Length {
        return false;
      }
      BuildRtpHeader(packet, number, st.timestamp, st.ssrc, marker);
      forall i | 0 <= i < |payload| {
        packet[HEADER_SIZE + i] := payload[i];
      }
      assert packet[..packetLen] == HeaderBytes(Header(number, st.timestamp, st.ssrc, marker)) + payload;
      var sent := SendTo(st.dest, packet[..packetLen]);
      if !sent {
        return false;
      }
      number := (number + 1) % 0x1_0000;
      ok := true;
    }

    /** `send_h265_nalu_rtp`. */
    method SendH265Nalu(st: Stamp, nalu: seq<byte>, marker: bool) returns (ok: bool)
      modifies this
      ensures (State(), ok) == SendNalu(send, old(State()), st, nalu, marker)
    {
      if |nalu| < 2 {
        return false;
      }
      if |nalu| <= MAX_PAYLOAD {
        SendOne(send, State(), st, nalu, marker);
        ok := SendRtpPacket(st, nalu, marker);
        return;
      }
      ok := SendFragments(st, nalu, marker);
    }

    /** One round of the fragment loop: the j-th fragment, cut at `offset`, filled in place and sent. */
    method SendFragment(st: Stamp, nalu: seq<byte>, fuPayload: array<byte>, offset: nat, first: bool, marker: bool, ghost j: nat)
      returns (sent: bool, next: nat)
      requires |nalu| > MAX_PAYLOAD && j < FragmentCount(|nalu|) && fuPayload.Length == MAX_PAYLOAD
      requires offset == 2 + FU_DATA * j && first == (j == 0)
      modifies this, fuPayload
      ensures next == Cut(|nalu|, j + 1) && j < |Payloads(nalu)|
      ensures (State(), sent) == SendPacket(send, old(State()), st, Payloads(nalu)[j], j == |Payloads(nalu)| - 1 && marker)
    {
      hide Payloads, Fragment, SendPacket, FragmentCount, FuIndicator, FuHeader;
      FragmentAt(nalu, j);
      var maxFragmentData := MAX_PAYLOAD - FU_HEADER_SIZE;
      var remaining := |nalu| - offset;
      var size := if remaining > maxFragmentData then maxFragmentData else remaining;
      var last := offset + size >= |nalu|;
      FillFragment(fuPayload, nalu, offset, size, first, last);
      FragmentBytes(nalu, j);
      sent := SendRtpPacket(st, fuPayload[..FU_HEADER_SIZE + size], last && marker);
      next := offset + size;
    }

    /** The fragmenting block of `send_h265_nalu_rtp`. */
    method SendFragments(st: Stamp, nalu: seq<byte>, marker: bool) returns (ok: bool)
      requires |nalu| > MAX_PAYLOAD
      modifies this
      ensures (State(), ok) == SendFrom(send, old(State()), st, Payloads(nalu), 0, marker)
    {
      var fuPayload := new byte[MAX_PAYLOAD];
      var offset := 2;
      var first := true;
      ghost var j := 0;
      ghost var ps := Payloads(nalu);
      FragmentAt(nalu, 0);
      hide Payloads, Fragment, SendFrom, SendPacket, FragmentCount, State;
      while offset < |nalu|
        invariant 0 <= j <= |ps| == FragmentCount(|nalu|) && first == (j == 0)
        invariant offset < |nalu| <==> j < |ps|
        invariant offset < |nalu| ==> offset == 2 + FU_DATA * j
        invariant SendFrom(send, State(), st, ps, j, marker) == SendFrom(send, old(State()), st, ps, 0, marker)
        decreases |nalu| - offset
      {
        FragmentAt(nalu, j);
        SendNext(send, State(), st, ps, j, marker);
        var sent, next := SendFragment(st, nalu, fuPayload, offset, first, marker, j);
        if !sent {
          return false;
        }
        first := false;
        offset := next;
        j := j + 1;
      }
      SendDone(send, State(), st, ps, marker);
      ok := true;
    }

    /** `send_h265_buffer_rtp`. */
    method SendH265Buffer(st: Stamp, buf: seq<byte>, lastMarker: bool) returns (ok: bool)
      modifies this
      ensures (State(), ok) == SendBuffer(send, old(State()), st, buf, lastMarker)
    {
      hide Split, SendNalu, StartsWithCode;
      if |buf| < 2 {
        return false;
      }
      var coded := BufferStartsWithStartCode(buf);
      if !coded {
        ok := SendH265Nalu(st, buf, lastMarker);
        return;
      }
      var searchOffset := 0;
      var sentCount := 0;
      ghost var us := Split(buf, 0);
      while true
        invariant 0 <= searchOffset <= |buf| && 0 <= sentCount <= |us|
        invariant Split(buf, searchOffset) == us[sentCount..]
        invariant SendUnits(send, State(), st, us, sentCount, lastMarker)
               == SendUnits(send, old(State()), st, us, 0, lastMarker)
        decreases |buf| - searchOffset
      {
        var found, start, end, next := CutUnit(RtpScanner, buf, searchOffset);
        if !found {
          break;
        }
        if end > start {
          assert us[sentCount] == Split(buf, searchOffset)[0];
          var packetMarker := next < 0 && lastMarker;
          var sent := SendH265Nalu(st, buf[start..end], packetMarker);
          if !sent {
            return false;
          }
          sentCount := sentCount + 1;
          assert us[sentCount..] == Split(buf, searchOffset - 0)[1..];
        }
        if next < 0 {
          break;
        }
        searchOffset := next;
      }
      ok := sentCount > 0;
    }
  }

  lemma {:induction false} SendNext(send: nat -> bool, l: Link, st: Stamp, ps: seq<seq<byte>>, j: nat, marker: bool)
    requires j < |ps|
    ensures var (l', ok) := SendPacket(send, l, st, ps[j], j == |ps| - 1 && marker);
            SendFrom(send, l, st, ps, j, marker) ==
            if ok then SendFrom(send, l', st, ps, j + 1, marker) else (l', false)
  {
    assert (j == |ps| - 1 && marker) == (marker && j == |ps| - 1);
  }

  lemma {:induction false} SendDone(send: nat -> bool, l: Link, st: Stamp, ps: seq<seq<byte>>, marker: bool)
    ensures SendFrom(send, l, st, ps, |ps|, marker) == (l, true)
  {
  }

  lemma {:induction false} FragmentBytes(nalu: seq<byte>, j: nat)
    requires |nalu| > MAX_PAYLOAD && j < FragmentCount(|nalu|)
    ensures j < |Payloads(nalu)| && 2 + FU_DATA * j <= Cut(|nalu|, j + 1) <= |nalu|
    ensures Payloads(nalu)[j] ==
            [FuIndicator(nalu[0]), nalu[1], FuHeader(j == 0, j == FragmentCount(|nalu|) - 1, TypeBits(nalu[0]))]
            + nalu[2 + FU_DATA * j..Cut(|nalu|, j + 1)]
  {
    FragmentAt(nalu, j);
  }
}
