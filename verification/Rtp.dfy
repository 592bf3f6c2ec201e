/**
 * RTP packets (section 5.1 of RFC 3550) and the H.265 payloads of RFC 7798 (sections 4.4.1 and 4.4.3)
 * as rtp.c builds them. Functions here are the specification; RtpLinks.dfy has the code.
 */
module Rtp {
  import opened Bytes

  const HEADER_SIZE: nat := 12
  const PACKET_MAX_SIZE: nat := 1500
  const MAX_PAYLOAD: nat := 1200
  const FU_HEADER_SIZE: nat := 3
  const FU_DATA: nat := 1197
  const FU_TYPE: nat := 49
  const PAYLOAD_TYPE: nat := 96

  // ----- the twelve-byte header -----

  datatype Header = Header(number: u16, timestamp: u32, ssrc: u32, marker: bool)

  function Bytes32(x: u32): (b: seq<byte>)
    ensures |b| == 4
  {
    [x / 0x100_0000, (x / 0x1_0000) % 0x100, (x / 0x100) % 0x100, x % 0x100]
  }

  function HeaderBytes(h: Header): (b: seq<byte>)
    ensures |b| == HEADER_SIZE
  {
    [0x80, (if h.marker then 0x80 else 0) + PAYLOAD_TYPE, h.number / 0x100, h.number % 0x100]
    + Bytes32(h.timestamp) + Bytes32(h.ssrc)
  }

  function Value32(a: byte, b: byte, c: byte, d: byte): u32 {
    ((a * 0x100 + b) * 0x100 + c) * 0x100 + d
  }

  /** A receiver's reading of the header: version 2, no padding, extension or CSRC list, our payload type. */
  function ParseHeader(p: seq<byte>): Option<Header> {
    if |p| < 12 || p[0] != 0x80 || p[1] % 0x80 != 96 then None
    else Some(Header(p[2] as int * 0x100 + p[3] as int, Value32(p[4], p[5], p[6], p[7]),
                     Value32(p[8], p[9], p[10], p[11]), p[1] >= 0x80))
  }

  lemma {:induction false} Value32Bytes(x: u32)
    ensures var b := Bytes32(x); Value32(b[0], b[1], b[2], b[3]) == x
  {
  }

  lemma {:induction false} HeaderRoundTrip(h: Header, payload: seq<byte>)
    ensures ParseHeader(HeaderBytes(h) + payload) == Some(h)
    ensures (HeaderBytes(h) + payload)[12..] == payload
  {
    var p := HeaderBytes(h) + payload;
    var t, s := Bytes32(h.timestamp), Bytes32(h.ssrc);
    hide Bytes32;
    assert p[4] == t[0] && p[5] == t[1] && p[6] == t[2] && p[7] == t[3];
    assert p[8] == s[0] && p[9] == s[1] && p[10] == s[2] && p[11] == s[3];
    Value32Bytes(h.timestamp);
    Value32Bytes(h.ssrc);
  }

  // ----- single NAL unit packets and fragmentation units -----

  /** Number of fragments of an n-byte NAL unit: ceil((n - 2) / 1197). */
  function FragmentCount(n: nat): (k: nat)
    requires n > MAX_PAYLOAD
    ensures k >= 2 && 2 + FU_DATA * (k - 1) < n <= 2 + FU_DATA * k
  {
    (n - 2 + FU_DATA - 1) / FU_DATA
  }

  function Cut(n: nat, j: nat): nat {
    if 2 + FU_DATA * j < n then 2 + FU_DATA * j else n
  }

  function FuIndicator(b: byte): byte {
    (b / 0x80) * 0x80 + FU_TYPE * 2 + b % 2
  }

  function FuHeader(first: bool, last: bool, kind: nat): byte
    requires kind < 64
  {
    (if first then 0x80 else 0) + (if last then 0x40 else 0) + kind
  }

  function Fragment(nalu: seq<byte>, j: nat): seq<byte>
    requires |nalu| > MAX_PAYLOAD && j < FragmentCount(|nalu|)
  {
    [FuIndicator(nalu[0]), nalu[1], FuHeader(j == 0, j == FragmentCount(|nalu|) - 1, TypeBits(nalu[0]))]
    + nalu[2 + FU_DATA * j..Cut(|nalu|, j + 1)]
  }

  /** The payloads a NAL unit goes out as: itself, or its fragments in order. */
  function Payloads(nalu: seq<byte>): seq<seq<byte>> {
    if |nalu| <= MAX_PAYLOAD then [nalu]
    else seq(FragmentCount(|nalu|), j requires 0 <= j < FragmentCount(|nalu|) => Fragment(nalu, j))
  }

  function Data(fragment: seq<byte>): seq<byte> {
    if |fragment| < FU_HEADER_SIZE then [] else fragment[FU_HEADER_SIZE..]
  }

  /** The data of the first j fragments, joined. */
  function Joined(ps: seq<seq<byte>>, j: nat): seq<byte>
    requires j <= |ps|
  {
    if j == 0 then [] else Joined(ps, j - 1) + Data(ps[j - 1])
  }

  /**
   * Shape of a fragmented NAL unit: at least two packets, each non-empty and within 1200 bytes, S only
   * on the first and E only on the last, the type and layer bits carried over, and never the two flags together.
   */
  lemma {:induction false} FragmentShape(nalu: seq<byte>, j: nat)
    requires |nalu| > 1200 && j < |Payloads(nalu)|
    ensures var p, k := Payloads(nalu)[j], |Payloads(nalu)|;
            && k >= 2 && k == (|nalu| - 2 + 1196) / 1197
            && 3 < |p| <= 1200 && 12 + |p| <= 1500
            && NalType(p) == 49 && p[0] / 0x80 == nalu[0] / 0x80 && p[0] % 2 == nalu[0] % 2 && p[1] == nalu[1]
            && (p[2] >= 0x80 <==> j == 0)
            && ((p[2] / 0x40) % 2 == 1 <==> j == k - 1)
            && p[2] % 0x40 == NalType(nalu)
  {
    FragmentAt(nalu, j);
  }

  lemma {:induction false} FragmentAt(nalu: seq<byte>, j: nat)
    requires |nalu| > MAX_PAYLOAD && j < FragmentCount(|nalu|)
    ensures |Payloads(nalu)| == FragmentCount(|nalu|) && Payloads(nalu)[j] == Fragment(nalu, j)
    ensures 2 + FU_DATA * j < Cut(|nalu|, j + 1) <= |nalu|
    ensures Cut(|nalu|, j + 1) - (2 + FU_DATA * j) <= FU_DATA
    ensures Cut(|nalu|, j + 1) == |nalu| <==> j == FragmentCount(|nalu|) - 1
    ensures j < FragmentCount(|nalu|) - 1 ==> Cut(|nalu|, j + 1) == 2 + FU_DATA * (j + 1)
  {
  }

  lemma {:induction false} FragmentData(nalu: seq<byte>, j: nat)
    requires |nalu| > MAX_PAYLOAD && j < FragmentCount(|nalu|)
    ensures Data(Payloads(nalu)[j]) == nalu[2 + FU_DATA * j..Cut(|nalu|, j + 1)]
  {
    FragmentAt(nalu, j);
  }

  lemma {:induction false} JoinedPrefix(nalu: seq<byte>, j: nat)
    requires |nalu| > MAX_PAYLOAD && j <= |Payloads(nalu)|
    ensures Joined(Payloads(nalu), j) == nalu[2..Cut(|nalu|, j)]
  {
    hide Payloads, Data, Fragment;
    FragmentAt(nalu, 0);
    if j > 0 {
      FragmentAt(nalu, j - 1);
      JoinedPrefix(nalu, j - 1);
      FragmentData(nalu, j - 1);
      var a, b := Cut(|nalu|, j - 1), Cut(|nalu|, j);
      assert nalu[2..a] + nalu[a..b] == nalu[2..b];
    }
  }

  /** The fragments partition the NAL unit after its two header bytes. */
  lemma {:induction false} FragmentsPartition(nalu: seq<byte>)
    requires |nalu| > MAX_PAYLOAD
    ensures Joined(Payloads(nalu), |Payloads(nalu)|) == nalu[2..]
  {
    hide Payloads, Data, Fragment, Joined;
    FragmentAt(nalu, 0);
    JoinedPrefix(nalu, |Payloads(nalu)|);
  }

  // ----- the sending side: a socket whose sendto may fail at any call -----

  datatype Address = Address(ip: u32, port: u16)

  datatype Datagram = Datagram(dest: Address, bytes: seq<byte>)

  /** What has gone through the socket: `sendto` calls made, datagrams that left, the next sequence number. */
  datatype Link = Link(attempts: nat, wire: seq<Datagram>, number: u16)

  datatype Stamp = Stamp(dest: Address, timestamp: u32, ssrc: u32)

  function PacketOf(l: Link, st: Stamp, payload: seq<byte>, marker: bool): Datagram {
    Datagram(st.dest, HeaderBytes(Header(l.number, st.timestamp, st.ssrc, marker)) + payload)
  }

  /** `send_rtp_packet`: `send(k)` is the outcome of the k-th `sendto`. */
  function SendPacket(send: nat -> bool, l: Link, st: Stamp, payload: seq<byte>, marker: bool): (Link, bool) {
    if HEADER_SIZE + |payload| > PACKET_MAX_SIZE then (l, false)
    else if !send(l.attempts) then (l.(attempts := l.attempts + 1), false)
    else (Link(l.attempts + 1, l.wire + [PacketOf(l, st, payload, marker)], (l.number + 1) % 0x1_0000), true)
  }

  /** Payloads from the j-th on, the marker on the last, up to the first failure. */
  function SendFrom(send: nat -> bool, l: Link, st: Stamp, ps: seq<seq<byte>>, j: nat, marker: bool): (Link, bool)
    requires j <= |ps|
    decreases |ps| - j
  {
    if j == |ps| then (l, true)
    else
      var (l', ok) := SendPacket(send, l, st, ps[j], marker && j == |ps| - 1);
      if ok then SendFrom(send, l', st, ps, j + 1, marker) else (l', false)
  }

  lemma {:induction false} SendOne(send: nat -> bool, l: Link, st: Stamp, p: seq<byte>, marker: bool)
    ensures SendFrom(send, l, st, [p], 0, marker) == SendPacket(send, l, st, p, marker)
  {
    hide SendPacket;
    var (l', ok) := SendPacket(send, l, st, p, marker);
    assert SendFrom(send, l', st, [p], 1, marker) == (l', true);
  }

  /** `send_h265_nalu_rtp`. */
  function SendNalu(send: nat -> bool, l: Link, st: Stamp, nalu: seq<byte>, marker: bool): (Link, bool) {
    if |nalu| < 2 then (l, false) else SendFrom(send, l, st, Payloads(nalu), 0, marker)
  }

  /** A NAL unit is fragmented if and only if it exceeds 1200 bytes, and the packet-too-large branch cannot be reached. */
  lemma {:induction false} PayloadFits(nalu: seq<byte>, j: nat)
    requires j < |Payloads(nalu)|
    ensures |Payloads(nalu)[j]| <= 1200 && HEADER_SIZE + |Payloads(nalu)[j]| <= PACKET_MAX_SIZE
    ensures |Payloads(nalu)| == 1 <==> |nalu| <= 1200
  {
    if |nalu| > MAX_PAYLOAD {
      FragmentShape(nalu, j);
    }
  }
}
