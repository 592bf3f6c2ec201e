/**
 * Whole packs and whole link histories: `send_h265_buffer_rtp`, what the client recovers from it, and how
 * the datagrams it adds are numbered, stamped and marked.
 */
module Transport {
  import opened Bytes
  import opened AnnexB
  import opened Rtp
  import opened Depacketiser

  /** The units from the i-th on, up to the first failed send; the second result counts the units sent so far. */
  function SendUnits(send: nat -> bool, l: Link, st: Stamp, us: seq<Unit>, i: nat, marker: bool): (r: (Link, nat))
    requires i <= |us|
    ensures i <= r.1 <= |us|
    decreases |us| - i
  {
    if i == |us| then (l, i)
    else
      var (l', ok) := SendNalu(send, l, st, us[i].nalu, marker && us[i].final);
      if ok then SendUnits(send, l', st, us, i + 1, marker) else (l', i)
  }

  /** `send_h265_buffer_rtp`: a raw NAL unit, or the split pack with the marker on an unterminated last unit. */
  function SendBuffer(send: nat -> bool, l: Link, st: Stamp, buf: seq<byte>, marker: bool): (Link, bool) {
    if |buf| < 2 then (l, false)
    else if !StartsWithCode(buf) then SendNalu(send, l, st, buf, marker)
    else
      var us := Split(buf, 0);
      var (l', n) := SendUnits(send, l, st, us, 0, marker);
      (l', n == |us| && n > 0)
  }

  ghost predicate AllTransportable(us: seq<Unit>) {
    forall i :: 0 <= i < |us| ==> Transportable(us[i].nalu)
  }

  lemma {:induction false} UnitsHeard(send: nat -> bool, l: Link, st: Stamp, us: seq<Unit>, i: nat, marker: bool)
    requires i <= |us| && AllTransportable(us)
    ensures var (l', n) := SendUnits(send, l, st, us, i, marker);
            Ear(l', st.dest).out == Ear(l, st.dest).out + Nalus(us)[i..n]
    decreases |us| - i
  {
    hide Ear, SendNalu, Transportable;
    if i < |us| {
      assert Transportable(us[i].nalu);
      SendNaluHeard(send, l, st, us[i].nalu, marker && us[i].final, st.dest);
      var (l', ok) := SendNalu(send, l, st, us[i].nalu, marker && us[i].final);
      if ok {
        UnitsHeard(send, l', st, us, i + 1, marker);
        var n := SendUnits(send, l', st, us, i + 1, marker).1;
        assert Nalus(us)[i..n] == [us[i].nalu] + Nalus(us)[i + 1..n];
      }
    }
  }

  /**
   * End-to-end transport of a pack under any schedule of `sendto` failures: the client recovers, in order,
   * a prefix of the units the splitter finds, and all of them exactly when the call returned 0.
   */
  lemma {:induction false} PackHeard(send: nat -> bool, l: Link, st: Stamp, buf: seq<byte>, marker: bool)
    requires StartsWithCode(buf) && AllTransportable(Split(buf, 0))
    ensures var (l', ok) := SendBuffer(send, l, st, buf, marker);
            var us := Nalus(Split(buf, 0));
            exists n: nat :: n <= |us| && Ear(l', st.dest).out == Ear(l, st.dest).out + us[..n]
                             && (ok <==> n == |us| && us != [])
  {
    hide Ear, Split, Transportable, SendUnits;
    var us := Split(buf, 0);
    UnitsHeard(send, l, st, us, 0, marker);
    var n := SendUnits(send, l, st, us, 0, marker).1;
    assert Nalus(us)[..n] == Nalus(us)[0..n];
  }

  // ----- numbering, stamping and marking of datagrams -----

  function HeaderOf(d: Datagram): Option<Header> {
    ParseHeader(d.bytes)
  }

  predicate Marked(d: Datagram) {
    HeaderOf(d).Some? && HeaderOf(d).value.marker
  }

  predicate StampedAs(d: Datagram, st: Stamp) {
    && d.dest == st.dest
    && HeaderOf(d).Some? && HeaderOf(d).value.timestamp == st.timestamp && HeaderOf(d).value.ssrc == st.ssrc
  }

  /** The i-th datagram that leaves the socket carries i modulo 2^16. */
  ghost predicate Numbered(l: Link) {
    && l.number == |l.wire| % 0x1_0000
    && forall i :: 0 <= i < |l.wire| ==> HeaderOf(l.wire[i]).Some? && HeaderOf(l.wire[i]).value.number == i % 0x1_0000
  }

  /** How many of the first n calls of `sendto` succeed. */
  function Successes(send: nat -> bool, n: nat): nat {
    if n == 0 then 0 else Successes(send, n - 1) + (if send(n - 1) then 1 else 0)
  }

  /** Besides, every call of `sendto` that succeeded left one datagram, and no other did. */
  ghost predicate Ordered(send: nat -> bool, l: Link) {
    Numbered(l) && |l.wire| == Successes(send, l.attempts)
  }

  /** `l'` extends `l` by datagrams of one stamp; none but the very last may be marked, and it only if `marker`. */
  ghost predicate Extends(l: Link, l': Link, st: Stamp, marker: bool) {
    && |l.wire| <= |l'.wire| && l'.wire[..|l.wire|] == l.wire
    && (forall i :: |l.wire| <= i < |l'.wire| ==> StampedAs(l'.wire[i], st))
    && (forall i :: |l.wire| <= i < |l'.wire| && Marked(l'.wire[i]) ==> marker && i == |l'.wire| - 1)
  }

  lemma {:induction false} ExtendsThen(l: Link, m: Link, n: Link, st: Stamp, marker: bool)
    requires Extends(l, m, st, false) && Extends(m, n, st, marker)
    ensures Extends(l, n, st, marker)
  {
    assert n.wire[..|l.wire|] == n.wire[..|m.wire|][..|l.wire|];
    forall i | |l.wire| <= i < |m.wire|
      ensures n.wire[i] == m.wire[i]
    {
      assert n.wire[..|m.wire|][i] == m.wire[i];
    }
  }

  lemma {:induction false} PacketShape(send: nat -> bool, l: Link, st: Stamp, p: seq<byte>, marker: bool)
    ensures var (l', ok) := SendPacket(send, l, st, p, marker);
            && Extends(l, l', st, marker) && (Ordered(send, l) ==> Ordered(send, l'))
            && (ok ==> |l'.wire| == |l.wire| + 1 && Marked(l'.wire[|l.wire|]) == marker)
            && (!ok ==> l'.wire == l.wire)
  {
    hide HeaderBytes, ParseHeader;
    HeaderRoundTrip(Header(l.number, st.timestamp, st.ssrc, marker), p);
  }

  lemma {:induction false} PayloadsShape(send: nat -> bool, l: Link, st: Stamp, ps: seq<seq<byte>>, j: nat, marker: bool)
    requires j <= |ps|
    ensures var (l', ok) := SendFrom(send, l, st, ps, j, marker);
            && Extends(l, l', st, marker) && (Ordered(send, l) ==> Ordered(send, l'))
            && (ok ==> |l'.wire| == |l.wire| + |ps| - j)
            && (ok && j < |ps| ==> Marked(l'.wire[|l'.wire| - 1]) == marker)
    decreases |ps| - j
  {
    hide SendPacket, Ordered, Marked, Extends;
    Unextended(l, st, marker);
    if j < |ps| {
      var last := j == |ps| - 1;
      PacketShape(send, l, st, ps[j], marker && last);
      var (l', ok) := SendPacket(send, l, st, ps[j], marker && last);
      if !last {
        Unmarked(l, l', st, marker);
      }
      if ok {
        PayloadsShape(send, l', st, ps, j + 1, marker);
        if !last {
          ExtendsThen(l, l', SendFrom(send, l', st, ps, j + 1, marker).0, st, marker);
        }
      }
    }
  }

  lemma {:induction false} Unextended(l: Link, st: Stamp, marker: bool)
    ensures Extends(l, l, st, marker)
  {
  }

  lemma {:induction false} Unmarked(l: Link, l': Link, st: Stamp, marker: bool)
    requires Extends(l, l', st, false)
    ensures Extends(l, l', st, marker)
  {
  }

  /** A NAL unit sent in full adds exactly its packets, the last of them carrying the marker that was asked for. */
  lemma {:induction false} NaluShape(send: nat -> bool, l: Link, st: Stamp, nalu: seq<byte>, marker: bool)
    ensures var (l', ok) := SendNalu(send, l, st, nalu, marker);
            && Extends(l, l', st, marker) && (Ordered(send, l) ==> Ordered(send, l'))
            && (ok ==> |l'.wire| == |l.wire| + |Payloads(nalu)| && Marked(l'.wire[|l'.wire| - 1]) == marker)
  {
    hide Payloads;
    if |nalu| >= 2 {
      if |nalu| > MAX_PAYLOAD {
        FragmentAt(nalu, 0);
      } else {
        SinglePayload(nalu);
      }
      PayloadsShape(send, l, st, Payloads(nalu), 0, marker);
    }
  }

  /** All answers from the i-th to the k-th are good. */
  ghost predicate AllSucceed(send: nat -> bool, i: nat, k: nat) {
    forall a :: i <= a < k ==> send(a)
  }

  /** n packets, as many calls of `sendto`, or those up to the first that fails, which leaves no datagram. */
  ghost predicate Answered(send: nat -> bool, l: Link, n: nat, l': Link, ok: bool) {
    if ok then l'.attempts == l.attempts + n && AllSucceed(send, l.attempts, l'.attempts)
    else && l.attempts < l'.attempts <= l.attempts + n && AllSucceed(send, l.attempts, l'.attempts - 1)
         && !send(l'.attempts - 1) && |l'.wire| == |l.wire| + (l'.attempts - 1 - l.attempts)
  }

  lemma {:induction false} PayloadsAnswered(send: nat -> bool, l: Link, st: Stamp, nalu: seq<byte>, j: nat, marker: bool)
    requires j <= |Payloads(nalu)|
    ensures var (l', ok) := SendFrom(send, l, st, Payloads(nalu), j, marker);
            Answered(send, l, |Payloads(nalu)| - j, l', ok)
    decreases |Payloads(nalu)| - j
  {
    hide Payloads, PacketOf;
    if j < |Payloads(nalu)| {
      PayloadFits(nalu, j);
      var (l', ok) := SendPacket(send, l, st, Payloads(nalu)[j], marker && j == |Payloads(nalu)| - 1);
      if ok {
        PayloadsAnswered(send, l', st, nalu, j + 1, marker);
      }
    }
  }

  /**
   * The send of a NAL unit returns 0 if and only if each of its packets has a call of `sendto` that succeeds; it makes
   * one call for each packet up to the first that fails, and the next send goes on with the answer after that.
   */
  lemma {:induction false} SendAnswered(send: nat -> bool, l: Link, st: Stamp, nalu: seq<byte>, marker: bool)
    requires |nalu| >= 2
    ensures var (l', ok) := SendNalu(send, l, st, nalu, marker);
            Answered(send, l, if |nalu| <= 1200 then 1 else (|nalu| - 2 + 1196) / 1197, l', ok)
  {
    hide SendFrom, Answered, Payloads;
    PayloadsAnswered(send, l, st, nalu, 0, marker);
    if |nalu| <= MAX_PAYLOAD {
      SinglePayload(nalu);
    } else {
      FragmentAt(nalu, 0);
      FragmentShape(nalu, 0);
    }
  }

  lemma {:induction false} SinglePayload(nalu: seq<byte>)
    requires |nalu| <= MAX_PAYLOAD
    ensures |Payloads(nalu)| == 1
  {
  }

  lemma {:induction false} UnitsMarked(send: nat -> bool, l: Link, st: Stamp, us: seq<Unit>, i: nat, marker: bool)
    requires i < |us| && SendUnits(send, l, st, us, i, marker).1 == |us|
    ensures var wire := SendUnits(send, l, st, us, i, marker).0.wire;
            wire != [] && Marked(wire[|wire| - 1]) == (marker && us[|us| - 1].final)
    decreases |us| - i
  {
    hide SendNalu, Marked, Extends, Ordered, Payloads;
    NaluShape(send, l, st, us[i].nalu, marker && us[i].final);
    SomePayloads(us[i].nalu);
    var (l', ok) := SendNalu(send, l, st, us[i].nalu, marker && us[i].final);
    if i + 1 < |us| {
      UnitsMarked(send, l', st, us, i + 1, marker);
    } else {
      assert SendUnits(send, l', st, us, i + 1, marker) == (l', i + 1);
    }
  }

  lemma {:induction false} SomePayloads(nalu: seq<byte>)
    ensures |Payloads(nalu)| > 0
  {
    if |nalu| > MAX_PAYLOAD {
      FragmentAt(nalu, 0);
    }
  }

  /**
   * A pack sent in full ends in a marked datagram exactly when the marker was asked for and the pack does not
   * end in a start code with nothing behind it.
   */
  lemma {:induction false} PackMarked(send: nat -> bool, l: Link, st: Stamp, buf: seq<byte>, marker: bool)
    requires SendBuffer(send, l, st, buf, marker).1
    ensures var wire, us := SendBuffer(send, l, st, buf, marker).0.wire, Split(buf, 0);
            && wire != []
            && Marked(wire[|wire| - 1]) == (marker && (StartsWithCode(buf) ==> us != [] && us[|us| - 1].final))
  {
    hide SendNalu, Marked, Extends, Ordered, Payloads, Split, StartsWithCode, SendUnits;
    if StartsWithCode(buf) {
      UnitsMarked(send, l, st, Split(buf, 0), 0, marker);
    } else {
      NaluShape(send, l, st, buf, marker);
      SomePayloads(buf);
    }
  }

  // ----- timestamps -----

  const TS_STEP: nat := 6000

  function Timestamp(first: u32, sent: nat): u32 {
    (first + TS_STEP * sent) % 0x1_0000_0000
  }

  lemma {:induction false} SameResidue(a: nat, b: nat, m: nat)
    requires m == 0x1_0000_0000
    ensures a % m == (a + b) % m <==> b % m == 0
  {
  }

  /** 375 is odd, so it has an inverse modulo 2^28: 375 * 128133191 == 1 + 179 * 2^28. */
  lemma {:induction false} CancelForth(d: nat)
    requires (TS_STEP * d) % 0x1_0000_0000 == 0
    ensures d % 0x1000_0000 == 0
  {
    var k := (TS_STEP * d) / 0x1_0000_0000;
    assert 375 * d == 0x1000_0000 * k;
    var e := 128133191 * k - 179 * d;
    assert d == 0x1000_0000 * e;
  }

  lemma {:induction false} CancelBack(d: nat)
    requires d % 0x1000_0000 == 0
    ensures (TS_STEP * d) % 0x1_0000_0000 == 0
  {
    var e := d / 0x1000_0000;
    assert d == 0x1000_0000 * e;
    assert TS_STEP * d == 0x1_0000_0000 * (375 * e);
  }

  /** Messages fewer than 2^28 apart never share a timestamp, and 2^28 apart they always do. */
  lemma {:induction false} TimestampsDiffer(first: u32, i: nat, d: nat)
    ensures Timestamp(first, i) == Timestamp(first, i + d) <==> d % 0x1000_0000 == 0
  {
    assert first + TS_STEP * (i + d) == first + TS_STEP * i + TS_STEP * d;
    SameResidue(first + TS_STEP * i, TS_STEP * d, 0x1_0000_0000);
    if (TS_STEP * d) % 0x1_0000_0000 == 0 {
      CancelForth(d);
    }
    if d % 0x1000_0000 == 0 {
      CancelBack(d);
    }
  }
}
