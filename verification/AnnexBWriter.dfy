/**
 * The writing side of Annex B: any mix of 3- and 4-byte start codes, leading zero bytes and trailing
 * zero padding, and the proof that the splitter undoes it.
 */
module AnnexBWriter {
  import opened Bytes
  import opened AnnexB

  /** A NAL unit with the zero bytes put before its `00 00 01` (one makes a 4-byte code) and after it. */
  datatype Part = Part(zeros: nat, nalu: seq<byte>, padding: nat)

  function Lead(p: Part): seq<byte> {
    Zeros(p.zeros) + [0, 0, 1] + p.nalu + Zeros(p.padding)
  }

  function Write(parts: seq<Part>): seq<byte> {
    if parts == [] then [] else Lead(parts[0]) + Write(parts[1..])
  }

  function PartNalus(parts: seq<Part>): seq<seq<byte>> {
    seq(|parts|, i requires 0 <= i < |parts| => parts[i].nalu)
  }

  /** Writing as `h265_append_annexb_nalu` does: a 4-byte start code, no padding. */
  function Annexb(nalus: seq<seq<byte>>): seq<byte> {
    if nalus == [] then [] else [0, 0, 0, 1] + nalus[0] + Annexb(nalus[1..])
  }

  ghost predicate AllValid(nalus: seq<seq<byte>>) {
    forall i :: 0 <= i < |nalus| ==> ValidNalu(nalus[i])
  }

  // ----- splitting a suffix does not depend on what stands before it -----

  ghost predicate Suffix(w: seq<byte>, d: nat, x: seq<byte>) {
    |w| == d + |x| && forall i :: 0 <= i < |x| ==> x[i] == w[d + i]
  }

  lemma {:induction false} CodeShift(w: seq<byte>, d: nat, x: seq<byte>, i: nat)
    requires Suffix(w, d, x)
    ensures CodeAt(w, d + i) == CodeAt(x, i)
  {
    if i + 3 <= |x| {
      assert w[d + i] == x[i] && w[d + i + 1] == x[i + 1] && w[d + i + 2] == x[i + 2];
    }
  }

  lemma {:induction false} NextCodeShift(w: seq<byte>, d: nat, x: seq<byte>, k: nat)
    requires Suffix(w, d, x) && k <= |x|
    ensures NextCode(w, d + k) == d + NextCode(x, k)
    decreases |x| - k
  {
    if k < |x| {
      CodeShift(w, d, x, k);
      NextCodeShift(w, d, x, k + 1);
    }
  }

  lemma {:induction false} TrimShift(w: seq<byte>, d: nat, x: seq<byte>, lo: nat, hi: nat)
    requires Suffix(w, d, x) && lo <= hi <= |x|
    ensures TrimEnd(w, d + lo, d + hi) == d + TrimEnd(x, lo, hi)
    decreases hi
  {
    if hi > lo {
      assert w[d + hi - 1] == x[hi - 1];
      TrimShift(w, d, x, lo, hi - 1);
    }
  }

  /** One round of the splitter, on the bytes it extracts. */
  lemma {:induction false} NalusRound(buf: seq<byte>, from: nat)
    requires from <= |buf| && NextCode(buf, from) < |buf|
    ensures var s := NextCode(buf, from) + 3;
            var q := NextCode(buf, s);
            var e := TrimEnd(buf, s, q);
            Nalus(Split(buf, from)) ==
            (if e > s then [buf[s..e]] else []) + (if q == |buf| then [] else Nalus(Split(buf, q)))
  {
    hide NextCode, TrimEnd, CodeAt, Split;
    SplitRound(buf, from);
  }

  lemma {:induction false} SplitShift(w: seq<byte>, d: nat, x: seq<byte>, k: nat)
    requires Suffix(w, d, x) && k <= |x|
    ensures Nalus(Split(w, d + k)) == Nalus(Split(x, k))
    decreases |x| - k
  {
    hide Split, Nalus, NextCode, TrimEnd, CodeAt;
    NextCodeShift(w, d, x, k);
    var p := NextCode(x, k);
    if p == |x| {
      SplitNone(x, k);
      SplitNone(w, d + k);
    } else {
      NalusRound(x, k);
      NalusRound(w, d + k);
      NextCodeShift(w, d, x, p + 3);
      var q := NextCode(x, p + 3);
      TrimShift(w, d, x, p + 3, q);
      var e := TrimEnd(x, p + 3, q);
      assert e > p + 3 ==> w[d + p + 3..d + e] == x[p + 3..e];
      if q < |x| {
        SplitShift(w, d, x, q);
      }
    }
  }

  // ----- the round trip -----

  /** Searching runs over bytes that cannot begin a start code. */
  lemma {:induction false} NextCodeIs(buf: seq<byte>, from: nat, p: nat)
    requires from <= p <= |buf| && (p < |buf| ==> CodeAt(buf, p))
    requires forall i :: from <= i < p ==> !CodeAt(buf, i)
    ensures NextCode(buf, from) == p
    decreases p - from
  {
    if from < p {
      NextCodeIs(buf, from + 1, p);
    }
  }

  lemma {:induction false} TrimEndIs(buf: seq<byte>, lo: nat, hi: nat, e: nat)
    requires lo < e <= hi <= |buf| && buf[e - 1] != 0
    requires forall i :: e <= i < hi ==> buf[i] == 0
    ensures TrimEnd(buf, lo, hi) == e
    decreases hi
  {
    if e < hi {
      TrimEndIs(buf, lo, hi - 1, e);
    }
  }

  /** Where the first start code of the written stream stands: after the zeros of the first part. */
  lemma {:induction false} FirstCode(parts: seq<Part>)
    requires parts != []
    ensures var w := Write(parts); parts[0].zeros < |w| && CodeAt(w, parts[0].zeros)
    ensures var w := Write(parts); forall i :: 0 <= i < parts[0].zeros ==> w[i] == 0
    ensures NextCode(Write(parts), 0) == parts[0].zeros
  {
    var w, z := Write(parts), parts[0].zeros;
    assert w[z] == 0 && w[z + 1] == 0 && w[z + 2] == 1;
    assert forall i :: 0 <= i < z + 2 ==> w[i] == 0;
    forall i | 0 <= i < z
      ensures !CodeAt(w, i)
    {
      assert w[i + 2] == 0;
    }
    hide CodeAt, NextCode;
    NextCodeIs(w, 0, z);
  }

  /** No start code from the first byte of the NAL unit up to the code of the next part. */
  lemma {:induction false} NoCodeBefore(p: Part, tail: seq<byte>, zeros: nat, i: nat)
    requires ValidNalu(p.nalu)
    requires zeros <= |tail| && forall j :: 0 <= j < zeros ==> tail[j] == 0
    requires zeros < |tail| ==> CodeAt(tail, zeros)
    requires p.zeros + 3 <= i < p.zeros + 3 + |p.nalu| + p.padding + zeros
    ensures !CodeAt(Lead(p) + tail, i)
  {
    var w := Lead(p) + tail;
    var s := p.zeros + 3;
    var e := s + |p.nalu|;
    assert w[e - 1] == p.nalu[|p.nalu| - 1];
    if i + 3 <= e {
      assert !CodeAt(p.nalu, i - s);
      assert w[i] == p.nalu[i - s] && w[i + 1] == p.nalu[i + 1 - s] && w[i + 2] == p.nalu[i + 2 - s];
    } else if i + 2 < |Lead(p)| {
      assert w[i + 2] == 0;
    } else if i + 2 < |w| {
      var j := i + 2 - |Lead(p)|;
      assert w[i + 2] == tail[j];
      assert j == zeros || j == zeros + 1 || tail[j] == 0;
    }
  }

  /** The first unit of a written stream, when `tail` begins with `zeros` zero bytes and a start code or is empty. */
  lemma {:induction false} FirstUnit(p: Part, tail: seq<byte>, zeros: nat)
    requires ValidNalu(p.nalu)
    requires zeros <= |tail| && forall j :: 0 <= j < zeros ==> tail[j] == 0
    requires zeros < |tail| ==> CodeAt(tail, zeros)
    ensures var w, s, q := Lead(p) + tail, p.zeros + 3, |Lead(p)| + zeros;
            && NextCode(w, s) == q && TrimEnd(w, s, q) == s + |p.nalu|
            && w[s..s + |p.nalu|] == p.nalu
  {
    hide NextCode, TrimEnd, CodeAt;
    var w := Lead(p) + tail;
    var s := p.zeros + 3;
    var q := |Lead(p)| + zeros;
    var e := s + |p.nalu|;
    forall i | s <= i < q
      ensures !CodeAt(w, i)
    {
      NoCodeBefore(p, tail, zeros, i);
    }
    assert Suffix(w, |Lead(p)|, tail);
    CodeShift(w, |Lead(p)|, tail, zeros);
    NextCodeIs(w, s, q);
    assert w[e - 1] == p.nalu[|p.nalu| - 1];
    TrimEndIs(w, s, q, e);
    assert w[s..e] == p.nalu;
  }

  /** Peeling the first unit of `w` when what follows it is `x`. */
  lemma {:induction false} SplitPeel(w: seq<byte>, d: nat, x: seq<byte>, s: nat, nalu: seq<byte>)
    requires Suffix(w, d, x) && nalu != [] && s + |nalu| <= |w| && nalu == w[s..s + |nalu|]
    requires NextCode(w, 0) + 3 == s && NextCode(w, s) == d + NextCode(x, 0)
    requires TrimEnd(w, s, NextCode(w, s)) == s + |nalu|
    ensures Nalus(Split(w, 0)) == [nalu] + Nalus(Split(x, 0))
  {
    hide Split, NextCode, TrimEnd, CodeAt;
    NalusRound(w, 0);
    NextCodeSame(x, 0, NextCode(x, 0));
    SplitSame(x, NextCode(x, 0), 0);
    if NextCode(x, 0) == |x| {
      SplitNone(x, 0);
    } else {
      SplitShift(w, d, x, NextCode(x, 0));
    }
  }

  /** Writing any list of valid NAL units, with any zeros around them, and splitting gives the list back. */
  lemma {:induction false} RoundTrip(parts: seq<Part>)
    requires AllValid(PartNalus(parts))
    ensures Nalus(Split(Write(parts), 0)) == PartNalus(parts)
  {
    if parts != [] {
      hide Split, Nalus, NextCode, TrimEnd, CodeAt, ValidNalu, Lead;
      var p, rest := parts[0], parts[1..];
      assert ValidNalu(PartNalus(parts)[0]);
      assert PartNalus(rest) == PartNalus(parts)[1..];
      RoundTrip(rest);
      FirstCode(parts);
      if rest != [] {
        FirstCode(rest);
      }
      RoundTripStep(p, Write(rest), if rest == [] then 0 else rest[0].zeros);
    }
  }

  lemma {:induction false} RoundTripStep(p: Part, tail: seq<byte>, zeros: nat)
    requires ValidNalu(p.nalu)
    requires zeros <= |tail| && forall j :: 0 <= j < zeros ==> tail[j] == 0
    requires zeros < |tail| ==> CodeAt(tail, zeros)
    requires NextCode(tail, 0) == zeros && NextCode(Lead(p) + tail, 0) == p.zeros
    ensures Nalus(Split(Lead(p) + tail, 0)) == [p.nalu] + Nalus(Split(tail, 0))
  {
    hide Split, Nalus, NextCode, TrimEnd, CodeAt;
    FirstUnit(p, tail, zeros);
    assert Suffix(Lead(p) + tail, |Lead(p)|, tail);
    SplitPeel(Lead(p) + tail, |Lead(p)|, tail, p.zeros + 3, p.nalu);
  }

  // ----- consequences -----

  function Plain(nalus: seq<seq<byte>>): (parts: seq<Part>) {
    if nalus == [] then [] else [Part(1, nalus[0], 0)] + Plain(nalus[1..])
  }

  lemma {:induction false} PlainWrites(nalus: seq<seq<byte>>)
    ensures PartNalus(Plain(nalus)) == nalus && Write(Plain(nalus)) == Annexb(nalus)
  {
    if nalus != [] {
      PlainWrites(nalus[1..]);
      assert Plain(nalus)[1..] == Plain(nalus[1..]);
      assert Lead(Part(1, nalus[0], 0)) == [0, 0, 0, 1] + nalus[0];
    }
  }

  lemma {:induction false} AnnexbRoundTrip(nalus: seq<seq<byte>>)
    requires AllValid(nalus)
    ensures Nalus(Split(Annexb(nalus), 0)) == nalus
  {
    PlainWrites(nalus);
    RoundTrip(Plain(nalus));
  }

  /** Whatever the bytes, what the splitter returns can be written again. */
  lemma {:induction false} SplitValid(buf: seq<byte>)
    ensures AllValid(Nalus(Split(buf, 0)))
  {
    forall i | 0 <= i < |Split(buf, 0)|
      ensures ValidNalu(Split(buf, 0)[i].nalu)
    {
      SplitSpans(buf, i, i);
    }
  }

  /** Unconditional normal form: split, write again, split again is split once, for every byte buffer. */
  lemma {:induction false} NormalForm(buf: seq<byte>)
    ensures Nalus(Split(Annexb(Nalus(Split(buf, 0))), 0)) == Nalus(Split(buf, 0))
  {
    SplitValid(buf);
    AnnexbRoundTrip(Nalus(Split(buf, 0)));
  }

  /** Writing and splitting is the identity exactly on lists of proper NAL units. */
  lemma {:induction false} RoundTripExactly(nalus: seq<seq<byte>>)
    ensures Nalus(Split(Annexb(nalus), 0)) == nalus <==> AllValid(nalus)
  {
    hide Annexb, Split, Nalus, AllValid;
    SplitValid(Annexb(nalus));
    if AllValid(nalus) {
      AnnexbRoundTrip(nalus);
    }
  }

  lemma {:induction false} AnnexbConcat(a: seq<seq<byte>>, b: seq<seq<byte>>)
    ensures Annexb(a + b) == Annexb(a) + Annexb(b)
  {
    if a == [] {
      assert a + b == b;
    } else {
      assert (a + b)[1..] == a[1..] + b;
      AnnexbConcat(a[1..], b);
    }
  }
}
