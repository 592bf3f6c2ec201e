/**
 * The Annex-B byte stream format (B.2 of ITU-T H.265) as rtp.c splits it.
 * The reference form below knows only the three-byte start code; the scanners in StartCodes.dfy,
 * which also recognise four-byte codes, are proved to cut the same NAL units.
 */
module AnnexB {
  import opened Bytes

  predicate CodeAt(buf: seq<byte>, i: int) {
    0 <= i && i + 3 <= |buf| && buf[i] == 0 && buf[i + 1] == 0 && buf[i + 2] == 1
  }

  predicate NoCode(buf: seq<byte>) {
    forall i :: 0 <= i < |buf| ==> !CodeAt(buf, i)
  }

  /** The first start code at or after `from`, |buf| when there is none. */
  function NextCode(buf: seq<byte>, from: nat): (p: nat)
    ensures p <= |buf| && (from <= |buf| ==> from <= p)
    ensures p < |buf| ==> p + 3 <= |buf| && CodeAt(buf, p)
    decreases |buf| - from
  {
    if from >= |buf| then |buf|
    else if CodeAt(buf, from) then from
    else NextCode(buf, from + 1)
  }

  lemma {:induction false} NextCodeFirst(buf: seq<byte>, from: nat, i: nat)
    requires from <= i < NextCode(buf, from)
    ensures !CodeAt(buf, i)
    decreases i - from
  {
    if from < i {
      NextCodeFirst(buf, from + 1, i);
    }
  }

  /** `hi` moved down to `lo` over trailing zero bytes. */
  function TrimEnd(buf: seq<byte>, lo: nat, hi: nat): (e: nat)
    requires lo <= hi <= |buf|
    ensures lo <= e <= hi
    ensures e > lo ==> buf[e - 1] != 0
    decreases hi
  {
    if hi > lo && buf[hi - 1] == 0 then TrimEnd(buf, lo, hi - 1) else hi
  }

  lemma {:induction false} TrimEndZeros(buf: seq<byte>, lo: nat, hi: nat, i: nat)
    requires lo <= hi <= |buf| && TrimEnd(buf, lo, hi) <= i < hi
    ensures buf[i] == 0
    decreases hi
  {
    if i < hi - 1 {
      TrimEndZeros(buf, lo, hi - 1, i);
    }
  }

  /** One extracted NAL unit: where it starts, its bytes, and whether no start code follows it. */
  datatype Unit = Unit(start: nat, nalu: seq<byte>, final: bool)

  function Split(buf: seq<byte>, from: nat): seq<Unit>
    decreases |buf| - from
  {
    var p := NextCode(buf, from);
    if from > |buf| || p == |buf| then []
    else
      var q := NextCode(buf, p + 3);
      var e := TrimEnd(buf, p + 3, q);
      var rest := if q == |buf| then [] else Split(buf, q);
      if e > p + 3 then [Unit(p + 3, buf[p + 3..e], q == |buf|)] + rest else rest
  }

  function Nalus(units: seq<Unit>): seq<seq<byte>> {
    seq(|units|, i requires 0 <= i < |units| => units[i].nalu)
  }

  /** What a splitter can hand out, and what an Annex-B writer may put in. */
  predicate ValidNalu(nalu: seq<byte>) {
    |nalu| > 0 && nalu[|nalu| - 1] != 0 && NoCode(nalu)
  }

  predicate StartsWithCode(buf: seq<byte>) {
    CodeAt(buf, 0) || (|buf| >= 4 && buf[0] == 0 && CodeAt(buf, 1))
  }

  // ----- unfolding the splitter one round at a time -----

  lemma {:induction false} SplitRound(buf: seq<byte>, from: nat)
    requires from <= |buf| && NextCode(buf, from) < |buf|
    ensures var s := NextCode(buf, from) + 3;
            var q := NextCode(buf, s);
            var e := TrimEnd(buf, s, q);
            Split(buf, from) ==
            (if e > s then [Unit(s, buf[s..e], q == |buf|)] else [])
            + (if q == |buf| then [] else Split(buf, q))
  {
    hide NextCode, TrimEnd, CodeAt;
  }

  lemma {:induction false} SplitNone(buf: seq<byte>, from: nat)
    requires NextCode(buf, from) == |buf|
    ensures Split(buf, from) == []
  {
    hide NextCode, TrimEnd, CodeAt;
  }

  lemma {:induction false} SplitSame(buf: seq<byte>, a: nat, b: nat)
    requires a <= |buf| && b <= |buf| && NextCode(buf, a) == NextCode(buf, b)
    ensures Split(buf, a) == Split(buf, b)
  {
    hide NextCode, TrimEnd, CodeAt;
  }

  // ----- what a split guarantees about the spans it returns -----

  predicate SpanOf(buf: seq<byte>, u: Unit) {
    && 3 <= u.start && u.start + |u.nalu| <= |buf|
    && u.nalu == buf[u.start..u.start + |u.nalu|]
    && ValidNalu(u.nalu)
    && CodeAt(buf, u.start - 3)
  }

  ghost predicate InUnit(units: seq<Unit>, k: int) {
    exists i :: 0 <= i < |units| && units[i].start <= k < units[i].start + |units[i].nalu|
  }

  ghost predicate InCode(buf: seq<byte>, k: int) {
    CodeAt(buf, k) || CodeAt(buf, k - 1) || CodeAt(buf, k - 2)
  }

  /** Spans in order, each preceded by a start code of its own, the `final` mark only on the last. */
  ghost predicate Laid(buf: seq<byte>, us: seq<Unit>, from: int) {
    us == [] ||
    (&& SpanOf(buf, us[0]) && us[0].start >= from + 3
     && (us[0].final ==> |us| == 1)
     && Laid(buf, us[1..], us[0].start + |us[0].nalu|))
  }

  lemma {:induction false} SpanValid(buf: seq<byte>, s: nat)
    requires 3 <= s <= |buf| && CodeAt(buf, s - 3)
    requires s < TrimEnd(buf, s, NextCode(buf, s))
    ensures SpanOf(buf, Unit(s, buf[s..TrimEnd(buf, s, NextCode(buf, s))], NextCode(buf, s) == |buf|))
  {
    var nalu := buf[s..TrimEnd(buf, s, NextCode(buf, s))];
    forall i | 0 <= i < |nalu|
      ensures !CodeAt(nalu, i)
    {
      NextCodeFirst(buf, s, s + i);
    }
  }

  lemma {:induction false} SplitLaid(buf: seq<byte>, from: nat)
    ensures Laid(buf, Split(buf, from), from)
    decreases |buf| - from
  {
    hide NextCode, CodeAt, TrimEnd, SpanOf;
    var p := NextCode(buf, from);
    if from > |buf| || p == |buf| { return; }
    var q := NextCode(buf, p + 3);
    var e := TrimEnd(buf, p + 3, q);
    if q < |buf| {
      SplitLaid(buf, q);
    }
    var rest := if q == |buf| then [] else Split(buf, q);
    if e > p + 3 {
      SpanValid(buf, p + 3);
      assert Split(buf, from)[1..] == rest;
    }
  }

  lemma {:induction false} LaidOrder(buf: seq<byte>, us: seq<Unit>, from: int, i: nat, j: nat)
    requires Laid(buf, us, from) && i <= j < |us|
    ensures SpanOf(buf, us[j]) && us[j].start >= from + 3
    ensures i < j ==> us[i].start + |us[i].nalu| + 3 <= us[j].start
    ensures us[i].final ==> i == |us| - 1
  {
    if j > 0 {
      var next := us[0].start + |us[0].nalu|;
      if i > 0 {
        LaidOrder(buf, us[1..], next, i - 1, j - 1);
      } else {
        LaidOrder(buf, us[1..], next, 0, j - 1);
      }
    }
  }

  /**
   * Spans are in bounds, ordered, disjoint, non-empty, end in a non-zero byte, hold no start code,
   * and only the last one may be unterminated.
   */
  lemma {:induction false} SplitSpans(buf: seq<byte>, i: nat, j: nat)
    requires i <= j < |Split(buf, 0)|
    ensures var us := Split(buf, 0);
            && SpanOf(buf, us[j])
            && (i < j ==> us[i].start + |us[i].nalu| + 3 <= us[j].start)
            && (us[i].final ==> i == |us| - 1)
  {
    SplitLaid(buf, 0);
    LaidOrder(buf, Split(buf, 0), 0, i, j);
  }

  /** Conservation: after the first start code every byte is in a unit, in a start code, or a trimmed zero. */
  lemma {:induction false} SplitCovers(buf: seq<byte>, from: nat, k: nat)
    requires from <= |buf| && NextCode(buf, from) <= k < |buf|
    ensures InUnit(Split(buf, from), k) || InCode(buf, k) || buf[k] == 0
    decreases |buf| - from
  {
    hide NextCode, TrimEnd;
    var s := NextCode(buf, from) + 3;
    var q := NextCode(buf, s);
    var e := TrimEnd(buf, s, q);
    var us := Split(buf, from);
    if k < s {
      assert InCode(buf, k);
    } else if k < e {
      assert us[0].start <= k < us[0].start + |us[0].nalu|;
    } else if k < q {
      TrimEndZeros(buf, s, q, k);
    } else {
      NextCodeSame(buf, s, q);
      SplitCovers(buf, q, k);
      var rest := Split(buf, q);
      if InUnit(rest, k) {
        var i :| 0 <= i < |rest| && rest[i].start <= k < rest[i].start + |rest[i].nalu|;
        assert us[i + |us| - |rest|] == rest[i];
      }
    }
  }

  lemma {:induction false} NextCodeSame(buf: seq<byte>, from: nat, later: nat)
    requires from <= later <= NextCode(buf, from)
    ensures NextCode(buf, later) == NextCode(buf, from)
    decreases later - from
  {
    if from < later {
      NextCodeSame(buf, from + 1, later);
    }
  }
}
