/**
 * What a run leaves on the wire, beside the framing of messages: one source for ever, markers exactly where a
 * message's last NAL unit went out, and a timestamp step for exactly the messages sent.
 */
module SenderWire {
  import opened Bytes
  import opened AnnexB
  import opened Rtp
  import opened Transport
  import opened DataFifo
  import opened PlaybackGate
  import opened GateLanguage
  import opened Snapshot
  import opened SenderLoop
  import opened SenderRuns
  import opened SenderInput
  import opened SenderSessions

  // ----- one source -----

  /** Every datagram is an RTP packet of the one source there is. */
  ghost predicate OneSource(wire: seq<Datagram>) {
    forall i :: 0 <= i < |wire| ==>
      ParseHeader(wire[i].bytes).Some? && ParseHeader(wire[i].bytes).value.ssrc == 0x2233_4455
  }

  lemma {:induction false} ExtendsOneSource(l: Link, l': Link, st: Stamp)
    requires OneSource(l.wire) && Extends(l, l', st, true) && st.ssrc == 0x2233_4455
    ensures OneSource(l'.wire)
  {
    hide ParseHeader, Marked;
    forall i | 0 <= i < |l'.wire|
      ensures ParseHeader(l'.wire[i].bytes).Some? && ParseHeader(l'.wire[i].bytes).value.ssrc == 0x2233_4455
    {
      if i < |l.wire| {
        assert l'.wire[i] == l'.wire[..|l.wire|][i];
      } else {
        assert StampedAs(l'.wire[i], st);
      }
    }
  }

  /** One turn: RTSP steps and sampling, then nothing on the wire, or one message's datagrams. */
  lemma {:induction false} TurnExtends(w: World, p: SenderLoop.Player)
    requires ValidSnap(p.snap)
    ensures var l, l' := p.gate.link, Turn(w, p).gate.link;
            l' == l || exists st: Stamp :: st.ssrc == 0x2233_4455 && Extends(l, l', st, true)
  {
    hide Extends, PlayMessage, ProcessPacks, TakeSnapshot, Controlled, ValidSnap;
    var found := w.item(p.polls);
    if found.Some? {
      var m: IpcMsg := found.value;
      var c := Controlled(p.gate, w.between(p.items));
      ControlledLink(p.gate, w.between(p.items));
      var p1 := p.(polls := p.polls + 1, io := p.io + [ReadItem(p.items)], gate := c, items := p.items + 1);
      if IsValid(m) && !Stale(p1, m) {
        PlayMessageGate(w, p1, m);
        BeforeLeaves(w, p1, m);
        PacksExtends(w, Before(w, p1, m), StampOf(p1), m, 0, c.session.play && c.session.addrSet);
      }
    }
  }

  /** Over every run each datagram carries its index modulo 2^16 and the same source. */
  lemma {:induction false} RunOneSource(w: World, n: nat, i: nat)
    requires i < |Run(w, n).gate.link.wire|
    ensures var h := ParseHeader(Run(w, n).gate.link.wire[i].bytes);
            h.Some? && h.value.ssrc == 0x2233_4455 && h.value.number == i % 0x1_0000
  {
    hide Run, ParseHeader, OneSource;
    RunNumbered(w, n);
    RunSource(w, n);
    var l := Run(w, n).gate.link;
    assert HeaderOf(l.wire[i]).value.number == i % 0x1_0000;
    OneSourceAt(l.wire, i);
  }

  lemma {:induction false} OneSourceAt(wire: seq<Datagram>, i: nat)
    requires OneSource(wire) && i < |wire|
    ensures ParseHeader(wire[i].bytes).Some? && ParseHeader(wire[i].bytes).value.ssrc == 0x2233_4455
  {
    hide ParseHeader;
  }

  lemma {:induction false} RunSource(w: World, n: nat)
    ensures OneSource(Run(w, n).gate.link.wire)
  {
    hide Turn;
    if n > 0 {
      hide OneSource, Extends;
      RunSource(w, n - 1);
      var l, l' := Run(w, n - 1).gate.link, Run(w, n).gate.link;
      TurnExtends(w, Run(w, n - 1));
      if l' != l {
        var st: Stamp :| st.ssrc == 0x2233_4455 && Extends(l, l', st, true);
        ExtendsOneSource(l, l', st);
      }
    }
  }

  // ----- markers -----

  /** One of the datagrams that `more` has beyond `wire` is marked. */
  ghost predicate SomeMarked(wire: seq<Datagram>, more: seq<Datagram>) {
    exists i :: |wire| <= i < |more| && Marked(more[i])
  }

  /** `more` goes beyond `wire`, and its last datagram is marked if `marker`, and otherwise not. */
  predicate EndsMarked(wire: seq<Datagram>, more: seq<Datagram>, marker: bool) {
    |wire| < |more| && Marked(more[|more| - 1]) == marker
  }

  /** The last thing that happened is a stream NAL unit sent with success. */
  predicate SentLast(log: seq<Event>) {
    StreamLast(log) && log[|log| - 1].ok
  }

  lemma {:induction false} SomeMarkedThen(a: seq<Datagram>, b: seq<Datagram>, c: seq<Datagram>)
    requires a <= b <= c
    ensures SomeMarked(a, c) <==> SomeMarked(a, b) || SomeMarked(b, c)
  {
    hide Marked;
    assert forall i :: 0 <= i < |b| ==> c[i] == b[i];
    if SomeMarked(a, b) {
      var i :| |a| <= i < |b| && Marked(b[i]);
      assert Marked(c[i]);
    }
  }

  lemma {:induction false} NoneMarked(l: Link, l': Link, st: Stamp)
    requires Extends(l, l', st, false)
    ensures !SomeMarked(l.wire, l'.wire)
  {
    hide Marked, StampedAs;
  }

  lemma {:induction false} ExtendsPrefix(l: Link, l': Link, st: Stamp, marker: bool)
    requires Extends(l, l', st, marker)
    ensures l.wire <= l'.wire
  {
  }

  /** A send that fails part of the way has not marked anything. */
  lemma {:induction false} FailedUnmarked(send: nat -> bool, l: Link, st: Stamp, ps: seq<seq<byte>>, j: nat, marker: bool)
    requires j <= |ps| && !SendFrom(send, l, st, ps, j, marker).1
    ensures Extends(l, SendFrom(send, l, st, ps, j, marker).0, st, false)
    decreases |ps| - j
  {
    hide SendPacket, Extends;
    var last := j == |ps| - 1;
    PacketShape(send, l, st, ps[j], marker && last);
    var (l', ok) := SendPacket(send, l, st, ps[j], marker && last);
    if ok {
      assert !last;
      FailedUnmarked(send, l', st, ps, j + 1, marker);
      ExtendsThen(l, l', SendFrom(send, l', st, ps, j + 1, marker).0, st, false);
    } else {
      SameWire(l, l', st);
    }
  }

  lemma {:induction false} SameWire(l: Link, l': Link, st: Stamp)
    requires l'.wire == l.wire
    ensures Extends(l, l', st, false)
  {
  }

  lemma {:induction false} SendMarks(send: nat -> bool, l: Link, st: Stamp, nalu: seq<byte>, marker: bool)
    ensures var (l', ok) := SendNalu(send, l, st, nalu, marker);
            && l.wire <= l'.wire && (SomeMarked(l.wire, l'.wire) <==> marker && ok)
            && (ok ==> EndsMarked(l.wire, l'.wire, marker))
  {
    hide Extends, Marked, Payloads, SendFrom, Ordered;
    NaluShape(send, l, st, nalu, marker);
    SomePayloads(nalu);
    var (l', ok) := SendNalu(send, l, st, nalu, marker);
    ExtendsPrefix(l, l', st, marker);
    if !ok {
      if |nalu| >= 2 {
        FailedUnmarked(send, l, st, Payloads(nalu), 0, marker);
      } else {
        SameWire(l, l', st);
      }
      NoneMarked(l, l', st);
    } else if marker {
      assert Marked(l'.wire[|l'.wire| - 1]);
    } else {
      NoneMarked(l, l', st);
    }
  }

  lemma {:induction false} PassMarks(env: Env, g: Gate, st: Stamp, nalu: seq<byte>, marker: bool)
    ensures var (g', ok) := Pass(env, g, st, nalu, marker);
            var shut := g.waitIdr && !(|nalu| >= 2 && (TypeBits(nalu[0]) == 19 || TypeBits(nalu[0]) == 20));
            && g.link.wire <= g'.link.wire
            && (shut ==> g' == g && ok)
            && (!shut ==>
                  && (SomeMarked(g.link.wire, g'.link.wire) <==> marker && SentLast(g'.log)) && ok == SentLast(g'.log)
                  && (ok ==> EndsMarked(g.link.wire, g'.link.wire, marker)))
  {
    hide SendNalu, Controlled, SomeMarked;
    var h := AtSend(env, g.(waitIdr := false));
    ControlledLink(g.(waitIdr := false), env.atSend(g.tries));
    SendMarks(env.send, h.link, st, nalu, marker);
  }

  /**
   * One NAL unit, under any interleaving and failure: when it goes out with success, be it behind a triple or an IDR
   * that opens the gate, its last datagram is marked if and only if the marker was asked for; and otherwise no
   * datagram is marked.
   */
  lemma {:induction false} ProcessNaluMarks(env: Env, g: Gate, st: Stamp, nalu: seq<byte>, marker: bool, canSend: bool)
    requires |nalu| >= 2
    ensures var (g', ok) := ProcessNalu(env, g, st, nalu, marker, canSend);
            && g.link.wire <= g'.link.wire
            && (SomeMarked(g.link.wire, g'.link.wire) <==> marker && SentLast(g'.log))
            && (SentLast(g'.log) ==> EndsMarked(g.link.wire, g'.link.wire, marker))
            && (!ok ==> !SentLast(g'.log))
  {
    hide Noted, SendSets, Pass, Controlled, SomeMarked, Extends, Marked;
    var g1 := Noted(env, g, nalu);
    NotedLink(env, g, nalu);
    NotedLast(env, g, nalu);
    hide StreamLast;
    NothingMarked(g.link.wire);
    if !canSend { return; }
    ControlledLink(g1, env.atRead(g1.readings));
    ControlledLast(g1, env.atRead(g1.readings));
    var g2 := AtRead(env, g1);
    if !g2.session.need {
      PassMarks(env, g2, st, nalu, marker);
    } else {
      SendSetsExtends(env, g2, st);
      SendSetsLast(env, g2, st);
      var (g3, ok) := SendSets(env, g2, st);
      NoneMarked(g2.link, g3.link, st);
      ExtendsPrefix(g2.link, g3.link, st, false);
      if ok {
        ControlledLink(g3, env.atMark(g3.markings));
        ControlledLast(g3, env.atMark(g3.markings));
        var g4 := AtMark(env, g3);
        PassMarks(env, g4, st, nalu, marker);
        SomeMarkedThen(g.link.wire, g4.link.wire, Pass(env, g4, st, nalu, marker).0.link.wire);
      }
    }
  }

  lemma {:induction false} NothingMarked(wire: seq<Datagram>)
    ensures !SomeMarked(wire, wire)
  {
  }

  lemma {:induction false} UnitsMarks(env: Env, g: Gate, st: Stamp, us: seq<Unit>, i: nat, marker: bool, canSend: bool)
    requires i <= |us| && FinalLast(us)
    ensures var g' := ProcessUnits(env, g, st, us, i, marker, canSend).0;
            && g.link.wire <= g'.link.wire
            && (SomeMarked(g.link.wire, g'.link.wire) <==>
                marker && i < |us| && us[|us| - 1].final && |us[|us| - 1].nalu| >= 2 && SentLast(g'.log))
    decreases |us| - i
  {
    hide ProcessNalu, SomeMarked, SentLast;
    NothingMarked(g.link.wire);
    if i < |us| {
      var asked := marker && us[i].final;
      var (g1, ok) := ProcessNalu(env, g, st, us[i].nalu, asked, canSend);
      assert us[i].final ==> i == |us| - 1;
      if |us[i].nalu| >= 2 {
        ProcessNaluMarks(env, g, st, us[i].nalu, asked, canSend);
      } else {
        TooShort(env, g, st, us[i].nalu, asked, canSend);
      }
      if ok {
        UnitsMarks(env, g1, st, us, i + 1, marker, canSend);
        SomeMarkedThen(g.link.wire, g1.link.wire, ProcessUnits(env, g1, st, us, i + 1, marker, canSend).0.link.wire);
        if i + 1 == |us| {
          assert ProcessUnits(env, g1, st, us, i + 1, marker, canSend) == (g1, true);
        }
      }
    }
  }

  lemma {:induction false} TooShort(env: Env, g: Gate, st: Stamp, nalu: seq<byte>, marker: bool, canSend: bool)
    requires |nalu| < 2
    ensures ProcessNalu(env, g, st, nalu, marker, canSend) == (g, true)
  {
  }

  /** The pack ends in a NAL unit of at least two bytes with no start code behind it. */
  predicate EndsInNalu(buf: seq<byte>) {
    if StartsWithCode(buf) then
      var us := Split(buf, 0); us != [] && us[|us| - 1].final && |us[|us| - 1].nalu| >= 2
    else |buf| >= 2
  }

  lemma {:induction false} BufferMarks(env: Env, g: Gate, st: Stamp, buf: seq<byte>, marker: bool, canSend: bool)
    ensures var g' := ProcessBuffer(env, g, st, buf, marker, canSend).0;
            && g.link.wire <= g'.link.wire
            && (SomeMarked(g.link.wire, g'.link.wire) <==> marker && EndsInNalu(buf) && SentLast(g'.log))
  {
    hide ProcessNalu, ProcessUnits, SomeMarked, SentLast, Split;
    NothingMarked(g.link.wire);
    if |buf| >= 2 {
      if StartsWithCode(buf) {
        var us := Split(buf, 0);
        forall i | 0 <= i < |us| && us[i].final
          ensures i == |us| - 1
        {
          SplitSpans(buf, i, i);
        }
        UnitsMarks(env, g, st, us, 0, marker, canSend);
      } else {
        ProcessNaluMarks(env, g, st, buf, marker, canSend);
      }
    }
  }

  lemma {:induction false} PacksMark(w: World, p: SenderLoop.Player, st: Stamp, m: IpcMsg, i: nat, canSend: bool)
    requires i < m.packCnt && IsValid(m)
    ensures var p' := ProcessPacks(w, p, st, m, i, canSend);
            && p.gate.link.wire <= p'.gate.link.wire
            && (SomeMarked(p.gate.link.wire, p'.gate.link.wire) <==>
                w.mmap(p.maps + m.packCnt - 1 - i) && EndsInNalu(m.packs[m.packCnt - 1].data) && SentLast(p'.gate.log))
    decreases m.packCnt - i
  {
    hide ProcessBuffer, PackIo, SomeMarked, SentLast, EndsInNalu;
    assert GoodPack(m.packs[i]);
    var marker := i + 1 == m.packCnt;
    NothingMarked(p.gate.link.wire);
    BufferMarks(w.gate, p.gate, st, m.packs[i].data, marker, canSend);
    var p1 := ProcessPack(w, p, st, m.packs[i], i, marker, canSend).0;
    if marker {
      assert ProcessPacks(w, p1, st, m, i + 1, canSend) == p1;
    } else {
      PacksMark(w, p1, st, m, i + 1, canSend);
      SomeMarkedThen(p.gate.link.wire, p1.gate.link.wire, ProcessPacks(w, p1, st, m, i + 1, canSend).gate.link.wire);
    }
  }

  /** The item the k-th poll finds is a message that gets processed. */
  predicate Takes(w: World, k: nat) {
    w.item(k).Some? && IsValid(w.item(k).value) && Newer(Accepted(w, k), w.item(k).value)
  }

  lemma {:induction false} TurnMarks(w: World, p: SenderLoop.Player)
    requires ValidSnap(p.snap) && w.item(p.polls).Some? && IsValid(w.item(p.polls).value)
    requires !Stale(p, w.item(p.polls).value)
    ensures var m, p' := w.item(p.polls).value, Turn(w, p);
            && p.gate.link.wire <= p'.gate.link.wire
            && (SomeMarked(p.gate.link.wire, p'.gate.link.wire) <==>
                w.mmap(p.maps + m.packCnt - 1) && EndsInNalu(m.packs[m.packCnt - 1].data) && SentLast(p'.gate.log))
  {
    hide PlayMessage, ProcessPacks, TakeSnapshot, Controlled, ValidSnap, SomeMarked, SentLast, EndsInNalu;
    var m: IpcMsg := w.item(p.polls).value;
    var c := Controlled(p.gate, w.between(p.items));
    ControlledLink(p.gate, w.between(p.items));
    var p1 := p.(polls := p.polls + 1, io := p.io + [ReadItem(p.items)], gate := c, items := p.items + 1);
    PlayMessageGate(w, p1, m);
    BeforeLeaves(w, p1, m);
    PacksMark(w, Before(w, p1, m), StampOf(p1), m, 0, c.session.play && c.session.addrSet);
  }

  /**
   * Over every run: a message that is processed leaves a marked datagram if and only if its last pack could be mapped
   * and ends in a NAL unit with no start code behind it, and that NAL unit went out with success.
   */
  lemma {:induction false} RunMarks(w: World, k: nat)
    requires Takes(w, k)
    ensures var m, p, p' := w.item(k).value, Run(w, k), Run(w, k + 1);
            && p.gate.link.wire <= p'.gate.link.wire
            && (SomeMarked(p.gate.link.wire, p'.gate.link.wire) <==>
                w.mmap(p.maps + m.packCnt - 1) && EndsInNalu(m.packs[m.packCnt - 1].data) && SentLast(p'.gate.log))
  {
    hide Turn, SomeMarked, SentLast, EndsInNalu;
    TakesIs(w, k);
    TurnMarks(w, Run(w, k));
  }

  lemma {:induction false} TakesIs(w: World, k: nat)
    requires w.item(k).Some?
    ensures Run(w, k).polls == k && (Newer(Accepted(w, k), w.item(k).value) <==> !Stale(Run(w, k), w.item(k).value))
  {
    hide Run, Numbers, RecordsOf, SnapCalls, PlayCalls;
    RunFaithful(w, k);
  }

  // ----- messages sent -----

  /** The session as it is sampled for the item of the k-th turn. */
  function SampledFor(w: World, k: nat): Session {
    Controlled(Run(w, k).gate, w.between(Run(w, k).items)).session
  }

  /** How many of the first n turns processed a message with a target to send it to. */
  function TurnsSent(w: World, n: nat): nat {
    if n == 0 then 0
    else TurnsSent(w, n - 1) + (if Takes(w, n - 1) && SampledFor(w, n - 1).play && SampledFor(w, n - 1).addrSet then 1 else 0)
  }

  lemma {:induction false} TurnSends(w: World, p: SenderLoop.Player)
    requires ValidSnap(p.snap)
    ensures var c, found := Controlled(p.gate, w.between(p.items)), w.item(p.polls);
            var sends := found.Some? && IsValid(found.value) && !Stale(p, found.value) && c.session.play && c.session.addrSet;
            |Turn(w, p).sent| == |p.sent| + (if sends then 1 else 0)
  {
    hide PlayMessage, ProcessPacks, TakeSnapshot, Controlled, ValidSnap;
    var found := w.item(p.polls);
    if found.Some? {
      var c := Controlled(p.gate, w.between(p.items));
      var p1 := p.(polls := p.polls + 1, io := p.io + [ReadItem(p.items)], gate := c, items := p.items + 1);
      if IsValid(found.value) && !Stale(p1, found.value) {
        PlayMessageGate(w, p1, found.value);
      }
    }
  }

  lemma {:induction false} SentStep(w: World, k: nat)
    ensures var sends := Takes(w, k) && SampledFor(w, k).play && SampledFor(w, k).addrSet;
            |Run(w, k + 1).sent| == |Run(w, k).sent| + (if sends then 1 else 0)
  {
    hide Turn, Newer, Stale, Controlled, Numbers, RecordsOf, SnapCalls, PlayCalls;
    if w.item(k).Some? {
      TakesIs(w, k);
    } else {
      RunFaithful(w, k);
    }
    TurnSends(w, Run(w, k));
  }

  lemma {:induction false} SentCount(w: World, n: nat)
    ensures |Run(w, n).sent| == TurnsSent(w, n)
  {
    hide Run, Takes, SampledFor;
    if n == 0 {
      NoneSent(w);
    } else {
      SentCount(w, n - 1);
      SentStep(w, n - 1);
    }
  }

  lemma {:induction false} NoneSent(w: World)
    ensures Run(w, 0).sent == []
  {
  }

  /** Over every run a timestamp is used up by exactly the messages processed with a target to send them to. */
  lemma {:induction false} RunSent(w: World, n: nat)
    ensures |Run(w, n).sent| == TurnsSent(w, n)
    ensures Run(w, n).timestamp == (0x1234_5678 + 6000 * TurnsSent(w, n)) % 0x1_0000_0000
  {
    hide Run, TurnsSent, FrameAt;
    SentCount(w, n);
    RunFramed(w, n);
    TimestampIs(TurnsSent(w, n));
  }
}
