/**
 * The DATAFIFO sender loop of RTSP_Create.c, one item per turn, as functions on the whole sender state.
 */
module SenderLoop {
  import opened Bytes
  import opened Rtp
  import opened Transport
  import opened DataFifo
  import opened PlaybackGate
  import opened GateHistory
  import opened Snapshot
  import opened SnapshotRefinement
  import opened ByteBuffers

  /**
   * The surroundings of a run: the sender's own nondeterminism, the item each poll finds, the RTSP steps
   * that run before the k-th item's target is sampled, and the outcomes of mapping and unmapping.
   */
  datatype World = World(gate: Env, snap: SnapEnv, item: nat -> Option<IpcMsg>, between: nat -> seq<Control>,
                         mmap: nat -> bool, munmap: nat -> bool, writerReady: bool)

  /** A message sent: the datagrams it put on the wire and their timestamp. */
  datatype Sent = Sent(first: nat, end: nat, timestamp: u32)

  datatype Player = Player(
    gate: Gate, snap: Snap, timestamp: u32, lastRead: u64,
    polls: nat, items: nat, maps: nat, unmaps: nat,
    io: seq<Io>, numbers: seq<u64>, sent: seq<Sent>, records: seq<Record>, shots: seq<Shot>)

  const FIRST_TIMESTAMP: u32 := 0x1234_5678
  const SSRC: u32 := 0x2233_4455

  const START := Player(
    Gate(Sets(None, None, None), false, NO_SESSION, Link(0, [], 0), [], 0, 0, 0, 0),
    Snap(NO_CACHE, Frame(EMPTY, true, false), 0, 0), FIRST_TIMESTAMP, 0,
    0, 0, 0, 0, [], [], [], [], [])

  /** `datafifo_process_pack_for_playback`. */
  function ProcessPack(w: World, p: Player, st: Stamp, pack: Pack, i: nat, marker: bool, canSend: bool): (Player, bool) {
    var mapped := CanMap(pack, w.mmap(p.maps));
    var p1 := p.(maps := p.maps + 1, io := p.io + PackIo(mapped, i));
    if !mapped then (p1, false)
    else
      var (g, ok) := ProcessBuffer(w.gate, p.gate, st, pack.data, marker, canSend);
      (p1.(gate := g, unmaps := p.unmaps + 1), ok && w.munmap(p.unmaps))
  }

  /** The pack loop: a pack that fails does not stop the next one. */
  function ProcessPacks(w: World, p: Player, st: Stamp, m: IpcMsg, i: nat, canSend: bool): Player
    requires i <= m.packCnt <= MAX_PACKS
    decreases m.packCnt - i
  {
    if i == m.packCnt then p
    else
      var p' := ProcessPack(w, p, st, m.packs[i], i, i + 1 == m.packCnt, canSend).0;
      ProcessPacks(w, p', st, m, i + 1, canSend)
  }

  function TakeSnapshot(w: World, p: Player, m: IpcMsg): Player
    requires ValidSnap(p.snap) && m.packCnt <= MAX_PACKS
  {
    var (s, shot) := Process(w.snap, p.snap, m, w.writerReady);
    p.(snap := s, io := p.io + SnapIo(w.snap, p.snap.maps, m.packs, 0, m.packCnt),
       records := p.records + [RecordOf(w.snap, p.snap.maps, m)],
       shots := if shot.Some? then p.shots + [shot.value] else p.shots)
  }

  predicate Stale(p: Player, m: Msg) {
    p.lastRead != 0 && m.number <= p.lastRead
  }

  function StampOf(p: Player): Stamp {
    var s := p.gate.session;
    Stamp(if s.addrSet then s.addr else Address(0, 0), p.timestamp, SSRC)
  }

  /** A valid message that is not stale, after the target has been sampled. */
  function PlayMessage(w: World, p: Player, m: IpcMsg): Player
    requires ValidSnap(p.snap) && IsValid(m)
  {
    var canSend := p.gate.session.play && p.gate.session.addrSet;
    var p1 := p.(lastRead := m.number, numbers := p.numbers + [m.number]);
    var p2 := if Flagged(m) then TakeSnapshot(w, p1, m) else p1;
    var p3 := ProcessPacks(w, p2, StampOf(p), m, 0, canSend);
    if canSend then
      p3.(timestamp := (p.timestamp + TS_STEP) % 0x1_0000_0000,
          sent := p3.sent + [Sent(|p.gate.link.wire|, |p3.gate.link.wire|, p.timestamp)])
    else p3
  }

  /** Sampling the target, then the branches on validity and staleness. */
  function HandleItem(w: World, p: Player, m: IpcMsg): Player
    requires ValidSnap(p.snap)
  {
    var p1 := p.(gate := Controlled(p.gate, w.between(p.items)), items := p.items + 1);
    if IsValid(m) && !Stale(p1, m) then PlayMessage(w, p1, m) else p1
  }

  /** One turn of `datafifo_rtp_sender_loop`. */
  function Turn(w: World, p: Player): Player
    requires ValidSnap(p.snap)
  {
    var found := w.item(p.polls);
    var p1 := p.(polls := p.polls + 1);
    if found.None? then p1
    else
      var p2 := HandleItem(w, p1.(io := p1.io + [ReadItem(p.items)]), found.value);
      p2.(io := p2.io + [ReadDone(p.items)])
  }

  lemma {:induction false} PacksKeepSnap(w: World, p: Player, st: Stamp, m: IpcMsg, i: nat, canSend: bool)
    requires i <= m.packCnt <= MAX_PACKS
    ensures var p' := ProcessPacks(w, p, st, m, i, canSend);
            && p'.snap == p.snap && p'.records == p.records && p'.shots == p.shots
            && p'.timestamp == p.timestamp && p'.lastRead == p.lastRead && p'.numbers == p.numbers
            && p'.sent == p.sent && p'.polls == p.polls && p'.items == p.items
    decreases m.packCnt - i
  {
    if i < m.packCnt {
      hide ProcessBuffer, CanMap;
      PacksKeepSnap(w, ProcessPack(w, p, st, m.packs[i], i, i + 1 == m.packCnt, canSend).0, st, m, i + 1, canSend);
    }
  }

  /** What a message leaves of everything but the gate and the traffic. */
  lemma {:induction false} PlayMessageLeaves(w: World, p: Player, m: IpcMsg)
    requires ValidSnap(p.snap) && IsValid(m)
    ensures var p', s := PlayMessage(w, p, m), if Flagged(m) then TakeSnapshot(w, p, m) else p;
            && p'.snap == s.snap && p'.records == s.records && p'.shots == s.shots
            && p'.lastRead == m.number && p'.numbers == p.numbers + [m.number]
            && p'.items == p.items && p'.polls == p.polls
  {
    hide ProcessPacks, Process, StampOf, SnapIo, ValidSnap, RecordOf;
    var p1 := p.(lastRead := m.number, numbers := p.numbers + [m.number]);
    var p2 := if Flagged(m) then TakeSnapshot(w, p1, m) else p1;
    PacksKeepSnap(w, p2, StampOf(p), m, 0, p.gate.session.play && p.gate.session.addrSet);
  }

  lemma {:induction false} SnapshotLeaves(w: World, p: Player, m: IpcMsg)
    requires ValidSnap(p.snap) && m.packCnt <= MAX_PACKS
    ensures var p' := TakeSnapshot(w, p, m);
            && p'.gate == p.gate && p'.maps == p.maps && p'.unmaps == p.unmaps && p'.lastRead == p.lastRead
            && p'.numbers == p.numbers && p'.sent == p.sent && p'.timestamp == p.timestamp && p'.items == p.items
  {
    hide Process, SnapIo, ValidSnap, RecordOf;
  }

  lemma {:induction false} SnapshotValid(w: World, p: Player, m: IpcMsg)
    requires ValidSnap(p.snap) && m.packCnt <= MAX_PACKS
    ensures ValidSnap(TakeSnapshot(w, p, m).snap)
  {
    hide Process, SnapIo, RecordOf, ValidSnap;
  }

  lemma {:induction false} TurnKeepsSnap(w: World, p: Player)
    requires ValidSnap(p.snap)
    ensures ValidSnap(Turn(w, p).snap)
  {
    hide PlayMessage, TakeSnapshot, Controlled, ValidSnap;
    var found := w.item(p.polls);
    if found.Some? {
      var m: IpcMsg := found.value;
      var p1 := p.(polls := p.polls + 1, io := p.io + [ReadItem(p.items)],
                   gate := Controlled(p.gate, w.between(p.items)), items := p.items + 1);
      if IsValid(m) && !Stale(p1, m) {
        PlayMessageLeaves(w, p1, m);
        SnapshotValid(w, p1, m);
      }
    }
  }

  /** The state after n turns from program start. */
  function Run(w: World, n: nat): (p: Player)
    ensures ValidSnap(p.snap)
  {
    if n == 0 then START
    else
      var p := Run(w, n - 1);
      TurnKeepsSnap(w, p);
      Turn(w, p)
  }
}
