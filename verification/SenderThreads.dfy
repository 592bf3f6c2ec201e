/**
 * The code of `datafifo_rtp_sender_loop`, one turn at a time, proved against the functions of SenderLoop.dfy.
 */
module SenderThreads {
  import opened Bytes
  import opened Rtp
  import opened Transport
  import opened DataFifo
  import opened PlaybackGate
  import opened Playbacks
  import opened Snapshot
  import opened SnapshotRefinement
  import opened SnapshotCaches
  import opened SenderLoop

  class SenderThread {
    const w: World
    const playback: Playback
    const snapshot: SnapshotCache
    var timestamp: u32
    var lastReadSeq: u64
    var polls: nat
    var items: nat
    var maps: nat
    var unmaps: nat
    ghost var io: seq<Io>
    ghost var numbers: seq<u64>
    ghost var sent: seq<Sent>
    ghost var records: seq<Record>
    ghost var shots: seq<Shot>

    ghost predicate Valid()
      reads this, playback, playback.link
      reads snapshot, snapshot.vps, snapshot.sps, snapshot.pps, snapshot.lastIrap, snapshot.gop, snapshot.au
    {
      playback.Valid() && playback.env == w.gate && snapshot.Valid() && snapshot.env == w.snap
    }

    ghost function State(): (p: Player)
      requires Valid()
      reads this, playback, playback.link
      reads snapshot, snapshot.vps, snapshot.sps, snapshot.pps, snapshot.lastIrap, snapshot.gop, snapshot.au
      reads snapshot.vps.memory, snapshot.sps.memory, snapshot.pps.memory
      reads snapshot.lastIrap.memory, snapshot.gop.memory, snapshot.au.memory
      ensures ValidSnap(p.snap)
    {
      Player(playback.State(), snapshot.State(), timestamp, lastReadSeq, polls, items, maps, unmaps,
             io, numbers, sent, records, shots)
    }

    constructor (w: World)
      ensures Valid() && this.w == w && State() == START
    {
      hide Playback.State, Playback.Valid, SnapshotCache.Valid, SnapshotCache.State;
      this.w := w;
      playback := new Playback(w.gate);
      snapshot := new SnapshotCache(w.snap);
      timestamp, lastReadSeq := FIRST_TIMESTAMP, 0;
      polls, items, maps, unmaps := 0, 0, 0, 0;
      io, numbers, sent, records, shots := [], [], [], [], [];
    }

    /** `nalu_datafifo_mmap_pack`. */
    method MapPack(pack: Pack, ghost i: nat) returns (ok: bool)
      requires Valid()
      modifies this`maps, this`io
      ensures Valid() && ok == CanMap(pack, w.mmap(old(State()).maps))
      ensures var p := old(State()); State() == p.(maps := p.maps + 1, io := p.io + [Io.MapPack(i, ok)])
    {
      hide Playback.State, Playback.Valid, SnapshotCache.Valid, SnapshotCache.State, ValidSnap;
      ok := pack.physAddr != 0 && pack.Len() != 0 && w.mmap(maps);
      maps := maps + 1;
      io := io + [Io.MapPack(i, ok)];
    }

    /** The bytes of a mapped pack, processed. */
    method UsePack(st: Stamp, pack: Pack, ghost i: nat, marker: bool, canSend: bool) returns (ok: bool)
      requires Valid()
      modifies this`io, playback, playback.link
      ensures Valid()
      ensures var p := old(State());
              var r := ProcessBuffer(w.gate, p.gate, st, pack.data, marker, canSend);
              ok == r.1 && State() == p.(gate := r.0, io := p.io + [Io.UsePack(i)])
    {
      hide ProcessBuffer, Playback.State, Playback.Valid, SnapshotCache.Valid, SnapshotCache.State, ValidSnap;
      ok := playback.ProcessBufferForPlayback(st, pack.data, marker, canSend);
      io := io + [Io.UsePack(i)];
    }

    /** `nalu_datafifo_munmap_pack`, for a pack that was mapped. */
    method UnmapPack(ghost i: nat) returns (ok: bool)
      requires Valid()
      modifies this`unmaps, this`io
      ensures Valid() && ok == w.munmap(old(State()).unmaps)
      ensures var p := old(State()); State() == p.(unmaps := p.unmaps + 1, io := p.io + [Io.UnmapPack(i)])
    {
      hide Playback.State, Playback.Valid, SnapshotCache.Valid, SnapshotCache.State, ValidSnap;
      ok := w.munmap(unmaps);
      unmaps := unmaps + 1;
      io := io + [Io.UnmapPack(i)];
    }

    /** `datafifo_process_pack_for_playback`. */
    method ProcessPackForPlayback(st: Stamp, pack: Pack, ghost i: nat, marker: bool, canSend: bool) returns (ok: bool)
      requires Valid()
      modifies this`maps, this`unmaps, this`io, playback, playback.link
      ensures Valid() && (State(), ok) == ProcessPack(w, old(State()), st, pack, i, marker, canSend)
      ensures ok ==> w.mmap(old(State()).maps) && w.munmap(old(State()).unmaps)
    {
      hide ProcessBuffer, Valid, State, ValidSnap;
      var mapped := MapPack(pack, i);
      if !mapped {
        return false;
      }
      ok := UsePack(st, pack, i, marker, canSend);
      var unmapped := UnmapPack(i);
      if !unmapped && ok {
        ok := false;
      }
      ghost var was := old(State()).io;
      assert was + [Io.MapPack(i, true)] + [Io.UsePack(i)] + [Io.UnmapPack(i)]
          == was + [Io.MapPack(i, true), Io.UsePack(i), Io.UnmapPack(i)];
    }

    /** The pack loop. */
    method ProcessPacksForPlayback(st: Stamp, m: IpcMsg, canSend: bool)
      requires Valid() && m.packCnt <= MAX_PACKS
      modifies this`maps, this`unmaps, this`io, playback, playback.link
      ensures Valid() && State() == ProcessPacks(w, old(State()), st, m, 0, canSend)
    {
      hide ProcessPack, SnapshotCache.Valid, SnapshotCache.State, Valid, State;
      var i := 0;
      while i < m.packCnt
        invariant Valid() && 0 <= i <= m.packCnt
        invariant ProcessPacks(w, State(), st, m, i, canSend) == ProcessPacks(w, old(State()), st, m, 0, canSend)
      {
        var _ := ProcessPackForPlayback(st, m.packs[i], i, i + 1 == m.packCnt, canSend);
        i := i + 1;
      }
    }

    /** RTSP steps that come first, then `get_rtsp_target`. */
    method SampleTarget() returns (canSend: bool, dest: Address, needed: bool)
      requires Valid()
      modifies this`items, playback
      ensures Valid()
      ensures var p := old(State()); State() == p.(gate := Controlled(p.gate, w.between(p.items)), items := p.items + 1)
      ensures var s := State().gate.session;
              canSend == (s.play && s.addrSet) && dest == if s.addrSet then s.addr else Address(0, 0)
    {
      hide Controlled, SnapshotCache.Valid, SnapshotCache.State, ValidSnap;
      playback.HandleRequests(w.between(items));
      items := items + 1;
      var playing, destValid;
      playing, dest, destValid, needed := playback.GetRtspTarget();
      canSend := playing && destValid;
    }

    method NoteRead(m: Msg)
      requires Valid()
      modifies this`lastReadSeq, this`numbers
      ensures Valid()
      ensures var p := old(State()); State() == p.(lastRead := m.number, numbers := p.numbers + [m.number])
    {
      hide Playback.State, Playback.Valid, SnapshotCache.Valid, SnapshotCache.State, ValidSnap;
      lastReadSeq := m.number;
      numbers := numbers + [m.number];
    }

    method RunSnapshot(m: IpcMsg) returns (shot: Option<Shot>, ghost traffic: seq<Io>)
      requires Valid() && IsValid(m) && Flagged(m)
      modifies snapshot, snapshot.vps, snapshot.vps.memory, snapshot.sps, snapshot.sps.memory, snapshot.pps, snapshot.pps.memory
      modifies snapshot.lastIrap, snapshot.lastIrap.memory, snapshot.gop, snapshot.gop.memory
      ensures Valid() && snapshot.CachesRegrown()
      ensures var p := old(State());
              var r := Process(w.snap, p.snap, m, w.writerReady);
              shot == r.1 && State() == p.(snap := r.0) && traffic == SnapIo(w.snap, p.snap.maps, m.packs, 0, m.packCnt)
    {
      hide Process, SnapIo, Playback.State, Playback.Valid, SnapshotCache.Valid, SnapshotCache.State, ValidSnap;
      ghost var was := snapshot.trace;
      shot := snapshot.ProcessMessage(m, w.writerReady);
      traffic := snapshot.trace[|was|..];
    }

    method NoteSnapshot(ghost traffic: seq<Io>, ghost record: Record, ghost shot: Option<Shot>)
      requires Valid()
      modifies this`io, this`records, this`shots
      ensures Valid()
      ensures var p := old(State());
              State() == p.(io := p.io + traffic, records := p.records + [record],
                            shots := if shot.Some? then p.shots + [shot.value] else p.shots)
    {
      hide Playback.State, Playback.Valid, SnapshotCache.Valid, SnapshotCache.State, ValidSnap;
      io := io + traffic;
      records := records + [record];
      if shot.Some? {
        shots := shots + [shot.value];
      }
    }

    /** `datafifo_snapshot_process`, with its mapping traffic and its history on record. */
    method ProcessSnapshot(m: IpcMsg)
      requires Valid() && IsValid(m) && Flagged(m)
      modifies this`io, this`records, this`shots
      modifies snapshot, snapshot.vps, snapshot.vps.memory, snapshot.sps, snapshot.sps.memory, snapshot.pps, snapshot.pps.memory
      modifies snapshot.lastIrap, snapshot.lastIrap.memory, snapshot.gop, snapshot.gop.memory
      ensures Valid() && snapshot.CachesRegrown() && State() == TakeSnapshot(w, old(State()), m)
    {
      hide Process, SnapIo, RecordOf, Valid, State, ValidSnap;
      ghost var record := RecordOf(w.snap, State().snap.maps, m);
      var shot, traffic := RunSnapshot(m);
      NoteSnapshot(traffic, record, shot);
    }

    method StepTimestamp(ghost first: nat)
      requires Valid()
      modifies this`timestamp, this`sent
      ensures Valid()
      ensures var p := old(State());
              State() == p.(timestamp := (p.timestamp + TS_STEP) % 0x1_0000_0000,
                            sent := p.sent + [Sent(first, |p.gate.link.wire|, p.timestamp)])
    {
      hide Playback.State, Playback.Valid, SnapshotCache.Valid, SnapshotCache.State, ValidSnap;
      sent := sent + [Sent(first, |State().gate.link.wire|, timestamp)];
      timestamp := (timestamp + TS_STEP) % 0x1_0000_0000;
    }

    lemma {:induction false} Fields()
      requires Valid()
      ensures var p := State();
              p.timestamp == timestamp && p.lastRead == lastReadSeq && p.polls == polls && p.items == items
    {
    }

    /** A valid message that is not stale. */
    method HandleMessage(m: IpcMsg, dest: Address, canSend: bool)
      requires Valid() && IsValid(m)
      requires var s := State().gate.session;
               canSend == (s.play && s.addrSet) && dest == if s.addrSet then s.addr else Address(0, 0)
      modifies this, playback, playback.link
      modifies snapshot, snapshot.vps, snapshot.vps.memory, snapshot.sps, snapshot.sps.memory, snapshot.pps, snapshot.pps.memory
      modifies snapshot.lastIrap, snapshot.lastIrap.memory, snapshot.gop, snapshot.gop.memory
      ensures Valid() && snapshot.CachesRegrown() && State() == PlayMessage(w, old(State()), m)
    {
      hide ProcessPacks, Valid, State, ValidSnap, TakeSnapshot;
      ghost var first := |State().gate.link.wire|;
      Fields();
      NoteRead(m);
      if Flagged(m) {
        ProcessSnapshot(m);
      }
      Fields();
      ghost var p := State();
      ProcessPacksForPlayback(Stamp(dest, timestamp, SSRC), m, canSend);
      PacksKeepSnap(w, p, Stamp(dest, timestamp, SSRC), m, 0, canSend);
      if canSend {
        StepTimestamp(first);
      }
    }

    ghost method NoteIo(e: Io)
      requires Valid()
      modifies this`io
      ensures Valid()
      ensures var p := old(State()); State() == p.(io := p.io + [e])
    {
      hide Playback.State, Playback.Valid, SnapshotCache.Valid, SnapshotCache.State, ValidSnap;
      io := io + [e];
    }

    /** One turn of `datafifo_rtp_sender_loop`: at most one item, and READ_DONE for it whatever it was. */
    method TakeTurn()
      requires Valid()
      modifies this, playback, playback.link
      modifies snapshot, snapshot.vps, snapshot.vps.memory, snapshot.sps, snapshot.sps.memory, snapshot.pps, snapshot.pps.memory
      modifies snapshot.lastIrap, snapshot.lastIrap.memory, snapshot.gop, snapshot.gop.memory
      ensures Valid() && snapshot.CachesRegrown() && State() == Turn(w, old(State()))
    {
      hide Valid, State, ValidSnap, PlayMessage, Controlled;
      Fields();
      ghost var k := items;
      var found := w.item(polls);
      CountPoll();
      if found.None? {
        return;
      }
      var m: IpcMsg := found.value;
      NoteIo(ReadItem(k));
      var canSend, dest, _ := SampleTarget();
      Fields();
      var valid := ValidateMsg(m);
      if valid {
        var stale := lastReadSeq != 0 && m.number <= lastReadSeq;
        if !stale {
          HandleMessage(m, dest, canSend);
        }
      }
      NoteIo(ReadDone(k));
    }

    method CountPoll()
      requires Valid()
      modifies this`polls
      ensures Valid()
      ensures var p := old(State()); State() == p.(polls := p.polls + 1)
    {
      hide Playback.State, Playback.Valid, SnapshotCache.Valid, SnapshotCache.State, ValidSnap;
      polls := polls + 1;
    }

    /** The first n turns of the endless loop. */
    method TakeTurns(n: nat)
      requires Valid() && State() == START
      modifies this, playback, playback.link
      modifies snapshot, snapshot.vps, snapshot.vps.memory, snapshot.sps, snapshot.sps.memory, snapshot.pps, snapshot.pps.memory
      modifies snapshot.lastIrap, snapshot.lastIrap.memory, snapshot.gop, snapshot.gop.memory
      ensures Valid() && State() == Run(w, n)
    {
      hide Valid, State, ValidSnap, Turn;
      var i := 0;
      while i < n
        invariant Valid() && snapshot.CachesRegrown() && 0 <= i <= n && State() == Run(w, i)
      {
        TakeTurn();
        i := i + 1;
      }
    }
  }
}
