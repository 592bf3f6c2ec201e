/**
 * A flagged message whose snapshot does not re-parse to what it should hold: its IDR comes as a raw pack with a
 * start code inside, which the snapshot path keeps as one NAL unit and any Annex-B reader takes for two.
 */
module SnapshotWitness {
  import opened Bytes
  import opened AnnexB
  import opened AnnexBWriter
  import opened ByteBuffers
  import opened DataFifo
  import opened Snapshot
  import opened SnapshotHistory
  import opened SnapshotRefinement

  const PARAMS: seq<seq<byte>> := [[64, 1, 7], [66, 1, 7], [68, 1, 7]]
  const IDR: seq<byte> := [38, 1, 0, 0, 1, 66, 1]

  const MESSAGE := Msg(MAGIC, VERSION, 4, 1, 0, 0, 1,
                       [Pack(1, PARAMS[0]), Pack(1, PARAMS[1]), Pack(1, PARAMS[2]), Pack(1, IDR),
                        NO_PACK, NO_PACK, NO_PACK, NO_PACK])

  const PLENTY := SnapEnv(k => true, k => true)
  const AT_START := Snap(NO_CACHE, Frame(EMPTY, true, false), 0, 0)

  const FEDS: seq<Fed> := [Fed(VPS, PARAMS[0]), Fed(SPS, PARAMS[1]), Fed(PPS, PARAMS[2]), Fed(19, IDR)]

  /** A raw pack without trailing zeros is fed as it is. */
  lemma {:induction false} RawFed(buf: seq<byte>)
    requires |buf| >= 2 && !StartsWithCode(buf) && buf[|buf| - 1] != 0
    ensures BufferFed(buf) == [Fed(NalType(buf), buf)]
  {
    assert buf[..|buf|] == buf;
  }

  lemma {:induction false} MessageFed()
    ensures RecordOf(PLENTY, 0, MESSAGE) == Record(FEDS, true, 1, 0)
  {
    hide BufferFed;
    var packs := MESSAGE.packs;
    RawFed(PARAMS[0]);
    RawFed(PARAMS[1]);
    RawFed(PARAMS[2]);
    RawFed(IDR);
    assert MappedTo(PLENTY, 3, packs, 3, 4) == 4;
    assert MappedTo(PLENTY, 2, packs, 2, 4) == 4;
    assert MappedTo(PLENTY, 1, packs, 1, 4) == 4;
    assert PacksFed(packs, 3, 4) == [Fed(19, IDR)];
    assert PacksFed(packs, 2, 4) == [Fed(PPS, PARAMS[2]), Fed(19, IDR)];
    assert PacksFed(packs, 1, 4) == [Fed(SPS, PARAMS[1]), Fed(PPS, PARAMS[2]), Fed(19, IDR)];
  }

  lemma {:induction false} FeedFirst(f: Fed, rest: seq<Fed>, t: int)
    ensures var feds := [f] + rest;
            && LastSet(feds, t) == (if LastSet(rest, t).Some? then LastSet(rest, t) else if f.kind == t then Some(f) else None)
            && Kept(feds) == (if f.nalu == [] then [] else [f.nalu]) + Kept(rest)
            && HasIrap(feds) == (IsIrap(f.kind) || HasIrap(rest))
  {
    assert ([f] + rest)[1..] == rest;
  }

  /** The last set of type t, the NAL units of the message, and its IRAP. */
  lemma {:induction false} FedMeans(t: int)
    ensures LastSet(FEDS, t) == if t == 19 then Some(FEDS[3]) else if t == PPS then Some(FEDS[2])
                                else if t == SPS then Some(FEDS[1]) else if t == VPS then Some(FEDS[0]) else None
    ensures Kept(FEDS) == PARAMS + [IDR] && HasIrap(FEDS)
  {
    hide LastSet, Kept, HasIrap;
    var f3, f2, f1 := [FEDS[3]], [FEDS[2], FEDS[3]], [FEDS[1], FEDS[2], FEDS[3]];
    assert f3 == [FEDS[3]] + [] && f2 == [FEDS[2]] + f3 && f1 == [FEDS[1]] + f2 && FEDS == [FEDS[0]] + f1;
    NothingFed(t);
    FeedFirst(FEDS[3], [], t);
    FeedFirst(FEDS[2], f3, t);
    FeedFirst(FEDS[1], f2, t);
    FeedFirst(FEDS[0], f1, t);
    assert PARAMS + [IDR] == [PARAMS[0]] + ([PARAMS[1]] + ([PARAMS[2]] + ([IDR] + [])));
  }

  lemma {:induction false} NothingFed(t: int)
    ensures LastSet([], t).None? && Kept([]) == []
  {
  }

  /** What the snapshot must hold: the sets, then all four NAL units of the message. */
  lemma {:induction false} MessageExpects()
    ensures Expected([Record(FEDS, true, 1, 0)], 1) == Some(PARAMS + (PARAMS + [IDR]))
  {
    hide LastSet, Kept, HasIrap;
    FedMeans(VPS);
    FedMeans(SPS);
    FedMeans(PPS);
    var h := [Record(FEDS, true, 1, 0)];
    assert SetOf(h, VPS, 1) == PARAMS[0] && SetOf(h, SPS, 1) == PARAMS[1] && SetOf(h, PPS, 1) == PARAMS[2];
    assert GopOf(h, 1) == Some(Gop(h[0], h[0], PARAMS + [IDR]));
    SmallEnough();
    assert PARAMS == [PARAMS[0], PARAMS[1], PARAMS[2]];
  }

  lemma {:induction false} SmallEnough()
    ensures |Annexb(PARAMS + [IDR])| <= MAX_GOP
  {
    var n1, n2, n3: seq<seq<byte>> := [PARAMS[1], PARAMS[2], IDR], [PARAMS[2], IDR], [IDR];
    assert (PARAMS + [IDR])[1..] == n1 && n1[1..] == n2 && n2[1..] == n3 && n3[1..] == [];
    assert |Annexb(n3)| == 11;
    assert |Annexb(n2)| == 18;
    assert |Annexb(n1)| == 25;
  }

  lemma {:induction false} CodeInside()
    ensures !AllValid(PARAMS + (PARAMS + [IDR]))
  {
    var nalus := PARAMS + (PARAMS + [IDR]);
    assert nalus[6] == IDR && CodeAt(IDR, 2);
    assert !ValidNalu(nalus[6]);
  }

  lemma {:induction false} StartRefines()
    ensures Refines(AT_START.cache, []) && Ample(PLENTY) && IsValid(MESSAGE) && Flagged(MESSAGE)
  {
    assert Text([]) == [];
    assert SumLen(MESSAGE.packs, 1) == 3;
    assert SumLen(MESSAGE.packs, 2) == 6;
    assert SumLen(MESSAGE.packs, 3) == 9;
  }

  /** From program start this message asks for a snapshot, gets one, and it re-parses to something else. */
  lemma {:induction false} RawPackMisparses()
    ensures WellFormed(MESSAGE) && IsValid(MESSAGE) && Flagged(MESSAGE)
    ensures var shot := Process(PLENTY, AT_START, MESSAGE, true).1;
            shot.Some? && Nalus(Split(shot.value.bytes, 0)) != PARAMS + (PARAMS + [IDR])
  {
    hide Refines, Process, Expected, Split, Nalus, Annexb, AllValid, RecordOf, IsValid, Ample;
    StartRefines();
    MessageFed();
    MessageExpects();
    CodeInside();
    var r := RecordOf(PLENTY, 0, MESSAGE);
    assert [] + [r] == [r];
    SnapshotIs(PLENTY, AT_START, MESSAGE, []);
    ReparsesExactly(PLENTY, AT_START, MESSAGE, []);
  }
}
