/**
 * The code of snapshot_writer.c: the ring and flags as fields, one method for each critical section, proved
 * against the steps of WriterQueue.dfy.
 */
module SnapshotWriters {
  import opened Bytes
  import opened WriterQueue

  class SnapshotWriter {
    const queue: array<Job>
    var head: nat
    var tail: nat
    var count: nat
    var started: bool
    var stop: bool
    var worker: Worker
    ghost var owner: Owner
    ghost var passed: multiset<Address>
    ghost var freed: multiset<Address>
    ghost var accepted: seq<Job>
    ghost var finished: seq<Job>

    ghost predicate Valid()
      reads this, queue
    {
      queue.Length == DEPTH && head < DEPTH && tail < DEPTH
    }

    ghost function State(): Writer
      reads this, queue
    {
      Writer(queue[..], head, tail, count, started, stop, worker, owner, passed, freed, accepted, finished)
    }

    constructor ()
      ensures Valid() && fresh(queue) && State() == INITIAL
    {
      queue := new Job[DEPTH](_ => NO_JOB);
      head, tail, count := 0, 0, 0;
      started, stop, worker := false, false, Absent;
      owner, passed, freed, accepted, finished := Idle, multiset{}, multiset{}, [], [];
      new;
      assert queue[..] == [NO_JOB, NO_JOB, NO_JOB, NO_JOB];
    }

    lemma {:induction false} Fields()
      requires Valid()
      ensures var s := State();
              && |s.slots| == DEPTH && s.tail == tail < DEPTH && s.head == head < DEPTH && s.count == count
              && s.started == started && s.stop == stop
    {
    }

    method Free(data: Address)
      modifies this`freed
      ensures State() == old(State()).(freed := old(State()).freed + Freed(data))
    {
      freed := freed + Freed(data);
    }

    ghost method NotePassed(data: Address)
      modifies this`passed
      ensures State() == old(State()).(passed := old(State()).passed + Freed(data))
    {
      passed := passed + Freed(data);
    }

    /** The accepting end of `snapshot_writer_enqueue_h265_take`. */
    method Push(job: Job)
      requires Valid()
      modifies this`tail, this`count, this`worker, this`accepted, queue
      ensures Valid()
      ensures var s := old(State());
              State() == s.(slots := s.slots[s.tail := job], tail := (s.tail + 1) % DEPTH, count := s.count + 1,
                            worker := Woken(s.worker), accepted := s.accepted + [job])
    {
      queue[tail] := job;
      tail := (tail + 1) % DEPTH;
      count := count + 1;
      Signal();
      accepted := accepted + [job];
    }

    method Signal()
      modifies this`worker
      ensures worker == Woken(old(worker))
    {
      if worker.Asleep? {
        worker := Awake;
      }
    }

    /** `snapshot_pop_job`. */
    method PopJob() returns (ok: bool, job: Job)
      requires Valid()
      modifies this`head, this`count, queue
      ensures Valid() && ok == (old(count) > 0)
      ensures if ok then job == old(queue[head]) && State() == WriterQueue.PopJob(old(State()))
              else job == NO_JOB && State() == old(State())
    {
      if count == 0 {
        return false, NO_JOB;
      }
      job := queue[head];
      queue[head] := NO_JOB;
      head := (head + 1) % DEPTH;
      count := count - 1;
      ok := true;
    }

    /** `snapshot_writer_enqueue_h265_take`, for a buffer that holds `bytes`. */
    method EnqueueH265Take(data: Address, bytes: seq<byte>, pts: u64) returns (ok: bool)
      requires Valid()
      modifies this, queue
      ensures Valid() && (State(), ok) == EnqueueTake(old(State()), Job(data, bytes, pts))
      ensures ok <==> data != 0 && bytes != [] && old(started) && !old(stop) && old(count) < 4
    {
      hide State, Freed, Woken;
      Fields();
      NotePassed(data);
      if data == NULL || |bytes| == 0 {
        Free(data);
        return false;
      }
      var job := Job(data, bytes, pts);
      if !started || stop {
        Free(job.data);
        return false;
      }
      if count >= DEPTH {
        Free(job.data);
        return false;
      }
      Push(job);
      ok := true;
    }

    /** One step of `snapshot_writer_loop`: writing the file touches nothing shared. */
    method WorkerTurn()
      requires Valid()
      modifies this, queue
      ensures Valid() && State() == WorkStep(old(State()))
    {
      if worker.Awake? {
        if !stop && count == 0 {
          worker := Asleep;
          return;
        }
        if stop && count == 0 {
          worker := Returned;
          return;
        }
        var ok, job := PopJob();
        worker := Busy(job);
      } else if worker.Busy? {
        var job := worker.job;
        Free(job.data);
        finished := finished + [job];
        worker := Awake;
      }
    }

    /** `snapshot_writer_init` up to the creation of the worker, which may fail. */
    method BeginInit(created: bool)
      requires Valid() && owner.Idle?
      modifies this
      ensures Valid() && State() == BeginStep(old(State()), created)
    {
      hide SlotsFreed, Freed;
      if started {
        return;
      }
      stop := false;
      head := 0;
      tail := 0;
      count := 0;
      if created {
        worker := Awake;
        owner := Starting;
      }
    }

    /** The second critical section of `snapshot_writer_init`. */
    method EndInit()
      requires Valid() && owner.Starting?
      modifies this
      ensures Valid() && State() == EndStep(old(State()))
    {
      hide SlotsFreed, Freed;
      started := true;
      owner := Idle;
    }

    /** The first critical section of `snapshot_writer_deinit`. */
    method StopDeinit()
      requires Valid() && owner.Idle?
      modifies this
      ensures Valid() && State() == StopStep(old(State()))
    {
      hide SlotsFreed, Freed;
      if !started {
        return;
      }
      stop := true;
      Signal();
      owner := Joining;
    }

    /** The loop that frees whatever the ring still holds. */
    method FreeQueue()
      requires Valid()
      modifies this`freed, queue
      ensures queue[..] == INITIAL.slots
      ensures State() == old(State()).(slots := INITIAL.slots, freed := old(freed) + SlotsFreed(old(queue[..]), DEPTH))
    {
      hide SlotsFreed, Freed;
      ghost var was := queue[..];
      FreedNone(was);
      var i := 0;
      while i < DEPTH
        invariant 0 <= i <= DEPTH
        invariant forall k :: 0 <= k < DEPTH ==> queue[k] == if k < i then NO_JOB else was[k]
        invariant freed == old(freed) + SlotsFreed(was, i)
      {
        FreedNext(was, i);
        Free(queue[i].data);
        queue[i] := NO_JOB;
        i := i + 1;
      }
      assert queue[..] == [queue[0], queue[1], queue[2], queue[3]];
    }

    method ResetWriter()
      requires Valid()
      modifies this`started, this`stop, this`head, this`tail, this`count, this`worker, this`owner
      ensures Valid()
      ensures State() == old(State()).(started := false, stop := false, head := 0, tail := 0, count := 0,
                                       worker := Absent, owner := Idle)
    {
      started := false;
      stop := false;
      head := 0;
      tail := 0;
      count := 0;
      worker := Absent;
      owner := Idle;
    }

    /** The second one, after `pthread_join` returned. */
    method ReclaimDeinit()
      requires Valid() && owner.Joining? && worker.Returned?
      modifies this, queue
      ensures Valid() && State() == ReclaimStep(old(State()))
    {
      hide SlotsFreed, Freed;
      FreeQueue();
      ResetWriter();
    }
  }

  lemma {:induction false} FreedNone(slots: seq<Job>)
    ensures SlotsFreed(slots, 0) == multiset{}
  {
  }

  lemma {:induction false} FreedNext(slots: seq<Job>, n: nat)
    requires n < |slots|
    ensures SlotsFreed(slots, n + 1) == SlotsFreed(slots, n) + Freed(slots[n].data)
  {
  }
}
