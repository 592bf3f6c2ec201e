/**
 * The asynchronous snapshot writer of snapshot_writer.c: its critical sections as steps of a transition
 * system over every interleaving of the callers, the worker and the caller of init and deinit.
 */
module WriterQueue {
  import opened Bytes

  const DEPTH: nat := 4

  /** A heap buffer by its address; 0 is NULL. */
  type Address = nat

  const NULL: Address := 0

  /** A job: its buffer, the bytes the buffer holds for as long as the writer owns it, and the time stamp. */
  datatype Job = Job(data: Address, bytes: seq<byte>, pts: u64)

  /** A slot cleared by memset. */
  const NO_JOB := Job(NULL, [], 0)

  /** The worker: not created, before its lock, in `pthread_cond_wait`, at work on a job it took, returned. */
  datatype Worker = Absent | Awake | Asleep | Busy(job: Job) | Returned

  /** The one thread that starts and stops the writer: between calls, in init, or in deinit's join. */
  datatype Owner = Idle | Starting | Joining

  /**
   * The ring and flags under the mutex, the threads, and the history: buffers passed to enqueue, buffers
   * freed, jobs accepted and jobs finished.
   */
  datatype Writer = Writer(
    slots: seq<Job>, head: nat, tail: nat, count: nat, started: bool, stop: bool,
    worker: Worker, owner: Owner,
    passed: multiset<Address>, freed: multiset<Address>, accepted: seq<Job>, finished: seq<Job>)

  const INITIAL := Writer([NO_JOB, NO_JOB, NO_JOB, NO_JOB], 0, 0, 0, false, false, Absent, Idle,
                          multiset{}, multiset{}, [], [])

  datatype Action =
    | Enqueue(job: Job)
    | Work
    | SpuriousWakeup
    | InitBegin(created: bool)
    | InitEnd
    | DeinitStop
    | DeinitReclaim

  /** `free(data)`. */
  function Freed(data: Address): multiset<Address> {
    if data == NULL then multiset{} else multiset{data}
  }

  function Woken(w: Worker): Worker {
    if w.Asleep? then Awake else w
  }

  /** `snapshot_writer_enqueue_h265_take`: it owns `data` on every path. */
  function EnqueueTake(s: Writer, job: Job): (Writer, bool)
    requires |s.slots| == DEPTH && s.tail < DEPTH
  {
    var s1 := s.(passed := s.passed + Freed(job.data));
    if job.data == NULL || job.bytes == [] || !s.started || s.stop || s.count >= DEPTH then
      (s1.(freed := s.freed + Freed(job.data)), false)
    else
      (s1.(slots := s.slots[s.tail := job], tail := (s.tail + 1) % DEPTH, count := s.count + 1,
           worker := Woken(s.worker), accepted := s.accepted + [job]), true)
  }

  /** `snapshot_pop_job`, for a queue that is not empty. */
  function PopJob(s: Writer): Writer
    requires |s.slots| == DEPTH && s.head < DEPTH && s.count > 0
  {
    s.(slots := s.slots[s.head := NO_JOB], head := (s.head + 1) % DEPTH, count := s.count - 1)
  }

  /** One step of `snapshot_writer_loop`: the critical section, or what comes after it for a job taken. */
  function WorkStep(s: Writer): Writer
    requires |s.slots| == DEPTH && s.head < DEPTH
  {
    match s.worker
    case Awake =>
      if s.count > 0 then PopJob(s).(worker := Busy(s.slots[s.head]))
      else if s.stop then s.(worker := Returned) else s.(worker := Asleep)
    case Busy(job) =>
      s.(worker := Awake, freed := s.freed + Freed(job.data), finished := s.finished + [job])
    case _ => s
  }

  /** `free` of every slot. */
  function SlotsFreed(slots: seq<Job>, n: nat): multiset<Address>
    requires n <= |slots|
  {
    if n == 0 then multiset{} else SlotsFreed(slots, n - 1) + Freed(slots[n - 1].data)
  }

  /** `snapshot_writer_init` up to the creation of the worker, which may fail. */
  function BeginStep(s: Writer, created: bool): Writer {
    if !s.owner.Idle? || s.started then s
    else
      var s1 := s.(stop := false, head := 0, tail := 0, count := 0);
      if created then s1.(worker := Awake, owner := Starting) else s1
  }

  /** Its second critical section. */
  function EndStep(s: Writer): Writer {
    if s.owner.Starting? then s.(started := true, owner := Idle) else s
  }

  /** The first critical section of `snapshot_writer_deinit`. */
  function StopStep(s: Writer): Writer {
    if s.owner.Idle? && s.started then s.(stop := true, worker := Woken(s.worker), owner := Joining) else s
  }

  /** The second one, once the worker has returned. */
  function ReclaimStep(s: Writer): Writer
    requires |s.slots| == DEPTH
  {
    if s.owner.Joining? && s.worker.Returned? then
      s.(slots := INITIAL.slots, head := 0, tail := 0, count := 0, started := false, stop := false,
         worker := Absent, owner := Idle, freed := s.freed + SlotsFreed(s.slots, DEPTH))
    else s
  }

  /** One step of any thread; a step that is not enabled changes nothing. */
  function Act(s: Writer, a: Action): (s': Writer)
    requires |s.slots| == DEPTH && s.head < DEPTH && s.tail < DEPTH
    ensures |s'.slots| == DEPTH && s'.head < DEPTH && s'.tail < DEPTH
  {
    match a
    case Enqueue(job) => EnqueueTake(s, job).0
    case Work => WorkStep(s)
    case SpuriousWakeup => s.(worker := Woken(s.worker))
    case InitBegin(created) => BeginStep(s, created)
    case InitEnd => EndStep(s)
    case DeinitStop => StopStep(s)
    case DeinitReclaim => ReclaimStep(s)
  }

  // ----- the invariant -----

  /** Position i of the ring, counted from the head. */
  function At(head: nat, i: nat): nat {
    (head + i) % DEPTH
  }

  /** The jobs waiting, oldest first. */
  function Queued(s: Writer): (q: seq<Job>)
    requires |s.slots| == DEPTH && s.count <= DEPTH
    ensures |q| == s.count
  {
    seq(s.count, i requires 0 <= i < s.count => s.slots[At(s.head, i)])
  }

  function InFlight(w: Worker): seq<Job> {
    if w.Busy? then [w.job] else []
  }

  function Pointers(jobs: seq<Job>): (p: seq<Address>)
    ensures |p| == |jobs|
  {
    seq(|jobs|, i requires 0 <= i < |jobs| => jobs[i].data)
  }

  predicate RealJob(job: Job) {
    job.data != NULL && job.bytes != []
  }

  /** Well-formed ring: the window holds real jobs, everything outside it is cleared. */
  predicate Ring(s: Writer) {
    && |s.slots| == DEPTH && s.head < DEPTH && s.count <= DEPTH && s.tail == At(s.head, s.count)
    && forall i :: 0 <= i < DEPTH ==>
         if i < s.count then RealJob(s.slots[At(s.head, i)]) else s.slots[At(s.head, i)] == NO_JOB
  }

  /** Which threads can be where, and no lost wake-up: the worker sleeps only with nothing to do. */
  predicate Phases(s: Writer) {
    && (s.worker.Absent? ==> s.owner.Idle? && !s.started && s.count == 0)
    && (s.started ==> !s.owner.Starting? && !s.worker.Absent?)
    && (!s.started ==> s.count == 0 && !s.stop && !s.worker.Busy?)
    && (s.owner.Idle? && !s.started ==> s.worker.Absent?)
    && (s.owner.Joining? <==> s.stop) && (s.stop ==> s.started)
    && (s.worker.Returned? ==> s.stop && s.count == 0)
    && (s.worker.Asleep? ==> s.count == 0 && !s.stop)
    && (s.worker.Busy? ==> RealJob(s.worker.job))
  }

  /** First in, first out: every job accepted is finished, in the worker's hands, or queued, in that order. */
  predicate Fifo(s: Writer)
    requires Ring(s)
  {
    s.accepted == s.finished + InFlight(s.worker) + Queued(s)
  }

  /** Ownership: a buffer passed in is either freed already or held by the worker or the ring, once per passing. */
  predicate Owned(s: Writer)
    requires Ring(s)
  {
    s.passed == s.freed + multiset(Pointers(InFlight(s.worker))) + multiset(Pointers(Queued(s)))
  }

  predicate Safe(s: Writer) {
    Ring(s) && Phases(s) && Fifo(s) && Owned(s)
  }

  // ----- each step keeps it -----

  lemma {:induction false} PointersConcat(a: seq<Job>, b: seq<Job>)
    ensures Pointers(a + b) == Pointers(a) + Pointers(b)
  {
  }

  lemma {:induction false} AtApart(head: nat, i: nat, j: nat)
    requires head < DEPTH && i < DEPTH && j < DEPTH
    ensures At(head, i) < DEPTH && (At(head, i) == At(head, j) <==> i == j)
  {
  }

  lemma {:induction false} AtNext(head: nat, i: nat)
    requires head < DEPTH
    ensures (At(head, i) + 1) % DEPTH == At(head, i + 1)
  {
  }

  lemma {:induction false} EnqueueRing(s: Writer, job: Job)
    requires Ring(s) && RealJob(job) && s.count < DEPTH
    ensures var s' := s.(slots := s.slots[s.tail := job], tail := (s.tail + 1) % DEPTH, count := s.count + 1);
            Ring(s') && Queued(s') == Queued(s) + [job]
  {
    hide At;
    AtApart(s.head, s.count, s.count);
    var s' := s.(slots := s.slots[s.tail := job], tail := (s.tail + 1) % DEPTH, count := s.count + 1);
    AtNext(s.head, s.count);
    forall i | 0 <= i < DEPTH
      ensures At(s.head, i) < DEPTH && s'.slots[At(s.head, i)] == if i == s.count then job else s.slots[At(s.head, i)]
    {
      AtApart(s.head, i, s.count);
    }
  }

  lemma {:induction false} PopRing(s: Writer)
    requires Ring(s) && s.count > 0
    ensures Ring(PopJob(s)) && Queued(s) == [s.slots[s.head]] + Queued(PopJob(s)) && RealJob(s.slots[s.head])
  {
    var s' := PopJob(s);
    assert At(s.head, 0) == s.head;
    forall i | 0 <= i < DEPTH
      ensures At(s'.head, i) == At(s.head, i + 1)
      ensures s'.slots[At(s'.head, i)] == if i == 3 then NO_JOB else s.slots[At(s.head, i + 1)]
    {
      assert At(s.head, 4) == s.head;
      assert At(s.head, i + 1) == s.head <==> i == 3;
    }
  }

  lemma {:induction false} AcceptSafe(s: Writer, job: Job)
    requires Safe(s) && RealJob(job) && s.started && !s.stop && s.count < DEPTH
    ensures s.tail < DEPTH && Safe(EnqueueTake(s, job).0)
  {
    hide Queued, Pointers, At, Ring;
    RingShape(s);
    var s' := EnqueueTake(s, job).0;
    var s1 := s.(slots := s.slots[s.tail := job], tail := (s.tail + 1) % DEPTH, count := s.count + 1);
    EnqueueRing(s, job);
    RingSame(s1, s');
    QueuedSame(s', s1);
    PointersConcat(Queued(s), [job]);
    OnePointer(job);
    assert InFlight(s'.worker) == InFlight(s.worker);
    assert s'.accepted == s'.finished + InFlight(s'.worker) + Queued(s');
  }

  lemma {:induction false} EnqueueSafe(s: Writer, job: Job)
    requires Safe(s)
    ensures s.tail < DEPTH && Safe(EnqueueTake(s, job).0)
  {
    hide Queued, Pointers, At, Ring;
    RingShape(s);
    if RealJob(job) && s.started && !s.stop && s.count < DEPTH {
      AcceptSafe(s, job);
    } else {
      RingSame(s, EnqueueTake(s, job).0);
      QueuedSame(s, EnqueueTake(s, job).0);
    }
  }

  lemma {:induction false} OnePointer(job: Job)
    ensures Pointers([job]) == [job.data]
  {
  }

  lemma {:induction false} NoPointers()
    ensures Pointers([]) == []
  {
  }

  /** The ring alone decides what is queued. */
  lemma {:induction false} QueuedSame(s: Writer, s': Writer)
    requires |s.slots| == |s'.slots| == DEPTH && s.count <= DEPTH
    requires s.slots == s'.slots && s.head == s'.head && s.count == s'.count
    ensures Queued(s) == Queued(s')
  {
  }

  lemma {:induction false} TakeSafe(s: Writer)
    requires Safe(s) && s.worker.Awake? && s.count > 0
    ensures s.head < DEPTH && Safe(WorkStep(s))
  {
    hide Queued, Pointers, At, Ring;
    RingShape(s);
    var s', job := WorkStep(s), s.slots[s.head];
    PopRing(s);
    RingSame(PopJob(s), s');
    QueuedSame(PopJob(s), s');
    NoPointers();
    OnePointer(job);
    PointersConcat([job], Queued(s'));
    assert s.accepted == s.finished + [job] + Queued(s');
  }

  lemma {:induction false} FinishSafe(s: Writer)
    requires Safe(s) && s.worker.Busy?
    ensures s.head < DEPTH && Safe(WorkStep(s))
  {
    hide Queued, Pointers, At, Ring;
    RingShape(s);
    var s' := WorkStep(s);
    RingSame(s, s');
    QueuedSame(s, s');
    NoPointers();
    OnePointer(s.worker.job);
    assert s.accepted == s.finished + [s.worker.job] + Queued(s);
  }

  lemma {:induction false} WorkSafe(s: Writer)
    requires Safe(s)
    ensures s.head < DEPTH && Safe(WorkStep(s))
  {
    hide Queued, Pointers, At, Ring;
    RingShape(s);
    if s.worker.Busy? {
      FinishSafe(s);
    } else if s.worker.Awake? && s.count > 0 {
      TakeSafe(s);
    } else {
      RingSame(s, WorkStep(s));
      QueuedSame(s, WorkStep(s));
    }
  }

  lemma {:induction false} ClearedSlots(s: Writer)
    requires Ring(s) && s.count == 0
    ensures s.slots == INITIAL.slots && SlotsFreed(s.slots, DEPTH) == multiset{} && Queued(s) == []
  {
    forall k | 0 <= k < DEPTH
      ensures s.slots[k] == NO_JOB
    {
      var i := (k + DEPTH - s.head) % DEPTH;
      assert At(s.head, i) == k;
    }
    assert SlotsFreed(s.slots, 1) == multiset{};
    assert SlotsFreed(s.slots, 2) == multiset{};
    assert SlotsFreed(s.slots, 3) == multiset{};
  }

  /** Emptying an empty ring keeps it well formed wherever the head was. */
  lemma {:induction false} ResetRing(s: Writer, s': Writer)
    requires Ring(s) && s.count == 0 && s'.slots == INITIAL.slots && s'.head == s'.tail == s'.count == 0
    ensures Ring(s') && Queued(s') == []
  {
  }

  lemma {:induction false} OwnerSafe(s: Writer, a: Action)
    requires Safe(s) && !a.Enqueue? && !a.Work?
    ensures Safe(Act(s, a))
  {
    hide Queued, Pointers, At, SlotsFreed, Ring;
    RingShape(s);
    var s' := Act(s, a);
    NoPointers();
    if (a.InitBegin? && s.owner.Idle? && !s.started) || (a.DeinitReclaim? && s.owner.Joining? && s.worker.Returned?) {
      ClearedSlots(s);
      ResetRing(s, s');
    } else {
      RingSame(s, s');
      QueuedSame(s, s');
    }
  }

  lemma {:induction false} RingShape(s: Writer)
    requires Ring(s)
    ensures |s.slots| == DEPTH && s.head < DEPTH && s.count <= DEPTH && s.tail < DEPTH
  {
  }

  lemma {:induction false} RingSame(s: Writer, s': Writer)
    requires Ring(s) && s'.slots == s.slots && s'.head == s.head && s'.tail == s.tail && s'.count == s.count
    ensures Ring(s')
  {
  }

  lemma {:induction false} ActSafe(s: Writer, a: Action)
    requires Safe(s)
    ensures Safe(Act(s, a))
  {
    hide Safe, EnqueueTake, WorkStep;
    SafeShape(s);
    match a
    case Enqueue(job) => EnqueueSafe(s, job);
    case Work => WorkSafe(s);
    case _ => OwnerSafe(s, a);
  }

  lemma {:induction false} SafeShape(s: Writer)
    requires Safe(s)
    ensures |s.slots| == DEPTH && s.head < DEPTH && s.tail < DEPTH
  {
  }

  // ----- every interleaving -----

  function Run(actions: seq<Action>, n: nat): (s: Writer)
    requires n <= |actions|
    ensures |s.slots| == DEPTH && s.head < DEPTH && s.tail < DEPTH
  {
    if n == 0 then INITIAL else Act(Run(actions, n - 1), actions[n - 1])
  }

  /**
   * Over every interleaving: the ring stays well formed with at most four jobs, jobs accepted are finished
   * in the order they came in, none is lost or done twice, and every buffer passed in has exactly one owner.
   */
  lemma {:induction false} RunSafe(actions: seq<Action>, n: nat)
    requires n <= |actions|
    ensures Safe(Run(actions, n))
  {
    if n == 0 {
      assert Queued(INITIAL) == [];
      NoPointers();
    } else {
      hide Safe, Act;
      RunSafe(actions, n - 1);
      ActSafe(Run(actions, n - 1), actions[n - 1]);
    }
  }

  /** No buffer is ever freed more often than it was passed in. */
  lemma {:induction false} NeverFreedTwice(actions: seq<Action>, n: nat, p: Address)
    requires n <= |actions|
    ensures Run(actions, n).freed[p] <= Run(actions, n).passed[p]
  {
    hide Run;
    RunSafe(actions, n);
    assert Owned(Run(actions, n));
  }

  // ----- draining -----

  /** Worker steps still to come once stop is set: two for a queued job, one for a job in hand, one to return. */
  function Left(s: Writer): nat {
    2 * s.count + (if s.worker.Busy? then 1 else 0) + (if s.worker.Returned? then 0 else 1)
  }

  /** Once stop is set only the worker makes progress, and each of its steps is progress. */
  lemma {:induction false} StopProgress(s: Writer, a: Action)
    requires Safe(s) && s.stop && !s.worker.Returned?
    ensures var s' := Act(s, a);
            && s'.stop && s'.accepted == s.accepted
            && Left(s') == (if a.Work? then Left(s) - 1 else Left(s))
  {
    hide Fifo, Owned, Queued;
  }

  /** When the worker has returned everything accepted is finished and every buffer passed in has been freed. */
  lemma {:induction false} ReturnedMeansDrained(s: Writer)
    requires Safe(s) && s.worker.Returned?
    ensures s.finished == s.accepted && s.freed == s.passed
  {
    NoPointers();
    assert Queued(s) == [];
  }

  predicate DrainedAs(s: Writer, accepted: seq<Job>) {
    s.worker.Returned? && s.accepted == accepted && s.finished == accepted && s.freed == s.passed
  }

  function Works(actions: seq<Action>, n: nat, end: nat): nat
    requires n <= end <= |actions|
    decreases end - n
  {
    if n == end then 0 else (if actions[n].Work? then 1 else 0) + Works(actions, n + 1, end)
  }

  /**
   * Drain on stop: from a state with stop set, any interleaving that gives the worker enough steps reaches a
   * point where it has returned, all accepted jobs are finished and all buffers are freed.
   */
  lemma {:induction false} Drains(actions: seq<Action>, n: nat, end: nat)
    requires n <= end <= |actions|
    requires Run(actions, n).stop && Left(Run(actions, n)) <= Works(actions, n, end)
    ensures exists k :: n <= k <= end && DrainedAs(Run(actions, k), Run(actions, n).accepted)
    decreases end - n
  {
    hide Act, Safe;
    RunSafe(actions, n);
    var s := Run(actions, n);
    if s.worker.Returned? {
      ReturnedMeansDrained(s);
    } else {
      assert n < end;
      StopProgress(s, actions[n]);
      assert Run(actions, n + 1) == Act(s, actions[n]);
      Drains(actions, n + 1, end);
    }
  }

  /** After deinit nothing is left behind: the ring is empty and every buffer ever passed in has been freed. */
  lemma {:induction false} IdleMeansClean(actions: seq<Action>, n: nat)
    requires n <= |actions| && !Run(actions, n).started && Run(actions, n).owner.Idle?
    ensures var s := Run(actions, n);
            && s.finished == s.accepted && s.freed == s.passed
            && s.slots == INITIAL.slots == [Job(0, [], 0), Job(0, [], 0), Job(0, [], 0), Job(0, [], 0)]
  {
    hide Run;
    RunSafe(actions, n);
    var s := Run(actions, n);
    ClearedSlots(s);
    NoPointers();
  }

  // ----- what each step achieves, told without the ring -----

  /** How many accepted jobs are neither finished nor in the worker's hands. */
  function Waiting(s: Writer): int {
    |s.accepted| - |s.finished| - |InFlight(s.worker)|
  }

  lemma {:induction false} WaitingIs(s: Writer)
    requires Safe(s)
    ensures Waiting(s) == s.count
    ensures s.count > 0 ==> s.accepted[|s.finished|..][|InFlight(s.worker)|] == s.slots[s.head]
  {
    hide At;
    if s.count > 0 {
      assert At(s.head, 0) == s.head by {
        HeadFirst(s);
      }
      assert Queued(s)[0] == s.slots[s.head];
    }
  }

  lemma {:induction false} HeadFirst(s: Writer)
    requires Ring(s)
    ensures At(s.head, 0) == s.head
  {
  }

  /**
   * In every reachable state a job is accepted, and `true` returned, if and only if it is real, the writer is started
   * and not stopping, and fewer than four jobs wait. Otherwise its buffer is freed at once.
   */
  lemma {:induction false} EnqueueExactly(actions: seq<Action>, n: nat, job: Job)
    requires n <= |actions|
    ensures var s := Run(actions, n);
            var s' := Act(s, Enqueue(job));
            var takes := job.data != 0 && job.bytes != [] && s.started && !s.stop && Waiting(s) < 4;
            && EnqueueTake(s, job).1 == takes
            && s'.accepted == (if takes then s.accepted + [job] else s.accepted) && s'.finished == s.finished
            && s'.passed == (if job.data == 0 then s.passed else s.passed + multiset{job.data})
            && s'.freed == (if takes || job.data == 0 then s.freed else s.freed + multiset{job.data})
            && s'.started == s.started && s'.stop == s.stop && s'.owner == s.owner
  {
    hide Run, Ring, Fifo, Owned, Waiting, Queued;
    RunSafe(actions, n);
    WaitingIs(Run(actions, n));
  }

  /**
   * In every reachable state one worker step finishes and frees the job in hand, or takes the oldest waiting one, or,
   * when none waits, returns if told to stop and else goes to sleep.
   */
  lemma {:induction false} WorkExactly(actions: seq<Action>, n: nat)
    requires n <= |actions|
    ensures var s := Run(actions, n);
            var s' := Act(s, Work);
            && s'.accepted == s.accepted && s'.passed == s.passed && s'.started == s.started && s'.stop == s.stop
            && s'.owner == s.owner
            && (if s.worker.Busy? then
                  && s'.worker == Awake && s'.finished == s.finished + [s.worker.job]
                  && s'.freed == s.freed + multiset{s.worker.job.data}
                else
                  && s'.finished == s.finished && s'.freed == s.freed
                  && s'.worker ==
                     if !s.worker.Awake? then s.worker
                     else if Waiting(s) > 0 then Busy(s.accepted[|s.finished|])
                     else if s.stop then Returned else Asleep)
  {
    hide Run, Ring, Fifo, Owned, Waiting, Queued, At;
    RunSafe(actions, n);
    var s := Run(actions, n);
    WaitingIs(s);
    if s.worker.Awake? && Waiting(s) > 0 {
      OldestWaits(s);
    }
  }

  lemma {:induction false} OldestWaits(s: Writer)
    requires Safe(s) && s.worker.Awake? && Waiting(s) > 0
    ensures s.accepted[|s.finished|] == s.slots[s.head]
  {
    WaitingIs(s);
  }

  /** Init of a stopped writer starts it, with nothing waiting, if the worker can be created; otherwise it stays stopped. */
  lemma {:induction false} InitStarts(actions: seq<Action>, n: nat)
    requires n <= |actions| && Run(actions, n).owner.Idle? && !Run(actions, n).started
    ensures var s := Run(actions, n);
            var s', failed := Act(Act(s, InitBegin(true)), InitEnd), Act(s, InitBegin(false));
            && s'.started && !s'.stop && s'.owner.Idle? && s'.worker == Awake && Waiting(s') == 0
            && s'.accepted == s.accepted && s'.finished == s.finished && s'.freed == s.freed && s'.passed == s.passed
            && !failed.started && failed.owner.Idle? && failed.worker.Absent? && failed.freed == s.freed
  {
    hide Run, Ring, Owned, Queued;
    RunSafe(actions, n);
    var s := Run(actions, n);
    WaitingIs(s);
  }

  /** Deinit of a started writer sets stop and wakes the worker; of any other, and init of a started one, nothing changes. */
  lemma {:induction false} DeinitStops(actions: seq<Action>, n: nat)
    requires n <= |actions| && Run(actions, n).owner.Idle?
    ensures var s := Run(actions, n);
            var s' := Act(s, DeinitStop);
            && (s.started ==> && s'.stop && s'.started && s'.owner.Joining? && !s'.worker.Asleep?
                              && s'.accepted == s.accepted && s'.finished == s.finished)
            && (!s.started ==> s' == s)
            && (s.started ==> Act(s, InitBegin(true)) == Act(s, InitBegin(false)) == s)
  {
    hide Run;
  }

  /** Its second half waits for the worker, and then leaves a writer that can be started again and owns nothing. */
  lemma {:induction false} DeinitEnds(actions: seq<Action>, n: nat)
    requires n <= |actions| && Run(actions, n).owner.Joining?
    ensures var s := Run(actions, n);
            var s' := Act(s, DeinitReclaim);
            if !s.worker.Returned? then s' == s
            else && !s'.started && !s'.stop && s'.owner.Idle? && s'.worker.Absent? && s'.slots == INITIAL.slots
                 && s'.finished == s'.accepted == s.accepted && s'.freed == s'.passed == s.passed
  {
    hide Run, Ring, Queued, SlotsFreed;
    RunSafe(actions, n);
    var s := Run(actions, n);
    if s.worker.Returned? {
      ReturnedMeansDrained(s);
      ClearedSlots(s);
    }
  }
}
