/**
 * From the sender to the files: the snapshots a run hands over, put through the writer's queue under any
 * interleaving, are written once each and in order, except those the queue refuses.
 */
module SnapshotDelivery {
  import opened Bytes
  import opened Snapshot
  import opened SenderLoop
  import WriterQueue

  /** The jobs passed to enqueue by the first n steps, in order. */
  function Passed(actions: seq<WriterQueue.Action>, n: nat): seq<WriterQueue.Job>
    requires n <= |actions|
  {
    if n == 0 then []
    else Passed(actions, n - 1) + (if actions[n - 1].Enqueue? then [actions[n - 1].job] else [])
  }

  /** The first n of `a` appear in order among the first m of `b`. */
  predicate Within<T(==)>(a: seq<T>, n: nat, b: seq<T>, m: nat)
    requires n <= |a| && m <= |b|
    decreases m
  {
    n == 0 || (m > 0 && ((a[n - 1] == b[m - 1] && Within(a, n - 1, b, m - 1)) || Within(a, n, b, m - 1)))
  }

  lemma {:induction false} WithinMore<T>(a: seq<T>, n: nat, b: seq<T>, m: nat, x: seq<T>, y: seq<T>)
    requires n <= |a| && m <= |b|
    ensures Within(a + x, n, b + y, m) == Within(a, n, b, m)
    decreases m
  {
    if n > 0 && m > 0 {
      WithinMore(a, n - 1, b, m - 1, x, y);
      WithinMore(a, n, b, m - 1, x, y);
    }
  }

  lemma {:induction false} WithinFewer<T>(a: seq<T>, n: nat, k: nat, b: seq<T>, m: nat)
    requires k <= n <= |a| && m <= |b| && Within(a, n, b, m)
    ensures Within(a, k, b, m)
    decreases m, n
  {
    if 0 < k < n {
      if a[n - 1] == b[m - 1] && Within(a, n - 1, b, m - 1) {
        WithinFewer(a, n - 1, k, b, m - 1);
      } else {
        WithinFewer(a, n, k, b, m - 1);
      }
    }
  }

  lemma {:induction false} ActAccepts(s: WriterQueue.Writer, e: WriterQueue.Action)
    requires |s.slots| == WriterQueue.DEPTH && s.head < WriterQueue.DEPTH && s.tail < WriterQueue.DEPTH
    ensures var a := WriterQueue.Act(s, e).accepted; a == s.accepted || (e.Enqueue? && a == s.accepted + [e.job])
  {
    hide WriterQueue.SlotsFreed, WriterQueue.Freed;
  }

  lemma {:induction false} AcceptedStep(s: WriterQueue.Writer, e: WriterQueue.Action, b: seq<WriterQueue.Job>)
    requires |s.slots| == WriterQueue.DEPTH && s.head < WriterQueue.DEPTH && s.tail < WriterQueue.DEPTH
    requires Within(s.accepted, |s.accepted|, b, |b|)
    ensures var a, more := WriterQueue.Act(s, e).accepted, b + (if e.Enqueue? then [e.job] else []);
            Within(a, |a|, more, |more|)
  {
    hide WriterQueue.Act, Within;
    ActAccepts(s, e);
    if e.Enqueue? {
      OneMore(s.accepted, b, e.job);
    } else {
      assert b + [] == b;
    }
  }

  /** Jobs are accepted in the order they are passed, and nothing else is. */
  lemma {:induction false} AcceptedWithin(actions: seq<WriterQueue.Action>, n: nat)
    requires n <= |actions|
    ensures var a, b := WriterQueue.Run(actions, n).accepted, Passed(actions, n); Within(a, |a|, b, |b|)
  {
    hide WriterQueue.Act, Within;
    if n > 0 {
      AcceptedWithin(actions, n - 1);
      AcceptedStep(WriterQueue.Run(actions, n - 1), actions[n - 1], Passed(actions, n - 1));
    } else {
      NoneWithin<WriterQueue.Job>();
    }
  }

  lemma {:induction false} NoneWithin<T>()
    ensures Within<T>([], 0, [], 0)
  {
  }

  lemma {:induction false} OneMore<T>(a: seq<T>, b: seq<T>, x: T)
    requires Within(a, |a|, b, |b|)
    ensures Within(a, |a|, b + [x], |b| + 1) && Within(a + [x], |a| + 1, b + [x], |b| + 1)
  {
    WithinMore(a, |a|, b, |b|, [], [x]);
    WithinMore(a, |a|, b, |b|, [x], [x]);
    assert a + [] == a;
  }

  /** The snapshot a job stands for. */
  predicate Carries(job: WriterQueue.Job, shot: Shot) {
    job.bytes == shot.bytes && job.pts == shot.pts
  }

  /** The jobs passed are the snapshots handed over. */
  ghost predicate PassesOn(actions: seq<WriterQueue.Action>, n: nat, shots: seq<Shot>)
    requires n <= |actions|
  {
    |Passed(actions, n)| == |shots| && forall i :: 0 <= i < |shots| ==> Carries(Passed(actions, n)[i], shots[i])
  }

  /** What was written, as bytes. */
  function Written(jobs: seq<WriterQueue.Job>): (r: seq<seq<byte>>)
    ensures |r| == |jobs|
  {
    seq(|jobs|, i requires 0 <= i < |jobs| => jobs[i].bytes)
  }

  function ShotBytes(shots: seq<Shot>): (r: seq<seq<byte>>)
    ensures |r| == |shots|
  {
    seq(|shots|, i requires 0 <= i < |shots| => shots[i].bytes)
  }

  lemma {:induction false} WithinBytes(a: seq<WriterQueue.Job>, n: nat, b: seq<WriterQueue.Job>, m: nat)
    requires n <= |a| && m <= |b| && Within(a, n, b, m)
    ensures Within(Written(a), n, Written(b), m)
    decreases m
  {
    if n > 0 {
      if a[n - 1] == b[m - 1] && Within(a, n - 1, b, m - 1) {
        WithinBytes(a, n - 1, b, m - 1);
      } else {
        WithinBytes(a, n, b, m - 1);
      }
    }
  }

  lemma {:induction false} FinishedFirst(actions: seq<WriterQueue.Action>, m: nat)
    requires m <= |actions|
    ensures var s := WriterQueue.Run(actions, m); s.finished <= s.accepted
  {
    hide WriterQueue.Run, WriterQueue.Queued;
    WriterQueue.RunSafe(actions, m);
    assert WriterQueue.Fifo(WriterQueue.Run(actions, m));
  }

  /**
   * Every snapshot written is one the run handed over, each at most once and in that order, under any interleaving
   * of sender and writer; and once the worker has returned, if the queue refused none, all of them are written.
   */
  lemma {:induction false} SnapshotsWritten(w: World, n: nat, actions: seq<WriterQueue.Action>, m: nat)
    requires m <= |actions| && PassesOn(actions, m, Run(w, n).shots)
    ensures var s, shots := WriterQueue.Run(actions, m), ShotBytes(Run(w, n).shots);
            && Within(Written(s.finished), |s.finished|, shots, |shots|)
            && (s.worker.Returned? && |s.accepted| == |shots| ==> Written(s.finished) == shots)
  {
    hide Run, WriterQueue.Run, Within;
    var s, b := WriterQueue.Run(actions, m), Passed(actions, m);
    AcceptedWithin(actions, m);
    FinishedFirst(actions, m);
    WithinPrefix(s.finished, s.accepted, b);
    WithinBytes(s.finished, |s.finished|, b, |b|);
    assert Written(b) == ShotBytes(Run(w, n).shots);
    if s.worker.Returned? && |s.accepted| == |b| {
      WriterQueue.RunSafe(actions, m);
      WriterQueue.ReturnedMeansDrained(s);
      AllWithin(s.accepted, |b|, b);
    }
  }

  lemma {:induction false} WithinPrefix(a: seq<WriterQueue.Job>, more: seq<WriterQueue.Job>, b: seq<WriterQueue.Job>)
    requires a <= more && Within(more, |more|, b, |b|)
    ensures Within(a, |a|, b, |b|)
  {
    WithinFewer(more, |more|, |a|, b, |b|);
    assert more == a + more[|a|..] && b == b + [];
    WithinMore(a, |a|, b, |b|, more[|a|..], []);
  }

  /** As many, in order, is all. */
  lemma {:induction false} AllWithin(a: seq<WriterQueue.Job>, n: nat, b: seq<WriterQueue.Job>)
    requires n <= |a| && n <= |b| && Within(a, n, b, n)
    ensures a[..n] == b[..n]
  {
    if n > 0 {
      if Within(a, n, b, n - 1) {
        TooMany(a, n, b, n - 1);
      }
      AllWithin(a, n - 1, b);
      assert a[..n] == a[..n - 1] + [a[n - 1]] && b[..n] == b[..n - 1] + [b[n - 1]];
    }
  }

  lemma {:induction false} TooMany<T>(a: seq<T>, n: nat, b: seq<T>, m: nat)
    requires n <= |a| && m <= |b| && m < n
    ensures !Within(a, n, b, m)
    decreases m
  {
    if m > 0 {
      TooMany(a, n - 1, b, m - 1);
      TooMany(a, n, b, m - 1);
    }
  }
}
