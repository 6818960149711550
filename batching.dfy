/** Phase 2 of the scheduler: one greedy pass over the priority-sorted jobs.
    A job joins the open batch while both capacity limits hold; otherwise the
    open batch is closed and the job starts a new one on its own, whatever its
    volume. A batch takes as long as its slowest member, and the total time is
    the sum over the batches. */
module Batching {
  import opened PrintJobs

  /** Total volume of a batch. */
  function Volume(b: seq<Job>): int
  {
    if b == [] then 0 else Volume(b[..|b| - 1]) + b[|b| - 1].volume
  }

  /** The print times of a batch's members, in order. */
  function Times(b: seq<Job>): (ts: seq<int>)
    ensures |ts| == |b|
  {
    if b == [] then [] else Times(b[..|b| - 1]) + [b[|b| - 1].printTime]
  }

  /** The largest element of a non-empty list of times. */
  function Max(ts: seq<int>): (m: int)
    requires ts != []
    ensures forall k :: 0 <= k < |ts| ==> ts[k] <= m
    ensures exists k :: 0 <= k < |ts| && ts[k] == m
  {
    if |ts| == 1 then ts[0]
    else
      var m' := Max(ts[..|ts| - 1]);
      if m' < ts[|ts| - 1] then ts[|ts| - 1] else m'
  }

  /** `max(ts, default=0)`: the largest time, or 0 for no times at all. */
  function MaxOrZero(ts: seq<int>): int
  {
    if ts == [] then 0 else Max(ts)
  }

  /** Completion time of a batch: that of its slowest member. */
  function BatchTime(b: seq<Job>): int
  {
    MaxOrZero(Times(b))
  }

  /** Job `x` may join the open batch `b`: the volume and the item count after
      adding it stay within the limits. */
  predicate Fits(b: seq<Job>, x: Job, c: Constraints)
  {
    Volume(b) + x.volume <= c.maxVolume && |b| + 1 <= c.maxItems
  }

  /** The batches formed from `jobs` when `current` is the open batch. */
  function GreedyFrom(jobs: seq<Job>, c: Constraints, current: seq<Job>): seq<seq<Job>>
    decreases |jobs|
  {
    if jobs == [] then
      if current == [] then [] else [current]
    else if Fits(current, jobs[0], c) then
      GreedyFrom(jobs[1..], c, current + [jobs[0]])
    else
      (if current == [] then [] else [current]) + GreedyFrom(jobs[1..], c, [jobs[0]])
  }

  /** The batches the greedy pass forms from `jobs`, starting with no open
      batch. Closing an empty batch adds nothing, so every batch listed here
      has a member. */
  function Batches(jobs: seq<Job>, c: Constraints): seq<seq<Job>>
  {
    GreedyFrom(jobs, c, [])
  }

  /** The batches laid end to end. */
  function Flatten(bs: seq<seq<Job>>): seq<Job>
  {
    if bs == [] then [] else Flatten(bs[..|bs| - 1]) + bs[|bs| - 1]
  }

  /** The sum of the batches' completion times. */
  function TotalTime(bs: seq<seq<Job>>): int
  {
    if bs == [] then 0 else TotalTime(bs[..|bs| - 1]) + BatchTime(bs[|bs| - 1])
  }

  /** A batch the pass can form: it has a first member, and every later member
      fitted the members before it. */
  predicate ValidBatch(b: seq<Job>, c: Constraints)
  {
    b != [] && forall j :: 1 <= j < |b| ==> Fits(b[..j], b[j], c)
  }

  /** An independent description of the greedy pass: `bs` splits `jobs`
      without reordering them into valid batches, and no batch could have
      taken the first member of the batch after it. */
  predicate IsGreedyPartition(bs: seq<seq<Job>>, jobs: seq<Job>, c: Constraints)
  {
    && Flatten(bs) == jobs
    && (forall k :: 0 <= k < |bs| ==> ValidBatch(bs[k], c))
    && (forall k :: 0 <= k < |bs| - 1 ==> !Fits(bs[k], bs[k + 1][0], c))
  }

  lemma {:induction false} TimesAt(b: seq<Job>, k: nat)
    requires k < |b|
    ensures Times(b)[k] == b[k].printTime
  {
    if k < |b| - 1 {
      TimesAt(b[..|b| - 1], k);
    }
  }

  lemma VolumeAppend(b: seq<Job>, x: Job)
    ensures Volume(b + [x]) == Volume(b) + x.volume
  {
    assert (b + [x])[..|b|] == b;
  }

  lemma TimesAppend(b: seq<Job>, x: Job)
    ensures Times(b + [x]) == Times(b) + [x.printTime]
  {
    assert (b + [x])[..|b|] == b;
  }

  lemma TotalTimeAppend(bs: seq<seq<Job>>, b: seq<Job>)
    ensures TotalTime(bs + [b]) == TotalTime(bs) + BatchTime(b)
  {
    assert (bs + [b])[..|bs|] == bs;
  }

  /** The batches closed so far, once the open batch `b` is closed too. */
  function Close(bs: seq<seq<Job>>, b: seq<Job>): (r: seq<seq<Job>>)
    ensures TotalTime(r) == TotalTime(bs) + BatchTime(b)
  {
    TotalTimeAppend(bs, b);
    if b == [] then bs else bs + [b]
  }

  /** One step of the pass, on the job at position `i`. */
  lemma GreedyStep(jobs: seq<Job>, i: nat, c: Constraints, current: seq<Job>)
    requires i < |jobs|
    ensures GreedyFrom(jobs[i..], c, current) ==
            if Fits(current, jobs[i], c) then GreedyFrom(jobs[i + 1..], c, current + [jobs[i]])
            else (if current == [] then [] else [current]) + GreedyFrom(jobs[i + 1..], c, [jobs[i]])
  {
    assert jobs[i..][0] == jobs[i] && jobs[i..][1..] == jobs[i + 1..];
  }

  /** The loop's view of GreedyStep when the job at `i` joins `current`. */
  lemma JoinStep(jobs: seq<Job>, i: nat, c: Constraints, closed: seq<seq<Job>>, current: seq<Job>)
    requires i < |jobs| && Fits(current, jobs[i], c)
    requires closed + GreedyFrom(jobs[i..], c, current) == Batches(jobs, c)
    ensures closed + GreedyFrom(jobs[i + 1..], c, current + [jobs[i]]) == Batches(jobs, c)
  {
    GreedyStep(jobs, i, c, current);
  }

  /** The loop's view of GreedyStep when the job at `i` starts a new batch. */
  lemma CloseStep(jobs: seq<Job>, i: nat, c: Constraints, closed: seq<seq<Job>>, current: seq<Job>)
    requires i < |jobs| && !Fits(current, jobs[i], c)
    requires closed + GreedyFrom(jobs[i..], c, current) == Batches(jobs, c)
    ensures Close(closed, current) + GreedyFrom(jobs[i + 1..], c, [jobs[i]]) == Batches(jobs, c)
  {
    GreedyStep(jobs, i, c, current);
  }

  // ---------------------------------------------------------------------
  // The greedy pass forms exactly the greedy partition.

  lemma {:induction false} FlattenHead(bs: seq<seq<Job>>)
    requires bs != []
    ensures Flatten(bs) == bs[0] + Flatten(bs[1..])
  {
    if |bs| > 1 {
      var n := |bs|;
      FlattenHead(bs[..n - 1]);
      assert bs[..n - 1][1..] == bs[1..][..n - 2];
      assert bs[1..][n - 2] == bs[n - 1];
    }
  }

  /** Taking a batch off the front of a greedy partition leaves a greedy
      partition of the remaining jobs. */
  lemma PartitionTail(bs: seq<seq<Job>>, jobs: seq<Job>, c: Constraints)
    requires IsGreedyPartition(bs, jobs, c) && bs != []
    ensures jobs == bs[0] + Flatten(bs[1..])
    ensures IsGreedyPartition(bs[1..], Flatten(bs[1..]), c)
  {
    FlattenHead(bs);
    forall k | 0 <= k < |bs| - 2 ensures !Fits(bs[1..][k], bs[1..][k + 1][0], c) {
      assert bs[1..][k] == bs[k + 1] && bs[1..][k + 1] == bs[k + 2];
    }
  }

  /** Nothing but the empty list of batches partitions no jobs. */
  lemma PartitionOfNothing(bs: seq<seq<Job>>, c: Constraints)
    requires IsGreedyPartition(bs, [], c)
    ensures bs == []
  {
    if bs != [] {
      FlattenHead(bs);
      assert false;
    }
  }

  /** A job that fits extends a valid (or still empty) open batch to a valid
      batch. */
  lemma ExtendValid(b: seq<Job>, x: Job, c: Constraints)
    requires b == [] || ValidBatch(b, c)
    requires Fits(b, x, c)
    ensures ValidBatch(b + [x], c)
  {
    forall j | 1 <= j < |b| + 1 ensures Fits((b + [x])[..j], (b + [x])[j], c) {
      if j < |b| {
        assert (b + [x])[..j] == b[..j] && (b + [x])[j] == b[j];
      } else {
        assert (b + [x])[..j] == b;
      }
    }
  }

  /** A partition whose first batch begins with the first of `jobs`. */
  predicate HeadsWith(bs: seq<seq<Job>>, jobs: seq<Job>)
  {
    jobs != [] ==> bs != [] && bs[0] != [] && bs[0][0] == jobs[0]
  }

  /** What the pass forms from an open batch `current` and the jobs still to
      come is a greedy partition of all of them, and its first batch starts
      with the first of them. */
  lemma {:induction false} GreedyFromIsPartition(jobs: seq<Job>, c: Constraints, current: seq<Job>)
    requires current == [] || ValidBatch(current, c)
    ensures IsGreedyPartition(GreedyFrom(jobs, c, current), current + jobs, c)
    ensures HeadsWith(GreedyFrom(jobs, c, current), current + jobs)
    decreases |jobs|
  {
    if jobs == [] {
      EndPartition(c, current);
    } else if Fits(current, jobs[0], c) {
      ExtendValid(current, jobs[0], c);
      GreedyFromIsPartition(jobs[1..], c, current + [jobs[0]]);
      assert current + [jobs[0]] + jobs[1..] == current + jobs;
    } else {
      GreedyFromIsPartition(jobs[1..], c, [jobs[0]]);
      ClosePartition(jobs, c, current);
    }
  }

  lemma EndPartition(c: Constraints, current: seq<Job>)
    requires current == [] || ValidBatch(current, c)
    ensures IsGreedyPartition(GreedyFrom([], c, current), current, c)
    ensures HeadsWith(GreedyFrom([], c, current), current)
  {
    if current != [] {
      assert [current][..0] == [];
      assert Flatten([current]) == Flatten([]) + current;
    }
  }

  lemma ClosePartition(jobs: seq<Job>, c: Constraints, current: seq<Job>)
    requires current == [] || ValidBatch(current, c)
    requires jobs != [] && !Fits(current, jobs[0], c)
    requires IsGreedyPartition(GreedyFrom(jobs[1..], c, [jobs[0]]), [jobs[0]] + jobs[1..], c)
    requires HeadsWith(GreedyFrom(jobs[1..], c, [jobs[0]]), [jobs[0]] + jobs[1..])
    ensures IsGreedyPartition(GreedyFrom(jobs, c, current), current + jobs, c)
    ensures HeadsWith(GreedyFrom(jobs, c, current), current + jobs)
  {
    var rest := GreedyFrom(jobs[1..], c, [jobs[0]]);
    assert [jobs[0]] + jobs[1..] == jobs;
    if current != [] {
      assert GreedyFrom(jobs, c, current) == [current] + rest;
      ConsPartition(current, rest, jobs, c);
    } else {
      assert GreedyFrom(jobs, c, current) == rest;
      assert current + jobs == jobs;
    }
  }

  /** A closed batch that could not take the next job, in front of a greedy
      partition of the jobs after it, is a greedy partition of them all. */
  lemma ConsPartition(b: seq<Job>, rest: seq<seq<Job>>, jobs: seq<Job>, c: Constraints)
    requires ValidBatch(b, c) && IsGreedyPartition(rest, jobs, c)
    requires jobs != [] && HeadsWith(rest, jobs) && !Fits(b, jobs[0], c)
    ensures IsGreedyPartition([b] + rest, b + jobs, c)
    ensures HeadsWith([b] + rest, b + jobs)
  {
    var bs := [b] + rest;
    FlattenHead(bs);
    assert bs[1..] == rest;
    forall k | 0 <= k < |bs| ensures ValidBatch(bs[k], c) {
      if k > 0 { assert bs[k] == rest[k - 1]; }
    }
    forall k | 0 <= k < |bs| - 1 ensures !Fits(bs[k], bs[k + 1][0], c) {
      if k > 0 { assert bs[k] == rest[k - 1] && bs[k + 1] == rest[k]; }
    }
  }

  /** The batches the pass forms are a greedy partition of the jobs. */
  lemma BatchesArePartition(jobs: seq<Job>, c: Constraints)
    ensures IsGreedyPartition(Batches(jobs, c), jobs, c)
  {
    GreedyFromIsPartition(jobs, c, []);
    assert [] + jobs == jobs;
  }

  /** The prefix condition under which GreedyFromUnique applies: the first
      batch begins with the open batch `current`. */
  predicate StartsWith(bs: seq<seq<Job>>, current: seq<Job>)
  {
    current != [] ==> bs != [] && |current| <= |bs[0]| && bs[0][..|current|] == current
  }

  /** A greedy partition of the open batch `current` and the jobs still to
      come, whose first batch begins with `current`, is what the pass forms. */
  lemma {:induction false} GreedyFromUnique(bs: seq<seq<Job>>, jobs: seq<Job>, c: Constraints, current: seq<Job>)
    requires IsGreedyPartition(bs, current + jobs, c) && StartsWith(bs, current)
    ensures bs == GreedyFrom(jobs, c, current)
    decreases |jobs|
  {
    if jobs == [] {
      UniqueAtEnd(bs, c, current);
    } else {
      var x := jobs[0];
      assert current + jobs == (current + [x]) + jobs[1..];
      assert [x] + jobs[1..] == jobs;
      if current == [] {
        StartPrefix(bs, jobs, c);
        GreedyFromUnique(bs, jobs[1..], c, [x]);
        if Fits(current, x, c) {
          assert current + [x] == [x];
        }
      } else if Fits(current, x, c) {
        JoinPrefix(bs, current, jobs, c);
        GreedyFromUnique(bs, jobs[1..], c, current + [x]);
      } else {
        ClosePrefix(bs, current, jobs, c);
        GreedyFromUnique(bs[1..], jobs[1..], c, [x]);
        assert bs == [current] + bs[1..];
      }
    }
  }

  lemma UniqueAtEnd(bs: seq<seq<Job>>, c: Constraints, current: seq<Job>)
    requires IsGreedyPartition(bs, current, c) && StartsWith(bs, current)
    ensures bs == GreedyFrom([], c, current)
  {
    if current == [] {
      PartitionOfNothing(bs, c);
    } else {
      PartitionTail(bs, current, c);
      assert bs[0] == current;
      assert Flatten(bs[1..]) == [];
      PartitionOfNothing(bs[1..], c);
      assert bs == [bs[0]] + bs[1..];
    }
  }

  lemma StartPrefix(bs: seq<seq<Job>>, jobs: seq<Job>, c: Constraints)
    requires IsGreedyPartition(bs, jobs, c) && jobs != []
    ensures StartsWith(bs, [jobs[0]])
  {
    PartitionHead(bs, jobs, c);
    assert ValidBatch(bs[0], c);
  }

  /** When the next job fits the open batch, the first batch goes on past the
      open batch with that job. */
  lemma JoinPrefix(bs: seq<seq<Job>>, current: seq<Job>, jobs: seq<Job>, c: Constraints)
    requires IsGreedyPartition(bs, current + jobs, c) && StartsWith(bs, current)
    requires current != [] && jobs != [] && Fits(current, jobs[0], c)
    ensures StartsWith(bs, current + [jobs[0]])
  {
    PartitionTail(bs, current + jobs, c);
    var tail := Flatten(bs[1..]);
    if |bs[0]| == |current| {
      assert bs[0] == current;
      assert tail == (current + jobs)[|current|..] == jobs;
      PartitionHead(bs[1..], tail, c);
      assert false;
    }
    assert bs[0][|current|] == (current + jobs)[|current|] == jobs[0];
    assert bs[0][..|current| + 1] == current + [jobs[0]];
  }

  /** When the next job does not fit the open batch, the first batch is the
      open batch and the next batch starts with that job. */
  lemma ClosePrefix(bs: seq<seq<Job>>, current: seq<Job>, jobs: seq<Job>, c: Constraints)
    requires IsGreedyPartition(bs, current + jobs, c) && StartsWith(bs, current)
    requires current != [] && jobs != [] && !Fits(current, jobs[0], c)
    ensures bs[0] == current
    ensures IsGreedyPartition(bs[1..], jobs, c) && StartsWith(bs[1..], [jobs[0]])
  {
    PartitionTail(bs, current + jobs, c);
    var tail := Flatten(bs[1..]);
    var next := (bs[0] + tail)[|current|];
    assert next == jobs[0];
    if |bs[0]| > |current| {
      assert false;
    }
    assert bs[0] == current;
    assert tail == (current + jobs)[|current|..] == jobs;
    StartPrefix(bs[1..], jobs, c);
  }

  /** A greedy partition of some jobs has a first batch, which starts with the
      first job. */
  lemma PartitionHead(bs: seq<seq<Job>>, jobs: seq<Job>, c: Constraints)
    requires IsGreedyPartition(bs, jobs, c) && jobs != []
    ensures bs != [] && bs[0][0] == jobs[0]
  {
    assert bs != [];
    FlattenHead(bs);
  }

  /** The greedy partition is unique: it is the one the pass forms. */
  lemma PartitionIsBatches(bs: seq<seq<Job>>, jobs: seq<Job>, c: Constraints)
    requires IsGreedyPartition(bs, jobs, c)
    ensures bs == Batches(jobs, c)
  {
    assert [] + jobs == jobs;
    GreedyFromUnique(bs, jobs, c, []);
  }

  // ---------------------------------------------------------------------
  // Capacity and time bounds.

  /** A batch holds at most `maxItems` jobs (or one, if `maxItems` is below
      one), and its volume stays within `maxVolume` unless it is a single job
      that is too large on its own. */
  lemma ValidBatchBounds(b: seq<Job>, c: Constraints)
    requires ValidBatch(b, c)
    ensures |b| <= c.maxItems || |b| == 1
    ensures Volume(b) <= c.maxVolume || (|b| == 1 && b[0].volume > c.maxVolume)
  {
    if |b| > 1 {
      assert Fits(b[..|b| - 1], b[|b| - 1], c);
    }
  }

  /** Every batch the pass forms respects the capacity limits, with the one
      exception of an oversized job printed alone. */
  lemma BatchesRespectCapacity(jobs: seq<Job>, c: Constraints)
    ensures forall k :: 0 <= k < |Batches(jobs, c)| ==>
      var b := Batches(jobs, c)[k];
      && b != []
      && (|b| <= c.maxItems || |b| == 1)
      && (Volume(b) <= c.maxVolume || (|b| == 1 && b[0].volume > c.maxVolume))
  {
    var bs := Batches(jobs, c);
    BatchesArePartition(jobs, c);
    forall k | 0 <= k < |bs|
      ensures |bs[k]| <= c.maxItems || |bs[k]| == 1
      ensures Volume(bs[k]) <= c.maxVolume || (|bs[k]| == 1 && bs[k][0].volume > c.maxVolume)
    {
      ValidBatchBounds(bs[k], c);
    }
  }

  /** A member's print time never exceeds its batch's time. */
  lemma BatchTimeBoundsMember(b: seq<Job>, x: Job)
    requires x in b
    ensures x.printTime <= BatchTime(b)
  {
    var k :| 0 <= k < |b| && b[k] == x;
    TimesAt(b, k);
  }

  /** With non-negative print times, a batch's time lies between 0 and the
      sum of its members' times. */
  lemma BatchTimeBelowSum(b: seq<Job>)
    requires forall x :: x in b ==> x.printTime >= 0
    ensures 0 <= BatchTime(b) <= SumTimes(b)
  {
    if b != [] {
      var k :| 0 <= k < |Times(b)| && Times(b)[k] == BatchTime(b);
      assert |Times(b)| == |b|;
      TimesAt(b, k);
      MemberBelowSum(b, k);
    }
  }

  lemma {:induction false} MemberBelowSum(b: seq<Job>, k: nat)
    requires forall x :: x in b ==> x.printTime >= 0
    requires k < |b|
    ensures b[k].printTime <= SumTimes(b)
  {
    if k > 0 {
      MemberBelowSum(b[1..], k - 1);
    } else if |b| > 1 {
      assert b[1..][0] in b;
      MemberBelowSum(b[1..], 0);
    }
  }

  /** With non-negative print times, the total time is at least every job's
      print time and at most the sum of all of them. */
  lemma {:induction false} TotalTimeBounds(bs: seq<seq<Job>>)
    requires forall x :: x in Flatten(bs) ==> x.printTime >= 0
    ensures forall x :: x in Flatten(bs) ==> x.printTime <= TotalTime(bs)
    ensures 0 <= TotalTime(bs) <= SumTimes(Flatten(bs))
  {
    if bs != [] {
      var init, last := bs[..|bs| - 1], bs[|bs| - 1];
      assert Flatten(bs) == Flatten(init) + last;
      TotalTimeBounds(init);
      BatchTimeBelowSum(last);
      SumTimesConcat(Flatten(init), last);
      forall x | x in Flatten(bs) ensures x.printTime <= TotalTime(bs) {
        if x in last {
          BatchTimeBoundsMember(last, x);
        }
      }
    }
  }

  /** The same bounds for the batches the pass forms from `jobs`. */
  lemma BatchesTotalTimeBounds(jobs: seq<Job>, c: Constraints)
    requires forall x :: x in jobs ==> x.printTime >= 0
    ensures forall x :: x in jobs ==> x.printTime <= TotalTime(Batches(jobs, c))
    ensures TotalTime(Batches(jobs, c)) <= SumTimes(jobs)
  {
    BatchesArePartition(jobs, c);
    TotalTimeBounds(Batches(jobs, c));
  }

  /** After the last job, closing the open batch completes the partition. */
  lemma FinishStep(jobs: seq<Job>, c: Constraints, closed: seq<seq<Job>>, current: seq<Job>)
    requires closed + GreedyFrom(jobs[|jobs|..], c, current) == Batches(jobs, c)
    ensures TotalTime(Batches(jobs, c)) == TotalTime(closed) + BatchTime(current)
  {
    assert jobs[|jobs|..] == [];
    if current == [] {
      assert closed + [] == closed;
    } else {
      TotalTimeAppend(closed, current);
    }
  }

  // ---------------------------------------------------------------------
  // The greedy pass as the source runs it.

  /** The batching loop with its running volume, item count and list of
      print times. It appends every job's identifier in turn and adds each
      closed batch's maximum time to the total. */
  method BatchJobs(jobs: seq<Job>, c: Constraints) returns (printOrder: seq<string>, totalTime: int)
    ensures printOrder == Ids(jobs)
    ensures totalTime == TotalTime(Batches(jobs, c))
  {
    printOrder := [];
    totalTime := 0;
    var currentVolume := 0;
    var currentItems := 0;
    var batchTimes: seq<int> := [];
    ghost var closed: seq<seq<Job>> := [];
    ghost var current: seq<Job> := [];
    for i := 0 to |jobs|
      invariant printOrder == Ids(jobs[..i])
      invariant currentItems == |batchTimes| == |current|
      invariant currentVolume == Volume(current)
      invariant batchTimes == Times(current)
      invariant totalTime == TotalTime(closed)
      invariant closed + GreedyFrom(jobs[i..], c, current) == Batches(jobs, c)
    {
      var job := jobs[i];
      IdsAppend(jobs[..i], job);
      assert jobs[..i + 1] == jobs[..i] + [job];
      if currentVolume + job.volume <= c.maxVolume && currentItems + 1 <= c.maxItems {
        // the job joins the open batch
        JoinStep(jobs, i, c, closed, current);
        printOrder := printOrder + [job.id];
        currentVolume := currentVolume + job.volume;
        currentItems := currentItems + 1;
        batchTimes := batchTimes + [job.printTime];
        VolumeAppend(current, job);
        TimesAppend(current, job);
        current := current + [job];
      } else {
        // close the open batch, then start a new one with this job
        CloseStep(jobs, i, c, closed, current);
        totalTime := totalTime + MaxOrZero(batchTimes);
        closed := Close(closed, current);
        batchTimes := [];
        currentVolume := 0;
        currentItems := 0;

        printOrder := printOrder + [job.id];
        currentVolume := job.volume;
        currentItems := 1;
        batchTimes := batchTimes + [job.printTime];
        VolumeAppend([], job);
        TimesAppend([], job);
        current := [job];
      }
    }
    assert jobs[..|jobs|] == jobs;
    FinishStep(jobs, c, closed, current);
    if batchTimes != [] {
      totalTime := totalTime + Max(batchTimes);
    }
  }
}
