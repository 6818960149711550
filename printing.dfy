/** The whole scheduler, optimize_printing: sort the jobs stably by priority,
    then batch them greedily, and report the identifiers in print order with
    the total print time. */
module Printing {
  import opened PrintJobs
  import opened Ordering
  import opened Batching

  /** What the scheduler returns: the identifiers in dispatch order and the
      estimated total time. */
  datatype PrintResult = PrintResult(printOrder: seq<string>, totalTime: int)

  /** The scheduler's result as a function of its inputs. */
  function Schedule(jobs: seq<Job>, c: Constraints): PrintResult
  {
    var sorted := SortByPriority(jobs);
    PrintResult(Ids(sorted), TotalTime(Batches(sorted, c)))
  }

  /** Sorts the jobs once, then runs the batching loop over them once. */
  method OptimizePrinting(jobs: seq<Job>, c: Constraints) returns (r: PrintResult)
    ensures r == Schedule(jobs, c)
    ensures |r.printOrder| == |jobs|
    ensures multiset(r.printOrder) == multiset(Ids(jobs))
  {
    var sorted := SortByPriority(jobs);
    var printOrder, totalTime := BatchJobs(sorted, c);
    r := PrintResult(printOrder, totalTime);
    ScheduleKeepsIds(jobs, c);
  }

  /** Every submitted identifier is in the print order exactly as often as it
      was submitted: none is lost, duplicated or invented. */
  lemma ScheduleKeepsIds(jobs: seq<Job>, c: Constraints)
    ensures |Schedule(jobs, c).printOrder| == |jobs|
    ensures multiset(Schedule(jobs, c).printOrder) == multiset(Ids(jobs))
  {
    var sorted := SortByPriority(jobs);
    assert |multiset(sorted)| == |sorted| && |multiset(jobs)| == |jobs|;
    SortKeepsIds(jobs);
  }

  /** The result is that of batching any stable priority order of the jobs:
      any sequence sorted by priority that keeps each priority's jobs in input
      order. So the print order lists the jobs by non-decreasing priority,
      equal priorities in input order, and batching never reorders them. */
  lemma ScheduleFollowsStableOrder(jobs: seq<Job>, c: Constraints, sorted: seq<Job>)
    requires SortedByPriority(sorted)
    requires forall p :: WithPriority(sorted, p) == WithPriority(jobs, p)
    ensures Schedule(jobs, c).printOrder == Ids(sorted) == Ids(Flatten(Batches(sorted, c)))
    ensures Schedule(jobs, c).totalTime == TotalTime(Batches(sorted, c))
  {
    SortByPriorityIsTheStableSort(jobs, sorted);
    BatchesArePartition(sorted, c);
  }

  /** The total time is the sum of the completion times of a greedy
      partition of the priority-sorted jobs, which is unique. */
  lemma ScheduleTotalIsGreedyPartition(jobs: seq<Job>, c: Constraints, bs: seq<seq<Job>>)
    requires IsGreedyPartition(bs, SortByPriority(jobs), c)
    ensures Schedule(jobs, c).totalTime == TotalTime(bs)
  {
    PartitionIsBatches(bs, SortByPriority(jobs), c);
  }

  /** With non-negative print times, the total time is at least the print
      time of every job and at most the sum of all print times. */
  lemma ScheduleTotalTimeBounds(jobs: seq<Job>, c: Constraints)
    requires forall x :: x in jobs ==> x.printTime >= 0
    ensures forall x :: x in jobs ==> x.printTime <= Schedule(jobs, c).totalTime
    ensures Schedule(jobs, c).totalTime <= SumTimes(jobs)
  {
    var sorted := SortByPriority(jobs);
    assert forall x :: x in sorted <==> x in multiset(sorted);
    BatchesTotalTimeBounds(sorted, c);
    SortKeepsSumTimes(jobs);
  }

  /** No jobs: nothing to print and no time. */
  lemma ScheduleOfNoJobs(c: Constraints)
    ensures Schedule([], c) == PrintResult([], 0)
  {
  }
}
