/** The entities the print scheduler works on: a print job and the printer's
    capacity constraints, already converted to typed values. */
module PrintJobs {

  /** One 3D-print job. A lower `priority` value is printed earlier. */
  datatype Job = Job(id: string, volume: int, priority: int, printTime: int)

  /** Capacity of one batch: the largest total volume and the largest number
      of jobs printed together. */
  datatype Constraints = Constraints(maxVolume: int, maxItems: int)

  /** The identifiers of `jobs`, in the same order. */
  function Ids(jobs: seq<Job>): (ids: seq<string>)
    ensures |ids| == |jobs|
  {
    if jobs == [] then [] else [jobs[0].id] + Ids(jobs[1..])
  }

  lemma {:induction false} IdsAppend(jobs: seq<Job>, x: Job)
    ensures Ids(jobs + [x]) == Ids(jobs) + [x.id]
  {
    if jobs == [] {
      assert [] + [x] == [x];
    } else {
      IdsAppend(jobs[1..], x);
      assert (jobs + [x])[1..] == jobs[1..] + [x];
    }
  }

  /** The sum of the print times of `jobs`. */
  function SumTimes(jobs: seq<Job>): int
  {
    if jobs == [] then 0 else jobs[0].printTime + SumTimes(jobs[1..])
  }

  lemma {:induction false} SumTimesConcat(a: seq<Job>, b: seq<Job>)
    ensures SumTimes(a + b) == SumTimes(a) + SumTimes(b)
  {
    if a == [] {
      assert a + b == b;
    } else {
      assert (a + b)[1..] == a[1..] + b;
      SumTimesConcat(a[1..], b);
    }
  }
}
