# Print-batching scheduler

A Dafny model of `optimize_printing`, the scheduler of a 3D-printing queue.
Given a list of print jobs (identifier, volume, priority, print time) and the
printer's constraints (largest volume per batch, largest number of jobs per
batch), the scheduler

1. sorts the jobs by ascending priority, keeping jobs of equal priority in
   their input order (module `Ordering`);
2. walks the sorted jobs once, adding each job to the open batch while the
   batch's volume and item count stay within the limits, and otherwise closing
   the batch and starting a new one with the job, whatever its size (module
   `Batching`);
3. returns the identifiers in the order they were walked and the total time,
   the sum over the batches of the longest print time in each
   (module `Printing`).

The data types are in module `PrintJobs`; the three test scenarios of
`test_printing_optimization` are proved as lemmas in module `Scenarios`.

The sort is the function `Ordering.SortByPriority`, a stable insertion sort.
Stability means that for every priority `p`, the jobs of priority `p` show up
in the result in the same order as in the input (`WithPriority`). A
uniqueness lemma shows that this fixes the result entirely: any sequence
sorted by priority with the same jobs in the same order at every priority
equals `SortByPriority`'s result. So the function is exactly the sort by the
key (priority, input position).

The batching loop is the method `Batching.BatchJobs`. It keeps the source's
running variables: the print order, the total time, the current volume, the
current item count and the list of the open batch's print times. It is proved
against the pure function `Batching.Batches`, which gives the list of batches
the greedy pass forms. `Batches` is itself characterised independently by
`IsGreedyPartition`: the batches, laid end to end, are the jobs in order;
every later member of a batch fitted the members before it; and no batch could
have taken the first job of the next batch. It is proved in both directions
that the greedy pass forms such a partition and that there is only one.

## Model

| member | source | states |
|---|---|---|
| Ordering.SortByPriority | task_1/main.py:13 | the result is sorted by non-decreasing priority, is a permutation of the input (same multiset), and keeps the jobs of every priority in input order |
| Ordering.StableSortUnique | task_1/main.py:13 | two sequences that are both sorted by priority and agree on the jobs of every priority, in order, are equal: a stable sort has only one possible result |
| Ordering.SortByPriorityIsTheStableSort | task_1/main.py:13 | any sequence sorted by priority that keeps every priority's jobs in input order is exactly SortByPriority's result, i.e. the sort by the key (priority, input position) |
| Ordering.InsertSorted | task_1/main.py:13 | inserting a job into a sequence sorted by priority keeps it sorted |
| Ordering.InsertPermutes | task_1/main.py:13 | inserting adds exactly the inserted job |
| Ordering.InsertStable | task_1/main.py:13 | the inserted job lands in front of every job of its own priority and no other priority's jobs move relative to each other |
| Ordering.SortKeepsIds | task_1/main.py:13 | sorting keeps the multiset of identifiers |
| Ordering.SortKeepsSumTimes | task_1/main.py:13 | sorting keeps the sum of the print times |
| Batching.Fits | task_1/main.py:22-23 | a job may join the open batch when the batch's volume plus the job's stays within `maxVolume` and the item count plus one stays within `maxItems`; definition only, used by the lemmas below |
| Batching.MaxOrZero | task_1/main.py:31 | `max(batch_times, default=0)`: 0 for no times, otherwise Max, whose contract gives the largest element; definition only |
| Batching.GreedyFrom | task_1/main.py:21-44 | the batches the pass forms from an open batch and the jobs still to come: a job that fits joins the open batch, otherwise the open batch (when non-empty) is closed and the job starts a new one; described by GreedyFromIsPartition and GreedyFromUnique |
| Batching.GreedyFromIsPartition | task_1/main.py:21-44 | what the pass forms from a valid open batch and the remaining jobs is a greedy partition of all of them, whose first batch starts with the first of them |
| Batching.Batches | task_1/main.py:15-44 | the batches the pass forms starting with nothing open; described by BatchesArePartition and PartitionIsBatches, and BatchJobs' total is TotalTime of it |
| Batching.Max | task_1/main.py:31 | the result is at least every element of the non-empty list and equals one of them |
| Batching.Close | task_1/main.py:31-34 | closing the open batch adds its longest print time (0 for an empty batch) to the total time |
| Batching.BatchJobs | task_1/main.py:15-44 | the print order is the identifiers of the input in input order, and the total time is the sum of the batch times of the greedy batches `Batches(jobs, c)`; the loop keeps the item count equal to the number of recorded times, the running volume equal to the open batch's volume, and the recorded times equal to the open batch's times |
| Batching.BatchesArePartition | task_1/main.py:21-40 | the batches the pass forms are a greedy partition: laid end to end they are the jobs in order, every batch is non-empty, every later member fitted the batch before it, and no batch could have taken the first job of the next one |
| Batching.PartitionIsBatches | task_1/main.py:21-40 | every greedy partition of the jobs is the one the pass forms |
| Batching.GreedyFromUnique | task_1/main.py:21-40 | a greedy partition whose first batch starts with the open batch is what the pass forms from that open batch on |
| Batching.ValidBatchBounds | task_1/main.py:22-23 | a batch the pass can form has at most `maxItems` members unless it has one, and its volume is within `maxVolume` unless it is a single job that is too large by itself |
| Batching.BatchesRespectCapacity | task_1/main.py:22-23 | every batch the pass forms is non-empty, has at most `maxItems` members unless it has one, and stays within `maxVolume` unless it is a single over-sized job |
| Batching.BatchTimeBoundsMember | task_1/main.py:28 | a member's print time never exceeds its batch's time |
| Batching.BatchTimeBelowSum | task_1/main.py:31 | with non-negative print times, a batch's time lies between 0 and the sum of its members' times |
| Batching.TotalTimeBounds | task_1/main.py:31-44 | with non-negative print times, the total time of any list of batches is at least every member's print time and between 0 and the sum of all print times |
| Batching.BatchesTotalTimeBounds | task_1/main.py:21-44 | with non-negative print times, the total time of the greedy batches is at least every job's print time and at most the sum of all print times |
| Batching.FinishStep | task_1/main.py:43-44 | after the last job, the total of the closed batches plus the open batch's time is the total of the greedy partition |
| Printing.Schedule | task_1/main.py:5-49 | the scheduler as a function of its inputs: the identifiers of SortByPriority(jobs) and the total time of its greedy batches; OptimizePrinting computes it, and ScheduleKeepsIds, ScheduleFollowsStableOrder, ScheduleTotalIsGreedyPartition and ScheduleTotalTimeBounds describe it |
| Printing.OptimizePrinting | task_1/main.py:5-49 | the result is Schedule(jobs, c); the print order has one entry per job and is a permutation of the input identifiers |
| Printing.ScheduleKeepsIds | task_1/main.py:21-40 | the print order has exactly one entry per input job, and its identifiers are those of the input with the same multiplicities |
| Printing.ScheduleFollowsStableOrder | task_1/main.py:13-44 | for any stable priority order of the jobs, the print order is that order's identifiers, which are also the identifiers of its batches laid end to end, and the total time is the total of its greedy batches |
| Printing.ScheduleTotalIsGreedyPartition | task_1/main.py:21-44 | the total time is the total of any greedy partition of the priority-sorted jobs |
| Printing.ScheduleTotalTimeBounds | task_1/main.py:21-44 | with non-negative print times, the total time is at least every job's print time and at most the sum of all print times |
| Printing.ScheduleOfNoJobs | task_1/main.py:15-16 | with no jobs, the print order is empty and the total time is 0 |
| Scenarios.SamePriorityScenario | task_1/main.py:55-59 | three jobs of priority 1 (volumes 100, 150, 120; times 120, 90, 150) on a 300-volume, 2-item printer give order M1, M2, M3 and total 270, as asserted at lines 84-85 |
| Scenarios.DifferentPrioritiesScenario | task_1/main.py:62-66 | priorities 2, 1, 3 with the same volumes and times give order M2, M1, M3 and total 270, as asserted at lines 91-92 |
| Scenarios.ExceedingVolumeScenario | task_1/main.py:69-73 | volumes 250, 200, 180 (times 180, 150, 120) that never fit together give order M1, M2, M3 and total 450, as asserted at lines 98-99 |
| Scenarios.AlreadySorted | task_1/main.py:13 | three jobs already in non-decreasing priority order are left as they are |
| Scenarios.SecondFirst | task_1/main.py:13 | a second job of strictly lower priority value than the first, followed by a third of priority not below the first, moves to the front |
| Scenarios.TwoThenOne | task_1/main.py:21-44 | on a 2-item printer, when the first two jobs fit together the batches are [a, b] and [d], and the total is the larger of the first two times plus the third |
| Scenarios.EachAlone | task_1/main.py:21-44 | when the first job fits alone and no job fits with its predecessor, every job is a batch of its own and the total is the sum of the three times |

## Left out

- Converting dictionaries into job and constraint objects (task_1/main.py:7-11) is not modelled: it is done by the `models` module, which is not part of this model. The model takes already-typed `Job` and `Constraints` values.
- The source's `return` sits inside the conversion loop, so only the first job is ever converted, and only one pass of that loop runs before returning. The model is the single pipeline the code evidently intends: sort once, batch once.
- Empty input: the source never enters the conversion loop and so returns `None`. The model returns an empty print order and total 0 (`Printing.ScheduleOfNoJobs`).
- The sort key's tie-breaker `print_jobs.index(job)` is the position of the first job equal to `job`, not `job`'s own position. The model uses a stable sort on priority with the input position as tie-breaker instead. The two agree whenever no job occurs twice in the input. They differ when a job occurs twice (equal by value, or the same object twice) with a job of the same priority between the copies: the second copy gets the first copy's key and moves ahead. For A = Job("X", 100, 1, 10), B = Job("Y", 250, 1, 100) and input [A, B, A] on a printer taking 300 units and 3 jobs, the source sorts to [A, A, B], print order X, X, Y and total 10 + 100 = 110, while the model keeps [A, B, A], print order X, Y, X and total 10 + 100 + 10 = 120.
- Volumes and print times are integers here; the source does not restrict them, and floating-point values are not modelled.
- Validation of the input (negative or missing fields, duplicate identifiers) does not happen in this code; whatever `models` checks is not part of this model.
- Console output and the `__main__` entry point of the test file (task_1/main.py:80-103) are left out; the asserted expected values are the scenario lemmas.
- Batching.Batches: when the first job does not fit an empty batch (it alone exceeds `maxVolume`, or `maxItems` is below 1), the source closes an empty batch that adds max([], default=0) = 0 to the total. The model does not list that empty batch, so it changes neither the print order nor the total time.
- Idempotence and the absence of state between calls are not stated as lemmas: `Printing.Schedule` is a function of its inputs.
