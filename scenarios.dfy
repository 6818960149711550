/** The three scenarios of test_printing_optimization, with a printer that
    takes at most 300 units of volume and 2 jobs per batch. */
module Scenarios {
  import opened PrintJobs
  import opened Ordering
  import opened Batching
  import opened Printing

  const Printer := Constraints(300, 2)

  /** Test 1: three jobs of the same priority. */
  const SamePriority := [Job("M1", 100, 1, 120), Job("M2", 150, 1, 90), Job("M3", 120, 1, 150)]

  /** Test 2: three jobs of different priorities. */
  const DifferentPriorities := [Job("M1", 100, 2, 120), Job("M2", 150, 1, 90), Job("M3", 120, 3, 150)]

  /** Test 3: jobs whose volumes exceed what a batch can take together. */
  const ExceedingVolume := [Job("M1", 250, 1, 180), Job("M2", 200, 1, 150), Job("M3", 180, 2, 120)]

  /** M1 and M2 print together (120), M3 alone (150). */
  lemma SamePriorityScenario()
    ensures Schedule(SamePriority, Printer) == PrintResult(["M1", "M2", "M3"], 270)
  {
    var a, b, d := SamePriority[0], SamePriority[1], SamePriority[2];
    assert SamePriority == [a, b, d];
    AlreadySorted(a, b, d);
    IdsOfThree(a, b, d);
    TwoThenOne(a, b, d, Printer);
  }

  /** M2 goes first; M2 and M1 print together (120), M3 alone (150). */
  lemma DifferentPrioritiesScenario()
    ensures Schedule(DifferentPriorities, Printer) == PrintResult(["M2", "M1", "M3"], 270)
  {
    var a, b, d := DifferentPriorities[0], DifferentPriorities[1], DifferentPriorities[2];
    assert DifferentPriorities == [a, b, d];
    SecondFirst(a, b, d);
    IdsOfThree(b, a, d);
    TwoThenOne(b, a, d, Printer);
  }

  /** No two jobs fit together: 180 + 150 + 120. */
  lemma ExceedingVolumeScenario()
    ensures Schedule(ExceedingVolume, Printer) == PrintResult(["M1", "M2", "M3"], 450)
  {
    var a, b, d := ExceedingVolume[0], ExceedingVolume[1], ExceedingVolume[2];
    assert ExceedingVolume == [a, b, d];
    AlreadySorted(a, b, d);
    IdsOfThree(a, b, d);
    EachAlone(a, b, d, Printer);
  }

  lemma IdsOfThree(a: Job, b: Job, d: Job)
    ensures Ids([a, b, d]) == [a.id, b.id, d.id]
  {
    assert [a, b, d][1..] == [b, d] && [b, d][1..] == [d] && [d][1..] == [];
    assert Ids([d]) == [d.id];
    assert Ids([b, d]) == [b.id] + Ids([d]);
  }

  /** Three jobs already in priority order stay as they are. */
  lemma AlreadySorted(a: Job, b: Job, d: Job)
    requires a.priority <= b.priority <= d.priority
    ensures SortByPriority([a, b, d]) == [a, b, d]
  {
    SortByPriorityIsTheStableSort([a, b, d], [a, b, d]);
  }

  /** A second job of strictly higher priority than the first, with the third
      last, moves to the front. */
  lemma SecondFirst(a: Job, b: Job, d: Job)
    requires b.priority < a.priority <= d.priority
    ensures SortByPriority([a, b, d]) == [b, a, d]
  {
    assert [a, b, d][1..] == [b, d] && [b, d][1..] == [d];
    assert [b, a, d][1..] == [a, d] && [a, d][1..] == [d] && [d][1..] == [];
    forall p ensures WithPriority([b, a, d], p) == WithPriority([a, b, d], p) {
      var tail := WithPriority([d], p);
      assert WithPriority([a, d], p) == (if a.priority == p then [a] else []) + tail;
      assert WithPriority([b, d], p) == (if b.priority == p then [b] else []) + tail;
    }
    SortByPriorityIsTheStableSort([a, b, d], [b, a, d]);
  }

  /** The first two jobs fit in one batch and the third does not join them. */
  lemma TwoThenOne(a: Job, b: Job, d: Job, c: Constraints)
    requires c.maxItems == 2
    requires a.volume <= c.maxVolume && a.volume + b.volume <= c.maxVolume
    ensures Batches([a, b, d], c) == [[a, b], [d]]
    ensures TotalTime([[a, b], [d]]) == (if a.printTime < b.printTime then b.printTime else a.printTime) + d.printTime
  {
    assert [a, b, d][1..] == [b, d] && [b, d][1..] == [d];
    assert [] + [a] == [a] && [a] + [b] == [a, b] && [a, b][..1] == [a];
    assert Volume([a]) == a.volume by { assert [a][..0] == []; }
    assert Volume([a, b]) == a.volume + b.volume;
    assert GreedyFrom([], c, [d]) == [[d]];
    assert GreedyFrom([d], c, [a, b]) == [[a, b]] + GreedyFrom([], c, [d]);
    assert GreedyFrom([b, d], c, [a]) == GreedyFrom([d], c, [a, b]);
    assert GreedyFrom([a, b, d], c, []) == GreedyFrom([b, d], c, [a]);
    TwoThenOneTime(a, b, d);
  }

  lemma TwoThenOneTime(a: Job, b: Job, d: Job)
    ensures TotalTime([[a, b], [d]]) == (if a.printTime < b.printTime then b.printTime else a.printTime) + d.printTime
  {
    var bs := [[a, b], [d]];
    assert bs[..1] == [[a, b]] && [[a, b]][..0] == [];
    assert [a, b][..1] == [a] && [a][..0] == [] && [d][..0] == [];
    assert Times([a, b]) == [a.printTime, b.printTime];
    assert [a.printTime, b.printTime][..1] == [a.printTime];
    assert BatchTime([a, b]) == if a.printTime < b.printTime then b.printTime else a.printTime;
    assert Times([d]) == [d.printTime];
    assert BatchTime([d]) == d.printTime;
    assert TotalTime([[a, b]]) == BatchTime([a, b]);
  }

  /** No job fits the one before it, so each is printed alone. */
  lemma EachAlone(a: Job, b: Job, d: Job, c: Constraints)
    requires 1 <= c.maxItems
    requires a.volume <= c.maxVolume
    requires a.volume + b.volume > c.maxVolume && b.volume + d.volume > c.maxVolume
    ensures Batches([a, b, d], c) == [[a], [b], [d]]
    ensures TotalTime([[a], [b], [d]]) == a.printTime + b.printTime + d.printTime
  {
    assert [a, b, d][1..] == [b, d] && [b, d][1..] == [d];
    assert [] + [a] == [a];
    assert [a][..0] == [] && [b][..0] == [];
    assert Volume([a]) == a.volume && Volume([b]) == b.volume;
    assert GreedyFrom([d], c, [b]) == [[b]] + GreedyFrom([], c, [d]);
    assert GreedyFrom([b, d], c, [a]) == [[a]] + GreedyFrom([d], c, [b]);
    EachAloneTime(a, b, d);
  }

  lemma EachAloneTime(a: Job, b: Job, d: Job)
    ensures TotalTime([[a], [b], [d]]) == a.printTime + b.printTime + d.printTime
  {
    var bs := [[a], [b], [d]];
    assert [a][..0] == [] && [b][..0] == [] && [d][..0] == [];
    assert Times([a]) == [a.printTime] && Times([b]) == [b.printTime] && Times([d]) == [d.printTime];
    assert bs[..2] == [[a], [b]] && [[a], [b]][..1] == [[a]] && [[a]][..0] == [];
    assert TotalTime([[a]]) == a.printTime;
    assert TotalTime([[a], [b]]) == a.printTime + b.printTime;
  }
}
