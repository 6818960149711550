/** Phase 1 of the scheduler: a stable sort of the jobs by ascending priority.
    Jobs of equal priority keep their input order, as if the sort key were the
    pair (priority, position in the input). */
module Ordering {
  import opened PrintJobs

  /** Priorities never decrease along `s`. */
  predicate SortedByPriority(s: seq<Job>)
  {
    forall i, j :: 0 <= i < j < |s| ==> s[i].priority <= s[j].priority
  }

  /** The subsequence of `s` made of the jobs whose priority is `p`. */
  function WithPriority(s: seq<Job>, p: int): seq<Job>
  {
    if s == [] then []
    else if s[0].priority == p then [s[0]] + WithPriority(s[1..], p)
    else WithPriority(s[1..], p)
  }

  /** Puts `x` in front of the first job whose priority is not smaller than
      its own, so that `x` precedes every job of its priority in `s`. */
  function Insert(x: Job, s: seq<Job>): seq<Job>
  {
    if s == [] || x.priority <= s[0].priority then [x] + s
    else [s[0]] + Insert(x, s[1..])
  }

  /** Inserting keeps every priority at or above a common lower bound. */
  lemma {:induction false} InsertAbove(x: Job, s: seq<Job>, lo: int)
    requires lo <= x.priority && forall k :: 0 <= k < |s| ==> lo <= s[k].priority
    ensures forall k :: 0 <= k < |Insert(x, s)| ==> lo <= Insert(x, s)[k].priority
  {
    if s != [] && x.priority > s[0].priority {
      InsertAbove(x, s[1..], lo);
    }
  }

  /** Inserting into a sorted sequence keeps it sorted. */
  lemma {:induction false} InsertSorted(x: Job, s: seq<Job>)
    requires SortedByPriority(s)
    ensures SortedByPriority(Insert(x, s))
  {
    if s != [] && x.priority > s[0].priority {
      InsertSorted(x, s[1..]);
      InsertAbove(x, s[1..], s[0].priority);
    }
  }

  /** Inserting adds `x` and nothing else. */
  lemma {:induction false} InsertPermutes(x: Job, s: seq<Job>)
    ensures multiset(Insert(x, s)) == multiset(s) + multiset{x}
  {
    if s != [] && x.priority > s[0].priority {
      var t := Insert(x, s[1..]);
      InsertPermutes(x, s[1..]);
      assert multiset([s[0]] + t) == multiset{s[0]} + multiset(t);
      assert multiset(s) == multiset{s[0]} + multiset(s[1..]) by {
        assert s == [s[0]] + s[1..];
      }
    }
  }

  /** `x` lands in front of every job of its own priority, and the jobs of
      every other priority are untouched. */
  lemma {:induction false} InsertStable(x: Job, s: seq<Job>, p: int)
    ensures WithPriority(Insert(x, s), p) ==
            if p == x.priority then [x] + WithPriority(s, p) else WithPriority(s, p)
  {
    if s == [] || x.priority <= s[0].priority {
      assert ([x] + s)[1..] == s;
    } else {
      InsertStable(x, s[1..], p);
      assert ([s[0]] + Insert(x, s[1..]))[1..] == Insert(x, s[1..]);
    }
  }

  /** Stable insertion sort on priority: the first job is inserted into the
      sorted rest in front of every job of its own priority. */
  function SortByPriority(s: seq<Job>): (r: seq<Job>)
    ensures SortedByPriority(r)
    ensures multiset(r) == multiset(s)
    ensures forall p :: WithPriority(r, p) == WithPriority(s, p)
  {
    if s == [] then []
    else
      var t := SortByPriority(s[1..]);
      InsertSorted(s[0], t);
      InsertPermutes(s[0], t);
      assert s == [s[0]] + s[1..];
      assert forall p :: WithPriority(Insert(s[0], t), p) == WithPriority(s, p) by {
        forall p ensures WithPriority(Insert(s[0], t), p) == WithPriority(s, p) {
          InsertStable(s[0], t, p);
        }
      }
      Insert(s[0], t)
  }

  /** A stable ascending sort has exactly one possible result: two sequences
      that are both sorted by priority and have the same jobs, in the same
      order, at every priority are equal. */
  lemma {:induction false} StableSortUnique(r: seq<Job>, t: seq<Job>)
    requires SortedByPriority(r) && SortedByPriority(t)
    requires forall p :: WithPriority(r, p) == WithPriority(t, p)
    ensures r == t
  {
    if r == [] || t == [] {
      if r != [] {
        HeadKept(r);
        assert false;
      }
      if t != [] {
        HeadKept(t);
        assert false;
      }
    } else {
      var p, q := r[0].priority, t[0].priority;
      if p < q {
        NoneBelowHead(t, p);
        assert false;
      }
      if q < p {
        NoneBelowHead(r, q);
        assert false;
      }
      assert WithPriority(r, p)[0] == r[0] && WithPriority(t, p)[0] == t[0];
      forall p' ensures WithPriority(r[1..], p') == WithPriority(t[1..], p') {
        assert WithPriority(r, p') == WithPriority(t, p');
        if p' == p {
          assert WithPriority(r[1..], p') == WithPriority(r, p')[1..];
          assert WithPriority(t[1..], p') == WithPriority(t, p')[1..];
        } else {
          assert WithPriority(r, p') == WithPriority(r[1..], p');
          assert WithPriority(t, p') == WithPriority(t[1..], p');
        }
      }
      StableSortUnique(r[1..], t[1..]);
      assert r == [r[0]] + r[1..] && t == [t[0]] + t[1..];
    }
  }

  /** The first job of `s` is kept by the subsequence of its priority. */
  lemma HeadKept(s: seq<Job>)
    requires s != []
    ensures WithPriority(s, s[0].priority) != []
  {
  }

  /** In a sequence sorted by priority, no job has a priority below the first
      job's. */
  lemma {:induction false} NoneBelowHead(s: seq<Job>, p: int)
    requires SortedByPriority(s) && s != [] && p < s[0].priority
    ensures WithPriority(s, p) == []
  {
    if |s| > 1 {
      NoneBelowHead(s[1..], p);
    }
  }

  /** SortByPriority is the stable sort: whatever is sorted by priority and
      keeps every priority's jobs in input order is SortByPriority's result. */
  lemma SortByPriorityIsTheStableSort(s: seq<Job>, r: seq<Job>)
    requires SortedByPriority(r)
    requires forall p :: WithPriority(r, p) == WithPriority(s, p)
    ensures r == SortByPriority(s)
  {
    StableSortUnique(r, SortByPriority(s));
  }

  /** Sorting never loses, duplicates or invents an identifier. */
  lemma {:induction false} SortKeepsIds(s: seq<Job>)
    ensures multiset(Ids(SortByPriority(s))) == multiset(Ids(s))
  {
    if s != [] {
      SortKeepsIds(s[1..]);
      InsertIds(s[0], SortByPriority(s[1..]));
      assert Ids(s) == [s[0].id] + Ids(s[1..]);
    }
  }

  lemma {:induction false} InsertIds(x: Job, s: seq<Job>)
    ensures multiset(Ids(Insert(x, s))) == multiset(Ids(s)) + multiset{x.id}
  {
    if s == [] || x.priority <= s[0].priority {
      assert ([x] + s)[1..] == s;
    } else {
      var t := Insert(x, s[1..]);
      InsertIds(x, s[1..]);
      assert ([s[0]] + t)[1..] == t;
      assert Ids([s[0]] + t) == [s[0].id] + Ids(t);
      assert Ids(s) == [s[0].id] + Ids(s[1..]);
    }
  }

  /** Sorting keeps the sum of the print times. */
  lemma {:induction false} SortKeepsSumTimes(s: seq<Job>)
    ensures SumTimes(SortByPriority(s)) == SumTimes(s)
  {
    if s != [] {
      SortKeepsSumTimes(s[1..]);
      InsertSumTimes(s[0], SortByPriority(s[1..]));
    }
  }

  lemma {:induction false} InsertSumTimes(x: Job, s: seq<Job>)
    ensures SumTimes(Insert(x, s)) == x.printTime + SumTimes(s)
  {
    if s == [] || x.priority <= s[0].priority {
      assert ([x] + s)[1..] == s;
    } else {
      InsertSumTimes(x, s[1..]);
      assert ([s[0]] + Insert(x, s[1..]))[1..] == Insert(x, s[1..]);
    }
  }
}
