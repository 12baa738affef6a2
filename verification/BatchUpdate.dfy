/**
 * "UPDATE the first `k` rows (by id) that match": the shape behind the batched soft-delete and the
 * settled-mail reconcile. Independent of what is matched and how it is changed.
 */
module BatchUpdate {
  import opened MailTypes

  function UpdateFirst<T>(s: seq<T>, p: T -> bool, f: T -> T, k: nat): (r: seq<T>)
    ensures |r| == |s|
  {
    if s == [] then []
    else if p(s[0]) && k > 0 then [f(s[0])] + UpdateFirst(s[1..], p, f, k - 1)
    else [s[0]] + UpdateFirst(s[1..], p, f, k)
  }

  /** Ids of the first `k` matching rows, when `s` starts at position `base` of the table. */
  function FirstIds<T>(s: seq<T>, p: T -> bool, k: nat, base: nat): (ids: seq<nat>)
    ensures |ids| == Min(k, Count(s, p))
  {
    if s == [] || k == 0 then []
    else if p(s[0]) then [base] + FirstIds(s[1..], p, k - 1, base + 1)
    else FirstIds(s[1..], p, k, base + 1)
  }

  /** A change that stops a row matching takes exactly min(k, matches) rows out of the backlog. */
  lemma {:induction false} UpdateFirstDrains<T>(s: seq<T>, p: T -> bool, f: T -> T, k: nat)
    requires forall x :: p(x) ==> !p(f(x))
    ensures Count(UpdateFirst(s, p, f, k), p) == Count(s, p) - Min(k, Count(s, p))
  {
    if s != [] {
      if p(s[0]) && k > 0 {
        UpdateFirstDrains(s[1..], p, f, k - 1);
      } else {
        UpdateFirstDrains(s[1..], p, f, k);
      }
    }
  }

  lemma {:induction false} UpdateFirstZero<T>(s: seq<T>, p: T -> bool, f: T -> T)
    ensures UpdateFirst(s, p, f, 0) == s
  {
    if s != [] {
      UpdateFirstZero(s[1..], p, f);
    }
  }

  /** Two batches in a row are one batch of the summed size. */
  lemma {:induction false} UpdateFirstComposes<T>(s: seq<T>, p: T -> bool, f: T -> T, a: nat, b: nat)
    requires forall x :: p(x) ==> !p(f(x))
    ensures UpdateFirst(UpdateFirst(s, p, f, a), p, f, b) == UpdateFirst(s, p, f, a + b)
  {
    if s != [] {
      if p(s[0]) && a > 0 {
        UpdateFirstComposes(s[1..], p, f, a - 1, b);
      } else if p(s[0]) && b > 0 {
        UpdateFirstComposes(s[1..], p, f, 0, b - 1);
        UpdateFirstZero(s[1..], p, f);
        assert UpdateFirst(s, p, f, a)[1..] == s[1..];
      } else {
        UpdateFirstComposes(s[1..], p, f, a, b);
      }
    }
  }

  /** A batch larger than the backlog is a batch of the backlog's size. */
  lemma {:induction false} UpdateFirstCapped<T>(s: seq<T>, p: T -> bool, f: T -> T, k: nat)
    ensures UpdateFirst(s, p, f, k) == UpdateFirst(s, p, f, Min(k, Count(s, p)))
  {
    if s != [] {
      UpdateFirstCapped(s[1..], p, f, if p(s[0]) && k > 0 then k - 1 else k);
    }
  }

  /** One more batch after `total` rows are done is the batch of everything done so far. */
  lemma {:induction false} NextBatch<T>(start: seq<T>, p: T -> bool, f: T -> T, total: nat, batch: nat)
    requires forall x :: p(x) ==> !p(f(x))
    requires total <= Count(start, p)
    ensures var now := UpdateFirst(start, p, f, total);
            var affected := Min(batch, Count(now, p));
            && Count(now, p) == Count(start, p) - total
            && UpdateFirst(now, p, f, batch) == UpdateFirst(start, p, f, total + affected)
  {
    var now := UpdateFirst(start, p, f, total);
    UpdateFirstDrains(start, p, f, total);
    UpdateFirstCapped(now, p, f, batch);
    UpdateFirstComposes(start, p, f, total, Min(batch, Count(now, p)));
  }

  /** With budget for the whole backlog, every matching row changes and no other row does. */
  lemma {:induction false} UpdateFirstAll<T>(s: seq<T>, p: T -> bool, f: T -> T, k: nat)
    requires k >= Count(s, p)
    ensures forall i :: 0 <= i < |s| ==> UpdateFirst(s, p, f, k)[i] == if p(s[i]) then f(s[i]) else s[i]
  {
    if s != [] {
      var rest := if p(s[0]) && k > 0 then k - 1 else k;
      UpdateFirstAll(s[1..], p, f, rest);
      var r := UpdateFirst(s, p, f, k);
      forall i | 0 < i < |s|
        ensures r[i] == if p(s[i]) then f(s[i]) else s[i]
      {
        assert r[i] == UpdateFirst(s[1..], p, f, rest)[i - 1];
      }
    }
  }

  /** Whatever the budget, a row either keeps its value or takes its one change, and only a match changes. */
  lemma {:induction false} UpdateFirstPointwise<T>(s: seq<T>, p: T -> bool, f: T -> T, k: nat, i: nat)
    requires i < |s|
    ensures UpdateFirst(s, p, f, k)[i] == s[i] || (p(s[i]) && UpdateFirst(s, p, f, k)[i] == f(s[i]))
  {
    if i > 0 {
      UpdateFirstPointwise(s[1..], p, f, if p(s[0]) && k > 0 then k - 1 else k, i - 1);
    }
  }

  /** The ids the batch reads are matching rows of the table. */
  lemma {:induction false} FirstIdsMatch<T>(s: seq<T>, p: T -> bool, k: nat, base: nat, j: nat)
    requires j < |FirstIds(s, p, k, base)|
    ensures var id := FirstIds(s, p, k, base)[j];
            base <= id < base + |s| && p(s[id - base])
  {
    if p(s[0]) {
      if j > 0 {
        FirstIdsMatch(s[1..], p, k - 1, base + 1, j - 1);
      }
    } else {
      FirstIdsMatch(s[1..], p, k, base + 1, j);
    }
  }

  lemma {:induction false} FirstIdsAscend<T>(s: seq<T>, p: T -> bool, k: nat, base: nat)
    ensures var ids := FirstIds(s, p, k, base);
            && (forall j :: 0 <= j < |ids| ==> base <= ids[j])
            && (forall i, j :: 0 <= i < j < |ids| ==> ids[i] < ids[j])
  {
    if s != [] && k > 0 {
      if p(s[0]) {
        FirstIdsAscend(s[1..], p, k - 1, base + 1);
        assert FirstIds(s, p, k, base) == [base] + FirstIds(s[1..], p, k - 1, base + 1);
      } else {
        FirstIdsAscend(s[1..], p, k, base + 1);
        assert FirstIds(s, p, k, base) == FirstIds(s[1..], p, k, base + 1);
      }
    }
  }

  lemma {:induction false} FirstIdsAscendAt<T>(s: seq<T>, p: T -> bool, k: nat, base: nat, i: nat, j: nat)
    requires i < j < |FirstIds(s, p, k, base)|
    ensures FirstIds(s, p, k, base)[i] < FirstIds(s, p, k, base)[j]
  {
    FirstIdsAscend(s, p, k, base);
  }

  /** A read with budget for every match misses none. */
  lemma {:induction false} FirstIdsComplete<T>(s: seq<T>, p: T -> bool, k: nat, base: nat, i: nat)
    requires i < |s| && p(s[i]) && Count(s, p) <= k
    ensures base + i in FirstIds(s, p, k, base)
  {
    if i > 0 {
      FirstIdsComplete(s[1..], p, if p(s[0]) then k - 1 else k, base + 1, i - 1);
    }
  }

  /** A read takes the first matches: one it leaves out comes after all it took. */
  lemma {:induction false} FirstIdsAreFirst<T>(s: seq<T>, p: T -> bool, k: nat, base: nat, i: nat)
    requires i < |s| && p(s[i]) && base + i !in FirstIds(s, p, k, base)
    ensures forall id :: id in FirstIds(s, p, k, base) ==> id < base + i
  {
    if k > 0 {
      if i > 0 {
        FirstIdsAreFirst(s[1..], p, if p(s[0]) then k - 1 else k, base + 1, i - 1);
      }
    }
  }

  lemma {:induction false} CountHead<T>(s: seq<T>, i: nat, p: T -> bool)
    requires 0 < i <= |s|
    ensures Count(s[..i], p) == (if p(s[0]) then 1 else 0) + Count(s[1..][..i - 1], p)
  {
    assert s[..i][1..] == s[1..][..i - 1];
  }

  /** The j-th id read is the matching row with exactly `j` matches before it. */
  lemma {:induction false} FirstIdsRank<T>(s: seq<T>, p: T -> bool, k: nat, base: nat, j: nat)
    requires j < |FirstIds(s, p, k, base)|
    ensures var id := FirstIds(s, p, k, base)[j] - base;
            0 <= id < |s| && p(s[id]) && Count(s[..id], p) == j
  {
    FirstIdsMatch(s, p, k, base, j);
    var id := FirstIds(s, p, k, base)[j] - base;
    if p(s[0]) && j == 0 {
      assert id == 0;
    } else {
      FirstIdsRank(s[1..], p, if p(s[0]) then k - 1 else k, base + 1, if p(s[0]) then j - 1 else j);
      CountHead(s, id, p);
    }
  }

  lemma {:induction false} ConsUpdate<T>(a: T, s: seq<T>, i: nat, x: T)
    requires 0 < i <= |s|
    ensures ([a] + s)[i := x] == [a] + s[i - 1 := x]
  {}

  /** Raising the budget from `j` changes exactly the matching row with `j` matches before it. */
  lemma {:induction false} BudgetStep<T>(s: seq<T>, p: T -> bool, f: T -> T, j: nat, id: nat)
    requires id < |s| && p(s[id]) && Count(s[..id], p) == j
    ensures UpdateFirst(s, p, f, j)[id] == s[id]
    ensures UpdateFirst(s, p, f, j + 1) == UpdateFirst(s, p, f, j)[id := f(s[id])]
  {
    if id == 0 {
      UpdateFirstZero(s[1..], p, f);
      UpdateFirstZero(s, p, f);
    } else {
      CountHead(s, id, p);
      var left := if p(s[0]) then j - 1 else j;
      BudgetStep(s[1..], p, f, left, id - 1);
      ConsUpdate(if p(s[0]) then f(s[0]) else s[0], UpdateFirst(s[1..], p, f, left), id, f(s[id]));
    }
  }

  /**
   * Walking the id list one row at a time is the batch: after `j` ids the table is the batch of
   * size `j`, the next row is still untouched, and changing it gives the batch of size `j + 1`.
   */
  lemma {:induction false} UpdateFirstStep<T>(s: seq<T>, p: T -> bool, f: T -> T, k: nat, base: nat, j: nat)
    requires j < |FirstIds(s, p, k, base)|
    ensures var id := FirstIds(s, p, k, base)[j] - base;
            && 0 <= id < |s|
            && UpdateFirst(s, p, f, j)[id] == s[id]
            && UpdateFirst(s, p, f, j + 1) == UpdateFirst(s, p, f, j)[id := f(s[id])]
  {
    FirstIdsRank(s, p, k, base, j);
    BudgetStep(s, p, f, j, FirstIds(s, p, k, base)[j] - base);
  }

  /** The same with the id given, for a loop over the ids of the whole table. */
  lemma {:induction false} NextId<T>(s: seq<T>, p: T -> bool, f: T -> T, k: nat, j: nat, id: nat)
    requires j < |FirstIds(s, p, k, 0)| && id == FirstIds(s, p, k, 0)[j]
    ensures id < |s| && p(s[id])
    ensures UpdateFirst(s, p, f, j)[id] == s[id]
    ensures UpdateFirst(s, p, f, j + 1) == UpdateFirst(s, p, f, j)[id := f(s[id])]
  {
    FirstIdsMatch(s, p, k, 0, j);
    UpdateFirstStep(s, p, f, k, 0, j);
  }
}
