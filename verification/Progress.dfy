/** The progress stack of one partition, as a value: which tasks are still outstanding, by tag, and for
    each the largest finished tag before the next outstanding one. */
module Progress {
  import opened Types

  datatype Entry = Entry(tag: nat, done: Option<nat>)

  type Stack = seq<Entry>

  function Or(o: Option<nat>, n: nat): Option<nat>
  {
    if o.Some? then o else Some(n)
  }

  // ---------------------------------------------------------------- push_top

  function InsertByTag(s: Stack, e: Entry): Stack
  {
    if s == [] || s[|s| - 1].tag <= e.tag then s + [e]
    else InsertByTag(s[..|s| - 1], e) + [s[|s| - 1]]
  }

  /** A stable sort by tag. */
  function SortByTag(s: Stack): (r: Stack)
  {
    if s == [] then [] else InsertByTag(SortByTag(s[..|s| - 1]), s[|s| - 1])
  }

  ghost predicate Ascending(s: Stack)
  {
    forall i, j | 0 <= i < j < |s| :: s[i].tag <= s[j].tag
  }

  lemma {:induction false} InsertKeepsAscending(s: Stack, e: Entry)
    requires Ascending(s)
    ensures var r := InsertByTag(s, e);
            Ascending(r) && r != [] && Max(r[|r| - 1].tag, e.tag) == r[|r| - 1].tag
            && r[|r| - 1].tag == if s == [] then e.tag else Max(s[|s| - 1].tag, e.tag)
  {
    if s != [] && s[|s| - 1].tag > e.tag {
      InsertKeepsAscending(s[..|s| - 1], e);
    }
  }

  lemma {:induction false} InsertKeepsAll(s: Stack, e: Entry)
    ensures multiset(InsertByTag(s, e)) == multiset(s) + multiset{e}
  {
    if s != [] && s[|s| - 1].tag > e.tag {
      InsertKeepsAll(s[..|s| - 1], e);
      LastOfAll(s);
    }
  }

  /** Sorting orders the entries by tag and keeps every one of them. */
  lemma {:induction false} SortSorts(s: Stack)
    ensures Ascending(SortByTag(s)) && multiset(SortByTag(s)) == multiset(s)
  {
    if s != [] {
      var front, last := s[..|s| - 1], s[|s| - 1];
      SortSorts(front);
      InsertKeepsAscending(SortByTag(front), last);
      InsertKeepsAll(SortByTag(front), last);
      LastOfAll(s);
    }
  }

  lemma LastOfAll(s: Stack)
    requires s != []
    ensures multiset(s) == multiset(s[..|s| - 1]) + multiset{s[|s| - 1]}
  {
    assert s == s[..|s| - 1] + [s[|s| - 1]];
  }

  function Push(s: Stack, n: nat): Stack
  {
    var s' := s + [Entry(n, None)];
    if s != [] && n < s[|s| - 1].tag then SortByTag(s') else s'
  }

  // ---------------------------------------------------------------- pop_top

  /** The highest position above an entry smaller than `n`, among the first `k + 1`. */
  function Rank(s: Stack, n: nat, k: nat): (p: nat)
    requires k < |s|
    ensures p <= k
    ensures p > 0 ==> s[p - 1].tag < n
    ensures forall i | p <= i < k :: n <= s[i].tag
  {
    if k == 0 then 0 else if s[k - 1].tag < n then k else Rank(s, n, k - 1)
  }

  /** Takes tag `n` out: the entry below inherits what it covered; the lowest entry reports it. */
  function Pop(s: Stack, n: nat): (Stack, Option<nat>)
  {
    if s == [] then (s, None)
    else
      var p := Rank(s, n, |s| - 1);
      if p == 0 then (s[1..], Or(s[0].done, s[0].tag))
      else (s[..p - 1] + [Entry(s[p - 1].tag, Or(s[p].done, n))] + s[p + 1..], None)
  }

  // ---------------------------------------------------------------- meaning

  ghost predicate Increasing(s: Stack)
  {
    forall i, j | 0 <= i < j < |s| :: s[i].tag < s[j].tag
  }

  /** `x` lies above entry `i`'s tag and below the next one's. */
  ghost predicate Between(s: Stack, i: nat, x: nat)
    requires i < |s|
  {
    s[i].tag < x && (i + 1 < |s| ==> x < s[i + 1].tag)
  }

  ghost predicate HoldsTag(s: Stack, x: nat)
  {
    exists i | 0 <= i < |s| :: s[i].tag == x
  }

  /** The stack's tags are exactly the outstanding ones. */
  ghost predicate TagsAre(s: Stack, pushed: set<nat>, finished: set<nat>)
  {
    && Increasing(s)
    && (forall i | 0 <= i < |s| :: s[i].tag in pushed && s[i].tag !in finished)
    && (forall x | x in pushed && x !in finished :: HoldsTag(s, x))
  }

  /** Entry `i` remembers the largest finished tag before the next entry, if any. */
  ghost predicate Remembers(s: Stack, i: nat, finished: set<nat>)
    requires i < |s|
  {
    && (s[i].done.Some? ==> s[i].done.value in finished && Between(s, i, s[i].done.value))
    && (forall x | x in finished && Between(s, i, x) :: s[i].done.Some? && x <= s[i].done.value)
  }

  /** The stack of a partition whose tasks' tags are `pushed`, of which `finished` have finished. */
  ghost predicate Tracks(s: Stack, pushed: set<nat>, finished: set<nat>)
  {
    && finished <= pushed && TagsAre(s, pushed, finished)
    && forall i | 0 <= i < |s| :: Remembers(s, i, finished)
  }

  /** `x` lies below every tag still outstanding. */
  ghost predicate BelowOutstanding(x: nat, pushed: set<nat>, finished: set<nat>)
  {
    forall y | y in pushed && y !in finished :: x < y
  }

  /** `w` is the largest tag pushed so far that lies below every outstanding one. */
  ghost predicate IsWatermark(w: nat, pushed: set<nat>, finished: set<nat>)
  {
    && w in pushed && BelowOutstanding(w, pushed, finished)
    && forall x | x in pushed && BelowOutstanding(x, pushed, finished) :: x <= w
  }

  lemma PushTracks(s: Stack, pushed: set<nat>, finished: set<nat>, n: nat)
    requires Tracks(s, pushed, finished)
    requires n !in pushed && forall f | f in finished :: f < n
    ensures Tracks(Push(s, n), pushed + {n}, finished)
  {
    var i := PushSplits(s, n);
    var r := Push(s, n);
    assert PutIn(s, n, i, r);
    PushTags(s, pushed, finished, n, i, r);
    PushRemembers(s, finished, n, i, r);
  }

  /** `r` is `s` with a fresh entry for tag `n` put in at position `i`. */
  ghost predicate PutIn(s: Stack, n: nat, i: nat, r: Stack)
  {
    && i <= |s| && |r| == |s| + 1 && r[i] == Entry(n, None)
    && (forall k | 0 <= k < i :: r[k] == s[k])
    && (forall k | i < k < |r| :: r[k] == s[k - 1])
  }

  lemma PutInHolds(s: Stack, n: nat, i: nat, r: Stack, x: nat)
    requires PutIn(s, n, i, r) && (HoldsTag(s, x) || x == n)
    ensures HoldsTag(r, x)
  {
    if x == n {
      assert r[i].tag == x;
    } else {
      var j :| 0 <= j < |s| && s[j].tag == x;
      if j < i {
        assert r[j].tag == x;
      } else {
        assert r[j + 1].tag == x;
      }
    }
  }

  lemma PushTags(s: Stack, pushed: set<nat>, finished: set<nat>, n: nat, i: nat, r: Stack)
    requires TagsAre(s, pushed, finished) && n !in finished
    requires PutIn(s, n, i, r) && Increasing(r)
    ensures TagsAre(r, pushed + {n}, finished)
  {
    forall x | x in pushed + {n} && x !in finished
      ensures HoldsTag(r, x)
    {
      PutInHolds(s, n, i, r, x);
    }
  }

  lemma PushRemembers(s: Stack, finished: set<nat>, n: nat, i: nat, r: Stack)
    requires forall k | 0 <= k < |s| :: Remembers(s, k, finished)
    requires PutIn(s, n, i, r) && Increasing(r)
    requires forall f | f in finished :: f < n
    ensures forall k | 0 <= k < |r| :: Remembers(r, k, finished)
  {
    assert i < |s| ==> r[i].tag < r[i + 1].tag;
    forall k | 0 <= k < |r|
      ensures Remembers(r, k, finished)
    {
      if k < i {
        assert Remembers(s, k, finished);
        assert forall x | x in finished && Between(r, k, x) :: Between(s, k, x);
      } else if k > i {
        assert Remembers(s, k - 1, finished);
      }
    }
  }

  /** Pushing a new tag puts it where the tags stay increasing, whether or not a sort is needed. */
  lemma PushSplits(s: Stack, n: nat) returns (i: nat)
    requires Increasing(s) && forall k | 0 <= k < |s| :: s[k].tag != n
    ensures i <= |s| && Push(s, n) == s[..i] + [Entry(n, None)] + s[i..]
    ensures Increasing(Push(s, n))
  {
    var e := Entry(n, None);
    i := InsertSplits(s, e);
    assert (s + [e])[..|s|] == s;
    SortedIsUnchanged(s);
    StaysIncreasing(s, e, i);
  }

  lemma StaysIncreasing(s: Stack, e: Entry, i: nat)
    requires Increasing(s) && i <= |s|
    requires i > 0 ==> s[i - 1].tag < e.tag
    requires i < |s| ==> e.tag < s[i].tag
    ensures Increasing(s[..i] + [e] + s[i..])
  {
    var r := s[..i] + [e] + s[i..];
    forall j, k | 0 <= j < k < |r|
      ensures r[j].tag < r[k].tag
    {
      assert j < i ==> r[j] == s[j] && s[j].tag <= s[i - 1].tag;
      assert j > i ==> r[j] == s[j - 1];
      assert k < i ==> r[k] == s[k];
      assert k > i ==> r[k] == s[k - 1] && s[i].tag <= s[k - 1].tag;
    }
  }

  lemma {:induction false} InsertSplits(s: Stack, e: Entry) returns (i: nat)
    requires Increasing(s) && forall k | 0 <= k < |s| :: s[k].tag != e.tag
    ensures i <= |s| && InsertByTag(s, e) == s[..i] + [e] + s[i..]
    ensures i > 0 ==> s[i - 1].tag < e.tag
    ensures i < |s| ==> e.tag < s[i].tag
  {
    i := |s|;
    if s != [] && s[|s| - 1].tag > e.tag {
      i := InsertSplits(s[..|s| - 1], e);
    }
  }

  lemma {:induction false} SortedIsUnchanged(s: Stack)
    requires Increasing(s)
    ensures SortByTag(s) == s
  {
    if s != [] {
      SortedIsUnchanged(s[..|s| - 1]);
    }
  }

  lemma RankFindsTag(s: Stack, n: nat, i: nat, k: nat)
    requires Increasing(s) && i <= k < |s| && s[i].tag == n
    ensures Rank(s, n, k) == i
  {
  }

  lemma PopTracks(s: Stack, pushed: set<nat>, finished: set<nat>, n: nat)
    requires Tracks(s, pushed, finished) && n in pushed - finished
    ensures Tracks(Pop(s, n).0, pushed, finished + {n})
  {
    assert HoldsTag(s, n);
    var p :| 0 <= p < |s| && s[p].tag == n;
    RankFindsTag(s, n, p, |s| - 1);
    if p == 0 {
      PopLowestTracks(s, pushed, finished, n);
    } else {
      PopMiddleTracks(s, pushed, finished, n, p);
    }
  }

  lemma PopLowestTracks(s: Stack, pushed: set<nat>, finished: set<nat>, n: nat)
    requires Tracks(s, pushed, finished) && s != [] && s[0].tag == n
    ensures Tracks(s[1..], pushed, finished + {n})
  {
    var r := s[1..];
    assert forall k | 0 <= k < |r| :: r[k] == s[k + 1];
    forall k | 0 <= k < |r|
      ensures Remembers(r, k, finished + {n})
    {
      assert Remembers(s, k + 1, finished);
    }
    forall x | x in pushed && x !in finished + {n}
      ensures HoldsTag(r, x)
    {
      assert HoldsTag(s, x);
      var j :| 0 <= j < |s| && s[j].tag == x;
      assert r[j - 1].tag == x;
    }
  }

  function Merged(s: Stack, n: nat, p: nat): Stack
    requires 0 < p < |s|
  {
    s[..p - 1] + [Entry(s[p - 1].tag, Or(s[p].done, n))] + s[p + 1..]
  }

  lemma MergedEntries(s: Stack, n: nat, p: nat)
    requires 0 < p < |s|
    ensures var r := Merged(s, n, p);
            && |r| == |s| - 1 && r[p - 1] == Entry(s[p - 1].tag, Or(s[p].done, n))
            && forall k | 0 <= k < |r| && k != p - 1 :: r[k] == s[if k < p then k else k + 1]
  {
  }

  lemma PopMiddleTracks(s: Stack, pushed: set<nat>, finished: set<nat>, n: nat, p: nat)
    requires Tracks(s, pushed, finished) && 0 < p < |s| && s[p].tag == n
    ensures Tracks(Merged(s, n, p), pushed, finished + {n})
  {
    MergedTags(s, pushed, finished, n, p);
    MergedRemembers(s, finished, n, p);
  }

  lemma MergedTags(s: Stack, pushed: set<nat>, finished: set<nat>, n: nat, p: nat)
    requires TagsAre(s, pushed, finished) && 0 < p < |s| && s[p].tag == n
    ensures TagsAre(Merged(s, n, p), pushed, finished + {n})
  {
    MergedEntries(s, n, p);
    var r := Merged(s, n, p);
    forall x | x in pushed && x !in finished + {n}
      ensures HoldsTag(r, x)
    {
      assert HoldsTag(s, x);
      var j :| 0 <= j < |s| && s[j].tag == x;
      assert r[if j < p then j else j - 1].tag == x;
    }
  }

  lemma MergedRemembers(s: Stack, finished: set<nat>, n: nat, p: nat)
    requires Increasing(s) && 0 < p < |s| && s[p].tag == n
    requires forall k | 0 <= k < |s| :: Remembers(s, k, finished)
    ensures forall k | 0 <= k < |Merged(s, n, p)| :: Remembers(Merged(s, n, p), k, finished + {n})
  {
    MergedEntries(s, n, p);
    var r := Merged(s, n, p);
    assert Remembers(s, p - 1, finished) && Remembers(s, p, finished);
    forall k | 0 <= k < |r|
      ensures Remembers(r, k, finished + {n})
    {
      if k != p - 1 {
        assert Remembers(s, if k < p then k else k + 1, finished);
        assert forall x | Between(r, k, x) :: x != n;
        assert forall x :: Between(r, k, x) == Between(s, if k < p then k else k + 1, x);
      } else {
        forall x | x in finished + {n} && Between(r, k, x)
          ensures r[k].done.Some? && x <= r[k].done.value
        {
          if x > n {
            assert Between(s, p, x);
          }
        }
      }
    }
  }

  /** A finished task is reported exactly when it was the smallest outstanding one, and the report is
      the watermark: the largest tag below everything still outstanding. */
  lemma PopReportsWatermark(s: Stack, pushed: set<nat>, finished: set<nat>, n: nat)
    requires Tracks(s, pushed, finished) && n in pushed - finished
    ensures Pop(s, n).1.Some? <==> forall y | y in pushed && y !in finished :: n <= y
    ensures Pop(s, n).1.Some? ==> IsWatermark(Pop(s, n).1.value, pushed, finished + {n})
  {
    assert HoldsTag(s, n);
    var p :| 0 <= p < |s| && s[p].tag == n;
    RankFindsTag(s, n, p, |s| - 1);
    if p == 0 {
      LowestReportsWatermark(s, pushed, finished);
    } else {
      assert s[p - 1].tag in pushed && s[p - 1].tag !in finished && s[p - 1].tag < n;
    }
  }

  lemma LowestReportsWatermark(s: Stack, pushed: set<nat>, finished: set<nat>)
    requires Tracks(s, pushed, finished) && s != []
    ensures forall y | y in pushed && y !in finished :: s[0].tag <= y
    ensures IsWatermark(Or(s[0].done, s[0].tag).value, pushed, finished + {s[0].tag})
  {
    var n, w := s[0].tag, Or(s[0].done, s[0].tag).value;
    assert Remembers(s, 0, finished);
    forall y | y in pushed && y !in finished
      ensures n <= y && (y != n ==> w < y)
    {
      assert HoldsTag(s, y);
      var j :| 0 <= j < |s| && s[j].tag == y;
      assert j > 0 ==> s[0].tag < s[j].tag && s[1].tag <= s[j].tag;
    }
    forall x | x in pushed && BelowOutstanding(x, pushed, finished + {n})
      ensures x <= w
    {
      assert |s| > 1 ==> s[1].tag in pushed && s[1].tag !in finished + {n};
      if x > n {
        assert Between(s, 0, x);
      }
    }
  }

  /** The last report lies below everything outstanding and was itself finished. */
  ghost predicate LastReport(last: Option<nat>, pushed: set<nat>, finished: set<nat>)
  {
    last.Some? ==> last.value in finished && BelowOutstanding(last.value, pushed, finished)
  }

  /** Reports strictly increase, however pushes and pops interleave; and the report that leaves
      nothing outstanding is the largest tag of all. */
  lemma ReportsIncrease(s: Stack, pushed: set<nat>, finished: set<nat>, n: nat, last: Option<nat>)
    requires Tracks(s, pushed, finished) && n in pushed - finished && LastReport(last, pushed, finished)
    ensures var r := Pop(s, n).1;
            && (r.Some? && last.Some? ==> last.value < r.value)
            && LastReport(if r.Some? then r else last, pushed, finished + {n})
            && (pushed == finished + {n} ==> r.Some? && forall x | x in pushed :: x <= r.value)
  {
    PopReportsWatermark(s, pushed, finished, n);
  }

  lemma PushKeepsReport(pushed: set<nat>, finished: set<nat>, n: nat, last: Option<nat>)
    requires LastReport(last, pushed, finished) && forall f | f in finished :: f < n
    ensures LastReport(last, pushed + {n}, finished)
  {
  }
}
