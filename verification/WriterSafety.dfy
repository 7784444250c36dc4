/** A writer's watermark never passes a row it has not written, provided the tasks' stretches of offsets
    stay apart.  Module SplitRows shows that this condition is the exact one. */
module WriterSafety {
  import opened Types
  import opened Progress
  import opened Writer

  // ---------------------------------------------------------------- vocabulary

  ghost predicate Has(rows: seq<Row>, tag: Tag)
  {
    exists r | r in rows :: r.tag == Some(tag)
  }

  /** Every row of partition `k` in these tasks has an offset above `v`. */
  ghost predicate Above(tasks: seq<Task>, k: int, v: nat)
  {
    forall i, r | 0 <= i < |tasks| && r in tasks[i].data && r.tag.Some? && r.tag.value.partition == k :: v < r.tag.value.offset
  }

  /** Offset `v` of partition `k` has been reached by the rows received. */
  ghost predicate Reached(rows: seq<Row>, k: int, v: nat)
  {
    exists r | r in rows :: r.tag.Some? && r.tag.value.partition == k && v <= r.tag.value.offset
  }

  /** Watermark `v` of partition `k` is safe: it has been reached, and no row up to `v` is still
      waiting to be written. */
  ghost predicate Safe(w: Writer, k: int, v: nat)
  {
    && Reached(w.received, k, v)
    && Above(w.next, k, v) && Above(w.errors, k, v) && Above(w.running, k, v)
  }

  // ---------------------------------------------------------------- the condition on arrivals

  ghost predicate AbovePushed(pushed: History, row: Row)
  {
    row.tag.Some? ==> forall n | n in At(pushed, row.tag.value.partition) :: n < row.tag.value.offset
  }

  ghost predicate AboveTask(t: Task, row: Row)
  {
    row.tag.Some? && row.tag.value.partition in FlagsOf(t) ==> FlagsOf(t)[row.tag.value.partition] < row.tag.value.offset
  }

  ghost predicate AboveTasks(tasks: seq<Task>, row: Row)
  {
    forall i | 0 <= i < |tasks| :: AboveTask(tasks[i], row)
  }

  function OpenTask(next: seq<Task>): Task
  {
    if next != [] && !IsLimited(next[0]) then next[0] else EMPTY_TASK
  }

  /** The queued tasks that take no more rows. */
  function Closed(next: seq<Task>): seq<Task>
  {
    if next != [] && !IsLimited(next[0]) then next[1..] else next
  }

  /** No task but the one the row is about to join, be it queued, spawned or finished, has a tag of the
      row's partition as large as the row's offset. */
  ghost predicate InOrder(w: Writer, row: Row)
  {
    AbovePushed(w.pushed, row) && AboveTasks(Closed(w.next), row)
  }

  // ---------------------------------------------------------------- the invariant

  ghost predicate CoversTag(f: Flags, tag: Tag)
  {
    tag.partition in f && tag.offset <= f[tag.partition]
  }

  /** No tag pushed so far separates the row from its task's tag. */
  ghost predicate Unseparated(f: Flags, tag: Tag, pushed: set<nat>)
    requires tag.partition in f
  {
    forall n | n in pushed && n < f[tag.partition] :: n < tag.offset
  }

  /** A spawned task: its tags are outstanding, and its rows lie in its own stretch of offsets. */
  ghost predicate LiveOk(t: Task, pushed: History, finished: History)
  {
    && (forall k | k in FlagsOf(t) :: FlagsOf(t)[k] in At(pushed, k) && FlagsOf(t)[k] !in At(finished, k))
    && (forall r | r in t.data && r.tag.Some? ::
          CoversTag(FlagsOf(t), r.tag.value) && Unseparated(FlagsOf(t), r.tag.value, At(pushed, r.tag.value.partition)))
  }

  ghost predicate FlagsCarried(t: Task)
  {
    forall k | k in FlagsOf(t) :: Has(t.data, Tag(k, FlagsOf(t)[k]))
  }

  /** A queued task: its tags are those of its last rows, and all its rows lie above everything pushed. */
  ghost predicate QueueOk(t: Task, pushed: History, received: seq<Row>)
  {
    && FlagsCarried(t)
    && (forall r | r in t.data :: r in received)
    && (forall r | r in t.data && r.tag.Some? ::
          && CoversTag(FlagsOf(t), r.tag.value)
          && forall n | n in At(pushed, r.tag.value.partition) :: n < r.tag.value.offset)
  }

  ghost predicate Apart(s: Task, t: Task)
  {
    forall k | k in FlagsOf(s) && k in FlagsOf(t) :: FlagsOf(s)[k] != FlagsOf(t)[k]
  }

  ghost predicate Precedes(older: Task, newer: Task)
  {
    forall r | r in newer.data && r.tag.Some? && r.tag.value.partition in FlagsOf(older) ::
      FlagsOf(older)[r.tag.value.partition] < r.tag.value.offset
  }

  ghost predicate LiveAll(live: seq<Task>, pushed: History, finished: History)
  {
    && (forall i | 0 <= i < |live| :: LiveOk(live[i], pushed, finished))
    && (forall i, j | 0 <= i < |live| && 0 <= j < |live| && i != j :: Apart(live[i], live[j]))
  }

  ghost predicate QueueAll(next: seq<Task>, pushed: History, received: seq<Row>)
  {
    && (forall i | 0 <= i < |next| :: QueueOk(next[i], pushed, received))
    && (forall i, j | 0 <= i < j < |next| :: Precedes(next[j], next[i]))
  }

  ghost predicate StacksOk(stacks: Stacks, pushed: History, finished: History)
  {
    forall k :: Tracks(StackAt(stacks, k), At(pushed, k), At(finished, k))
  }

  ghost predicate PushedReceived(pushed: History, received: seq<Row>)
  {
    forall k, n | n in At(pushed, k) :: Has(received, Tag(k, n))
  }

  ghost predicate Safely(w: Writer)
  {
    && LiveAll(w.running + w.errors, w.pushed, w.finished)
    && QueueAll(w.next, w.pushed, w.received)
    && StacksOk(w.stacks, w.pushed, w.finished)
    && PushedReceived(w.pushed, w.received)
    && forall k | k in w.watch :: Safe(w, k, w.watch[k])
  }

  ghost predicate ReportsOk(reported: Flags, watch: Flags, pushed: History, finished: History)
  {
    && (forall k | k in reported :: LastReport(Some(reported[k]), At(pushed, k), At(finished, k)))
    && (forall k | k in watch :: k in reported && watch[k] == reported[k])
  }

  // ---------------------------------------------------------------- a row arrives

  lemma AddedFlags(f: Flags, tag: Tag)
    ensures CoversTag(AddTo(f, tag), tag)
    ensures forall t :: CoversTag(f, t) ==> CoversTag(AddTo(f, tag), t)
    ensures forall k | k in AddTo(f, tag) :: Tag(k, AddTo(f, tag)[k]) == tag || (k in f && AddTo(f, tag)[k] == f[k])
  {
  }

  lemma AddDataKeepsFlags(t: Task, row: Row)
    requires FlagsCarried(t)
    ensures FlagsCarried(AddData(t, row))
  {
    var t' := AddData(t, row);
    if row.tag.Some? {
      AddedFlags(FlagsOf(t), row.tag.value);
    }
    forall k | k in FlagsOf(t')
      ensures Has(t'.data, Tag(k, FlagsOf(t')[k]))
    {
      if k in FlagsOf(t) && FlagsOf(t')[k] == FlagsOf(t)[k] {
        HasLater(t.data, row, Tag(k, FlagsOf(t)[k]));
      } else {
        assert row in t'.data;
      }
    }
  }

  lemma AddDataKeepsQueueOk(t: Task, row: Row, pushed: History, received: seq<Row>)
    requires QueueOk(t, pushed, received) && AbovePushed(pushed, row)
    ensures QueueOk(AddData(t, row), pushed, received + [row])
  {
    var t' := AddData(t, row);
    AddDataKeepsFlags(t, row);
    if row.tag.Some? {
      AddedFlags(FlagsOf(t), row.tag.value);
    }
    forall r | r in t'.data && r.tag.Some?
      ensures CoversTag(FlagsOf(t'), r.tag.value)
      ensures forall n | n in At(pushed, r.tag.value.partition) :: n < r.tag.value.offset
    {
      assert r == row || r in t.data;
    }
  }

  lemma QueueOkLater(t: Task, pushed: History, received: seq<Row>, row: Row)
    requires QueueOk(t, pushed, received)
    ensures QueueOk(t, pushed, received + [row])
  {
  }

  lemma QueueAllLater(next: seq<Task>, pushed: History, received: seq<Row>, row: Row)
    requires QueueAll(next, pushed, received)
    ensures QueueAll(Closed(next), pushed, received + [row])
  {
    var older, d := Closed(next), |next| - |Closed(next)|;
    assert forall i | 0 <= i < |older| :: older[i] == next[i + d];
    forall i | 0 <= i < |older|
      ensures QueueOk(older[i], pushed, received + [row])
    {
      QueueOkLater(next[i + d], pushed, received, row);
    }
  }

  lemma AddedIsPreceded(older: Task, t: Task, row: Row)
    requires Precedes(older, t) && AboveTask(older, row)
    ensures Precedes(older, AddData(t, row))
  {
  }

  lemma QueuedSplits(next: seq<Task>, row: Row)
    ensures Queued(next, row) == [AddData(OpenTask(next), row)] + Closed(next)
  {
  }

  lemma QueuedIsOk(next: seq<Task>, row: Row, pushed: History, received: seq<Row>)
    requires QueueAll(next, pushed, received) && AbovePushed(pushed, row) && AboveTasks(Closed(next), row)
    ensures QueueAll(Queued(next, row), pushed, received + [row])
  {
    var t, older := OpenTask(next), Closed(next);
    QueuedSplits(next, row);
    AddDataKeepsQueueOk(t, row, pushed, received);
    QueueAllLater(next, pushed, received, row);
    forall i | 0 <= i < |older|
      ensures Precedes(older[i], AddData(t, row))
    {
      assert older[i] == next[i + |next| - |older|];
      AddedIsPreceded(older[i], t, row);
    }
  }

  lemma ReachedLater(rows: seq<Row>, row: Row, k: int, v: nat)
    requires Reached(rows, k, v)
    ensures Reached(rows + [row], k, v)
  {
    var r :| r in rows && r.tag.Some? && r.tag.value.partition == k && v <= r.tag.value.offset;
    assert r in rows + [row];
  }

  /** Below a safe watermark every offset is safe. */
  lemma SafeBelow(w: Writer, k: int, v: nat, u: nat)
    requires Safe(w, k, v) && u <= v
    ensures Safe(w, k, u)
  {
  }

  lemma HasLater(rows: seq<Row>, row: Row, tag: Tag)
    requires Has(rows, tag)
    ensures Has(rows + [row], tag)
  {
    var r :| r in rows && r.tag == Some(tag);
    assert r in rows + [row];
  }

  /** The row lies above watermark `v` of partition `k`, if it is of that partition. */
  predicate RowAbove(row: Row, k: int, v: nat)
  {
    row.tag.Some? && row.tag.value.partition == k ==> v < row.tag.value.offset
  }

  lemma QueuedStaysAbove(next: seq<Task>, row: Row, k: int, v: nat)
    requires Above(next, k, v) && RowAbove(row, k, v)
    ensures Above(Queued(next, row), k, v)
  {
    var q := Queued(next, row);
    QueuedSplits(next, row);
    forall i, r | 0 <= i < |q| && r in q[i].data && r.tag.Some? && r.tag.value.partition == k
      ensures v < r.tag.value.offset
    {
      if r != row && i == 0 {
        assert r in OpenTask(next).data && OpenTask(next) == next[0];
      } else if r != row {
        assert q[i] == next[i + |next| - |q|];
      }
    }
  }

  lemma SafeAfterReceive(w: Writer, w': Writer, row: Row, k: int, v: nat)
    requires Safe(w, k, v) && RowAbove(row, k, v)
    requires w'.next == Queued(w.next, row) && w'.errors == w.errors && w'.running == w.running
    requires w'.received == w.received + [row]
    ensures Safe(w', k, v)
  {
    ReachedLater(w.received, row, k, v);
    QueuedStaysAbove(w.next, row, k, v);
  }

  /** A row in order lies above everything reported. */
  lemma InOrderAboveReports(w: Writer, row: Row, k: int, v: nat)
    requires StacksOk(w.stacks, w.pushed, w.finished) && ReportsOk(w.reported, w.watch, w.pushed, w.finished)
    requires AbovePushed(w.pushed, row) && k in w.reported && v <= w.reported[k]
    ensures RowAbove(row, k, v)
  {
    assert LastReport(Some(w.reported[k]), At(w.pushed, k), At(w.finished, k));
    assert Tracks(StackAt(w.stacks, k), At(w.pushed, k), At(w.finished, k));
  }

  lemma ReceiveIsSafe(spawnLimit: int, w: Writer, row: Row)
    requires Safely(w) && ReportsOk(w.reported, w.watch, w.pushed, w.finished) && InOrder(w, row)
    ensures Safely(Scheduled(spawnLimit, w, Receive(row)))
  {
    var w' := Scheduled(spawnLimit, w, Receive(row));
    QueuedIsOk(w.next, row, w.pushed, w.received);
    forall k, n | n in At(w.pushed, k)
      ensures Has(w'.received, Tag(k, n))
    {
      HasLater(w.received, row, Tag(k, n));
    }
    forall k | k in w.watch
      ensures Safe(w', k, w.watch[k])
    {
      InOrderAboveReports(w, row, k, w.watch[k]);
      SafeAfterReceive(w, w', row, k, w.watch[k]);
    }
  }

  // ---------------------------------------------------------------- a task is spawned

  lemma NotedAt(h: History, f: Flags, k: int)
    ensures At(Noted(h, f), k) == At(h, k) + if k in f then {f[k]} else {}
  {
  }

  lemma UpdatedAt(s: Stacks, f: Flags, k: int)
    ensures StackAt(UpdateFrom(s, f), k) == if k in f then Push(StackAt(s, k), f[k]) else StackAt(s, k)
  {
  }

  /** A queued task's tags are above everything pushed so far. */
  lemma QueuedTagsAreNew(t: Task, pushed: History, received: seq<Row>, k: int)
    requires QueueOk(t, pushed, received) && k in FlagsOf(t)
    ensures forall n | n in At(pushed, k) :: n < FlagsOf(t)[k]
  {
    assert Has(t.data, Tag(k, FlagsOf(t)[k]));
    var r :| r in t.data && r.tag == Some(Tag(k, FlagsOf(t)[k]));
  }

  lemma SpawnedStacks(stacks: Stacks, t: Task, pushed: History, finished: History, received: seq<Row>)
    requires StacksOk(stacks, pushed, finished) && QueueOk(t, pushed, received)
    ensures StacksOk(UpdateFrom(stacks, FlagsOf(t)), Noted(pushed, FlagsOf(t)), finished)
  {
    forall k
      ensures Tracks(StackAt(UpdateFrom(stacks, FlagsOf(t)), k), At(Noted(pushed, FlagsOf(t)), k), At(finished, k))
    {
      NotedAt(pushed, FlagsOf(t), k);
      UpdatedAt(stacks, FlagsOf(t), k);
      if k in FlagsOf(t) {
        QueuedTagsAreNew(t, pushed, received, k);
        PushTracks(StackAt(stacks, k), At(pushed, k), At(finished, k), FlagsOf(t)[k]);
      }
    }
  }

  lemma SpawnedIsLive(t: Task, pushed: History, finished: History, received: seq<Row>, stacks: Stacks)
    requires QueueOk(t, pushed, received) && StacksOk(stacks, pushed, finished)
    ensures LiveOk(t, Noted(pushed, FlagsOf(t)), finished)
  {
    var f := FlagsOf(t);
    forall k | k in f
      ensures f[k] in At(Noted(pushed, f), k) && f[k] !in At(finished, k)
    {
      NotedAt(pushed, f, k);
      QueuedTagsAreNew(t, pushed, received, k);
      assert Tracks(StackAt(stacks, k), At(pushed, k), At(finished, k));
    }
    forall r | r in t.data && r.tag.Some?
      ensures CoversTag(f, r.tag.value) && Unseparated(f, r.tag.value, At(Noted(pushed, f), r.tag.value.partition))
    {
      NotedAt(pushed, f, r.tag.value.partition);
    }
  }

  lemma LiveStaysLive(s: Task, t: Task, pushed: History, finished: History, received: seq<Row>)
    requires LiveOk(s, pushed, finished) && QueueOk(t, pushed, received)
    ensures LiveOk(s, Noted(pushed, FlagsOf(t)), finished) && Apart(s, t) && Apart(t, s)
  {
    forall k | k in FlagsOf(s)
      ensures FlagsOf(s)[k] in At(Noted(pushed, FlagsOf(t)), k)
      ensures k in FlagsOf(t) ==> FlagsOf(s)[k] < FlagsOf(t)[k]
    {
      NotedAt(pushed, FlagsOf(t), k);
      if k in FlagsOf(t) {
        QueuedTagsAreNew(t, pushed, received, k);
      }
    }
    forall r | r in s.data && r.tag.Some?
      ensures CoversTag(FlagsOf(s), r.tag.value)
      ensures Unseparated(FlagsOf(s), r.tag.value, At(Noted(pushed, FlagsOf(t)), r.tag.value.partition))
    {
      NotedAt(pushed, FlagsOf(t), r.tag.value.partition);
    }
  }

  lemma QueueStaysOk(s: Task, t: Task, pushed: History, received: seq<Row>)
    requires QueueOk(s, pushed, received) && Precedes(t, s)
    ensures QueueOk(s, Noted(pushed, FlagsOf(t)), received)
  {
    forall r | r in s.data && r.tag.Some?
      ensures forall n | n in At(Noted(pushed, FlagsOf(t)), r.tag.value.partition) :: n < r.tag.value.offset
    {
      NotedAt(pushed, FlagsOf(t), r.tag.value.partition);
    }
  }

  lemma SpawnedLive(live: seq<Task>, live': seq<Task>, p: nat, t: Task, pushed: History, finished: History, received: seq<Row>, stacks: Stacks)
    requires LiveAll(live, pushed, finished) && QueueOk(t, pushed, received) && StacksOk(stacks, pushed, finished)
    requires p <= |live| && live' == live[..p] + [t] + live[p..]
    ensures LiveAll(live', Noted(pushed, FlagsOf(t)), finished)
  {
    SpawnedIsLive(t, pushed, finished, received, stacks);
    forall i | 0 <= i < |live|
      ensures LiveOk(live[i], Noted(pushed, FlagsOf(t)), finished) && Apart(live[i], t) && Apart(t, live[i])
    {
      LiveStaysLive(live[i], t, pushed, finished, received);
    }
    assert forall i | 0 <= i < |live'| && i != p :: live'[i] == live[if i < p then i else i - 1];
  }

  lemma SpawnedQueue(next: seq<Task>, pushed: History, received: seq<Row>)
    requires QueueAll(next, pushed, received) && next != []
    ensures var n := |next| - 1; QueueAll(next[..n], Noted(pushed, FlagsOf(next[n])), received)
  {
    var n := |next| - 1;
    forall i | 0 <= i < n
      ensures QueueOk(next[i], Noted(pushed, FlagsOf(next[n])), received)
    {
      QueueStaysOk(next[i], next[n], pushed, received);
    }
  }

  lemma SpawnedReceived(t: Task, pushed: History, received: seq<Row>)
    requires QueueOk(t, pushed, received) && PushedReceived(pushed, received)
    ensures PushedReceived(Noted(pushed, FlagsOf(t)), received)
  {
    forall k, n | n in At(Noted(pushed, FlagsOf(t)), k)
      ensures Has(received, Tag(k, n))
    {
      NotedAt(pushed, FlagsOf(t), k);
      if n !in At(pushed, k) {
        assert Has(t.data, Tag(k, n));
        var r :| r in t.data && r.tag == Some(Tag(k, n));
        assert r in received;
      }
    }
  }

  lemma AboveAfterMove(from: seq<Task>, to: seq<Task>, k: int, v: nat)
    requires from != [] && Above(from, k, v) && Above(to, k, v)
    ensures Above(from[..|from| - 1], k, v) && Above(to + [from[|from| - 1]], k, v)
  {
    var t := to + [from[|from| - 1]];
    forall i, r | 0 <= i < |t| && r in t[i].data && r.tag.Some? && r.tag.value.partition == k
      ensures v < r.tag.value.offset
    {
      assert t[i] == if i < |to| then to[i] else from[|from| - 1];
    }
  }

  lemma SpawnNextIsSafe(w: Writer)
    requires Safely(w) && w.next != []
    ensures Safely(SpawnNext(w))
  {
    var n := |w.next| - 1;
    var t, w' := w.next[n], SpawnNext(w);
    SpawnedStacks(w.stacks, t, w.pushed, w.finished, w.received);
    SpawnedLive(w.running + w.errors, w'.running + w'.errors, |w.running|, t, w.pushed, w.finished, w.received, w.stacks);
    SpawnedQueue(w.next, w.pushed, w.received);
    SpawnedReceived(t, w.pushed, w.received);
    forall k | k in w'.watch
      ensures Safe(w', k, w'.watch[k])
    {
      AboveAfterMove(w.next, w.running, k, w.watch[k]);
    }
  }

  /** The same live tasks in another order. */
  lemma Reordered(live: seq<Task>, live': seq<Task>, at: seq<nat>, pushed: History, finished: History)
    requires LiveAll(live, pushed, finished) && |at| == |live'|
    requires forall i | 0 <= i < |at| :: at[i] < |live| && FlagsOf(live'[i]) == FlagsOf(live[at[i]])
    requires forall i, r | 0 <= i < |at| && r in live'[i].data :: r in live[at[i]].data
    requires forall i, j | 0 <= i < |at| && 0 <= j < |at| && i != j :: at[i] != at[j]
    ensures LiveAll(live', pushed, finished)
  {
    forall i | 0 <= i < |live'|
      ensures LiveOk(live'[i], pushed, finished)
    {
      assert LiveOk(live[at[i]], pushed, finished);
    }
    forall i, j | 0 <= i < |live'| && 0 <= j < |live'| && i != j
      ensures Apart(live'[i], live'[j])
    {
      assert Apart(live[at[i]], live[at[j]]);
    }
  }

  lemma SpawnRetryIsSafe(w: Writer)
    requires Safely(w) && w.errors != []
    ensures Safely(SpawnRetry(w))
  {
    var w' := SpawnRetry(w);
    var live, live', p := w.running + w.errors, w'.running + w'.errors, |w.running|;
    Reordered(live, live', seq(|live|, i requires 0 <= i < |live| => if i < p then i else if i == p then |live| - 1 else i - 1),
              w.pushed, w.finished);
    forall k | k in w'.watch
      ensures Safe(w', k, w'.watch[k])
    {
      AboveAfterMove(w.errors, w.running, k, w.watch[k]);
    }
  }

  // ---------------------------------------------------------------- a task ends

  lemma OutstandingIsStacked(stacks: Stacks, pushed: History, finished: History, k: int, n: nat)
    requires StacksOk(stacks, pushed, finished) && n in At(pushed, k) && n !in At(finished, k)
    ensures k in stacks
  {
    assert Tracks(StackAt(stacks, k), At(pushed, k), At(finished, k));
    assert HoldsTag(StackAt(stacks, k), n);
  }

  lemma FinishedAt(stacks: Stacks, f: Flags, k: int)
    ensures StackAt(FinishFrom(stacks, f), k) == if k in stacks && k in f then Pop(stacks[k], f[k]).0 else StackAt(stacks, k)
  {
  }

  lemma FinishedStack(stacks: Stacks, t: Task, pushed: History, finished: History, k: int)
    requires StacksOk(stacks, pushed, finished) && LiveOk(t, pushed, finished)
    ensures Tracks(StackAt(FinishFrom(stacks, FlagsOf(t)), k), At(pushed, k), At(Noted(finished, FlagsOf(t)), k))
  {
    var f := FlagsOf(t);
    NotedAt(finished, f, k);
    FinishedAt(stacks, f, k);
    assert Tracks(StackAt(stacks, k), At(pushed, k), At(finished, k));
    if k in f {
      OutstandingIsStacked(stacks, pushed, finished, k, f[k]);
      PopTracks(StackAt(stacks, k), At(pushed, k), At(finished, k), f[k]);
    } else {
      assert At(Noted(finished, f), k) == At(finished, k);
    }
  }

  lemma FinishedStacks(stacks: Stacks, t: Task, pushed: History, finished: History)
    requires StacksOk(stacks, pushed, finished) && LiveOk(t, pushed, finished)
    ensures StacksOk(FinishFrom(stacks, FlagsOf(t)), pushed, Noted(finished, FlagsOf(t)))
  {
    forall k
      ensures Tracks(StackAt(FinishFrom(stacks, FlagsOf(t)), k), At(pushed, k), At(Noted(finished, FlagsOf(t)), k))
    {
      FinishedStack(stacks, t, pushed, finished, k);
    }
  }

  lemma OtherStaysLive(s: Task, t: Task, pushed: History, finished: History)
    requires LiveOk(s, pushed, finished) && Apart(s, t)
    ensures LiveOk(s, pushed, Noted(finished, FlagsOf(t)))
  {
    forall k | k in FlagsOf(s)
      ensures FlagsOf(s)[k] !in At(Noted(finished, FlagsOf(t)), k)
    {
      NotedAt(finished, FlagsOf(t), k);
    }
  }

  lemma FinishedLive(live: seq<Task>, i: nat, pushed: History, finished: History)
    requires LiveAll(live, pushed, finished) && i < |live|
    ensures LiveAll(Drop(live, i), pushed, Noted(finished, FlagsOf(live[i])))
  {
    var r := Drop(live, i);
    assert forall j | 0 <= j < |r| :: r[j] == live[if j < i then j else j + 1];
    forall j | 0 <= j < |r|
      ensures LiveOk(r[j], pushed, Noted(finished, FlagsOf(live[i])))
    {
      OtherStaysLive(r[j], live[i], pushed, finished);
    }
  }

  /** What a finished task reports lies below every row of a spawned task still to be written. */
  lemma ReportBelowLive(live: seq<Task>, k: int, v: nat, pushed: History, finished: History)
    requires LiveAll(live, pushed, finished)
    requires v in At(pushed, k) && BelowOutstanding(v, At(pushed, k), At(finished, k))
    ensures Above(live, k, v)
  {
    forall i, r | 0 <= i < |live| && r in live[i].data && r.tag.Some? && r.tag.value.partition == k
      ensures v < r.tag.value.offset
    {
      assert LiveOk(live[i], pushed, finished);
      var f := FlagsOf(live[i]);
      assert CoversTag(f, r.tag.value) && Unseparated(f, r.tag.value, At(pushed, k));
      assert f[k] in At(pushed, k) && f[k] !in At(finished, k);
    }
  }

  lemma ReportBelowQueue(next: seq<Task>, k: int, v: nat, pushed: History, received: seq<Row>)
    requires QueueAll(next, pushed, received) && v in At(pushed, k)
    ensures Above(next, k, v)
  {
    forall i, r | 0 <= i < |next| && r in next[i].data && r.tag.Some? && r.tag.value.partition == k
      ensures v < r.tag.value.offset
    {
      assert QueueOk(next[i], pushed, received);
    }
  }

  lemma ReportIsWatermark(stacks: Stacks, t: Task, pushed: History, finished: History, k: int)
    requires StacksOk(stacks, pushed, finished) && LiveOk(t, pushed, finished)
    requires k in Reports(stacks, FlagsOf(t))
    ensures IsWatermark(Reports(stacks, FlagsOf(t))[k], At(pushed, k), At(Noted(finished, FlagsOf(t)), k))
  {
    NotedAt(finished, FlagsOf(t), k);
    assert Tracks(StackAt(stacks, k), At(pushed, k), At(finished, k));
    PopReportsWatermark(stacks[k], At(pushed, k), At(finished, k), FlagsOf(t)[k]);
  }

  lemma AboveSplit(s: seq<Task>, t: seq<Task>, k: int, v: nat)
    requires Above(s + t, k, v)
    ensures Above(s, k, v) && Above(t, k, v)
  {
    assert forall i | 0 <= i < |s| :: s[i] == (s + t)[i];
    assert forall i | 0 <= i < |t| :: t[i] == (s + t)[|s| + i];
  }

  lemma ReportIsSafe(w: Writer, w': Writer, t: Task, k: int)
    requires Safely(w) && LiveOk(t, w.pushed, w.finished) && k in Reports(w.stacks, FlagsOf(t))
    requires w'.next == w.next && w'.received == w.received
    requires LiveAll(w'.running + w'.errors, w.pushed, Noted(w.finished, FlagsOf(t)))
    ensures Safe(w', k, Reports(w.stacks, FlagsOf(t))[k])
  {
    var v := Reports(w.stacks, FlagsOf(t))[k];
    ReportIsWatermark(w.stacks, t, w.pushed, w.finished, k);
    ReportBelowLive(w'.running + w'.errors, k, v, w.pushed, Noted(w.finished, FlagsOf(t)));
    ReportBelowQueue(w.next, k, v, w.pushed, w.received);
    AboveSplit(w'.running, w'.errors, k, v);
    assert Has(w.received, Tag(k, v));
  }

  lemma AboveDrop(s: seq<Task>, i: nat, k: int, v: nat)
    requires i < |s| && Above(s, k, v)
    ensures Above(Drop(s, i), k, v)
  {
    var r := Drop(s, i);
    assert forall j | 0 <= j < |r| :: r[j] == s[if j < i then j else j + 1];
  }

  lemma SilentFinishIsSafe(w: Writer, i: nat)
    requires Safely(w) && i < |w.running| && w.running[i].notify.None?
    ensures Safely(Finished(w, i))
  {
    var w' := Finished(w, i);
    var live, live' := w.running + w.errors, w'.running + w'.errors;
    Reordered(live, live', seq(|live'|, j requires 0 <= j < |live'| => if j < i then j else j + 1), w.pushed, w.finished);
    forall k | k in w'.watch
      ensures Safe(w', k, w'.watch[k])
    {
      AboveDrop(w.running, i, k, w.watch[k]);
    }
  }

  lemma FinishIsSafe(w: Writer, i: nat)
    requires Safely(w) && i < |w.running|
    ensures Safely(Finished(w, i))
  {
    var t, w' := w.running[i], Finished(w, i);
    if t.notify.None? {
      SilentFinishIsSafe(w, i);
    } else {
      var live := w.running + w.errors;
      assert live[i] == t && Drop(live, i) == w'.running + w'.errors;
      FinishedStacks(w.stacks, t, w.pushed, w.finished);
      FinishedLive(live, i, w.pushed, w.finished);
      forall k | k in w'.watch
        ensures Safe(w', k, w'.watch[k])
      {
        ReportIsSafe(w, w', t, k);
      }
    }
  }

  lemma FailIsSafe(w: Writer, i: nat)
    requires Safely(w) && i < |w.running|
    ensures Safely(Failed(w, i))
  {
    var w', p := Failed(w, i), |w.running|;
    var live, live' := w.running + w.errors, w'.running + w'.errors;
    Reordered(live, live', seq(|live|, j requires 0 <= j < |live| => if j < i then j else if j < p - 1 then j + 1 else if j == p - 1 then i else j),
              w.pushed, w.finished);
    forall k | k in w'.watch
      ensures Safe(w', k, w'.watch[k])
    {
      AboveDrop(w.running, i, k, w.watch[k]);
      assert forall j | 0 < j < |w'.errors| :: w'.errors[j] == w.errors[j - 1];
    }
  }

  lemma PieceIsSafe(w: Writer, i: nat, n: nat)
    requires Safely(w) && i < |w.running| && n <= |w.running[i].data|
    ensures Safely(PieceWritten(w, i, n))
  {
    var w' := PieceWritten(w, i, n);
    var live, live' := w.running + w.errors, w'.running + w'.errors;
    assert forall j | 0 <= j < |live'| && j != i :: live'[j] == live[j];
    Reordered(live, live', seq(|live|, j requires 0 <= j < |live| => j), w.pushed, w.finished);
    forall k | k in w'.watch
      ensures Safe(w', k, w'.watch[k])
    {
      assert forall j, r | 0 <= j < |w'.running| && r in w'.running[j].data :: r in w.running[j].data;
    }
  }

  // ---------------------------------------------------------------- every step

  ghost predicate InOrderMove(w: Writer, m: Move)
  {
    m.Receive? && !w.exited ==> InOrder(w, m.row)
  }

  /** Every step keeps every watermark safe, if rows arrive in order. */
  lemma StepIsSafe(spawnLimit: int, w: Writer, m: Move)
    requires Safely(w) && ReportsOk(w.reported, w.watch, w.pushed, w.finished) && InOrderMove(w, m)
    ensures Safely(Step(spawnLimit, w, m))
  {
    match m
    case WritePiece(i, n) =>
      if i < |w.running| && n <= |w.running[i].data| {
        PieceIsSafe(w, i, n);
      }
    case Receive(row) =>
      if !w.exited {
        ReceiveIsSafe(spawnLimit, w, row);
      }
    case Acquire =>
      if w.errors != [] {
        SpawnRetryIsSafe(w);
      } else if w.next != [] && w.spawning < spawnLimit {
        SpawnNextIsSafe(w);
      }
    case Complete(i) =>
      if i < |w.running| {
        FinishIsSafe(w, i);
      }
    case Fail(i) =>
      if i < |w.running| {
        FailIsSafe(w, i);
      }
    case _ =>
  }

  lemma FailStaysAbove(w: Writer, i: nat, k: int, v: nat)
    requires i < |w.running| && Above(w.running, k, v) && Above(w.errors, k, v)
    ensures Above(Failed(w, i).errors, k, v)
  {
    var e := Failed(w, i).errors;
    assert forall j | 0 < j < |e| :: e[j] == w.errors[j - 1];
  }

  lemma RetryKeepsSafe(w: Writer, k: int, v: nat)
    requires Safe(w, k, v) && w.errors != []
    ensures Safe(SpawnRetry(w), k, v)
  {
    AboveAfterMove(w.errors, w.running, k, v);
  }

  lemma SpawnKeepsSafe(w: Writer, k: int, v: nat)
    requires Safe(w, k, v) && w.next != []
    ensures Safe(SpawnNext(w), k, v)
  {
    AboveAfterMove(w.next, w.running, k, v);
  }

  lemma EndKeepsSafe(w: Writer, i: nat, k: int, v: nat)
    requires Safe(w, k, v) && i < |w.running|
    ensures Safe(Finished(w, i), k, v) && Safe(Failed(w, i), k, v)
  {
    AboveDrop(w.running, i, k, v);
    FailStaysAbove(w, i, k, v);
    FinishedFields(w, i);
  }

  lemma PieceKeepsSafe(w: Writer, i: nat, n: nat, k: int, v: nat)
    requires Safe(w, k, v) && i < |w.running| && n <= |w.running[i].data|
    ensures Safe(PieceWritten(w, i, n), k, v)
  {
    var w' := PieceWritten(w, i, n);
    assert forall j, r | 0 <= j < |w'.running| && r in w'.running[j].data :: r in w.running[j].data;
  }

  lemma ReceiveKeepsSafe(spawnLimit: int, w: Writer, row: Row, k: int, v: nat)
    requires Safe(w, k, v) && RowAbove(row, k, v)
    ensures Safe(Scheduled(spawnLimit, w, Receive(row)), k, v)
  {
    SafeAfterReceive(w, Scheduled(spawnLimit, w, Receive(row)), row, k, v);
  }

  /** A watermark that is safe stays safe. */
  lemma StepKeepsSafe(spawnLimit: int, w: Writer, m: Move, k: int, v: nat)
    requires Safe(w, k, v) && (m.Receive? && !w.exited ==> RowAbove(m.row, k, v))
    ensures Safe(Step(spawnLimit, w, m), k, v)
  {
    match m
    case WritePiece(i, n) =>
      if i < |w.running| && n <= |w.running[i].data| {
        PieceKeepsSafe(w, i, n, k, v);
      }
    case Receive(row) =>
      if !w.exited {
        ReceiveKeepsSafe(spawnLimit, w, row, k, v);
      }
    case Acquire =>
      if w.errors != [] {
        RetryKeepsSafe(w, k, v);
      }
      if w.next != [] {
        SpawnKeepsSafe(w, k, v);
      }
    case Complete(i) =>
      if i < |w.running| {
        EndKeepsSafe(w, i, k, v);
      }
    case Fail(i) =>
      if i < |w.running| {
        EndKeepsSafe(w, i, k, v);
      }
    case _ =>
  }

  // ---------------------------------------------------------------- watermarks only grow

  ghost predicate NoSmaller(f: Flags, f': Flags)
  {
    forall k | k in f :: k in f' && f[k] <= f'[k]
  }

  lemma SpawnKeepsReports(w: Writer)
    requires Safely(w) && ReportsOk(w.reported, w.watch, w.pushed, w.finished) && w.next != []
    ensures ReportsOk(w.reported, w.watch, SpawnNext(w).pushed, w.finished)
  {
    var t := w.next[|w.next| - 1];
    forall k | k in w.reported
      ensures LastReport(Some(w.reported[k]), At(Noted(w.pushed, FlagsOf(t)), k), At(w.finished, k))
    {
      NotedAt(w.pushed, FlagsOf(t), k);
      assert Tracks(StackAt(w.stacks, k), At(w.pushed, k), At(w.finished, k));
      if k in FlagsOf(t) {
        QueuedTagsAreNew(t, w.pushed, w.received, k);
        PushKeepsReport(At(w.pushed, k), At(w.finished, k), FlagsOf(t)[k], Some(w.reported[k]));
      } else {
        assert At(Noted(w.pushed, FlagsOf(t)), k) == At(w.pushed, k);
      }
    }
  }

  lemma ReportGrows(stacks: Stacks, t: Task, pushed: History, finished: History, last: Option<nat>, k: int)
    requires StacksOk(stacks, pushed, finished) && LiveOk(t, pushed, finished)
    requires LastReport(last, At(pushed, k), At(finished, k))
    ensures var r := Reports(stacks, FlagsOf(t));
            && (k in r && last.Some? ==> last.value < r[k])
            && LastReport(if k in r then Some(r[k]) else last, At(pushed, k), At(Noted(finished, FlagsOf(t)), k))
  {
    NotedAt(finished, FlagsOf(t), k);
    if k in FlagsOf(t) {
      OutstandingIsStacked(stacks, pushed, finished, k, FlagsOf(t)[k]);
      assert Tracks(StackAt(stacks, k), At(pushed, k), At(finished, k));
      ReportsIncrease(StackAt(stacks, k), At(pushed, k), At(finished, k), FlagsOf(t)[k], last);
    } else {
      assert At(Noted(finished, FlagsOf(t)), k) == At(finished, k);
    }
  }

  lemma FinishedHistory(w: Writer, i: nat)
    requires i < |w.running|
    ensures var f, w' := FlagsOf(w.running[i]), Finished(w, i);
            && w'.pushed == w.pushed
            && (w.running[i].notify.Some? ==>
                  && w'.watch == Reports(w.stacks, f) && w'.reported == w.reported + Reports(w.stacks, f)
                  && w'.finished == Noted(w.finished, f))
            && (w.running[i].notify.None? ==>
                  w'.watch == w.watch && w'.reported == w.reported && w'.finished == w.finished)
  {
  }

  lemma ReportsGrow(stacks: Stacks, t: Task, pushed: History, finished: History, reported: Flags)
    requires StacksOk(stacks, pushed, finished) && LiveOk(t, pushed, finished)
    requires forall k | k in reported :: LastReport(Some(reported[k]), At(pushed, k), At(finished, k))
    ensures var r := Reports(stacks, FlagsOf(t));
            NoSmaller(reported, reported + r) && ReportsOk(reported + r, r, pushed, Noted(finished, FlagsOf(t)))
  {
    var r := Reports(stacks, FlagsOf(t));
    forall k
      ensures k in reported && k in r ==> reported[k] < r[k]
      ensures k in reported + r ==> LastReport(Some((reported + r)[k]), At(pushed, k), At(Noted(finished, FlagsOf(t)), k))
    {
      ReportGrows(stacks, t, pushed, finished, if k in reported then Some(reported[k]) else None, k);
    }
  }

  lemma FinishReports(w: Writer, i: nat)
    requires Safely(w) && ReportsOk(w.reported, w.watch, w.pushed, w.finished) && i < |w.running|
    ensures ReportsGoOn(w, Finished(w, i))
  {
    var t := w.running[i];
    assert (w.running + w.errors)[i] == t;
    FinishedHistory(w, i);
    if t.notify.Some? {
      ReportsGrow(w.stacks, t, w.pushed, w.finished, w.reported);
    }
  }

  /** The last watermark reported for a partition never goes down, and what listeners see is always
      the last one reported. */
  ghost predicate ReportsGoOn(w: Writer, w': Writer)
  {
    NoSmaller(w.reported, w'.reported) && ReportsOk(w'.reported, w'.watch, w'.pushed, w'.finished)
  }

  lemma AcquireReports(spawnLimit: int, w: Writer)
    requires Safely(w) && ReportsOk(w.reported, w.watch, w.pushed, w.finished)
    ensures ReportsGoOn(w, Step(spawnLimit, w, Acquire))
  {
    if w.errors == [] && w.next != [] {
      SpawnKeepsReports(w);
    }
  }

  lemma CompleteReports(spawnLimit: int, w: Writer, i: nat)
    requires Safely(w) && ReportsOk(w.reported, w.watch, w.pushed, w.finished)
    ensures ReportsGoOn(w, Step(spawnLimit, w, Complete(i)))
  {
    if i < |w.running| {
      FinishReports(w, i);
    }
  }

  lemma StepReports(spawnLimit: int, w: Writer, m: Move)
    requires Safely(w) && ReportsOk(w.reported, w.watch, w.pushed, w.finished)
    ensures ReportsGoOn(w, Step(spawnLimit, w, m))
  {
    match m
    case Acquire => AcquireReports(spawnLimit, w);
    case Complete(i) => CompleteReports(spawnLimit, w, i);
    case _ => OtherReports(spawnLimit, w, m);
  }

  /** Neither the last reports nor what they are of has changed. */
  predicate SameReports(w: Writer, w': Writer)
  {
    w'.reported == w.reported && w'.watch == w.watch && w'.pushed == w.pushed && w'.finished == w.finished
  }

  lemma TasksReport(w: Writer, i: nat, n: nat)
    requires i < |w.running|
    ensures n <= |w.running[i].data| ==> SameReports(w, PieceWritten(w, i, n))
    ensures SameReports(w, Failed(w, i))
  {
  }

  lemma OtherReports(spawnLimit: int, w: Writer, m: Move)
    requires !m.Acquire? && !m.Complete?
    ensures SameReports(w, Step(spawnLimit, w, m))
  {
    match m
    case WritePiece(i, n) =>
      if i < |w.running| && n <= |w.running[i].data| {
        TasksReport(w, i, n);
      }
    case Fail(i) =>
      if i < |w.running| {
        TasksReport(w, i, 0);
      }
    case _ =>
  }

  // ---------------------------------------------------------------- what safety says about rows

  lemma {:induction false} RowsOfContains(tasks: seq<Task>, row: Row)
    requires row in RowsOf(tasks)
    ensures exists i | 0 <= i < |tasks| :: row in tasks[i].data
  {
    if row in tasks[0].data {
    } else {
      RowsOfContains(tasks[1..], row);
      var i :| 0 <= i < |tasks| - 1 && row in tasks[1..][i].data;
      assert row in tasks[i + 1].data;
    }
  }

  lemma AboveExcludes(tasks: seq<Task>, row: Row, k: int, v: nat)
    requires Above(tasks, k, v) && row.tag.Some? && row.tag.value.partition == k && row.tag.value.offset <= v
    ensures row !in RowsOf(tasks)
  {
    if row in RowsOf(tasks) {
      RowsOfContains(tasks, row);
    }
  }

  /** Every row received up to a safe watermark has been written, as often as it was received. */
  lemma SafeMeansWritten(spawnLimit: int, w: Writer, k: int, v: nat, row: Row)
    requires Accounted(spawnLimit, w) && Safe(w, k, v)
    requires row.tag.Some? && row.tag.value.partition == k && row.tag.value.offset <= v
    ensures w.written[row] == multiset(w.received)[row]
  {
    AboveExcludes(w.next, row, k, v);
    AboveExcludes(w.errors, row, k, v);
    AboveExcludes(w.running, row, k, v);
  }

  lemma IdleIsSafe(spawnLimit: int)
    requires 0 <= spawnLimit
    ensures Safely(IDLE) && Accounted(spawnLimit, IDLE)
    ensures ReportsOk(IDLE.reported, IDLE.watch, IDLE.pushed, IDLE.finished)
  {
    assert RowsOf([]) == multiset{};
  }
}
