/** Exactly which arrivals keep a writer's watermarks safe.  A row that arrives in order never makes a
    report unsafe; and after a row that does not, the writer, left to itself, reports an offset that
    covers the row while the row is still queued. */
module ArrivalOrder {
  import opened Types
  import opened Progress
  import opened Writer
  import opened WriterSafety
  import opened CommitChain

  // ---------------------------------------------------------------- what a writer owes

  /** Some task of the list carries tag `n` of partition `k`. */
  ghost predicate Owns(live: seq<Task>, k: int, n: nat)
  {
    exists i | 0 <= i < |live| :: k in FlagsOf(live[i]) && FlagsOf(live[i])[k] == n
  }

  /** Every outstanding tag is the tag of a spawned task. */
  ghost predicate Owned(live: seq<Task>, pushed: History, finished: History)
  {
    forall k, n | n in At(pushed, k) && n !in At(finished, k) :: Owns(live, k, n)
  }

  ghost predicate CaughtUpAt(reported: Flags, pushed: History, finished: History, k: int)
  {
    At(pushed, k) != {} && At(pushed, k) <= At(finished, k) ==>
      k in reported && forall x | x in At(pushed, k) :: x <= reported[k]
  }

  /** Where nothing is outstanding, the last report is the largest tag. */
  ghost predicate CaughtUp(reported: Flags, pushed: History, finished: History)
  {
    forall k :: CaughtUpAt(reported, pushed, finished, k)
  }

  ghost predicate Traced(w: Writer)
  {
    && Safely(w) && ReportsOk(w.reported, w.watch, w.pushed, w.finished)
    && Owned(w.running + w.errors, w.pushed, w.finished) && CaughtUp(w.reported, w.pushed, w.finished)
  }

  // ---------------------------------------------------------------- every step keeps it

  ghost predicate SomeHas(live: seq<Task>, f: Flags)
  {
    exists i | 0 <= i < |live| :: FlagsOf(live[i]) == f
  }

  lemma SameOwned(live: seq<Task>, live': seq<Task>, pushed: History, finished: History)
    requires Owned(live, pushed, finished)
    requires forall i | 0 <= i < |live| :: SomeHas(live', FlagsOf(live[i]))
    ensures Owned(live', pushed, finished)
  {
    forall k, n | n in At(pushed, k) && n !in At(finished, k)
      ensures Owns(live', k, n)
    {
      assert Owns(live, k, n);
      var i :| 0 <= i < |live| && k in FlagsOf(live[i]) && FlagsOf(live[i])[k] == n;
      assert SomeHas(live', FlagsOf(live[i]));
    }
  }

  lemma SpawnKeepsOwned(live: seq<Task>, live': seq<Task>, t: Task, pushed: History, finished: History)
    requires Owned(live, pushed, finished)
    requires SomeHas(live', FlagsOf(t)) && forall i | 0 <= i < |live| :: SomeHas(live', FlagsOf(live[i]))
    ensures Owned(live', Noted(pushed, FlagsOf(t)), finished)
  {
    SameOwned(live, live', pushed, finished);
    forall k, n | n in At(Noted(pushed, FlagsOf(t)), k) && n !in At(finished, k)
      ensures Owns(live', k, n)
    {
      NotedAt(pushed, FlagsOf(t), k);
      if n in At(pushed, k) {
        assert Owns(live', k, n);
      } else {
        assert n == FlagsOf(t)[k];
      }
    }
  }

  lemma FinishKeepsOwned(live: seq<Task>, i: nat, pushed: History, finished: History)
    requires Owned(live, pushed, finished) && i < |live|
    ensures Owned(Drop(live, i), pushed, Noted(finished, FlagsOf(live[i])))
  {
    var f := FlagsOf(live[i]);
    forall k, n | n in At(pushed, k) && n !in At(Noted(finished, f), k)
      ensures Owns(Drop(live, i), k, n)
    {
      NotedAt(finished, f, k);
      assert Owns(live, k, n);
      var j :| 0 <= j < |live| && k in FlagsOf(live[j]) && FlagsOf(live[j])[k] == n;
      assert Drop(live, i)[if j < i then j else j - 1] == live[j];
    }
  }

  lemma SpawnKeepsCaughtUp(t: Task, pushed: History, finished: History, received: seq<Row>, reported: Flags, stacks: Stacks)
    requires QueueOk(t, pushed, received) && StacksOk(stacks, pushed, finished) && CaughtUp(reported, pushed, finished)
    ensures CaughtUp(reported, Noted(pushed, FlagsOf(t)), finished)
  {
    forall k
      ensures CaughtUpAt(reported, Noted(pushed, FlagsOf(t)), finished, k)
    {
      NotedAt(pushed, FlagsOf(t), k);
      assert CaughtUpAt(reported, pushed, finished, k) && Tracks(StackAt(stacks, k), At(pushed, k), At(finished, k));
      if k in FlagsOf(t) {
        QueuedTagsAreNew(t, pushed, received, k);
        assert FlagsOf(t)[k] !in At(finished, k);
      }
    }
  }

  lemma ReportsAt(stacks: Stacks, f: Flags, k: int)
    ensures Look(Reports(stacks, f), k) == if k in f && k in stacks then Pop(stacks[k], f[k]).1 else None
  {
  }

  /** The stack from which the last outstanding tag is taken reports the largest. */
  lemma LastPopCatchesUp(s: Stack, pushed: set<nat>, finished: set<nat>, n: nat, last: Option<nat>)
    requires Tracks(s, pushed, finished) && n in pushed && n !in finished && LastReport(last, pushed, finished)
    requires pushed <= finished + {n}
    ensures Pop(s, n).1.Some? && forall x | x in pushed :: x <= Pop(s, n).1.value
  {
    assert pushed == finished + {n};
    ReportsIncrease(s, pushed, finished, n, last);
  }

  lemma CatchesUp(stacks: Stacks, t: Task, pushed: History, finished: History, reported: Flags, k: int)
    requires StacksOk(stacks, pushed, finished) && LiveOk(t, pushed, finished)
    requires k in reported ==> LastReport(Some(reported[k]), At(pushed, k), At(finished, k))
    requires CaughtUpAt(reported, pushed, finished, k)
    ensures CaughtUpAt(reported + Reports(stacks, FlagsOf(t)), pushed, Noted(finished, FlagsOf(t)), k)
  {
    var f := FlagsOf(t);
    NotedAt(finished, f, k);
    ReportsAt(stacks, f, k);
    if k in f && At(pushed, k) <= At(finished, k) + {f[k]} {
      OutstandingIsStacked(stacks, pushed, finished, k, f[k]);
      assert Tracks(StackAt(stacks, k), At(pushed, k), At(finished, k));
      LastPopCatchesUp(stacks[k], At(pushed, k), At(finished, k), f[k], Look(reported, k));
    }
  }

  lemma SpawnRetryIsTraced(w: Writer)
    requires Traced(w) && w.errors != []
    ensures Traced(SpawnRetry(w))
  {
    var w' := SpawnRetry(w);
    var live, live', p := w.running + w.errors, w'.running + w'.errors, |w.running|;
    SpawnRetryIsSafe(w);
    forall i | 0 <= i < |live|
      ensures SomeHas(live', FlagsOf(live[i]))
    {
      assert live'[if i < p then i else if i == |live| - 1 then p else i + 1] == live[i];
    }
    SameOwned(live, live', w.pushed, w.finished);
  }

  lemma SpawnNextIsTraced(w: Writer)
    requires Traced(w) && w.next != []
    ensures Traced(SpawnNext(w))
  {
    var w', t := SpawnNext(w), w.next[|w.next| - 1];
    var live, live', p := w.running + w.errors, w'.running + w'.errors, |w.running|;
    SpawnNextIsSafe(w);
    SpawnKeepsReports(w);
    SpawnKeepsCaughtUp(t, w.pushed, w.finished, w.received, w.reported, w.stacks);
    assert live'[p] == t;
    forall i | 0 <= i < |live|
      ensures SomeHas(live', FlagsOf(live[i]))
    {
      assert live'[if i < p then i else i + 1] == live[i];
    }
    SpawnKeepsOwned(live, live', t, w.pushed, w.finished);
  }

  lemma FinishedTasks(w: Writer, i: nat)
    requires i < |w.running|
    ensures Finished(w, i).running + Finished(w, i).errors == Drop(w.running + w.errors, i)
  {
    FinishedFields(w, i);
  }

  lemma FinishIsTraced(w: Writer, i: nat)
    requires Traced(w) && i < |w.running|
    ensures Traced(Finished(w, i))
  {
    var t := w.running[i];
    var live := w.running + w.errors;
    assert live[i] == t;
    FinishIsSafe(w, i);
    FinishReports(w, i);
    FinishedTasks(w, i);
    FinishedHistory(w, i);
    FinishKeepsOwned(live, i, w.pushed, w.finished);
    NothingNoted(w.finished);
    if t.notify.Some? {
      forall k
        ensures CaughtUpAt(Finished(w, i).reported, w.pushed, Finished(w, i).finished, k)
      {
        assert CaughtUpAt(w.reported, w.pushed, w.finished, k);
        CatchesUp(w.stacks, t, w.pushed, w.finished, w.reported, k);
      }
    }
  }

  lemma NothingNoted(h: History)
    ensures forall k :: At(Noted(h, map[]), k) == At(h, k)
  {
  }

  lemma FailIsTraced(w: Writer, i: nat)
    requires Traced(w) && i < |w.running|
    ensures Traced(Failed(w, i))
  {
    var w', p := Failed(w, i), |w.running|;
    var live, live' := w.running + w.errors, w'.running + w'.errors;
    FailIsSafe(w, i);
    TasksReport(w, i, 0);
    forall j | 0 <= j < |live|
      ensures SomeHas(live', FlagsOf(live[j]))
    {
      assert FlagsOf(live'[if j < i then j else if j == i then p - 1 else if j < p then j - 1 else j]) == FlagsOf(live[j]);
    }
    SameOwned(live, live', w.pushed, w.finished);
  }

  lemma PieceIsTraced(w: Writer, i: nat, n: nat)
    requires Traced(w) && i < |w.running| && n <= |w.running[i].data|
    ensures Traced(PieceWritten(w, i, n))
  {
    var w' := PieceWritten(w, i, n);
    var live, live' := w.running + w.errors, w'.running + w'.errors;
    PieceIsSafe(w, i, n);
    TasksReport(w, i, n);
    forall j | 0 <= j < |live|
      ensures SomeHas(live', FlagsOf(live[j]))
    {
      assert FlagsOf(live'[j]) == FlagsOf(live[j]);
    }
    SameOwned(live, live', w.pushed, w.finished);
  }

  lemma StepIsTraced(spawnLimit: int, w: Writer, m: Move)
    requires Traced(w) && InOrderMove(w, m)
    ensures Traced(Step(spawnLimit, w, m))
  {
    match m
    case WritePiece(i, n) =>
      if i < |w.running| && n <= |w.running[i].data| {
        PieceIsTraced(w, i, n);
      }
    case Receive(row) =>
      if !w.exited {
        ReceiveIsSafe(spawnLimit, w, row);
      }
    case Acquire =>
      if w.errors != [] {
        SpawnRetryIsTraced(w);
      } else if w.next != [] && w.spawning < spawnLimit {
        SpawnNextIsTraced(w);
      }
    case Complete(i) =>
      if i < |w.running| {
        FinishIsTraced(w, i);
      }
    case Fail(i) =>
      if i < |w.running| {
        FailIsTraced(w, i);
      }
    case _ =>
  }

  // ---------------------------------------------------------------- draining

  /** The writer with one more task queued behind all the others. */
  function WithHead(w: Writer, h: Task): Writer
  {
    w.(next := [h] + w.next, pending := w.pending + |h.data|)
  }

  predicate NoArrivals(moves: seq<Move>)
  {
    forall m | m in moves :: !m.Receive?
  }

  ghost predicate Drainable(spawnLimit: int, w: Writer)
  {
    Traced(w) && w.spawning == |w.running| + |w.errors| && !w.exited && 1 <= spawnLimit
  }

  predicate Drained(w: Writer)
  {
    w.next == [] && w.errors == [] && w.running == []
  }

  /** The writer has pushed all that it had pushed or queued before. */
  ghost predicate AllPushed(w: Writer, e: Writer)
  {
    && (forall k, n | n in At(w.pushed, k) :: n in At(e.pushed, k))
    && (forall i, k | 0 <= i < |w.next| && k in FlagsOf(w.next[i]) :: FlagsOf(w.next[i])[k] in At(e.pushed, k))
  }

  /** `m` is a move towards having nothing to do, whatever is queued behind. */
  ghost predicate Progresses(spawnLimit: int, w: Writer, h: Task, moves: seq<Move>)
  {
    var w' := Run(spawnLimit, w, moves);
    && NoArrivals(moves) && Drainable(spawnLimit, w')
    && Run(spawnLimit, WithHead(w, h), moves) == WithHead(w', h)
    && 2 * (|w'.next| + |w'.errors|) + |w'.running| < 2 * (|w.next| + |w.errors|) + |w.running|
    && forall e | AllPushed(w', e) :: AllPushed(w, e)
  }

  lemma RunOne(spawnLimit: int, w: Writer, m: Move)
    ensures Run(spawnLimit, w, [m]) == Step(spawnLimit, w, m)
  {
    assert [m][1..] == [];
  }

  lemma RunTwo(spawnLimit: int, w: Writer, m: Move, n: Move)
    ensures Run(spawnLimit, w, [m, n]) == Step(spawnLimit, Step(spawnLimit, w, m), n)
  {
    assert [m, n][1..] == [n];
    RunOne(spawnLimit, Step(spawnLimit, w, m), n);
  }

  lemma {:induction false} RunAppends(spawnLimit: int, w: Writer, moves: seq<Move>, more: seq<Move>)
    ensures Run(spawnLimit, w, moves + more) == Run(spawnLimit, Run(spawnLimit, w, moves), more)
    decreases |moves|
  {
    if moves == [] {
      assert moves + more == more;
    } else {
      assert (moves + more)[1..] == moves[1..] + more;
      RunAppends(spawnLimit, Step(spawnLimit, w, moves[0]), moves[1..], more);
    }
  }

  lemma PieceBefore(w: Writer, h: Task, i: nat, n: nat)
    requires i < |w.running| && n <= |w.running[i].data|
    ensures PieceWritten(WithHead(w, h), i, n) == WithHead(PieceWritten(w, i, n), h)
  {
  }

  lemma ReportsBefore(w: Writer, h: Task, f: Flags)
    ensures WithReports(WithHead(w, h), f) == WithHead(WithReports(w, f), h)
  {
  }

  lemma FinishBefore(w: Writer, h: Task, i: nat)
    requires i < |w.running|
    ensures Finished(WithHead(w, h), i) == WithHead(Finished(w, i), h)
  {
    var ended := w.(running := Drop(w.running, i), spawning := w.spawning - 1);
    assert WithHead(w, h).(running := Drop(w.running, i), spawning := w.spawning - 1) == WithHead(ended, h);
    ReportsBefore(ended, h, FlagsOf(w.running[i]));
  }

  lemma RetryBefore(w: Writer, h: Task)
    requires w.errors != []
    ensures SpawnRetry(WithHead(w, h)) == WithHead(SpawnRetry(w), h)
  {
  }

  lemma SpawnBefore(w: Writer, h: Task)
    requires w.next != []
    ensures SpawnNext(WithHead(w, h)) == WithHead(SpawnNext(w), h)
  {
    assert ([h] + w.next)[..|w.next|] == [h] + w.next[..|w.next| - 1];
  }

  /** A running task writes what it has left and ends. */
  lemma EndsFirst(spawnLimit: int, w: Writer, h: Task) returns (moves: seq<Move>)
    requires Drainable(spawnLimit, w) && w.running != []
    ensures Progresses(spawnLimit, w, h, moves)
  {
    var n := |w.running[0].data|;
    moves := [WritePiece(0, n), Complete(0)];
    var w1 := PieceWritten(w, 0, n);
    RunTwo(spawnLimit, w, moves[0], moves[1]);
    RunTwo(spawnLimit, WithHead(w, h), moves[0], moves[1]);
    PieceBefore(w, h, 0, n);
    FinishBefore(w1, h, 0);
    PieceIsTraced(w, 0, n);
    FinishIsTraced(w1, 0);
    FinishedFields(w1, 0);
    FinishedHistory(w1, 0);
  }

  lemma RetriesNext(spawnLimit: int, w: Writer, h: Task) returns (moves: seq<Move>)
    requires Drainable(spawnLimit, w) && w.errors != []
    ensures Progresses(spawnLimit, w, h, moves)
  {
    moves := [Acquire];
    RunOne(spawnLimit, w, Acquire);
    RunOne(spawnLimit, WithHead(w, h), Acquire);
    RetryBefore(w, h);
    SpawnRetryIsTraced(w);
  }

  lemma SpawnedIsPushed(w: Writer, e: Writer)
    requires w.next != [] && AllPushed(SpawnNext(w), e)
    ensures AllPushed(w, e)
  {
    var t, w' := w.next[|w.next| - 1], SpawnNext(w);
    forall k, n | n in At(w.pushed, k) || (k in FlagsOf(t) && n == FlagsOf(t)[k])
      ensures n in At(e.pushed, k)
    {
      NotedAt(w.pushed, FlagsOf(t), k);
    }
    forall i, k | 0 <= i < |w.next| && k in FlagsOf(w.next[i])
      ensures FlagsOf(w.next[i])[k] in At(e.pushed, k)
    {
      assert i < |w'.next| ==> w'.next[i] == w.next[i];
    }
  }

  lemma SpawnsLast(spawnLimit: int, w: Writer, h: Task) returns (moves: seq<Move>)
    requires Drainable(spawnLimit, w) && w.running == [] && w.errors == [] && w.next != []
    ensures Progresses(spawnLimit, w, h, moves)
  {
    moves := [Acquire];
    RunOne(spawnLimit, w, Acquire);
    RunOne(spawnLimit, WithHead(w, h), Acquire);
    SpawnBefore(w, h);
    SpawnNextIsTraced(w);
    forall e | AllPushed(SpawnNext(w), e)
      ensures AllPushed(w, e)
    {
      SpawnedIsPushed(w, e);
    }
  }

  lemma FirstMoves(spawnLimit: int, w: Writer, h: Task) returns (moves: seq<Move>)
    requires Drainable(spawnLimit, w) && !Drained(w)
    ensures Progresses(spawnLimit, w, h, moves)
  {
    if w.running != [] {
      moves := EndsFirst(spawnLimit, w, h);
    } else if w.errors != [] {
      moves := RetriesNext(spawnLimit, w, h);
    } else {
      moves := SpawnsLast(spawnLimit, w, h);
    }
  }

  /** Left to itself, a writer can finish everything it has but the task that still takes rows. */
  lemma {:induction false} Drain(spawnLimit: int, w: Writer, h: Task) returns (moves: seq<Move>)
    requires Drainable(spawnLimit, w)
    ensures var e := Run(spawnLimit, w, moves);
            && NoArrivals(moves) && Drained(e) && Traced(e) && AllPushed(w, e)
            && Run(spawnLimit, WithHead(w, h), moves) == WithHead(e, h)
    decreases 2 * (|w.next| + |w.errors|) + |w.running|
  {
    if Drained(w) {
      moves := [];
    } else {
      var first := FirstMoves(spawnLimit, w, h);
      var w' := Run(spawnLimit, w, first);
      var rest := Drain(spawnLimit, w', h);
      moves := first + rest;
      RunAppends(spawnLimit, w, first, rest);
      RunAppends(spawnLimit, WithHead(w, h), first, rest);
    }
  }

  // ---------------------------------------------------------------- the exact condition

  /** Everything reported so far is safe. */
  ghost predicate ReportsSafe(w: Writer)
  {
    forall k | k in w.reported :: Safe(w, k, w.reported[k])
  }

  /** A writer as a run of ordered arrivals leaves it. */
  ghost predicate Sound(spawnLimit: int, w: Writer)
  {
    Accounted(spawnLimit, w) && Traced(w) && ReportsSafe(w)
  }

  /** However the writer goes on without further arrivals, everything it reports is safe. */
  ghost predicate StaysSafe(spawnLimit: int, w: Writer)
  {
    forall moves | NoArrivals(moves) :: ReportsSafe(Run(spawnLimit, w, moves))
  }

  lemma StepIsSound(spawnLimit: int, w: Writer, m: Move)
    requires Sound(spawnLimit, w) && InOrderMove(w, m)
    ensures Sound(spawnLimit, Step(spawnLimit, w, m))
  {
    var w' := Step(spawnLimit, w, m);
    WriterStepIsOk(spawnLimit, w, m);
    StepIsTraced(spawnLimit, w, m);
    StepKeepsSeen(spawnLimit, w, w.reported, m);
    forall k | k in w'.reported
      ensures Safe(w', k, w'.reported[k])
    {
      ReportedSince(spawnLimit, w, m, k);
    }
  }

  lemma AcquireIsSilent(spawnLimit: int, w: Writer)
    ensures Step(spawnLimit, w, Acquire).reported == w.reported
  {
  }

  /** What has changed in the last reports is what listeners see. */
  lemma ReportedSince(spawnLimit: int, w: Writer, m: Move, k: int)
    requires k in Step(spawnLimit, w, m).reported
    ensures var w' := Step(spawnLimit, w, m);
            (k in w.reported && w'.reported[k] == w.reported[k]) || (k in w'.watch && w'.reported[k] == w'.watch[k])
  {
    match m
    case Acquire => AcquireIsSilent(spawnLimit, w);
    case Complete(i) =>
      if i < |w.running| {
        FinishedHistory(w, i);
      }
    case _ => OtherReports(spawnLimit, w, m);
  }

  lemma {:induction false} OwnMovesAreSound(spawnLimit: int, w: Writer, moves: seq<Move>)
    requires Sound(spawnLimit, w) && NoArrivals(moves)
    ensures Sound(spawnLimit, Run(spawnLimit, w, moves))
    decreases |moves|
  {
    if moves != [] {
      assert moves[0] in moves;
      StepIsSound(spawnLimit, w, moves[0]);
      OwnMovesAreSound(spawnLimit, Step(spawnLimit, w, moves[0]), moves[1..]);
    }
  }

  /** What the writer would be, had it the row but not the task that the row is in. */
  function WithoutHead(w: Writer, row: Row): Writer
  {
    w.(next := Closed(w.next), pending := w.pending + 1 - |AddData(OpenTask(w.next), row).data|, received := w.received + [row])
  }

  lemma ReceiveAddsHead(spawnLimit: int, w: Writer, row: Row)
    requires !w.exited
    ensures Step(spawnLimit, w, Receive(row)) == WithHead(WithoutHead(w, row), AddData(OpenTask(w.next), row))
  {
    QueuedSplits(w.next, row);
  }

  lemma WithoutHeadIsDrainable(spawnLimit: int, w: Writer, row: Row)
    requires Sound(spawnLimit, w) && !w.exited && 1 <= spawnLimit
    ensures Drainable(spawnLimit, WithoutHead(w, row))
  {
    var w0 := WithoutHead(w, row);
    QueueAllLater(w.next, w.pushed, w.received, row);
    forall k, n | n in At(w.pushed, k)
      ensures Has(w0.received, Tag(k, n))
    {
      HasLater(w.received, row, Tag(k, n));
    }
    forall k | k in w.watch
      ensures Safe(w0, k, w.watch[k])
    {
      ReachedLater(w.received, row, k, w.watch[k]);
      ClosedAbove(w.next, k, w.watch[k]);
    }
  }

  lemma ClosedAbove(next: seq<Task>, k: int, v: nat)
    requires Above(next, k, v)
    ensures Above(Closed(next), k, v)
  {
    if next != [] && !IsLimited(next[0]) {
      assert next == next[..1] + next[1..];
      AboveSplit(next[..1], next[1..], k, v);
    }
  }

  /** A row that is not in order meets a tag as large as its offset. */
  lemma OutOfOrderMeets(w: Writer, row: Row, e: Writer) returns (n: nat)
    requires !InOrder(w, row) && AllPushed(WithoutHead(w, row), e)
    ensures row.tag.Some? && row.tag.value.offset <= n && n in At(e.pushed, row.tag.value.partition)
  {
    var k := row.tag.value.partition;
    if !AbovePushed(w.pushed, row) {
      n :| n in At(w.pushed, k) && row.tag.value.offset <= n;
      assert n in At(WithoutHead(w, row).pushed, k);
    } else {
      var i :| 0 <= i < |Closed(w.next)| && !AboveTask(Closed(w.next)[i], row);
      n := FlagsOf(Closed(w.next)[i])[k];
    }
  }

  lemma NoOwner(live: seq<Task>, k: int, n: nat)
    requires live == []
    ensures !Owns(live, k, n)
  {
  }

  lemma DrainedReports(e: Writer, k: int, n: nat)
    requires Traced(e) && Drained(e) && n in At(e.pushed, k)
    ensures k in e.reported && n <= e.reported[k]
  {
    assert CaughtUpAt(e.reported, e.pushed, e.finished, k);
    forall x | x in At(e.pushed, k)
      ensures x in At(e.finished, k)
    {
      NoOwner(e.running + e.errors, k, x);
    }
  }

  /** A row that does not arrive in order: the writer can come to report an offset that covers it while
      it is still queued. */
  lemma OutOfOrderLoses(spawnLimit: int, w: Writer, row: Row) returns (moves: seq<Move>)
    requires Sound(spawnLimit, w) && !w.exited && 1 <= spawnLimit && !InOrder(w, row)
    ensures NoArrivals(moves) && row.tag.Some?
    ensures var end, k := Run(spawnLimit, Step(spawnLimit, w, Receive(row)), moves), row.tag.value.partition;
            && end.next != [] && row in end.next[0].data
            && k in end.reported && row.tag.value.offset <= end.reported[k]
  {
    var w0, h := WithoutHead(w, row), AddData(OpenTask(w.next), row);
    ReceiveAddsHead(spawnLimit, w, row);
    WithoutHeadIsDrainable(spawnLimit, w, row);
    moves := Drain(spawnLimit, w0, h);
    var e := Run(spawnLimit, w0, moves);
    var n := OutOfOrderMeets(w, row, e);
    DrainedReports(e, row.tag.value.partition, n);
  }

  /** A row keeps everything the writer goes on to report safe exactly when it arrives in order. */
  lemma InOrderIsExact(spawnLimit: int, w: Writer, row: Row)
    requires Sound(spawnLimit, w) && !w.exited && 1 <= spawnLimit
    ensures StaysSafe(spawnLimit, Step(spawnLimit, w, Receive(row))) <==> InOrder(w, row)
  {
    var w' := Step(spawnLimit, w, Receive(row));
    if InOrder(w, row) {
      StepIsSound(spawnLimit, w, Receive(row));
      forall moves | NoArrivals(moves)
        ensures ReportsSafe(Run(spawnLimit, w', moves))
      {
        OwnMovesAreSound(spawnLimit, w', moves);
      }
    } else {
      var moves := OutOfOrderLoses(spawnLimit, w, row);
      var end, k := Run(spawnLimit, w', moves), row.tag.value.partition;
      assert !Above(end.next, k, end.reported[k]);
    }
  }
}
