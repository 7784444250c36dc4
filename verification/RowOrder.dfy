/** The condition on arrivals in terms of rows: while offsets never go down, arrivals are in order
    exactly as long as no two tasks carry rows of one partition and offset; and a run is safe at every
    moment, however it goes on, exactly if its arrivals are in order. */
module RowOrder {
  import opened Types
  import opened Progress
  import opened Writer
  import opened WriterSafety
  import opened CommitChain
  import opened ArrivalOrder

  // ---------------------------------------------------------------- rows and tasks

  /** The row comes after every row of its partition received so far. */
  ghost predicate Fresh(received: seq<Row>, row: Row)
  {
    row.tag.Some? ==>
      forall r | r in received && r.tag.Some? && r.tag.value.partition == row.tag.value.partition ::
        r.tag.value.offset < row.tag.value.offset
  }

  /** No row of its partition received so far comes after the row. */
  ghost predicate NotBelow(received: seq<Row>, row: Row)
  {
    row.tag.Some? ==>
      forall r | r in received && r.tag.Some? && r.tag.value.partition == row.tag.value.partition ::
        r.tag.value.offset <= row.tag.value.offset
  }

  /** The row joins a row of its own partition and offset in the task that is still open. */
  ghost predicate Joins(next: seq<Task>, row: Row)
  {
    row.tag.Some? && Has(OpenTask(next).data, row.tag.value)
  }

  ghost predicate QueueReaches(next: seq<Task>, tag: Tag)
  {
    exists i | 0 <= i < |next| :: CoversTag(FlagsOf(next[i]), tag)
  }

  ghost predicate PushReaches(pushed: History, tag: Tag)
  {
    exists n | n in At(pushed, tag.partition) :: tag.offset <= n
  }

  /** Every tagged row received is covered by the tag of a task queued now or spawned before. */
  ghost predicate AllReached(w: Writer)
  {
    forall r | r in w.received && r.tag.Some? :: QueueReaches(w.next, r.tag.value) || PushReaches(w.pushed, r.tag.value)
  }

  lemma ReceivedIsReached(next: seq<Task>, row: Row)
    requires row.tag.Some?
    ensures QueueReaches(Queued(next, row), row.tag.value)
  {
    AddedFlags(FlagsOf(OpenTask(next)), row.tag.value);
    QueuedSplits(next, row);
    assert CoversTag(FlagsOf(Queued(next, row)[0]), row.tag.value);
  }

  lemma QueuedStillReaches(next: seq<Task>, row: Row, tag: Tag)
    requires QueueReaches(next, tag)
    ensures QueueReaches(Queued(next, row), tag)
  {
    var i :| 0 <= i < |next| && CoversTag(FlagsOf(next[i]), tag);
    var q := Queued(next, row);
    if i == 0 && !IsLimited(next[0]) {
      if row.tag.Some? {
        AddedFlags(FlagsOf(next[0]), row.tag.value);
      }
      assert CoversTag(FlagsOf(q[0]), tag);
    } else {
      assert q[i + |q| - |next|] == next[i];
    }
  }

  lemma SpawnedIsReached(w: Writer, tag: Tag)
    requires w.next != [] && (QueueReaches(w.next, tag) || PushReaches(w.pushed, tag))
    ensures QueueReaches(SpawnNext(w).next, tag) || PushReaches(SpawnNext(w).pushed, tag)
  {
    var t, w', k := w.next[|w.next| - 1], SpawnNext(w), tag.partition;
    NotedAt(w.pushed, FlagsOf(t), k);
    if PushReaches(w.pushed, tag) {
      var n :| n in At(w.pushed, k) && tag.offset <= n;
      assert n in At(w'.pushed, k);
    } else {
      var i :| 0 <= i < |w.next| && CoversTag(FlagsOf(w.next[i]), tag);
      if i < |w'.next| {
        assert w'.next[i] == w.next[i];
      } else {
        assert FlagsOf(t)[k] in At(w'.pushed, k);
      }
    }
  }

  lemma EndsAreReached(w: Writer, i: nat)
    requires AllReached(w) && i < |w.running|
    ensures AllReached(Finished(w, i)) && AllReached(Failed(w, i))
  {
    FinishedFields(w, i);
    FinishedHistory(w, i);
  }

  lemma ReceiveKeepsReached(spawnLimit: int, w: Writer, row: Row)
    requires AllReached(w)
    ensures AllReached(Scheduled(spawnLimit, w, Receive(row)))
  {
    var w' := Scheduled(spawnLimit, w, Receive(row));
    forall r | r in w'.received && r.tag.Some?
      ensures QueueReaches(w'.next, r.tag.value) || PushReaches(w'.pushed, r.tag.value)
    {
      if r == row {
        ReceivedIsReached(w.next, row);
      } else if QueueReaches(w.next, r.tag.value) {
        QueuedStillReaches(w.next, row, r.tag.value);
      }
    }
  }

  lemma StepKeepsReached(spawnLimit: int, w: Writer, m: Move)
    requires AllReached(w)
    ensures AllReached(Step(spawnLimit, w, m))
  {
    match m
    case WritePiece(i, n) =>
    case Receive(row) =>
      if !w.exited {
        ReceiveKeepsReached(spawnLimit, w, row);
      }
    case Acquire =>
      if !w.exited && w.errors == [] && w.next != [] && w.spawning < spawnLimit {
        forall r | r in w.received && r.tag.Some?
          ensures QueueReaches(SpawnNext(w).next, r.tag.value) || PushReaches(SpawnNext(w).pushed, r.tag.value)
        {
          SpawnedIsReached(w, r.tag.value);
        }
      }
    case Complete(i) =>
      if i < |w.running| {
        EndsAreReached(w, i);
      }
    case Fail(i) =>
      if i < |w.running| {
        EndsAreReached(w, i);
      }
    case _ =>
  }

  // ---------------------------------------------------------------- rows in order

  /** A queued task's tag is the tag of a row received. */
  lemma QueuedTagIsReceived(t: Task, pushed: History, received: seq<Row>, k: int)
    requires QueueOk(t, pushed, received) && k in FlagsOf(t)
    ensures Has(received, Tag(k, FlagsOf(t)[k]))
  {
    assert Has(t.data, Tag(k, FlagsOf(t)[k]));
    var r :| r in t.data && r.tag == Some(Tag(k, FlagsOf(t)[k]));
    assert r in received;
  }

  lemma ClosedIsQueueAll(next: seq<Task>, pushed: History, received: seq<Row>)
    requires QueueAll(next, pushed, received)
    ensures forall i | 0 <= i < |Closed(next)| :: QueueOk(Closed(next)[i], pushed, received) && Precedes(Closed(next)[i], OpenTask(next))
  {
    var older, d := Closed(next), |next| - |Closed(next)|;
    forall i | 0 <= i < |older|
      ensures QueueOk(older[i], pushed, received) && Precedes(older[i], OpenTask(next))
    {
      assert older[i] == next[i + d];
    }
  }

  /** Rows of increasing offset are in order. */
  lemma FreshIsInOrder(w: Writer, row: Row)
    requires Safely(w) && Fresh(w.received, row)
    ensures InOrder(w, row)
  {
    if row.tag.Some? {
      var k, older := row.tag.value.partition, Closed(w.next);
      forall n | n in At(w.pushed, k)
        ensures n < row.tag.value.offset
      {
        assert Has(w.received, Tag(k, n));
      }
      ClosedIsQueueAll(w.next, w.pushed, w.received);
      forall i | 0 <= i < |older| && k in FlagsOf(older[i])
        ensures FlagsOf(older[i])[k] < row.tag.value.offset
      {
        QueuedTagIsReceived(older[i], w.pushed, w.received, k);
      }
    }
  }

  /** A row that joins a row of its own offset is in order. */
  lemma JoiningIsInOrder(w: Writer, row: Row)
    requires Safely(w) && Joins(w.next, row)
    ensures InOrder(w, row)
  {
    var peer :| peer in OpenTask(w.next).data && peer.tag == row.tag;
    ClosedIsQueueAll(w.next, w.pushed, w.received);
    assert QueueOk(w.next[0], w.pushed, w.received);
  }

  /** The open task's tag, if it covers a row not below any other, is that row's own. */
  lemma OpenTagIsShared(w: Writer, row: Row)
    requires Safely(w) && row.tag.Some? && NotBelow(w.received, row) && CoversTag(FlagsOf(OpenTask(w.next)), row.tag.value)
    ensures Joins(w.next, row)
  {
    var t, k := OpenTask(w.next), row.tag.value.partition;
    assert QueueOk(t, w.pushed, w.received);
    QueuedTagIsReceived(t, w.pushed, w.received, k);
    assert Has(t.data, Tag(k, FlagsOf(t)[k]));
  }

  lemma ClosedDoNotCover(w: Writer, row: Row)
    requires row.tag.Some? && AboveTasks(Closed(w.next), row)
    ensures forall i | |w.next| - |Closed(w.next)| <= i < |w.next| :: !CoversTag(FlagsOf(w.next[i]), row.tag.value)
  {
    var older := Closed(w.next);
    forall i | |w.next| - |older| <= i < |w.next|
      ensures !CoversTag(FlagsOf(w.next[i]), row.tag.value)
    {
      assert older[i + |older| - |w.next|] == w.next[i];
    }
  }

  lemma InOrderIsApart(w: Writer, row: Row)
    requires Safely(w) && AllReached(w) && NotBelow(w.received, row) && InOrder(w, row) && !Fresh(w.received, row)
    ensures Joins(w.next, row)
  {
    var tag := row.tag.value;
    ClosedDoNotCover(w, row);
    var r :| r in w.received && r.tag.Some? && r.tag.value.partition == tag.partition && tag.offset <= r.tag.value.offset;
    assert r.tag.value == tag;
    assert !PushReaches(w.pushed, tag);
    assert QueueReaches(w.next, tag);
    var i :| 0 <= i < |w.next| && CoversTag(FlagsOf(w.next[i]), tag);
    assert w.next[i] == OpenTask(w.next);
    OpenTagIsShared(w, row);
  }

  /** While offsets do not go down, a row is in order exactly if it is the first of its offset, or goes
      into the task that holds the others of its offset: no two tasks carry rows of one offset. */
  lemma InOrderMeansOneTask(w: Writer, row: Row)
    requires Safely(w) && AllReached(w) && NotBelow(w.received, row)
    ensures InOrder(w, row) <==> Fresh(w.received, row) || Joins(w.next, row)
  {
    if Fresh(w.received, row) {
      FreshIsInOrder(w, row);
    } else if Joins(w.next, row) {
      JoiningIsInOrder(w, row);
    } else if InOrder(w, row) {
      InOrderIsApart(w, row);
    }
  }

  // ---------------------------------------------------------------- runs

  ghost predicate ArrivalsInOrder(spawnLimit: int, w: Writer, moves: seq<Move>)
    decreases |moves|
  {
    moves != [] ==> InOrderMove(w, moves[0]) && ArrivalsInOrder(spawnLimit, Step(spawnLimit, w, moves[0]), moves[1..])
  }

  /** At every moment of the run, all that is reported, then or later, is safe. */
  ghost predicate AlwaysSafe(spawnLimit: int, w: Writer, moves: seq<Move>)
  {
    forall p | 0 <= p <= |moves| :: StaysSafe(spawnLimit, Run(spawnLimit, w, moves[..p]))
  }

  lemma SoundStaysSafe(spawnLimit: int, w: Writer)
    requires Sound(spawnLimit, w)
    ensures StaysSafe(spawnLimit, w)
  {
    forall moves | NoArrivals(moves)
      ensures ReportsSafe(Run(spawnLimit, w, moves))
    {
      OwnMovesAreSound(spawnLimit, w, moves);
    }
  }

  lemma AlwaysSafeSplit(spawnLimit: int, w: Writer, moves: seq<Move>)
    requires moves != []
    ensures AlwaysSafe(spawnLimit, w, moves)
       <==> StaysSafe(spawnLimit, w) && AlwaysSafe(spawnLimit, Step(spawnLimit, w, moves[0]), moves[1..])
  {
    var w', tail := Step(spawnLimit, w, moves[0]), moves[1..];
    assert Run(spawnLimit, w, moves[..0]) == w;
    forall p | 0 <= p <= |tail|
      ensures Run(spawnLimit, w, moves[..p + 1]) == Run(spawnLimit, w', tail[..p])
    {
      assert moves[..p + 1][1..] == tail[..p];
    }
    if StaysSafe(spawnLimit, w) && AlwaysSafe(spawnLimit, w', tail) {
      forall p | 0 <= p <= |moves|
        ensures StaysSafe(spawnLimit, Run(spawnLimit, w, moves[..p]))
      {
        if p > 0 {
          assert StaysSafe(spawnLimit, Run(spawnLimit, w', tail[..p - 1]));
        }
      }
    }
  }

  /** A run is safe at every moment, however the writer goes on, exactly if its arrivals are in order. */
  lemma {:induction false} SafeIffInOrder(spawnLimit: int, w: Writer, moves: seq<Move>)
    requires Sound(spawnLimit, w) && 1 <= spawnLimit
    ensures AlwaysSafe(spawnLimit, w, moves) <==> ArrivalsInOrder(spawnLimit, w, moves)
    decreases |moves|
  {
    SoundStaysSafe(spawnLimit, w);
    if moves == [] {
      assert forall p | 0 <= p <= |moves| :: moves[..p] == [];
    } else {
      var w' := Step(spawnLimit, w, moves[0]);
      AlwaysSafeSplit(spawnLimit, w, moves);
      if InOrderMove(w, moves[0]) {
        StepIsSound(spawnLimit, w, moves[0]);
        SafeIffInOrder(spawnLimit, w', moves[1..]);
      } else {
        InOrderIsExact(spawnLimit, w, moves[0].row);
        AlwaysStartsSafe(spawnLimit, w', moves[1..]);
      }
    }
  }

  lemma AlwaysStartsSafe(spawnLimit: int, w: Writer, moves: seq<Move>)
    ensures AlwaysSafe(spawnLimit, w, moves) ==> StaysSafe(spawnLimit, w)
  {
    assert Run(spawnLimit, w, moves[..0]) == w;
  }

  ghost predicate OffsetsNeverFall(spawnLimit: int, w: Writer, moves: seq<Move>)
    decreases |moves|
  {
    moves != [] ==>
      && (moves[0].Receive? ==> NotBelow(w.received, moves[0].row))
      && OffsetsNeverFall(spawnLimit, Step(spawnLimit, w, moves[0]), moves[1..])
  }

  /** Rows of one partition and offset all go into one task. */
  ghost predicate OneTaskPerOffset(spawnLimit: int, w: Writer, moves: seq<Move>)
    decreases |moves|
  {
    moves != [] ==>
      && (moves[0].Receive? && !w.exited ==> Fresh(w.received, moves[0].row) || Joins(w.next, moves[0].row))
      && OneTaskPerOffset(spawnLimit, Step(spawnLimit, w, moves[0]), moves[1..])
  }

  lemma {:induction false} OneTaskIsInOrder(spawnLimit: int, w: Writer, moves: seq<Move>)
    requires Sound(spawnLimit, w) && AllReached(w) && OffsetsNeverFall(spawnLimit, w, moves)
    ensures ArrivalsInOrder(spawnLimit, w, moves) <==> OneTaskPerOffset(spawnLimit, w, moves)
    decreases |moves|
  {
    if moves != [] {
      if moves[0].Receive? {
        InOrderMeansOneTask(w, moves[0].row);
      }
      if InOrderMove(w, moves[0]) {
        StepIsSound(spawnLimit, w, moves[0]);
        StepKeepsReached(spawnLimit, w, moves[0]);
        OneTaskIsInOrder(spawnLimit, Step(spawnLimit, w, moves[0]), moves[1..]);
      }
    }
  }

  /** For a writer whose rows arrive with offsets that never fall: no watermark ever covers an unwritten
      row, however the run goes on, exactly if no two tasks carry rows of one partition and offset. */
  lemma SafeIffOneTaskPerOffset(spawnLimit: int, moves: seq<Move>)
    requires 1 <= spawnLimit && OffsetsNeverFall(spawnLimit, IDLE, moves)
    ensures AlwaysSafe(spawnLimit, IDLE, moves) <==> OneTaskPerOffset(spawnLimit, IDLE, moves)
  {
    IdleIsSafe(spawnLimit);
    assert Sound(spawnLimit, IDLE);
    SafeIffInOrder(spawnLimit, IDLE, moves);
    OneTaskIsInOrder(spawnLimit, IDLE, moves);
  }

  // ---------------------------------------------------------------- runs of a topic

  /** Of the rows a writer of the topic takes, no two of one partition and offset go into two tasks. */
  ghost predicate OneTaskMove(t: Topic, m: TopicMove)
    requires Shaped(t)
  {
    m.Work? && m.writer < |t.writers| && m.move.Receive? ==>
      Fresh(t.writers[m.writer].received, m.move.row) || Joins(t.writers[m.writer].next, m.move.row)
  }

  ghost predicate OneTaskRun(spawnLimit: int, t: Topic, moves: seq<TopicMove>)
    requires Shaped(t)
    decreases |moves|
  {
    moves != [] ==>
      && OneTaskMove(t, moves[0])
      && (StepKeepsShape(spawnLimit, t, moves[0]); OneTaskRun(spawnLimit, TopicStep(spawnLimit, t, moves[0]), moves[1..]))
  }

  /** Such runs of a topic meet the condition of commit safety. */
  lemma {:induction false} OneTaskRunIsInOrder(spawnLimit: int, t: Topic, moves: seq<TopicMove>)
    requires TopicOk(spawnLimit, t) && OneTaskRun(spawnLimit, t, moves)
    ensures InOrderRun(spawnLimit, t, moves)
    decreases |moves|
  {
    if moves != [] {
      var m := moves[0];
      if m.Work? && m.writer < |t.writers| && m.move.Receive? {
        var w, row := t.writers[m.writer], m.move.row;
        if Fresh(w.received, row) {
          FreshIsInOrder(w, row);
        } else {
          JoiningIsInOrder(w, row);
        }
      }
      TopicStepIsOk(spawnLimit, t, m);
      OneTaskRunIsInOrder(spawnLimit, TopicStep(spawnLimit, t, m), moves[1..]);
    }
  }
}
