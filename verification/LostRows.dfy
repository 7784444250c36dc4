/** What commit safety does not cover, and runs that lose a row: a row the writer's channel refused, and a
    row whose task is not the one that holds the other row of its offset. */
module LostRows {
  import opened Types
  import opened Progress
  import opened Writer
  import opened WriterSafety
  import opened CommitChain
  import opened ArrivalOrder
  import opened RowOrder

  // ---------------------------------------------------------------- rows refused

  predicate UpTo(row: Row, k: int, v: nat)
  {
    row.tag.Some? && row.tag.value.partition == k && row.tag.value.offset <= v
  }

  /** Every row of partition `k` up to `v` that was offered, taken or not, has been written as often. */
  ghost predicate OfferedIsWritten(w: Writer, k: int, v: nat)
  {
    forall row | UpTo(row, k, v) :: w.written[row] == multiset(w.received + w.refused)[row]
  }

  ghost predicate NoneRefused(w: Writer, k: int, v: nat)
  {
    forall row | row in w.refused :: !UpTo(row, k, v)
  }

  lemma SafeOffers(spawnLimit: int, w: Writer, k: int, v: nat)
    requires Accounted(spawnLimit, w) && Safe(w, k, v)
    ensures OfferedIsWritten(w, k, v) <==> NoneRefused(w, k, v)
  {
    forall row | UpTo(row, k, v)
      ensures w.written[row] == multiset(w.received + w.refused)[row] <==> row !in w.refused
    {
      SafeMeansWritten(spawnLimit, w, k, v, row);
      assert multiset(w.received + w.refused) == multiset(w.received) + multiset(w.refused);
      assert row in w.refused <==> row in multiset(w.refused);
    }
  }

  /** When an offset has been committed, every row up to it that was offered to a writer has been written
      exactly if the writer's channel refused none of them. */
  lemma CommitCoversOffered(spawnLimit: int, n: nat, at: seq<nat>, moves: seq<TopicMove>, c: nat, k: int, j: nat)
    requires 0 <= spawnLimit && Levels(n, at) && InOrderRun(spawnLimit, FreshTopic(n, at), moves)
    requires var t := RunTopic(spawnLimit, FreshTopic(n, at), moves);
             Shaped(t) && c < |t.commits| && k in t.commits[c] && j < |t.at|
    ensures var t := RunTopic(spawnLimit, FreshTopic(n, at), moves);
            OfferedIsWritten(t.writers[t.at[j]], k, t.commits[c][k]) <==> NoneRefused(t.writers[t.at[j]], k, t.commits[c][k])
  {
    FreshTopicIsOk(spawnLimit, n, at);
    RunIsOk(spawnLimit, FreshTopic(n, at), moves);
    var t := RunTopic(spawnLimit, FreshTopic(n, at), moves);
    CommittedIsSafe(spawnLimit, t, c, k, j);
    SafeOffers(spawnLimit, t.writers[t.at[j]], k, t.commits[c][k]);
  }

  // ---------------------------------------------------------------- runs of one writer

  const ONE_WRITER: Topic := FreshTopic(1, [0])

  /** The writer's moves, and then one turn of its listener. */
  function ThenListen(moves: seq<Move>): seq<TopicMove>
  {
    if moves == [] then [Listen(0)] else [Work(0, moves[0])] + ThenListen(moves[1..])
  }

  function WithWriter(w: Writer): Topic
  {
    ONE_WRITER.(writers := [w])
  }

  /** What the writer's listener sees after the moves is committed. */
  lemma {:induction false} ListenerCommits(spawnLimit: int, w: Writer, moves: seq<Move>)
    ensures var t := RunTopic(spawnLimit, WithWriter(w), ThenListen(moves));
            var end := Run(spawnLimit, w, moves);
            Shaped(t) && t.at == [0] && t.writers == [end] && t.commits == [end.watch]
    ensures InOrderRun(spawnLimit, WithWriter(w), ThenListen(moves)) <==> ArrivalsInOrder(spawnLimit, w, moves)
    decreases |moves|
  {
    var t, all := WithWriter(w), ThenListen(moves);
    if moves == [] {
      assert RunTopic(spawnLimit, Notice(t, 0), all[1..]) == Notice(t, 0);
    } else {
      assert all[1..] == ThenListen(moves[1..]);
      assert TopicStep(spawnLimit, t, all[0]) == WithWriter(Step(spawnLimit, w, moves[0]));
      ListenerCommits(spawnLimit, Step(spawnLimit, w, moves[0]), moves[1..]);
    }
  }

  /** A writer that has just spawned its first task, with rows `data` and tag `v` of partition `k`. */
  function FirstSpawned(data: seq<Row>, refused: seq<Row>, k: int, v: nat): Writer
  {
    IDLE.(running := [Task(data, Some(map[k := v]), 0)], stacks := map[k := [Entry(v, None)]], spawning := 1,
          received := data, refused := refused, pushed := map[k := {v}])
  }

  lemma OneFlag(k: int, v: nat)
    ensures AddTo(map[], Tag(k, v)) == map[k := v]
    ensures UpdateFrom(map[], map[k := v]) == map[k := [Entry(v, None)]]
    ensures Noted(map[], map[k := v]) == map[k := {v}]
  {
    var none: Stacks, f: Flags, h: History := map[], map[k := v], map[];
    assert AddTo(map[], Tag(k, v)).Keys == {k};
    assert UpdateFrom(none, f).Keys == {k};
    assert Noted(h, f).Keys == {k};
    assert Push([], v) == [Entry(v, None)];
    assert At(h, k) + {v} == {v};
  }

  lemma SpawnsFirst(spawnLimit: int, row: Row, refused: seq<Row>, k: int, v: nat)
    requires 1 <= spawnLimit && row.tag == Some(Tag(k, v))
    ensures Run(spawnLimit, IDLE.(refused := refused), [Receive(row), Acquire]) == FirstSpawned([row], refused, k, v)
  {
    var w1 := Step(spawnLimit, IDLE.(refused := refused), Receive(row));
    OneFlag(k, v);
    assert AddData(EMPTY_TASK, row).data == [row];
    assert w1.next == [Task([row], Some(map[k := v]), 0)];
    assert [Receive(row), Acquire][1..] == [Acquire] && [Acquire][1..] == [];
    assert Run(spawnLimit, Step(spawnLimit, w1, Acquire), []) == Step(spawnLimit, w1, Acquire);
  }

  lemma OnlyPiece(w: Writer, row: Row, k: int, v: nat)
    requires w.running != [] && w.running[0] == Task([row], Some(map[k := v]), 0)
    ensures var w1 := PieceWritten(w, 0, 1);
            && w1.running != [] && w1.running[0] == Task([], Some(map[k := v]), 0)
            && w1.written == w.written + multiset{row}
            && w1.received == w.received && w1.refused == w.refused && w1.stacks == w.stacks && w1.exited == w.exited
  {
    assert [row][1..] == [] && [row][..1] == [row];
  }

  lemma OnlyReport(stacks: Stacks, k: int, v: nat)
    requires k in stacks && stacks[k] != [] && stacks[k][0] == Entry(v, None) && Rank(stacks[k], v, |stacks[k]| - 1) == 0
    ensures Reports(stacks, map[k := v]) == map[k := v]
  {
    assert Reports(stacks, map[k := v]).Keys == {k};
  }

  /** The first running task is written in one piece and ends; its tag, the lowest, is reported. */
  lemma FirstEnds(spawnLimit: int, w: Writer, row: Row, k: int, v: nat)
    requires w.running != [] && w.running[0] == Task([row], Some(map[k := v]), 0) && !w.exited
    requires k in w.stacks && w.stacks[k] != [] && w.stacks[k][0] == Entry(v, None)
    requires Rank(w.stacks[k], v, |w.stacks[k]| - 1) == 0
    ensures var end := Run(spawnLimit, w, [WritePiece(0, 1), Complete(0)]);
            && end.watch == map[k := v] && end.written == w.written + multiset{row}
            && end.received == w.received && end.refused == w.refused
  {
    RunTwo(spawnLimit, w, WritePiece(0, 1), Complete(0));
    OnlyPiece(w, row, k, v);
    OnlyReport(w.stacks, k, v);
    FinishedFields(PieceWritten(w, 0, 1), 0);
    FinishedHistory(PieceWritten(w, 0, 1), 0);
  }

  lemma StartOfOne()
    ensures ONE_WRITER == WithWriter(IDLE)
  {
    assert ONE_WRITER.writers == [IDLE];
  }

  // ---------------------------------------------------------------- a refused row

  lemma RefusedRun(spawnLimit: int, k: int, v: nat, a: Row, b: Row)
    requires 1 <= spawnLimit && b.tag == Some(Tag(k, v))
    ensures var w := Run(spawnLimit, IDLE, [Refuse(a), Receive(b), Acquire, WritePiece(0, 1), Complete(0)]);
            w.watch == map[k := v] && w.written == multiset{b} && w.refused == [a]
  {
    var first, second, ending := [Refuse(a)], [Receive(b), Acquire], [WritePiece(0, 1), Complete(0)];
    assert first + (second + ending) == [Refuse(a), Receive(b), Acquire, WritePiece(0, 1), Complete(0)];
    RunOne(spawnLimit, IDLE, Refuse(a));
    RunAppends(spawnLimit, IDLE, first, second + ending);
    assert Step(spawnLimit, IDLE, Refuse(a)) == IDLE.(refused := [a]);
    RunAppends(spawnLimit, IDLE.(refused := [a]), second, ending);
    SpawnsFirst(spawnLimit, b, [a], k, v);
    FirstEnds(spawnLimit, FirstSpawned([b], [a], k, v), b, k, v);
  }

  /** A row is refused, the next one is taken: all arrivals are in order, the second row's offset is
      committed, and the first is never written. */
  lemma RefusedRowIsLost(spawnLimit: int, k: int, v: nat, a: Row, b: Row)
    requires 1 <= spawnLimit && a.tag == Some(Tag(k, v)) && b.tag == Some(Tag(k, v + 1))
    ensures var moves := ThenListen([Refuse(a), Receive(b), Acquire, WritePiece(0, 1), Complete(0)]);
            var t := RunTopic(spawnLimit, ONE_WRITER, moves);
            && InOrderRun(spawnLimit, ONE_WRITER, moves)
            && Shaped(t) && t.commits == [map[k := v + 1]]
            && |t.writers| == 1 && a in t.writers[0].refused && t.writers[0].written[a] == 0
  {
    StartOfOne();
    ListenerCommits(spawnLimit, IDLE, [Refuse(a), Receive(b), Acquire, WritePiece(0, 1), Complete(0)]);
    RefusedRun(spawnLimit, k, v + 1, a, b);
    OneArrivalIsInOrder(spawnLimit, a, b);
  }

  lemma OneArrivalIsInOrder(spawnLimit: int, a: Row, b: Row)
    ensures ArrivalsInOrder(spawnLimit, IDLE, [Refuse(a), Receive(b), Acquire, WritePiece(0, 1), Complete(0)])
  {
    var w0 := Step(spawnLimit, IDLE, Refuse(a));
    var w1 := Step(spawnLimit, w0, Receive(b));
    var rest := [Acquire, WritePiece(0, 1), Complete(0)];
    assert [Refuse(a), Receive(b), Acquire, WritePiece(0, 1), Complete(0)][1..] == [Receive(b)] + rest;
    assert ([Receive(b)] + rest)[1..] == rest;
    NoneArrive(spawnLimit, w1, rest);
    assert InOrder(w0, b);
    assert ArrivalsInOrder(spawnLimit, w0, [Receive(b)] + rest);
  }

  lemma {:induction false} NoneArrive(spawnLimit: int, w: Writer, moves: seq<Move>)
    requires NoArrivals(moves)
    ensures ArrivalsInOrder(spawnLimit, w, moves)
    decreases |moves|
  {
    if moves != [] {
      assert moves[0] in moves;
      NoneArrive(spawnLimit, Step(spawnLimit, w, moves[0]), moves[1..]);
    }
  }

  // ---------------------------------------------------------------- a split pair

  lemma QueuesTwo(spawnLimit: int, w: Writer, b: Row, c: Row, k: int, v: nat)
    requires w.next == [] && !w.exited && b.tag == Some(Tag(k, v)) && c.tag == Some(Tag(k, v + 1))
    ensures Run(spawnLimit, w, [Receive(b), Receive(c)])
         == w.(next := [Task([b, c], Some(map[k := v + 1]), 0)], pending := w.pending + 2, received := w.received + [b, c])
  {
    var w1 := Step(spawnLimit, w, Receive(b));
    OneFlag(k, v);
    assert AddData(EMPTY_TASK, b).data == [b];
    assert w1.next == [Task([b], Some(map[k := v]), 0)];
    assert AddTo(map[k := v], Tag(k, v + 1)) == map[k := v + 1];
    assert [b] + [c] == [b, c] && w.received + [b] + [c] == w.received + [b, c];
    RunTwo(spawnLimit, w, Receive(b), Receive(c));
  }

  /** Two more rows are queued and spawned beside the first task. */
  lemma SpawnsSecond(spawnLimit: int, a: Row, b: Row, c: Row, k: int, v: nat)
    requires 2 <= spawnLimit && b.tag == Some(Tag(k, v)) && c.tag == Some(Tag(k, v + 1))
    ensures var w := Run(spawnLimit, FirstSpawned([a], [], k, v), [Receive(b), Receive(c), Acquire]);
            && w.running == [Task([a], Some(map[k := v]), 0), Task([b, c], Some(map[k := v + 1]), 0)] && !w.exited
            && k in w.stacks && w.stacks[k] == [Entry(v, None), Entry(v + 1, None)]
            && w.received == [a, b, c] && w.written == multiset{}
  {
    var w0 := FirstSpawned([a], [], k, v);
    QueuesTwo(spawnLimit, w0, b, c, k, v);
    RunAppends(spawnLimit, w0, [Receive(b), Receive(c)], [Acquire]);
    RunOne(spawnLimit, Run(spawnLimit, w0, [Receive(b), Receive(c)]), Acquire);
    assert [Receive(b), Receive(c)] + [Acquire] == [Receive(b), Receive(c), Acquire];
    assert Push([Entry(v, None)], v + 1) == [Entry(v, None), Entry(v + 1, None)];
  }

  /** Two rows of one offset reach the writer, and the first is already spawned when the second comes.
      The first is written, and its offset is committed; the second is running and not written. */
  lemma SplitPairIsLost(spawnLimit: int, k: int, v: nat, a: Row, b: Row, c: Row)
    requires 2 <= spawnLimit && a != b && a.tag == b.tag == Some(Tag(k, v)) && c.tag == Some(Tag(k, v + 1))
    ensures var moves := [Receive(a), Acquire, Receive(b), Receive(c), Acquire, WritePiece(0, 1), Complete(0)];
            var t := RunTopic(spawnLimit, ONE_WRITER, ThenListen(moves));
            && Shaped(t) && t.commits == [map[k := v]]
            && |t.writers| == 1 && b in t.writers[0].received && t.writers[0].written[b] == 0
  {
    var second, ending := [Receive(b), Receive(c), Acquire], [WritePiece(0, 1), Complete(0)];
    var moves := [Receive(a), Acquire] + (second + ending);
    assert moves == [Receive(a), Acquire, Receive(b), Receive(c), Acquire, WritePiece(0, 1), Complete(0)];
    StartOfOne();
    ListenerCommits(spawnLimit, IDLE, moves);
    var w2 := FirstSpawned([a], [], k, v);
    SpawnsFirst(spawnLimit, a, [], k, v);
    RunAppends(spawnLimit, IDLE, [Receive(a), Acquire], second + ending);
    RunAppends(spawnLimit, w2, second, ending);
    SpawnsSecond(spawnLimit, a, b, c, k, v);
    FirstEnds(spawnLimit, Run(spawnLimit, w2, second), a, k, v);
  }
}
