/** One database writer as a state machine: rows queue up in tasks, tasks run concurrently and fail and
    are retried, and finished tasks move the watermarks that its listeners see. */
module Writer {
  import opened Types
  import opened Progress

  datatype Tag = Tag(partition: int, offset: nat)

  datatype Row = Row(content: nat, tag: Option<Tag>)

  type Flags = map<int, nat>

  /** `data` is what is not written yet: a failed task is left with its unsent suffix. */
  datatype Task = Task(data: seq<Row>, notify: Option<Flags>, errCount: nat)

  const EMPTY_TASK: Task := Task([], None, 0)

  const INSERT_LIMIT: nat := 5000

  function FlagsOf(t: Task): Flags
  {
    if t.notify.Some? then t.notify.value else map[]
  }

  /** A task remembers the largest offset of each partition among its rows. */
  function AddTo(f: Flags, tag: Tag): Flags
  {
    f[tag.partition := if tag.partition in f && f[tag.partition] > tag.offset then f[tag.partition] else tag.offset]
  }

  function AddData(t: Task, row: Row): Task
  {
    t.(data := t.data + [row], notify := if row.tag.Some? then Some(AddTo(FlagsOf(t), row.tag.value)) else t.notify)
  }

  predicate IsLimited(t: Task)
  {
    |t.data| >= INSERT_LIMIT
  }

  // ---------------------------------------------------------------- progress of all partitions

  type Stacks = map<int, Stack>

  function StackAt(s: Stacks, k: int): Stack
  {
    if k in s then s[k] else []
  }

  function UpdateFrom(s: Stacks, f: Flags): Stacks
  {
    map k | k in s.Keys + f.Keys :: if k in f then Push(StackAt(s, k), f[k]) else s[k]
  }

  function FinishFrom(s: Stacks, f: Flags): Stacks
  {
    map k | k in s :: if k in f then Pop(s[k], f[k]).0 else s[k]
  }

  function Reports(s: Stacks, f: Flags): Flags
  {
    map k | k in f && k in s && Pop(s[k], f[k]).1.Some? :: Pop(s[k], f[k]).1.value
  }

  // ---------------------------------------------------------------- the scheduler

  type History = map<int, set<nat>>

  function At(h: History, k: int): set<nat>
  {
    if k in h then h[k] else {}
  }

  function Noted(h: History, f: Flags): History
  {
    map k | k in h.Keys + f.Keys :: At(h, k) + if k in f then {f[k]} else {}
  }

  /** The scheduler's state, and its history: what it has received and written, what was offered to it
      but refused, every tag it has pushed onto and finished on its progress stacks, and the last
      watermark reported for each partition. */
  datatype Writer = Writer(
    next: seq<Task>, errors: seq<Task>, running: seq<Task>, stacks: Stacks,
    pending: int, spawning: int, graceDown: bool, exited: bool, watch: Flags,
    received: seq<Row>, refused: seq<Row>, written: multiset<Row>, pushed: History, finished: History, reported: Flags)

  const IDLE: Writer :=
    Writer([], [], [], map[], 0, 0, false, false, map[], [], [], multiset{}, map[], map[], map[])

  /** What can happen next: a row arrives, or finds the channel full or closed and is dropped; a
      connection is acquired, part of a running task's statement list goes through, a task ends,
      fails, or the writer is told to stop or stops. */
  datatype Move =
    | Receive(row: Row) | Refuse(row: Row) | Acquire | WritePiece(task: nat, rows: nat)
    | Complete(task: nat) | Fail(task: nat) | Exit(grace: bool) | Quit

  function Drop<T>(s: seq<T>, i: nat): seq<T>
    requires i < |s|
  {
    s[..i] + s[i + 1..]
  }

  function Queued(next: seq<Task>, row: Row): seq<Task>
  {
    if next == [] || IsLimited(next[0]) then [AddData(EMPTY_TASK, row)] + next
    else [AddData(next[0], row)] + next[1..]
  }

  function SpawnRetry(w: Writer): Writer
    requires w.errors != []
  {
    w.(errors := w.errors[..|w.errors| - 1], running := w.running + [w.errors[|w.errors| - 1]])
  }

  function SpawnNext(w: Writer): Writer
    requires w.next != []
  {
    var task := w.next[|w.next| - 1];
    w.(next := w.next[..|w.next| - 1], running := w.running + [task],
       spawning := w.spawning + 1, pending := w.pending - |task.data|,
       stacks := UpdateFrom(w.stacks, FlagsOf(task)), pushed := Noted(w.pushed, FlagsOf(task)))
  }

  function WithReports(w: Writer, f: Flags): Writer
  {
    w.(stacks := FinishFrom(w.stacks, f), watch := Reports(w.stacks, f),
       finished := Noted(w.finished, f), reported := w.reported + Reports(w.stacks, f))
  }

  function Finished(w: Writer, i: nat): Writer
    requires i < |w.running|
  {
    var task := w.running[i];
    var w' := w.(running := Drop(w.running, i), spawning := w.spawning - 1);
    if task.notify.None? then w' else WithReports(w', FlagsOf(task))
  }

  function Failed(w: Writer, i: nat): Writer
    requires i < |w.running|
  {
    var task := w.running[i];
    w.(running := Drop(w.running, i), errors := [task.(errCount := task.errCount + 1)] + w.errors)
  }

  function PieceWritten(w: Writer, i: nat, n: nat): Writer
    requires i < |w.running| && n <= |w.running[i].data|
  {
    var task := w.running[i];
    w.(running := w.running[i := task.(data := task.data[n..])], written := w.written + multiset(task.data[..n]))
  }

  /** A move that is not possible now changes nothing. */
  function Step(spawnLimit: int, w: Writer, m: Move): Writer
  {
    match m
    case WritePiece(i, n) => if i < |w.running| && n <= |w.running[i].data| then PieceWritten(w, i, n) else w
    case Refuse(row) => w.(refused := w.refused + [row])
    case _ => if w.exited then w else Scheduled(spawnLimit, w, m)
  }

  function Scheduled(spawnLimit: int, w: Writer, m: Move): Writer
  {
    match m
    case Receive(row) => w.(next := Queued(w.next, row), pending := w.pending + 1, received := w.received + [row])
    case Acquire =>
      if w.errors != [] then SpawnRetry(w)
      else if w.next != [] && w.spawning < spawnLimit then SpawnNext(w)
      else w
    case Complete(i) => if i < |w.running| && w.running[i].data == [] then Finished(w, i) else w
    case Fail(i) => if i < |w.running| && w.running[i].data != [] then Failed(w, i) else w
    case Exit(grace) => w.(graceDown := true, exited := !grace)
    case Quit => w.(exited := w.graceDown && w.spawning == 0 && w.next == [])
    case WritePiece(_, _) => w
    case Refuse(_) => w
  }

  function Run(spawnLimit: int, w: Writer, moves: seq<Move>): Writer
    decreases |moves|
  {
    if moves == [] then w else Run(spawnLimit, Step(spawnLimit, w, moves[0]), moves[1..])
  }

  // ---------------------------------------------------------------- every row is accounted for

  ghost function RowsOf(tasks: seq<Task>): multiset<Row>
  {
    if tasks == [] then multiset{} else multiset(tasks[0].data) + RowsOf(tasks[1..])
  }

  function CountRows(tasks: seq<Task>): nat
  {
    if tasks == [] then 0 else |tasks[0].data| + CountRows(tasks[1..])
  }

  ghost predicate Bounded(tasks: seq<Task>)
  {
    forall i | 0 <= i < |tasks| :: |tasks[i].data| <= INSERT_LIMIT
  }

  ghost predicate Nonempty(tasks: seq<Task>)
  {
    forall i | 0 <= i < |tasks| :: tasks[i].data != []
  }

  /** Each received row is queued, failed, running or written, in exactly one of them. */
  ghost predicate Balanced(received: seq<Row>, next: seq<Task>, errors: seq<Task>, running: seq<Task>, written: multiset<Row>)
  {
    multiset(received) == RowsOf(next) + RowsOf(errors) + RowsOf(running) + written
  }

  ghost predicate Sized(next: seq<Task>, errors: seq<Task>, running: seq<Task>)
  {
    Bounded(next) && Bounded(errors) && Bounded(running) && Nonempty(next) && Nonempty(errors)
  }

  /** No row is lost or doubled, tasks are within bounds, and the counters count. */
  ghost predicate Accounted(spawnLimit: int, w: Writer)
  {
    && Balanced(w.received, w.next, w.errors, w.running, w.written)
    && Sized(w.next, w.errors, w.running)
    && w.pending == CountRows(w.next)
    && w.spawning == |w.running| + |w.errors| <= spawnLimit
  }

  lemma Associate(a: multiset<Row>, b: multiset<Row>, c: multiset<Row>)
    ensures a + (b + c) == a + b + c
  {
  }

  lemma RowsOfCons(t: Task, s: seq<Task>)
    ensures RowsOf([t] + s) == multiset(t.data) + RowsOf(s)
    ensures CountRows([t] + s) == |t.data| + CountRows(s)
  {
    assert ([t] + s)[1..] == s;
  }

  lemma ConsConcat(x: Task, rest: seq<Task>, t: seq<Task>)
    requires RowsOf(rest + t) == RowsOf(rest) + RowsOf(t)
    requires CountRows(rest + t) == CountRows(rest) + CountRows(t)
    ensures RowsOf([x] + (rest + t)) == RowsOf([x] + rest) + RowsOf(t)
    ensures CountRows([x] + (rest + t)) == CountRows([x] + rest) + CountRows(t)
  {
    RowsOfCons(x, rest);
    RowsOfCons(x, rest + t);
    Associate(multiset(x.data), RowsOf(rest), RowsOf(t));
  }

  lemma HeadAndTail(s: seq<Task>, t: seq<Task>)
    requires s != []
    ensures s == [s[0]] + s[1..] && s + t == [s[0]] + (s[1..] + t)
  {
  }

  lemma NothingConcat(t: seq<Task>)
    ensures RowsOf([] + t) == RowsOf([]) + RowsOf(t) && CountRows([] + t) == CountRows([]) + CountRows(t)
  {
    assert [] + t == t;
    assert RowsOf([]) == multiset{};
  }

  lemma {:induction false} RowsOfConcat(s: seq<Task>, t: seq<Task>)
    ensures RowsOf(s + t) == RowsOf(s) + RowsOf(t)
    ensures CountRows(s + t) == CountRows(s) + CountRows(t)
  {
    if s == [] {
      NothingConcat(t);
    } else {
      RowsOfConcat(s[1..], t);
      ConsConcat(s[0], s[1..], t);
      HeadAndTail(s, t);
    }
  }

  lemma RowsOfOne(t: Task)
    ensures RowsOf([t]) == multiset(t.data) && CountRows([t]) == |t.data|
  {
    assert [t][1..] == [];
  }

  lemma RowsOfDrop(s: seq<Task>, i: nat)
    requires i < |s|
    ensures RowsOf(s) == RowsOf(Drop(s, i)) + multiset(s[i].data)
    ensures CountRows(s) == CountRows(Drop(s, i)) + |s[i].data|
  {
    assert s == s[..i] + [s[i]] + s[i + 1..];
    RowsOfConcat(s[..i] + [s[i]], s[i + 1..]);
    RowsOfConcat(s[..i], [s[i]]);
    RowsOfConcat(s[..i], s[i + 1..]);
    RowsOfOne(s[i]);
  }

  lemma RowsOfReplace(s: seq<Task>, i: nat, t: Task)
    requires i < |s|
    ensures RowsOf(s[i := t]) == RowsOf(Drop(s, i)) + multiset(t.data)
  {
    RowsOfDrop(s[i := t], i);
    assert Drop(s[i := t], i) == Drop(s, i);
  }

  lemma QueuedRows(next: seq<Task>, row: Row)
    ensures RowsOf(Queued(next, row)) == RowsOf(next) + multiset{row}
    ensures CountRows(Queued(next, row)) == CountRows(next) + 1
    ensures Bounded(next) ==> Bounded(Queued(next, row))
    ensures Nonempty(next) ==> Nonempty(Queued(next, row))
  {
    var q := Queued(next, row);
    if next == [] || IsLimited(next[0]) {
      assert q[1..] == next;
      assert AddData(EMPTY_TASK, row).data == [row];
    } else {
      assert q[1..] == next[1..] && q[0].data == next[0].data + [row];
    }
  }

  lemma ReceiveIsAccounted(spawnLimit: int, w: Writer, row: Row)
    requires Accounted(spawnLimit, w)
    ensures Accounted(spawnLimit, Scheduled(spawnLimit, w, Receive(row)))
  {
    QueuedRows(w.next, row);
  }

  /** Moving the last task of one list to the end of another moves its rows. */
  lemma MoveLast(from: seq<Task>, to: seq<Task>)
    requires from != []
    ensures var n := |from| - 1;
            && RowsOf(from[..n]) + RowsOf(to + [from[n]]) == RowsOf(from) + RowsOf(to)
            && CountRows(from) == CountRows(from[..n]) + |from[n].data|
  {
    var n := |from| - 1;
    RowsOfDrop(from, n);
    assert Drop(from, n) == from[..n];
    RowsOfConcat(to, [from[n]]);
    RowsOfOne(from[n]);
  }

  lemma SumsAgree(x: multiset<Row>, y: multiset<Row>, x': multiset<Row>, y': multiset<Row>, z: multiset<Row>, v: multiset<Row>)
    requires x' + y' == x + y
    ensures x' + z + y' + v == x + z + y + v
    ensures z + x' + y' + v == z + x + y + v
  {
    assert x' + z + y' == (x' + y') + z && x + z + y == (x + y) + z;
    assert z + x' + y' == z + (x' + y') && z + x + y == z + (x + y);
  }

  lemma SpawnBalances(received: seq<Row>, from: seq<Task>, running: seq<Task>, other: seq<Task>, written: multiset<Row>)
    requires from != []
    ensures var n := |from| - 1;
            && (Balanced(received, from, other, running, written) ==>
                  Balanced(received, from[..n], other, running + [from[n]], written))
            && (Balanced(received, other, from, running, written) ==>
                  Balanced(received, other, from[..n], running + [from[n]], written))
  {
    var n := |from| - 1;
    MoveLast(from, running);
    SumsAgree(RowsOf(from), RowsOf(running), RowsOf(from[..n]), RowsOf(running + [from[n]]), RowsOf(other), written);
  }

  lemma SpawnSizes(from: seq<Task>, running: seq<Task>)
    requires from != [] && Bounded(from) && Bounded(running) && Nonempty(from)
    ensures var n := |from| - 1; Bounded(from[..n]) && Nonempty(from[..n]) && Bounded(running + [from[n]])
  {
  }

  lemma SpawnRetryIsAccounted(spawnLimit: int, w: Writer)
    requires Accounted(spawnLimit, w) && w.errors != []
    ensures Accounted(spawnLimit, SpawnRetry(w))
  {
    SpawnBalances(w.received, w.errors, w.running, w.next, w.written);
    SpawnSizes(w.errors, w.running);
  }

  lemma SpawnNextIsAccounted(spawnLimit: int, w: Writer)
    requires Accounted(spawnLimit, w) && w.next != [] && w.spawning < spawnLimit
    ensures Accounted(spawnLimit, SpawnNext(w))
  {
    SpawnBalances(w.received, w.next, w.running, w.errors, w.written);
    SpawnSizes(w.next, w.running);
    MoveLast(w.next, w.running);
  }

  lemma DropKeepsBounds(s: seq<Task>, i: nat)
    requires i < |s| && Bounded(s)
    ensures Bounded(Drop(s, i)) && |Drop(s, i)| == |s| - 1
  {
  }

  lemma DropEmptyBalances(received: seq<Row>, next: seq<Task>, errors: seq<Task>, running: seq<Task>, written: multiset<Row>, i: nat)
    requires Balanced(received, next, errors, running, written) && i < |running| && running[i].data == []
    ensures Balanced(received, next, errors, Drop(running, i), written)
  {
    RowsOfDrop(running, i);
    assert multiset(running[i].data) == multiset{};
    assert RowsOf(Drop(running, i)) == RowsOf(running);
  }

  lemma FinishedIsAccounted(spawnLimit: int, w: Writer, i: nat)
    requires Accounted(spawnLimit, w) && i < |w.running| && w.running[i].data == []
    ensures Accounted(spawnLimit, Finished(w, i))
  {
    DropEmptyBalances(w.received, w.next, w.errors, w.running, w.written, i);
    DropKeepsBounds(w.running, i);
    FinishedFields(w, i);
  }

  lemma FinishedFields(w: Writer, i: nat)
    requires i < |w.running|
    ensures var w' := Finished(w, i);
            && w'.next == w.next && w'.errors == w.errors && w'.running == Drop(w.running, i)
            && w'.received == w.received && w'.refused == w.refused && w'.written == w.written
            && w'.pending == w.pending && w'.spawning == w.spawning - 1 && w'.exited == w.exited
  {
    var w' := w.(running := Drop(w.running, i), spawning := w.spawning - 1);
    ReportsFields(w', FlagsOf(w.running[i]));
  }

  lemma ReportsFields(w: Writer, f: Flags)
    ensures var w' := WithReports(w, f);
            && w'.next == w.next && w'.errors == w.errors && w'.running == w.running
            && w'.received == w.received && w'.refused == w.refused && w'.written == w.written
            && w'.pending == w.pending && w'.spawning == w.spawning && w'.exited == w.exited
  {
  }

  lemma FailBalances(received: seq<Row>, next: seq<Task>, errors: seq<Task>, running: seq<Task>, written: multiset<Row>, i: nat, task: Task)
    requires Balanced(received, next, errors, running, written) && i < |running| && task.data == running[i].data
    ensures Balanced(received, next, [task] + errors, Drop(running, i), written)
  {
    RowsOfDrop(running, i);
    RowsOfCons(task, errors);
  }

  lemma FailedIsAccounted(spawnLimit: int, w: Writer, i: nat)
    requires Accounted(spawnLimit, w) && i < |w.running| && w.running[i].data != []
    ensures Accounted(spawnLimit, Failed(w, i))
  {
    var task := w.running[i].(errCount := w.running[i].errCount + 1);
    FailBalances(w.received, w.next, w.errors, w.running, w.written, i, task);
    DropKeepsBounds(w.running, i);
  }

  lemma PieceIsAccounted(spawnLimit: int, w: Writer, i: nat, n: nat)
    requires Accounted(spawnLimit, w) && i < |w.running| && n <= |w.running[i].data|
    ensures Accounted(spawnLimit, PieceWritten(w, i, n))
  {
    var task := w.running[i];
    RowsOfDrop(w.running, i);
    RowsOfReplace(w.running, i, task.(data := task.data[n..]));
    assert task.data == task.data[..n] + task.data[n..];
  }

  lemma AcquireIsAccounted(spawnLimit: int, w: Writer)
    requires Accounted(spawnLimit, w)
    ensures Accounted(spawnLimit, Scheduled(spawnLimit, w, Acquire))
  {
    if w.errors != [] {
      SpawnRetryIsAccounted(spawnLimit, w);
    } else if w.next != [] && w.spawning < spawnLimit {
      SpawnNextIsAccounted(spawnLimit, w);
    }
  }

  lemma EndIsAccounted(spawnLimit: int, w: Writer, i: nat)
    requires Accounted(spawnLimit, w)
    ensures Accounted(spawnLimit, Scheduled(spawnLimit, w, Complete(i)))
    ensures Accounted(spawnLimit, Scheduled(spawnLimit, w, Fail(i)))
  {
    if i < |w.running| {
      if w.running[i].data == [] {
        FinishedIsAccounted(spawnLimit, w, i);
      } else {
        FailedIsAccounted(spawnLimit, w, i);
      }
    }
  }

  lemma StepIsAccounted(spawnLimit: int, w: Writer, m: Move)
    requires Accounted(spawnLimit, w)
    ensures Accounted(spawnLimit, Step(spawnLimit, w, m))
  {
    match m
    case WritePiece(i, n) =>
      if i < |w.running| && n <= |w.running[i].data| {
        PieceIsAccounted(spawnLimit, w, i, n);
      }
    case Receive(row) => ReceiveIsAccounted(spawnLimit, w, row);
    case Acquire => AcquireIsAccounted(spawnLimit, w);
    case Complete(i) => EndIsAccounted(spawnLimit, w, i);
    case Fail(i) => EndIsAccounted(spawnLimit, w, i);
    case _ =>
  }

  predicate Graceful(moves: seq<Move>)
  {
    forall i | 0 <= i < |moves| :: moves[i] != Exit(false)
  }

  lemma {:induction false} RunIsAccounted(spawnLimit: int, w: Writer, moves: seq<Move>)
    requires Accounted(spawnLimit, w)
    ensures Accounted(spawnLimit, Run(spawnLimit, w, moves))
    decreases |moves|
  {
    if moves != [] {
      StepIsAccounted(spawnLimit, w, moves[0]);
      RunIsAccounted(spawnLimit, Step(spawnLimit, w, moves[0]), moves[1..]);
    }
  }

  /** Nothing it received is left unwritten. */
  ghost predicate AllWritten(w: Writer)
  {
    multiset(w.received) == w.written
  }

  lemma {:induction false} GracefulExitWritesAll(spawnLimit: int, w: Writer, moves: seq<Move>)
    requires Accounted(spawnLimit, w) && !w.exited && Graceful(moves) && Run(spawnLimit, w, moves).exited
    ensures AllWritten(Run(spawnLimit, w, moves))
    decreases |moves|
  {
    if moves != [] {
      var w' := Step(spawnLimit, w, moves[0]);
      if w'.exited {
        QuitLeavesNothing(spawnLimit, w, moves[0]);
        ExitedStays(spawnLimit, w', moves[1..]);
      } else {
        StepIsAccounted(spawnLimit, w, moves[0]);
        GracefulExitWritesAll(spawnLimit, w', moves[1..]);
      }
    }
  }

  /** However rows, completions, failures and retries interleave, no row is ever lost or doubled, and
      a graceful exit leaves nothing unwritten, although its test does not look at failed tasks. */
  lemma EveryRowIsAccounted(spawnLimit: int, w: Writer, moves: seq<Move>)
    requires Accounted(spawnLimit, w) && !w.exited
    ensures Accounted(spawnLimit, Run(spawnLimit, w, moves))
    ensures Graceful(moves) && Run(spawnLimit, w, moves).exited ==> AllWritten(Run(spawnLimit, w, moves))
  {
    RunIsAccounted(spawnLimit, w, moves);
    if Graceful(moves) && Run(spawnLimit, w, moves).exited {
      GracefulExitWritesAll(spawnLimit, w, moves);
    }
  }

  lemma QuitLeavesNothing(spawnLimit: int, w: Writer, m: Move)
    requires Accounted(spawnLimit, w) && !w.exited && m != Exit(false) && Step(spawnLimit, w, m).exited
    ensures var w' := Step(spawnLimit, w, m);
            w'.next == w'.errors == w'.running == [] && multiset(w'.received) == w'.written
  {
    OnlyQuitExits(spawnLimit, w, m);
    assert RowsOf([]) == multiset{};
  }

  lemma CompleteKeepsExited(spawnLimit: int, w: Writer, i: nat)
    ensures Scheduled(spawnLimit, w, Complete(i)).exited == w.exited
  {
    if i < |w.running| {
      FinishedFields(w, i);
    }
  }

  lemma OnlyQuitExits(spawnLimit: int, w: Writer, m: Move)
    requires !w.exited && m != Exit(false) && Step(spawnLimit, w, m).exited
    ensures m == Quit && w.spawning == 0 && w.next == []
  {
    if m.Complete? {
      CompleteKeepsExited(spawnLimit, w, m.task);
    }
  }

  lemma {:induction false} ExitedStays(spawnLimit: int, w: Writer, moves: seq<Move>)
    requires w.exited && w.running == []
    ensures Run(spawnLimit, w, moves).received == w.received && Run(spawnLimit, w, moves).written == w.written
    decreases |moves|
  {
    if moves != [] {
      ExitedStays(spawnLimit, Step(spawnLimit, w, moves[0]), moves[1..]);
    }
  }
}
