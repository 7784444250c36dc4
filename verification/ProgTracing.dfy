/** The objects of the database writer: the progress stack that is popped by swapping entries down a
    vector, the stacks of all partitions, and the scheduler's loop. */
module ProgTracing {
  import opened Types
  import opened Progress
  import opened Writer
  import W = Writer
  import opened Iteration

  class ProgTracingStack {
    var entries: Stack

    constructor (entries: Stack)
      ensures this.entries == entries
    {
      this.entries := entries;
    }

    method PushTop(n: nat)
      modifies this
      ensures entries == Push(old(entries), n)
    {
      var lastN := if entries == [] then n else entries[|entries| - 1].tag;
      entries := entries + [Entry(n, None)];
      if n < lastN {
        entries := SortByTag(entries);
      }
    }

    /** Walks down from the top, moving each entry one place down in passing, until it meets an entry
        below `n`. */
    method PopTop(n: nat) returns (r: Option<nat>)
      modifies this
      ensures (entries, r) == Pop(old(entries), n)
    {
      if entries == [] {
        return None;
      }
      ghost var was := entries;
      var top := |entries| - 1;
      var trace := entries[top];
      var i := top;
      while i > 0
        invariant 0 <= i <= top && |entries| == |was| && top == |was| - 1
        invariant trace == was[i]
        invariant forall j | 0 <= j < i :: entries[j] == was[j]
        invariant forall j | i <= j < top :: entries[j] == was[j + 1]
        invariant Rank(was, n, top) == Rank(was, n, i)
      {
        if n > entries[i - 1].tag {
          entries := entries[i - 1 := Entry(entries[i - 1].tag, Or(trace.done, n))];
          entries := entries[..top];
          assert entries == was[..i - 1] + [Entry(was[i - 1].tag, Or(was[i].done, n))] + was[i + 1..];
          return None;
        }
        i := i - 1;
        var below := entries[i];
        entries := entries[i := trace];
        trace := below;
      }
      entries := entries[..top];
      assert entries == was[1..];
      return Or(trace.done, trace.tag);
    }
  }

  /** The stacks of all partitions.  The map owns them, so one is changed by taking it out and putting
      it back. */
  class ProgTracing {
    var stacks: Stacks

    constructor ()
      ensures stacks == map[]
    {
      stacks := map[];
    }

    method PushOne(k: int, n: nat)
      modifies this
      ensures stacks == old(stacks)[k := Push(StackAt(old(stacks), k), n)]
    {
      var s := new ProgTracingStack(if k in stacks then stacks[k] else []);
      s.PushTop(n);
      stacks := stacks[k := s.entries];
    }

    method PopOne(k: int, n: nat) returns (r: Option<nat>)
      requires k in stacks
      modifies this
      ensures stacks == old(stacks)[k := Pop(old(stacks)[k], n).0] && r == Pop(old(stacks)[k], n).1
    {
      var s := new ProgTracingStack(stacks[k]);
      r := s.PopTop(n);
      stacks := stacks[k := s.entries];
    }

    /** Pushes each partition's tag, making its stack when there is none. */
    method UpdateFrom(f: Flags)
      modifies this
      ensures stacks == W.UpdateFrom(old(stacks), f)
    {
      ghost var was := stacks;
      var todo: set<int> := f.Keys;
      UpdateFromNone(was, f);
      while todo != {}
        invariant todo <= f.Keys && stacks == W.UpdateFrom(was, f - todo)
        decreases |todo|
      {
        var k := AnyOf(todo);
        PushOne(k, f[k]);
        UpdateFromOneMore(was, f, todo, k);
        todo := todo - {k};
      }
      assert f - {} == f;
    }

    /** Pops each partition's tag and collects what the stacks report. */
    method FinishFrom(f: Flags) returns (r: Flags)
      modifies this
      ensures stacks == W.FinishFrom(old(stacks), f) && r == Reports(old(stacks), f)
    {
      ghost var was := stacks;
      var todo: set<int> := f.Keys;
      r := map[];
      FinishFromNone(was, f);
      while todo != {}
        invariant todo <= f.Keys && stacks == W.FinishFrom(was, f - todo) && r == Reports(was, f - todo)
        decreases |todo|
      {
        var k := AnyOf(todo);
        FinishFromOneMore(was, f, todo, k);
        if k in stacks {
          var popped := PopOne(k, f[k]);
          if popped.Some? {
            r := r[k := popped.value];
          }
        }
        todo := todo - {k};
      }
      assert f - {} == f;
    }
  }

  lemma UpdateFromNone(s: Stacks, f: Flags)
    ensures W.UpdateFrom(s, f - f.Keys) == s
  {
  }

  lemma UpdateFromOneMore(s: Stacks, f: Flags, todo: set<int>, k: int)
    requires k in todo && todo <= f.Keys
    ensures StackAt(W.UpdateFrom(s, f - todo), k) == StackAt(s, k)
    ensures W.UpdateFrom(s, f - (todo - {k})) == W.UpdateFrom(s, f - todo)[k := Push(StackAt(s, k), f[k])]
  {
    var g, h := f - todo, f - (todo - {k});
    assert h.Keys == g.Keys + {k};
    assert forall l | l in s.Keys + h.Keys && l != k :: (l in h <==> l in g) && StackAt(s, l) == StackAt(s, l);
  }

  lemma NothingPushed(s: Stacks)
    ensures W.UpdateFrom(s, map[]) == s
  {
  }

  lemma FinishFromNone(s: Stacks, f: Flags)
    ensures W.FinishFrom(s, f - f.Keys) == s && Reports(s, f - f.Keys) == map[]
  {
  }

  lemma OneMoreFlag(f: Flags, todo: set<int>, k: int)
    requires k in todo && todo <= f.Keys
    ensures f - (todo - {k}) == (f - todo)[k := f[k]] && k !in f - todo
  {
  }

  lemma FinishFromWith(s: Stacks, g: Flags, k: int, v: nat)
    requires k !in g
    ensures k in s ==> W.FinishFrom(s, g)[k] == s[k]
    ensures W.FinishFrom(s, g[k := v]) == if k in s then W.FinishFrom(s, g)[k := Pop(s[k], v).0] else W.FinishFrom(s, g)
  {
  }

  lemma ReportsWith(s: Stacks, g: Flags, k: int, v: nat)
    requires k !in g
    ensures Reports(s, g[k := v]) == if k in s && Pop(s[k], v).1.Some? then Reports(s, g)[k := Pop(s[k], v).1.value] else Reports(s, g)
  {
  }

  lemma FinishFromOneMore(s: Stacks, f: Flags, todo: set<int>, k: int)
    requires k in todo && todo <= f.Keys
    ensures k in s ==> W.FinishFrom(s, f - todo)[k] == s[k]
    ensures W.FinishFrom(s, f - (todo - {k})) == if k in s then W.FinishFrom(s, f - todo)[k := Pop(s[k], f[k]).0] else W.FinishFrom(s, f - todo)
    ensures Reports(s, f - (todo - {k}))
         == if k in s && Pop(s[k], f[k]).1.Some? then Reports(s, f - todo)[k := Pop(s[k], f[k]).1.value] else Reports(s, f - todo)
  {
    OneMoreFlag(f, todo, k);
    FinishFromWith(s, f - todo, k, f[k]);
    ReportsWith(s, f - todo, k, f[k]);
  }

  // ---------------------------------------------------------------- the scheduler's loop

  /** The scheduler of one writer, with the tasks it has spawned running beside it.  `w` is the
      abstract writer its state stands for. */
  class DatabaseWriterScheduleCtx {
    const spawnLimit: int
    const tracing: ProgTracing
    var next: seq<Task>
    var errors: seq<Task>
    var running: seq<Task>
    var pendingCount: int
    var spawningTasks: int
    var graceDown: bool
    var exited: bool
    var watch: Flags
    ghost var w: Writer

    ghost predicate Valid()
      reads this, tracing
    {
      && next == w.next && errors == w.errors && running == w.running && tracing.stacks == w.stacks
      && pendingCount == w.pending && spawningTasks == w.spawning && watch == w.watch
      && graceDown == w.graceDown && exited == w.exited
    }

    constructor (spawnLimit: int)
      ensures Valid() && fresh(tracing) && w == IDLE && this.spawnLimit == spawnLimit
    {
      this.spawnLimit := spawnLimit;
      tracing := new ProgTracing();
      next, errors, running := [], [], [];
      pendingCount, spawningTasks := 0, 0;
      graceDown, exited, watch, w := false, false, map[], IDLE;
    }

    method StartRetry()
      requires Valid() && errors != []
      modifies this
      ensures Valid() && w == SpawnRetry(old(w))
    {
      w := SpawnRetry(w);
      running, errors := running + [errors[|errors| - 1]], errors[..|errors| - 1];
    }

    method StartNext()
      requires Valid() && next != []
      modifies this, tracing
      ensures Valid() && w == SpawnNext(old(w))
    {
      w := SpawnNext(w);
      spawningTasks := spawningTasks + 1;
      var task := next[|next| - 1];
      next := next[..|next| - 1];
      pendingCount := pendingCount - |task.data|;
      if task.notify.Some? {
        tracing.UpdateFrom(task.notify.value);
      } else {
        NothingPushed(tracing.stacks);
      }
      running := running + [task];
    }

    /** A connection was acquired: retry the oldest failed task, else start the oldest queued one. */
    method OnConnection()
      requires Valid()
      modifies this, tracing
      ensures Valid() && w == Scheduled(spawnLimit, old(w), Acquire)
    {
      if errors != [] {
        StartRetry();
      } else if next != [] && spawningTasks < spawnLimit {
        StartNext();
      }
    }

    method OnData(row: Row)
      requires Valid()
      modifies this
      ensures Valid() && w == Scheduled(spawnLimit, old(w), Receive(row))
    {
      w := Scheduled(spawnLimit, w, Receive(row));
      if next == [] || IsLimited(next[0]) {
        next := [EMPTY_TASK] + next;
      }
      next := [AddData(next[0], row)] + next[1..];
      pendingCount := pendingCount + 1;
    }

    method OnDone(i: nat)
      requires Valid()
      modifies this, tracing
      ensures Valid() && w == Scheduled(spawnLimit, old(w), Complete(i))
    {
      w := Scheduled(spawnLimit, w, Complete(i));
      if i < |running| && running[i].data == [] {
        var task := running[i];
        running := Drop(running, i);
        spawningTasks := spawningTasks - 1;
        if task.notify.Some? {
          watch := tracing.FinishFrom(task.notify.value);
        }
      }
    }

    method OnFail(i: nat)
      requires Valid()
      modifies this
      ensures Valid() && w == Scheduled(spawnLimit, old(w), Fail(i))
    {
      w := Scheduled(spawnLimit, w, Fail(i));
      if i < |running| && running[i].data != [] {
        errors := [running[i].(errCount := running[i].errCount + 1)] + errors;
        running := Drop(running, i);
      }
    }

    /** One turn: the move happens if its guard holds, and does nothing otherwise. */
    method TakeTurn(m: Move)
      requires Valid()
      modifies this, tracing
      ensures Valid() && w == Step(spawnLimit, old(w), m)
    {
      if m.WritePiece? {
        if m.task < |running| && m.rows <= |running[m.task].data| {
          w := PieceWritten(w, m.task, m.rows);
          running := running[m.task := running[m.task].(data := running[m.task].data[m.rows..])];
        }
      } else if m.Refuse? {
        w := Step(spawnLimit, w, m);
      } else if !exited {
        match m
        case Acquire => OnConnection();
        case Receive(row) => OnData(row);
        case Complete(i) => OnDone(i);
        case Fail(i) => OnFail(i);
        case Exit(grace) =>
          graceDown, exited := true, !grace;
          w := Scheduled(spawnLimit, w, m);
        case Quit =>
          exited := graceDown && spawningTasks == 0 && next == [];
          w := Scheduled(spawnLimit, w, m);
      }
    }

    /** The scheduler's loop.  Each turn takes whichever `select!` branch `moves` says comes next; one
        whose guard is false, or whose message cannot have been sent, does nothing.  Statements of
        running tasks are among the moves and go through even after the scheduler has left its loop. */
    method Schedule(moves: seq<Move>)
      requires Valid()
      modifies this, tracing
      ensures Valid() && w == Run(spawnLimit, old(w), moves)
    {
      var n := 0;
      while n < |moves|
        invariant 0 <= n <= |moves| && Valid()
        invariant Run(spawnLimit, w, moves[n..]) == Run(spawnLimit, old(w), moves)
      {
        assert moves[n..][0] == moves[n] && moves[n..][1..] == moves[n + 1..];
        TakeTurn(moves[n]);
        n := n + 1;
      }
      assert moves[n..] == [];
    }
  }
}
