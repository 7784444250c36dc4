/** The tracker chain that decides which offsets are committed: each level combines its own writer's
    watermarks with what the next level emits, and what the first level emits is committed. */
module CommitChain {
  import opened Types
  import opened Progress
  import opened Writer
  import opened WriterSafety

  // ---------------------------------------------------------------- one level, one partition

  /** The side that leads, and its value. */
  datatype Item = Left(val: nat) | Right(val: nat)

  /** Overwrites `item` if the other side's value is larger, and yields the smaller of the two. */
  function Resolve(item: Item, another: Item): (Item, nat)
  {
    if item.val < another.val then (another, item.val) else (item, another.val)
  }

  function MergeItem(item: Item, another: Item): (Item, Option<nat>)
  {
    if item.Left? == another.Left? then
      (if item.Left? then Left(Max(item.val, another.val)) else Right(Max(item.val, another.val)), None)
    else
      var (r, v) := Resolve(item, another);
      (r, Some(v))
  }

  /** What a level knows of one partition: the last value each side gave it. */
  datatype Sides = Sides(left: Option<nat>, right: Option<nat>)

  predicate Remembered(item: Option<Item>, s: Sides)
  {
    match item
    case None => s.left.None? && s.right.None?
    case Some(Left(v)) => s.left == Some(v) && (s.right.Some? ==> s.right.value <= v)
    case Some(Right(v)) => s.right == Some(v) && (s.left.Some? ==> s.left.value <= v)
  }

  function WithSide(s: Sides, i: Item): Sides
  {
    if i.Left? then s.(left := Some(i.val)) else s.(right := Some(i.val))
  }

  function SideOf(s: Sides, i: Item): Option<nat>
  {
    if i.Left? then s.left else s.right
  }

  /** The least value both sides have reached. */
  function Both(s: Sides): Option<nat>
  {
    if s.left.Some? && s.right.Some? then Some(Min(s.left.value, s.right.value)) else None
  }

  /** An absent entry is created from the value and then merged with it. */
  function MergeEntry(item: Option<Item>, another: Item): (Item, Option<nat>)
  {
    MergeItem(if item.Some? then item.value else another, another)
  }

  /** While each side's values never go down, the entry stores the larger side, and whatever it emits
      is the smaller of the two; when it emits nothing the smaller one has not moved. */
  lemma MergeEmitsMinimum(item: Option<Item>, s: Sides, another: Item)
    requires Remembered(item, s)
    requires SideOf(s, another).Some? ==> SideOf(s, another).value <= another.val
    ensures var (item', out) := MergeEntry(item, another);
            var s' := WithSide(s, another);
            && Remembered(Some(item'), s')
            && (out.Some? ==> out == Both(s'))
            && (out.None? ==> Both(s') == Both(s))
            && (Both(s).Some? ==> Both(s').Some? && Both(s).value <= Both(s').value)
  {
  }

  // ---------------------------------------------------------------- one level, all partitions

  type Tracker = map<int, Item>

  function AsItem(left: bool, v: nat): Item
  {
    if left then Left(v) else Right(v)
  }

  function Entry(t: Tracker, k: int): Option<Item>
  {
    if k in t then Some(t[k]) else None
  }

  function MergeAll(t: Tracker, f: Flags, left: bool): Tracker
  {
    map k | k in t.Keys + f.Keys :: if k in f then MergeEntry(Entry(t, k), AsItem(left, f[k])).0 else t[k]
  }

  function EmitAll(t: Tracker, f: Flags, left: bool): Flags
  {
    map k | k in f && MergeEntry(Entry(t, k), AsItem(left, f[k])).1.Some? :: MergeEntry(Entry(t, k), AsItem(left, f[k])).1.value
  }

  // ---------------------------------------------------------------- the chain

  /** One topic: its writers and, level by level, the writer the level listens to (several levels may
      share one) and its tracker, the first the outermost.  `seen` and `emitted` are the last values
      each level got from its writer and gave to the level above. */
  datatype Topic = Topic(
    writers: seq<Writer>, at: seq<nat>, trackers: seq<Tracker>, seen: seq<Flags>, emitted: seq<Flags>, commits: seq<Flags>)

  predicate Shaped(t: Topic)
  {
    && |t.at| > 0 && |t.trackers| == |t.seen| == |t.emitted| == |t.at|
    && forall j | 0 <= j < |t.at| :: t.at[j] < |t.writers|
  }

  /** Passes an emission of level `j` to the level above, as long as something is emitted; what leaves
      the first level is committed. */
  function Climb(t: Topic, j: nat, out: Flags): Topic
    requires Shaped(t) && j < |t.at|
    decreases j
  {
    var t1 := t.(emitted := t.emitted[j := t.emitted[j] + out]);
    if j == 0 then t1.(commits := t1.commits + [out])
    else if out == map[] then t1
    else
      var above := t1.trackers[j - 1];
      var t2 := t1.(trackers := t1.trackers[j - 1 := MergeAll(above, out, false)]);
      var next := EmitAll(above, out, false);
      if next == map[] then t2 else Climb(t2, j - 1, next)
  }

  /** Level `j` notices its writer's watermarks.  The last level passes them on as they are. */
  function Notice(t: Topic, j: nat): Topic
    requires Shaped(t) && j < |t.at|
  {
    var f := t.writers[t.at[j]].watch;
    var level := t.trackers[j];
    var t1 := t.(trackers := t.trackers[j := MergeAll(level, f, true)], seen := t.seen[j := t.seen[j] + f]);
    var out := if j == |t.at| - 1 then f else EmitAll(level, f, true);
    if out == map[] && j < |t.at| - 1 then t1 else Climb(t1, j, out)
  }

  datatype TopicMove = Work(writer: nat, move: Move) | Listen(level: nat)

  function TopicStep(spawnLimit: int, t: Topic, m: TopicMove): Topic
    requires Shaped(t)
  {
    match m
    case Work(i, move) =>
      if i < |t.writers| then t.(writers := t.writers[i := Step(spawnLimit, t.writers[i], move)]) else t
    case Listen(j) => if j < |t.at| then Notice(t, j) else t
  }

  ghost function RunTopic(spawnLimit: int, t: Topic, moves: seq<TopicMove>): Topic
    requires Shaped(t)
    decreases |moves|
  {
    if moves == [] then t
    else
      StepKeepsShape(spawnLimit, t, moves[0]);
      RunTopic(spawnLimit, TopicStep(spawnLimit, t, moves[0]), moves[1..])
  }

  lemma {:induction false} ClimbKeepsShape(t: Topic, j: nat, out: Flags)
    requires Shaped(t) && j < |t.at|
    ensures Shaped(Climb(t, j, out)) && Climb(t, j, out).writers == t.writers && Climb(t, j, out).at == t.at && Climb(t, j, out).seen == t.seen
    decreases j
  {
    if j > 0 && out != map[] {
      var t2 := t.(emitted := t.emitted[j := t.emitted[j] + out],
                   trackers := t.trackers[j - 1 := MergeAll(t.trackers[j - 1], out, false)]);
      var next := EmitAll(t.trackers[j - 1], out, false);
      if next != map[] {
        ClimbKeepsShape(t2, j - 1, next);
      }
    }
  }

  lemma StepKeepsShape(spawnLimit: int, t: Topic, m: TopicMove)
    requires Shaped(t)
    ensures Shaped(TopicStep(spawnLimit, t, m))
  {
    if m.Listen? && m.level < |t.at| {
      var j, f := m.level, t.writers[t.at[m.level]].watch;
      var t1 := t.(trackers := t.trackers[j := MergeAll(t.trackers[j], f, true)], seen := t.seen[j := t.seen[j] + f]);
      ClimbKeepsShape(t1, j, if j == |t.at| - 1 then f else EmitAll(t.trackers[j], f, true));
    }
  }

  // ---------------------------------------------------------------- what each level holds

  function Look(f: Flags, k: int): Option<nat>
  {
    if k in f then Some(f[k]) else None
  }

  function SidesAt(t: Topic, j: nat, k: int): Sides
    requires Shaped(t) && j < |t.at| - 1
  {
    Sides(Look(t.seen[j], k), Look(t.emitted[j + 1], k))
  }

  ghost predicate TrackerOk(t: Topic, j: nat)
    requires Shaped(t) && j < |t.at|
  {
    j < |t.at| - 1 ==> forall k :: TrackerRight(t, j, k)
  }

  ghost predicate EmissionRight(t: Topic, j: nat, f: Flags, k: int)
    requires Shaped(t) && j < |t.at| - 1
  {
    Look(f, k) == Both(SidesAt(t, j, k))
  }

  ghost predicate TrackerRight(t: Topic, j: nat, k: int)
    requires Shaped(t) && j < |t.at| - 1
  {
    Remembered(Entry(t.trackers[j], k), SidesAt(t, j, k))
  }

  /** `f` is what level `j` ought to have emitted so far. */
  ghost predicate EmissionIs(t: Topic, j: nat, f: Flags)
    requires Shaped(t) && j < |t.at|
  {
    if j == |t.at| - 1 then f == t.seen[j]
    else forall k :: EmissionRight(t, j, f, k)
  }

  ghost predicate LevelOk(t: Topic, j: nat)
    requires Shaped(t) && j < |t.at|
  {
    TrackerOk(t, j) && EmissionIs(t, j, t.emitted[j])
  }

  function Committed(commits: seq<Flags>): Flags
  {
    if commits == [] then map[] else Committed(commits[..|commits| - 1]) + commits[|commits| - 1]
  }

  ghost predicate CommitsOk(t: Topic)
    requires Shaped(t)
  {
    && t.emitted[0] == Committed(t.commits)
    && forall i | 0 <= i < |t.commits| :: NoSmaller(t.commits[i], t.emitted[0])
  }

  /** The least value all writers from level `j` on have been seen to reach. */
  function LeastSeen(seen: seq<Flags>, j: nat, k: int): Option<nat>
    requires j < |seen|
    decreases |seen| - j
  {
    if j == |seen| - 1 then Look(seen[j], k)
    else Both(Sides(Look(seen[j], k), LeastSeen(seen, j + 1, k)))
  }

  /** What a level has last emitted is the least value all its writers have been seen to reach. */
  lemma {:induction false} EmissionIsLeastSeen(t: Topic, j: nat, k: int)
    requires Shaped(t) && j < |t.at| && forall i | 0 <= i < |t.at| :: LevelOk(t, i)
    ensures Look(t.emitted[j], k) == LeastSeen(t.seen, j, k)
    decreases |t.at| - j
  {
    assert LevelOk(t, j);
    if j < |t.at| - 1 {
      assert EmissionRight(t, j, t.emitted[j], k);
      EmissionIsLeastSeen(t, j + 1, k);
    }
  }

  // ---------------------------------------------------------------- merging a whole map

  lemma MergedAt(level: Tracker, f: Flags, left: bool, k: int)
    ensures Entry(MergeAll(level, f, left), k)
         == if k in f then Some(MergeEntry(Entry(level, k), AsItem(left, f[k])).0) else Entry(level, k)
    ensures Look(EmitAll(level, f, left), k)
         == if k in f then MergeEntry(Entry(level, k), AsItem(left, f[k])).1 else None
  {
  }

  lemma LookAdded(f: Flags, g: Flags, k: int)
    ensures Look(f + g, k) == if k in g then Some(g[k]) else Look(f, k)
  {
  }

  /** One partition of a level, before and after a map of values arrives on one side. */
  lemma MergeOne(level: Tracker, f: Flags, left: bool, k: int, s: Sides, emitted: Flags)
    requires Remembered(Entry(level, k), s) && Look(emitted, k) == Both(s)
    requires k in f && SideOf(s, AsItem(left, f[k])).Some? ==> SideOf(s, AsItem(left, f[k])).value <= f[k]
    ensures var s' := if k in f then WithSide(s, AsItem(left, f[k])) else s;
            && Remembered(Entry(MergeAll(level, f, left), k), s')
            && Look(emitted + EmitAll(level, f, left), k) == Both(s')
            && (Both(s).Some? ==> Both(s').Some? && Both(s).value <= Both(s').value)
  {
    MergedAt(level, f, left, k);
    LookAdded(emitted, EmitAll(level, f, left), k);
    if k in f {
      MergeEmitsMinimum(Entry(level, k), s, AsItem(left, f[k]));
    }
  }

  // ---------------------------------------------------------------- climbing

  /** Every level is right but `j`, which is about to emit `out` to become right. */
  ghost predicate Due(t: Topic, j: nat, out: Flags)
    requires Shaped(t) && j < |t.at|
  {
    && (forall i | 0 <= i < |t.at| && i != j :: LevelOk(t, i))
    && TrackerOk(t, j) && EmissionIs(t, j, t.emitted[j] + out)
    && NoSmaller(t.emitted[j], t.emitted[j] + out)
  }

  lemma SameSides(t: Topic, t': Topic, i: nat)
    requires Shaped(t) && Shaped(t') && |t.at| == |t'.at| && i < |t.at|
    requires t'.seen[i] == t.seen[i] && t'.trackers[i] == t.trackers[i]
    requires i < |t.at| - 1 ==> t'.emitted[i + 1] == t.emitted[i + 1]
    ensures TrackerOk(t', i) == TrackerOk(t, i)
    ensures forall f :: EmissionIs(t', i, f) == EmissionIs(t, i, f)
  {
    if i < |t.at| - 1 {
      assert forall k :: SidesAt(t', i, k) == SidesAt(t, i, k);
      assert forall k :: TrackerRight(t', i, k) == TrackerRight(t, i, k);
      assert forall f, k :: EmissionRight(t', i, f, k) == EmissionRight(t, i, f, k);
    }
  }

  /** Level `j` has emitted `out` and the level above has merged it. */
  function Passed(t: Topic, j: nat, out: Flags): Topic
    requires Shaped(t) && 0 < j < |t.at|
  {
    t.(emitted := t.emitted[j := t.emitted[j] + out],
       trackers := t.trackers[j - 1 := MergeAll(t.trackers[j - 1], out, false)])
  }

  lemma PassedKey(t: Topic, j: nat, out: Flags, k: int)
    requires Shaped(t) && 0 < j < |t.at| && LevelOk(t, j - 1)
    requires k in t.emitted[j] && k in out ==> t.emitted[j][k] <= out[k]
    ensures var t2, next := Passed(t, j, out), EmitAll(t.trackers[j - 1], out, false);
            && TrackerRight(t2, j - 1, k)
            && EmissionRight(t2, j - 1, t2.emitted[j - 1] + next, k)
            && (k in t.emitted[j - 1] && k in next ==> t.emitted[j - 1][k] <= next[k])
  {
    assert TrackerRight(t, j - 1, k) && EmissionRight(t, j - 1, t.emitted[j - 1], k);
    LookAdded(t.emitted[j], out, k);
    LookAdded(t.emitted[j - 1], EmitAll(t.trackers[j - 1], out, false), k);
    MergeOne(t.trackers[j - 1], out, false, k, SidesAt(t, j - 1, k), t.emitted[j - 1]);
  }

  lemma PassedOthers(t: Topic, j: nat, out: Flags, i: nat)
    requires Shaped(t) && 0 < j < |t.at| && Due(t, j, out) && i < |t.at| && i != j - 1
    ensures LevelOk(Passed(t, j, out), i)
  {
    if i != j {
      assert LevelOk(t, i);
    }
    SameSides(t, Passed(t, j, out), i);
  }

  /** After level `j` has emitted, only the level above it is behind. */
  lemma EmitReachesNext(t: Topic, j: nat, out: Flags)
    requires Shaped(t) && 0 < j < |t.at| && Due(t, j, out)
    ensures Due(Passed(t, j, out), j - 1, EmitAll(t.trackers[j - 1], out, false))
  {
    var t2, next := Passed(t, j, out), EmitAll(t.trackers[j - 1], out, false);
    assert LevelOk(t, j - 1);
    forall k
      ensures TrackerRight(t2, j - 1, k)
      ensures EmissionRight(t2, j - 1, t2.emitted[j - 1] + next, k)
      ensures k in t.emitted[j - 1] && k in next ==> t.emitted[j - 1][k] <= next[k]
    {
      PassedKey(t, j, out, k);
    }
    forall i | 0 <= i < |t.at| && i != j - 1
      ensures LevelOk(t2, i)
    {
      PassedOthers(t, j, out, i);
    }
  }

  lemma EmitNothing(t: Topic, j: nat)
    requires Shaped(t) && j < |t.at| && Due(t, j, map[])
    ensures forall i | 0 <= i < |t.at| :: LevelOk(t, i)
  {
    assert t.emitted[j] + map[] == t.emitted[j];
  }

  lemma NoSmallerTwice(f: Flags, g: Flags, h: Flags)
    requires NoSmaller(f, g) && NoSmaller(g, h)
    ensures NoSmaller(f, h)
  {
  }

  /** Climbing puts every level right, and commits only what the first level emits, never less than
      was committed before. */
  lemma {:induction false} ClimbSettles(t: Topic, j: nat, out: Flags)
    requires Shaped(t) && j < |t.at| && Due(t, j, out) && CommitsOk(t)
    ensures var t' := Climb(t, j, out);
            && Shaped(t') && t'.writers == t.writers && t'.at == t.at && t'.seen == t.seen
            && (forall i | 0 <= i < |t.at| :: LevelOk(t', i))
            && CommitsOk(t') && NoSmaller(t.emitted[0], t'.emitted[0])
    decreases j
  {
    if j == 0 {
      CommitSettles(t, out);
    } else if out == map[] {
      EmitNothing(t, j);
      assert t.emitted[j] + map[] == t.emitted[j];
      assert t.emitted[j := t.emitted[j]] == t.emitted;
    } else {
      var t2, next := Passed(t, j, out), EmitAll(t.trackers[j - 1], out, false);
      EmitReachesNext(t, j, out);
      if next == map[] {
        EmitNothing(t2, j - 1);
      } else {
        ClimbSettles(t2, j - 1, next);
      }
    }
  }

  lemma CommitSettles(t: Topic, out: Flags)
    requires Shaped(t) && Due(t, 0, out) && CommitsOk(t)
    ensures var t' := t.(emitted := t.emitted[0 := t.emitted[0] + out], commits := t.commits + [out]);
            && (forall i | 0 <= i < |t.at| :: LevelOk(t', i))
            && CommitsOk(t') && NoSmaller(t.emitted[0], t'.emitted[0])
  {
    var t' := t.(emitted := t.emitted[0 := t.emitted[0] + out], commits := t.commits + [out]);
    forall i | 0 <= i < |t.at|
      ensures LevelOk(t', i)
    {
      SameSides(t, t', i);
      assert i != 0 ==> LevelOk(t, i);
    }
    assert t'.commits[..|t.commits|] == t.commits;
    forall i | 0 <= i < |t'.commits|
      ensures NoSmaller(t'.commits[i], t'.emitted[0])
    {
      if i < |t.commits| {
        NoSmallerTwice(t.commits[i], t.emitted[0], t'.emitted[0]);
      }
    }
  }

  // ---------------------------------------------------------------- the whole topic

  ghost predicate WriterOk(spawnLimit: int, w: Writer)
  {
    Accounted(spawnLimit, w) && Safely(w) && ReportsOk(w.reported, w.watch, w.pushed, w.finished)
  }

  /** What a level has seen of its writer is safe, and no more than the writer has reported. */
  ghost predicate SeenOk(w: Writer, seen: Flags)
  {
    NoSmaller(seen, w.reported) && forall k | k in seen :: Safe(w, k, seen[k])
  }

  ghost predicate TopicOk(spawnLimit: int, t: Topic)
  {
    && Shaped(t)
    && (forall i | 0 <= i < |t.writers| :: WriterOk(spawnLimit, t.writers[i]))
    && (forall j | 0 <= j < |t.at| :: SeenOk(t.writers[t.at[j]], t.seen[j]))
    && (forall i | 0 <= i < |t.at| :: LevelOk(t, i))
    && CommitsOk(t)
  }

  /** Rows reach each writer in order. */
  ghost predicate InOrderTopicMove(t: Topic, m: TopicMove)
    requires Shaped(t)
  {
    m.Work? && m.writer < |t.writers| ==> InOrderMove(t.writers[m.writer], m.move)
  }

  lemma StepKeepsSeen(spawnLimit: int, w: Writer, seen: Flags, m: Move)
    requires WriterOk(spawnLimit, w) && SeenOk(w, seen) && InOrderMove(w, m)
    ensures SeenOk(Step(spawnLimit, w, m), seen)
  {
    StepReports(spawnLimit, w, m);
    forall k | k in seen
      ensures Safe(Step(spawnLimit, w, m), k, seen[k])
    {
      if m.Receive? && !w.exited {
        InOrderAboveReports(w, m.row, k, seen[k]);
      }
      StepKeepsSafe(spawnLimit, w, m, k, seen[k]);
    }
  }

  lemma WriterStepIsOk(spawnLimit: int, w: Writer, m: Move)
    requires WriterOk(spawnLimit, w) && InOrderMove(w, m)
    ensures WriterOk(spawnLimit, Step(spawnLimit, w, m))
  {
    StepIsAccounted(spawnLimit, w, m);
    StepIsSafe(spawnLimit, w, m);
    StepReports(spawnLimit, w, m);
  }

  lemma WorkIsOk(spawnLimit: int, t: Topic, i: nat, m: Move)
    requires TopicOk(spawnLimit, t) && i < |t.writers| && InOrderMove(t.writers[i], m)
    ensures TopicOk(spawnLimit, TopicStep(spawnLimit, t, Work(i, m)))
  {
    var t' := TopicStep(spawnLimit, t, Work(i, m));
    WriterStepIsOk(spawnLimit, t.writers[i], m);
    forall j | 0 <= j < |t.at|
      ensures LevelOk(t', j) && SeenOk(t'.writers[t.at[j]], t.seen[j])
    {
      assert LevelOk(t, j);
      SameSides(t, t', j);
      if t.at[j] == i {
        StepKeepsSeen(spawnLimit, t.writers[i], t.seen[j], m);
      }
    }
  }

  /** Level `j` after its tracker has merged the watermarks of its writer. */
  function Noticed(t: Topic, j: nat): Topic
    requires Shaped(t) && j < |t.at|
  {
    var f := t.writers[t.at[j]].watch;
    t.(trackers := t.trackers[j := MergeAll(t.trackers[j], f, true)], seen := t.seen[j := t.seen[j] + f])
  }

  lemma NoticedKey(t: Topic, j: nat, k: int)
    requires Shaped(t) && j < |t.at| - 1 && LevelOk(t, j)
    requires k in t.seen[j] && k in t.writers[t.at[j]].watch ==> t.seen[j][k] <= t.writers[t.at[j]].watch[k]
    ensures var t1, out := Noticed(t, j), EmitAll(t.trackers[j], t.writers[t.at[j]].watch, true);
            && TrackerRight(t1, j, k)
            && EmissionRight(t1, j, t.emitted[j] + out, k)
            && (k in t.emitted[j] && k in out ==> t.emitted[j][k] <= out[k])
  {
    var f := t.writers[t.at[j]].watch;
    assert TrackerRight(t, j, k) && EmissionRight(t, j, t.emitted[j], k);
    LookAdded(t.seen[j], f, k);
    LookAdded(t.emitted[j], EmitAll(t.trackers[j], f, true), k);
    MergeOne(t.trackers[j], f, true, k, SidesAt(t, j, k), t.emitted[j]);
  }

  lemma NoticedOthers(t: Topic, j: nat, i: nat)
    requires Shaped(t) && j < |t.at| && i < |t.at| && i != j && LevelOk(t, i)
    ensures LevelOk(Noticed(t, j), i)
  {
    SameSides(t, Noticed(t, j), i);
  }

  lemma InnerNoticeIsDue(t: Topic, j: nat)
    requires Shaped(t) && j < |t.at| - 1 && forall i | 0 <= i < |t.at| :: LevelOk(t, i)
    requires forall k | k in t.seen[j] && k in t.writers[t.at[j]].watch :: t.seen[j][k] <= t.writers[t.at[j]].watch[k]
    ensures Due(Noticed(t, j), j, EmitAll(t.trackers[j], t.writers[t.at[j]].watch, true))
  {
    var t1, out := Noticed(t, j), EmitAll(t.trackers[j], t.writers[t.at[j]].watch, true);
    forall k
      ensures TrackerRight(t1, j, k)
      ensures EmissionRight(t1, j, t.emitted[j] + out, k)
      ensures k in t.emitted[j] && k in out ==> t.emitted[j][k] <= out[k]
    {
      NoticedKey(t, j, k);
    }
    forall i | 0 <= i < |t.at| && i != j
      ensures LevelOk(t1, i)
    {
      NoticedOthers(t, j, i);
    }
  }

  lemma LastNoticeIsDue(t: Topic)
    requires Shaped(t) && forall i | 0 <= i < |t.at| :: LevelOk(t, i)
    requires var j := |t.at| - 1;
             forall k | k in t.seen[j] && k in t.writers[t.at[j]].watch :: t.seen[j][k] <= t.writers[t.at[j]].watch[k]
    ensures var j := |t.at| - 1; Due(Noticed(t, j), j, t.writers[t.at[j]].watch)
  {
    var j := |t.at| - 1;
    assert LevelOk(t, j);
    forall i | 0 <= i < |t.at| && i != j
      ensures LevelOk(Noticed(t, j), i)
    {
      NoticedOthers(t, j, i);
    }
  }

  /** A listener's turn puts every level right and never lowers what is committed. */
  lemma NoticeSettles(t: Topic, j: nat)
    requires Shaped(t) && j < |t.at| && CommitsOk(t) && forall i | 0 <= i < |t.at| :: LevelOk(t, i)
    requires forall k | k in t.seen[j] && k in t.writers[t.at[j]].watch :: t.seen[j][k] <= t.writers[t.at[j]].watch[k]
    ensures var t' := Notice(t, j);
            && Shaped(t') && t'.writers == t.writers && t'.at == t.at && t'.seen == t.seen[j := t.seen[j] + t.writers[t.at[j]].watch]
            && (forall i | 0 <= i < |t.at| :: LevelOk(t', i))
            && CommitsOk(t') && NoSmaller(t.emitted[0], t'.emitted[0])
  {
    var t1 := Noticed(t, j);
    var f := t.writers[t.at[j]].watch;
    if j == |t.at| - 1 {
      LastNoticeIsDue(t);
      ClimbSettles(t1, j, f);
    } else {
      var out := EmitAll(t.trackers[j], f, true);
      InnerNoticeIsDue(t, j);
      if out == map[] {
        EmitNothing(t1, j);
      } else {
        ClimbSettles(t1, j, out);
      }
    }
  }

  lemma SeenAfterNotice(w: Writer, seen: Flags)
    requires SeenOk(w, seen) && ReportsOk(w.reported, w.watch, w.pushed, w.finished) && Safely(w)
    ensures SeenOk(w, seen + w.watch)
    ensures forall k | k in seen && k in w.watch :: seen[k] <= w.watch[k]
  {
  }

  lemma ListenIsOk(spawnLimit: int, t: Topic, j: nat)
    requires TopicOk(spawnLimit, t) && j < |t.at|
    ensures TopicOk(spawnLimit, Notice(t, j)) && NoSmaller(t.emitted[0], Notice(t, j).emitted[0])
  {
    SeenAfterNotice(t.writers[t.at[j]], t.seen[j]);
    NoticeSettles(t, j);
  }

  lemma TopicStepIsOk(spawnLimit: int, t: Topic, m: TopicMove)
    requires TopicOk(spawnLimit, t) && InOrderTopicMove(t, m)
    ensures TopicOk(spawnLimit, TopicStep(spawnLimit, t, m))
    ensures NoSmaller(Committed(t.commits), Committed(TopicStep(spawnLimit, t, m).commits))
  {
    match m
    case Work(i, move) =>
      if i < |t.writers| {
        WorkIsOk(spawnLimit, t, i, move);
      }
    case Listen(j) =>
      if j < |t.at| {
        ListenIsOk(spawnLimit, t, j);
      }
  }

  ghost predicate InOrderRun(spawnLimit: int, t: Topic, moves: seq<TopicMove>)
    requires Shaped(t)
    decreases |moves|
  {
    moves != [] ==>
      && InOrderTopicMove(t, moves[0])
      && (StepKeepsShape(spawnLimit, t, moves[0]); InOrderRun(spawnLimit, TopicStep(spawnLimit, t, moves[0]), moves[1..]))
  }

  lemma {:induction false} RunIsOk(spawnLimit: int, t: Topic, moves: seq<TopicMove>)
    requires TopicOk(spawnLimit, t) && InOrderRun(spawnLimit, t, moves)
    ensures TopicOk(spawnLimit, RunTopic(spawnLimit, t, moves))
    decreases |moves|
  {
    if moves != [] {
      TopicStepIsOk(spawnLimit, t, moves[0]);
      RunIsOk(spawnLimit, TopicStep(spawnLimit, t, moves[0]), moves[1..]);
    }
  }

  /** The least value seen is at most each value seen. */
  lemma {:induction false} LeastSeenBelowEach(seen: seq<Flags>, j: nat, i: nat, k: int)
    requires j <= i < |seen| && LeastSeen(seen, j, k).Some?
    ensures k in seen[i] && LeastSeen(seen, j, k).value <= seen[i][k]
    decreases |seen| - j
  {
    if j < i {
      LeastSeenBelowEach(seen, j + 1, i, k);
    }
  }

  /** Every committed watermark is safe at every writer that a level listens to. */
  lemma CommittedIsSafe(spawnLimit: int, t: Topic, c: nat, k: int, j: nat)
    requires TopicOk(spawnLimit, t) && c < |t.commits| && k in t.commits[c] && j < |t.at|
    ensures Safe(t.writers[t.at[j]], k, t.commits[c][k])
  {
    assert NoSmaller(t.commits[c], t.emitted[0]);
    EmissionIsLeastSeen(t, 0, k);
    LeastSeenBelowEach(t.seen, 0, j, k);
    SafeBelow(t.writers[t.at[j]], k, t.seen[j][k], t.commits[c][k]);
  }

  predicate Levels(n: nat, at: seq<nat>)
  {
    at != [] && forall j | 0 <= j < |at| :: at[j] < n
  }

  /** A topic whose `n` writers have not started, with one level for each entry of `at`. */
  function FreshTopic(n: nat, at: seq<nat>): Topic
  {
    Topic(seq(n, _ => IDLE), at, seq(|at|, _ => map[]), seq(|at|, _ => map[]), seq(|at|, _ => map[]), [])
  }

  lemma FreshTopicIsOk(spawnLimit: int, n: nat, at: seq<nat>)
    requires 0 <= spawnLimit && Levels(n, at)
    ensures TopicOk(spawnLimit, FreshTopic(n, at))
  {
    var t := FreshTopic(n, at);
    IdleIsSafe(spawnLimit);
    forall i | 0 <= i < |at| - 1
      ensures LevelOk(t, i)
    {
      forall k
        ensures TrackerRight(t, i, k) && EmissionRight(t, i, t.emitted[i], k)
      {
      }
    }
  }

  /** End-to-end commit safety.  Take any number of writers, any chain of levels listening to them, and
      any interleaving of arrivals, refusals, task starts, partial writes, completions, failures,
      retries, exits and listener turns, in which rows arrive in order.  When offset `v + 1` has been
      committed for a partition, each writer that a level listens to has written every row with an
      offset up to `v` as often as it received it.  Rows that its channel refused were never received:
      module LostRows says what becomes of those. */
  lemma CommitSafety(spawnLimit: int, n: nat, at: seq<nat>, moves: seq<TopicMove>, c: nat, k: int, j: nat, row: Row)
    requires 0 <= spawnLimit && Levels(n, at) && InOrderRun(spawnLimit, FreshTopic(n, at), moves)
    requires var t := RunTopic(spawnLimit, FreshTopic(n, at), moves);
             && Shaped(t) && c < |t.commits| && k in t.commits[c] && j < |t.at|
             && row.tag.Some? && row.tag.value.partition == k && row.tag.value.offset <= t.commits[c][k]
    ensures var t := RunTopic(spawnLimit, FreshTopic(n, at), moves);
            t.writers[t.at[j]].written[row] == multiset(t.writers[t.at[j]].received)[row]
  {
    FreshTopicIsOk(spawnLimit, n, at);
    RunIsOk(spawnLimit, FreshTopic(n, at), moves);
    var t := RunTopic(spawnLimit, FreshTopic(n, at), moves);
    CommittedIsSafe(spawnLimit, t, c, k, j);
    SafeMeansWritten(spawnLimit, t.writers[t.at[j]], k, t.commits[c][k], row);
  }

  /** Nothing is held back either: the last offset committed for a partition is exactly the least
      watermark that all the writers have been seen to reach. */
  lemma CommitsAreExact(spawnLimit: int, n: nat, at: seq<nat>, moves: seq<TopicMove>, k: int)
    requires 0 <= spawnLimit && Levels(n, at) && InOrderRun(spawnLimit, FreshTopic(n, at), moves)
    ensures var t := RunTopic(spawnLimit, FreshTopic(n, at), moves);
            && Shaped(t) && Look(Committed(t.commits), k) == LeastSeen(t.seen, 0, k)
  {
    FreshTopicIsOk(spawnLimit, n, at);
    RunIsOk(spawnLimit, FreshTopic(n, at), moves);
    EmissionIsLeastSeen(RunTopic(spawnLimit, FreshTopic(n, at), moves), 0, k);
  }
}
