/** The objects of the tracker chain: trackers that merge one side's watermarks in place, and the
    receivers that pass what is emitted from level to level up to the committer. */
module NotifyTracking {
  import opened Types
  import opened Writer
  import opened CommitChain
  import opened Iteration

  class NotifyTracker {
    var status: Tracker

    constructor ()
      ensures status == map[]
    {
      status := map[];
    }

    /** Merges every entry of `f`, as this level's own side or the other one, and collects what the
        entries emit. */
    method Merge(f: Flags, left: bool) returns (out: Flags)
      modifies this
      ensures status == MergeAll(old(status), f, left) && out == EmitAll(old(status), f, left)
    {
      ghost var was := status;
      var todo: set<int> := f.Keys;
      out := map[];
      MergedNone(was, f, left);
      while todo != {}
        invariant todo <= f.Keys
        invariant status == MergeAll(was, f - todo, left) && out == EmitAll(was, f - todo, left)
        decreases |todo|
      {
        var k := AnyOf(todo);
        MergedOneMore(was, f, left, todo, k);
        var (item, v) := MergeEntry(Entry(status, k), AsItem(left, f[k]));
        status := status[k := item];
        if v.Some? {
          out := out[k := v.value];
        }
        todo := todo - {k};
      }
      assert f - {} == f;
    }
  }

  lemma MergedNone(t: Tracker, f: Flags, left: bool)
    ensures MergeAll(t, f - f.Keys, left) == t && EmitAll(t, f - f.Keys, left) == map[]
  {
  }

  lemma MergedOneMore(t: Tracker, f: Flags, left: bool, todo: set<int>, k: int)
    requires k in todo && todo <= f.Keys
    ensures Entry(MergeAll(t, f - todo, left), k) == Entry(t, k)
    ensures var (item, v) := MergeEntry(Entry(t, k), AsItem(left, f[k]));
            && MergeAll(t, f - (todo - {k}), left) == MergeAll(t, f - todo, left)[k := item]
            && EmitAll(t, f - (todo - {k}), left)
               == if v.Some? then EmitAll(t, f - todo, left)[k := v.value] else EmitAll(t, f - todo, left)
  {
    var g, h := f - todo, f - (todo - {k});
    assert h.Keys == g.Keys + {k};
    assert forall l | l in g :: l != k && l in h && h[l] == g[l];
  }

  lemma ClimbFromTop(t: Topic, out: Flags)
    requires Shaped(t)
    ensures Climb(t, 0, out).trackers == t.trackers && Climb(t, 0, out).commits == t.commits + [out]
  {
  }

  lemma ClimbOnce(t: Topic, i: nat, out: Flags)
    requires Shaped(t) && 0 < i < |t.at|
    ensures var next := EmitAll(t.trackers[i - 1], out, false);
            && (out == map[] ==> Climb(t, i, out).trackers == t.trackers && Climb(t, i, out).commits == t.commits)
            && (out != map[] && next == map[] ==> Climb(t, i, out) == Passed(t, i, out))
            && (out != map[] && next != map[] ==> Climb(t, i, out) == Climb(Passed(t, i, out), i - 1, next))
  {
  }

  /** The receivers of one topic, outermost first, each with its tracker. */
  class NotifyTrackerReceiver {
    const levels: seq<NotifyTracker>

    ghost predicate Valid()
      reads this
    {
      levels != [] && forall i, j | 0 <= i < j < |levels| :: levels[i] != levels[j]
    }

    ghost function View(): seq<Tracker>
      reads this, levels
    {
      seq(|levels|, i requires 0 <= i < |levels| reads this, levels => levels[i].status)
    }

    constructor (levels: seq<NotifyTracker>)
      requires levels != [] && forall i, j | 0 <= i < j < |levels| :: levels[i] != levels[j]
      ensures Valid() && this.levels == levels
    {
      this.levels := levels;
    }

    method MergeLevel(i: nat, f: Flags, left: bool) returns (out: Flags)
      requires Valid() && i < |levels|
      modifies levels[i]
      ensures View() == old(View())[i := MergeAll(old(View())[i], f, left)]
      ensures out == EmitAll(old(View())[i], f, left)
    {
      out := levels[i].Merge(f, left);
    }

    /** Passes what level `j` emits to the levels above it, while there is anything to pass on; the
        result is what the outermost level emits, if it does. */
    method PassUp(j: nat, emitted: Flags, ghost t: Topic, ghost end: Topic) returns (commit: Option<Flags>)
      requires Valid() && j < |levels| && Shaped(t) && |t.at| == |levels| && t.trackers == View()
      requires end == Climb(t, j, emitted)
      modifies levels
      ensures View() == end.trackers
      ensures end.commits == t.commits + if commit.Some? then [commit.value] else []
      decreases j
    {
      if j == 0 {
        ClimbFromTop(t, emitted);
        return Some(emitted);
      }
      ClimbOnce(t, j, emitted);
      if emitted == map[] {
        return None;
      }
      var out := MergeLevel(j - 1, emitted, false);
      if out == map[] {
        return None;
      }
      ghost var above := Passed(t, j, emitted);
      assert above.commits == t.commits;
      commit := PassUp(j - 1, out, above, end);
    }

    /** Level `j` notices watermarks `f` of its writer, and passes on what that makes it emit; the last
        level passes them on as they are.  The result is what is to be committed, if anything. */
    method Changed(j: nat, f: Flags, ghost t: Topic) returns (commit: Option<Flags>)
      requires Valid() && j < |levels|
      requires Shaped(t) && |t.at| == |levels| && t.trackers == View() && t.writers[t.at[j]].watch == f
      modifies levels
      ensures View() == Notice(t, j).trackers
      ensures Notice(t, j).commits == t.commits + if commit.Some? then [commit.value] else []
    {
      ghost var t1 := Noticed(t, j);
      var out := MergeLevel(j, f, true);
      if j == |levels| - 1 {
        commit := PassUp(j, f, t1, Notice(t, j));
      } else if out == map[] {
        commit := None;
      } else {
        commit := PassUp(j, out, t1, Notice(t, j));
      }
    }
  }
}
