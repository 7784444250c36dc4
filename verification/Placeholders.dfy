/** The value lists of a multi-row INSERT: numbered placeholders, with DEFAULT in the columns the
    database fills in. */
module Placeholders {
  import opened Types

  /** One column: a numbered placeholder, or DEFAULT. */
  type Column = Option<int>

  /** What is still to be produced after column `pos`: placeholders lo, lo + 1, ... below hi, and
      DEFAULT in the columns `ds`. */
  function Layout(lo: int, hi: int, pos: nat, ds: seq<int>): seq<Column>
    decreases Max(hi - lo, 0) + |ds|
  {
    if ds != [] && ds[0] <= pos + 1 then [None] + Layout(lo, hi, pos + 1, ds[1..])
    else if lo < hi then [Some(lo)] + Layout(lo + 1, hi, pos + 1, ds)
    else []
  }

  function Numbers(columns: seq<Column>): seq<int>
  {
    if columns == [] then []
    else (if columns[0].Some? then [columns[0].value] else []) + Numbers(columns[1..])
  }

  function Range(lo: int, hi: int): seq<int>
    decreases hi - lo
  {
    if lo < hi then [lo] + Range(lo + 1, hi) else []
  }

  /** The iterator: the placeholder range, the default columns to come, and the column count. */
  class IterHelper {
    var lo: int
    const hi: int
    var rest: seq<int>
    var pos: nat
    var upcoming: Option<int>

    ghost function ToCome(): seq<int>
      reads this
    {
      match upcoming
      case None => []
      case Some(d) => [d] + rest
    }

    ghost function Todo(): seq<Column>
      reads this
    {
      Layout(lo, hi, pos, ToCome())
    }

    constructor (lo: int, hi: int, defaults: seq<int>)
      ensures this.hi == hi && Todo() == Layout(lo, hi, 0, defaults) && Measure() == Max(hi - lo, 0) + |defaults|
    {
      this.lo, this.hi, this.pos := lo, hi, 0;
      this.rest := if defaults == [] then [] else defaults[1..];
      this.upcoming := if defaults == [] then None else Some(defaults[0]);
      new;
      assert ToCome() == defaults;
    }

    ghost function Measure(): nat
      reads this
    {
      Max(hi - lo, 0) + |ToCome()|
    }

    method Next() returns (r: Option<Column>)
      modifies this
      ensures old(Todo()) == [] ==> r == None
      ensures old(Todo()) != [] ==> r == Some(old(Todo())[0]) && Todo() == old(Todo())[1..] && Measure() < old(Measure())
    {
      ghost var ds := ToCome();
      pos := pos + 1;
      if upcoming.Some? && upcoming.value <= pos {
        if rest == [] {
          upcoming := None;
        } else {
          upcoming, rest := Some(rest[0]), rest[1..];
        }
        assert ToCome() == ds[1..];
        return Some(None);
      }
      if lo < hi {
        lo := lo + 1;
        return Some(Some(lo - 1));
      }
      return None;
    }
  }

  /** Collects the iterator. */
  method ExpandArgs(lo: int, hi: int, defaults: seq<int>) returns (columns: seq<Column>)
    ensures columns == Layout(lo, hi, 0, defaults)
  {
    var iter := new IterHelper(lo, hi, defaults);
    columns := [];
    var next := iter.Next();
    ghost var all := Layout(lo, hi, 0, defaults);
    Split(columns, all);
    while next.Some?
      invariant next.None? ==> columns == all
      invariant next.Some? ==> columns + [next.value] + iter.Todo() == all
      decreases next.Some?, iter.Measure()
    {
      columns := columns + [next.value];
      Split(columns, iter.Todo());
      next := iter.Next();
    }
  }

  lemma Split(columns: seq<Column>, todo: seq<Column>)
    ensures todo == [] ==> columns + todo == columns
    ensures todo != [] ==> columns + todo == columns + [todo[0]] + todo[1..]
  {
  }

  /** Default columns in increasing order, all after column `pos`. */
  ghost predicate After(ds: seq<int>, pos: nat)
  {
    && (forall i, j | 0 <= i < j < |ds| :: ds[i] < ds[j])
    && (forall i | 0 <= i < |ds| :: pos < ds[i])
  }

  lemma DropFirst(ds: seq<int>, pos: nat)
    requires After(ds, pos) && ds != [] && ds[0] <= pos + 1
    ensures After(ds[1..], pos + 1)
    ensures forall c :: c in ds <==> c == pos + 1 || c in ds[1..]
    ensures pos + 1 !in ds[1..]
  {
    assert ds == [ds[0]] + ds[1..];
  }

  lemma SkipColumn(ds: seq<int>, pos: nat)
    requires After(ds, pos) && (ds == [] || pos + 1 < ds[0])
    ensures After(ds, pos + 1) && pos + 1 !in ds
  {
  }

  /** Column `pos + 1 + i` is DEFAULT exactly when it is declared to be. */
  lemma {:induction false} DefaultsInPlace(lo: int, hi: int, pos: nat, ds: seq<int>, i: nat)
    requires lo <= hi && After(ds, pos) && i < |Layout(lo, hi, pos, ds)|
    ensures Layout(lo, hi, pos, ds)[i] == None <==> pos + 1 + i in ds
    decreases hi - lo + |ds|
  {
    if ds != [] && ds[0] <= pos + 1 {
      DropFirst(ds, pos);
      if i > 0 {
        DefaultsInPlace(lo, hi, pos + 1, ds[1..], i - 1);
      }
    } else {
      SkipColumn(ds, pos);
      if i > 0 {
        DefaultsInPlace(lo + 1, hi, pos + 1, ds, i - 1);
      }
    }
  }

  /** The placeholders are all of the range, in order, whatever the defaults. */
  lemma {:induction false} NumbersInOrder(lo: int, hi: int, pos: nat, ds: seq<int>)
    requires lo <= hi
    ensures Numbers(Layout(lo, hi, pos, ds)) == Range(lo, hi)
    decreases hi - lo + |ds|
  {
    if ds != [] && ds[0] <= pos + 1 {
      NumbersInOrder(lo, hi, pos + 1, ds[1..]);
      assert ([None] + Layout(lo, hi, pos + 1, ds[1..]))[1..] == Layout(lo, hi, pos + 1, ds[1..]);
    } else if lo < hi {
      NumbersInOrder(lo + 1, hi, pos + 1, ds);
      assert ([Some(lo)] + Layout(lo + 1, hi, pos + 1, ds))[1..] == Layout(lo + 1, hi, pos + 1, ds);
    }
  }

  /** Each default column lies within a row of `n` placeholders and the defaults before it. */
  ghost predicate Fits(ds: seq<int>, pos: nat, n: nat)
  {
    forall j | 0 <= j < |ds| :: ds[j] <= pos + n + j + 1
  }

  lemma FitsWithoutFirst(ds: seq<int>, pos: nat, n: nat)
    requires ds != [] && ds[0] <= pos + 1
    ensures Fits(ds, pos, n) <==> Fits(ds[1..], pos + 1, n)
  {
    assert forall j | 0 < j < |ds| :: ds[j] == ds[1..][j - 1];
  }

  /** The row is complete, with every default in it, exactly when the defaults fit. */
  lemma {:induction false} CompleteIffFits(lo: int, hi: int, pos: nat, ds: seq<int>)
    requires lo <= hi && After(ds, pos)
    ensures |Layout(lo, hi, pos, ds)| == hi - lo + |ds| <==> Fits(ds, pos, hi - lo)
    ensures |Layout(lo, hi, pos, ds)| <= hi - lo + |ds|
    decreases hi - lo + |ds|
  {
    if ds != [] && ds[0] <= pos + 1 {
      DropFirst(ds, pos);
      FitsWithoutFirst(ds, pos, hi - lo);
      CompleteIffFits(lo, hi, pos + 1, ds[1..]);
    } else if lo < hi {
      SkipColumn(ds, pos);
      CompleteIffFits(lo + 1, hi, pos + 1, ds);
    }
  }

  // ---------------------------------------------------------------- a statement of several rows

  /** The value lists of a statement for `n` records of `argn` fields each. */
  method Statement(n: nat, argn: nat, defaults: seq<int>) returns (rows: seq<seq<Column>>)
    requires 0 < n
    ensures |rows| == n && forall i | 0 <= i < n :: rows[i] == Layout(i * argn + 1, (i + 1) * argn + 1, 0, defaults)
  {
    var first := ExpandArgs(1, argn + 1, defaults);
    rows := [first];
    for i := 1 to n
      invariant |rows| == i && forall k | 0 <= k < i :: rows[k] == Layout(k * argn + 1, (k + 1) * argn + 1, 0, defaults)
    {
      var row := ExpandArgs(i * argn + 1, (i + 1) * argn + 1, defaults);
      rows := rows + [row];
    }
  }

  function AllNumbers(rows: seq<seq<Column>>): seq<int>
  {
    if rows == [] then [] else AllNumbers(rows[..|rows| - 1]) + Numbers(rows[|rows| - 1])
  }

  lemma {:induction false} RangeConcat(lo: int, mid: int, hi: int)
    requires lo <= mid <= hi
    ensures Range(lo, mid) + Range(mid, hi) == Range(lo, hi)
    decreases mid - lo
  {
    if lo < mid {
      RangeConcat(lo + 1, mid, hi);
    }
  }

  ghost predicate LaidOut(rows: seq<seq<Column>>, argn: nat, defaults: seq<int>)
  {
    forall i | 0 <= i < |rows| :: rows[i] == Layout(i * argn + 1, (i + 1) * argn + 1, 0, defaults)
  }

  lemma NextRow(n: nat, argn: nat)
    ensures 0 <= n * argn && (n + 1) * argn == n * argn + argn
  {
  }

  /** Over the whole statement, placeholders 1 to n * argn occur once each, in the order the records'
      fields are bound. */
  lemma {:induction false} PlaceholdersInBindOrder(rows: seq<seq<Column>>, argn: nat, defaults: seq<int>)
    requires LaidOut(rows, argn, defaults)
    ensures AllNumbers(rows) == Range(1, |rows| * argn + 1)
  {
    if rows != [] {
      var n := |rows| - 1;
      NextRow(n, argn);
      PlaceholdersInBindOrder(rows[..n], argn, defaults);
      NumbersInOrder(n * argn + 1, (n + 1) * argn + 1, 0, defaults);
      RangeConcat(1, n * argn + 1, (n + 1) * argn + 1);
    }
  }

  /** Every row has its DEFAULTs in exactly the declared columns and is complete, if and only if the
      declared columns fit a row. */
  lemma RowsAreComplete(rows: seq<seq<Column>>, argn: nat, defaults: seq<int>)
    requires LaidOut(rows, argn, defaults) && After(defaults, 0)
    ensures forall i, k | 0 <= i < |rows| && 0 <= k < |rows[i]| :: rows[i][k] == None <==> k + 1 in defaults
    ensures forall i | 0 <= i < |rows| :: |rows[i]| == argn + |defaults| <==> Fits(defaults, 0, argn)
  {
    forall i | 0 <= i < |rows|
      ensures |rows[i]| == argn + |defaults| <==> Fits(defaults, 0, argn)
      ensures forall k | 0 <= k < |rows[i]| :: rows[i][k] == None <==> k + 1 in defaults
    {
      assert (i + 1) * argn == i * argn + argn;
      CompleteIffFits(i * argn + 1, (i + 1) * argn + 1, 0, defaults);
      forall k | 0 <= k < |rows[i]|
        ensures rows[i][k] == None <==> k + 1 in defaults
      {
        DefaultsInPlace(i * argn + 1, (i + 1) * argn + 1, 0, defaults, k);
      }
    }
  }
}
