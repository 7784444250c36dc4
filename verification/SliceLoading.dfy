/** How the paging queries that read a slice and the operation log back see a table.  Each asks for the
    next rows after the last id it has seen, a limited number at a time, and so sees every row once and
    in order.  Module Recovery holds the loops that ask. */
module SliceLoading {
  import opened Types
  import opened Ledger
  import opened Matching
  import opened Exchange
  import opened Replay
  import opened Snapshot

  const QUERY_LIMIT: nat := 1000

  datatype Row<T> = Row(id: nat, value: T)

  /** A table as a query by ascending id sees it. */
  ghost predicate ById<T>(table: seq<Row<T>>)
  {
    forall i, j | 0 <= i < j < |table| :: table[i].id < table[j].id
  }

  ghost predicate FromOne<T>(table: seq<Row<T>>)
  {
    ById(table) && forall i | 0 <= i < |table| :: 0 < table[i].id
  }

  function Values<T>(rows: seq<Row<T>>): (r: seq<T>)
    ensures |r| == |rows|
  {
    seq(|rows|, i requires 0 <= i < |rows| => rows[i].value)
  }

  function After<T>(table: seq<Row<T>>, id: nat): seq<Row<T>>
  {
    if table == [] then []
    else if table[0].id > id then [table[0]] + After(table[1..], id)
    else After(table[1..], id)
  }

  /** `select ... where id > last order by id asc limit 1000`. */
  function Query<T>(table: seq<Row<T>>, last: nat): (rows: seq<Row<T>>)
    ensures |rows| <= QUERY_LIMIT
  {
    var all := After(table, last);
    if |all| <= QUERY_LIMIT then all else all[..QUERY_LIMIT]
  }

  /** All rows but the first `k` are still to be read. */
  ghost predicate ReadUpTo<T>(table: seq<Row<T>>, k: nat, last: nat)
  {
    && k <= |table|
    && (forall i | 0 <= i < k :: table[i].id <= last)
    && (forall i | k <= i < |table| :: last < table[i].id)
  }

  lemma ReadTail<T>(table: seq<Row<T>>, k: nat, last: nat)
    requires table != [] && ById(table) && ReadUpTo(table, k, last)
    ensures ById(table[1..]) && ReadUpTo(table[1..], if k == 0 then 0 else k - 1, last)
    ensures table[0].id > last <==> k == 0
  {
  }

  lemma {:induction false} AfterSplit<T>(table: seq<Row<T>>, k: nat, last: nat)
    requires ById(table) && ReadUpTo(table, k, last)
    ensures After(table, last) == table[k..]
    decreases |table|
  {
    if table != [] {
      ReadTail(table, k, last);
      AfterSplit(table[1..], if k == 0 then 0 else k - 1, last);
    }
  }

  lemma QueryIsFront<T>(table: seq<Row<T>>, k: nat, last: nat)
    requires ById(table) && ReadUpTo(table, k, last)
    ensures var n := |Query(table, last)|;
            && k + n <= |table| && Query(table, last) == table[k..k + n]
            && (n != QUERY_LIMIT ==> k + n == |table|)
  {
    AfterSplit(table, k, last);
    assert table[k..][..|Query(table, last)|] == table[k..k + |Query(table, last)|];
  }

  lemma ReadsOn<T>(table: seq<Row<T>>, k: nat, n: nat, last: nat)
    requires ById(table) && ReadUpTo(table, k, last) && 0 < n && k + n <= |table|
    ensures ReadUpTo(table, k + n, table[k + n - 1].id)
  {
  }

  /** One page takes the reader on by as many rows as it returns; a short page is the last. */
  lemma NextPage<T>(table: seq<Row<T>>, k: nat, last: nat)
    requires ById(table) && ReadUpTo(table, k, last)
    ensures var rows := Query(table, last);
            && k + |rows| <= |table| && rows == table[k..k + |rows|]
            && ReadUpTo(table, k + |rows|, if rows == [] then last else rows[|rows| - 1].id)
            && (|rows| != QUERY_LIMIT ==> k + |rows| == |table|)
  {
    QueryIsFront(table, k, last);
    if Query(table, last) != [] {
      ReadsOn(table, k, |Query(table, last)|, last);
    }
  }

  ghost function SplitAt<T>(table: seq<Row<T>>, last: nat): (k: nat)
    requires ById(table)
    ensures ReadUpTo(table, k, last)
  {
    if table == [] || table[0].id > last then 0
    else
      var k := SplitAt(table[1..], last);
      assert forall i | 0 < i < |table| :: table[i] == table[1..][i - 1];
      k + 1
  }

  /** The id to ask from next. */
  function LastId<T>(rows: seq<Row<T>>, last: nat): nat
  {
    if rows == [] then last else rows[|rows| - 1].id
  }

  /** A page is the front of what is still to be read; after a short page nothing is. */
  lemma PageIsFront<T>(table: seq<Row<T>>, last: nat)
    requires ById(table)
    ensures var rows := Query(table, last);
            && After(table, last) == rows + After(table, LastId(rows, last))
            && (|rows| != QUERY_LIMIT ==> After(table, LastId(rows, last)) == [])
  {
    var k := SplitAt(table, last);
    var rows := Query(table, last);
    NextPage(table, k, last);
    AfterSplit(table, k, last);
    AfterSplit(table, k + |rows|, LastId(rows, last));
    assert table[k..] == table[k..k + |rows|] + table[k + |rows|..];
  }

  lemma AllAfterZero<T>(table: seq<Row<T>>)
    requires FromOne(table)
    ensures After(table, 0) == table
  {
    AfterSplit(table, 0, 0);
  }

  lemma ValuesConcat<T>(a: seq<Row<T>>, b: seq<Row<T>>)
    ensures Values(a + b) == Values(a) + Values(b)
  {
  }

  /** Log rows are entries under their own ids, so the pages hold exactly the entries recovery replays. */
  lemma {:induction false} PagesAreEntriesAfter(table: seq<Row<LogEntry>>, start: nat)
    requires forall i | 0 <= i < |table| :: table[i].id == table[i].value.id
    ensures Values(After(table, start)) == EntriesAfter(Values(table), start)
  {
    if table != [] {
      PagesAreEntriesAfter(table[1..], start);
      assert Values(table)[1..] == Values(table[1..]);
      if table[0].id > start {
        assert Values([table[0]] + After(table[1..], start)) == [table[0].value] + Values(After(table[1..], start));
      }
    }
  }
}
