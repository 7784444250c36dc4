/** Writing many rows: the splitting of a batch into statements, and the dump that retries what a
    failed statement left unsent. */
module InsertBatch {
  import opened Sums
  import opened Types

  /** A database connection with one table.  Each statement inserts all of its rows or none: the
      script says which of the coming statements fail, and those beyond its end succeed. */
  class Connection<Q> {
    var table: seq<Q>
    var script: seq<bool>
    var sent: seq<nat>

    constructor (script: seq<bool>)
      ensures table == [] && this.script == script && sent == []
    {
      table, sent := [], [];
      this.script := script;
    }

    /** One INSERT statement. */
    method SqlQuery(rows: seq<Q>) returns (ok: bool)
      modifies this
      ensures ok == (old(script) == [] || !old(script)[0])
      ensures table == if ok then old(table) + rows else old(table)
      ensures script == if old(script) == [] then [] else old(script)[1..]
      ensures sent == old(sent) + [|rows|]
    {
      ok := script == [] || !script[0];
      if ok {
        table := table + rows;
      }
      if script != [] {
        script := script[1..];
      }
      sent := sent + [|rows|];
    }
  }

  /** The statement sizes that are used. */
  predicate IsSize(n: nat)
  {
    n == 8 || n == 16 || n == 32 || n == 64 || n == 128 || n == 256 || n == 512 || n == 1024
  }

  function Power(n: nat): nat
  {
    if n == 0 then 1 else 2 * Power(n - 1)
  }

  lemma PowersAreSizes(n: nat)
    requires 3 <= n <= 10
    ensures IsSize(Power(n)) && Power(n + 1) == 2 * Power(n) && (Power(n) < 1024 <==> n < 10) && (n == 3 ==> Power(n) == 8)
  {
    assert Power(3) == 8;
    assert Power(7) == 16 * Power(3);
    assert Power(10) == 8 * Power(7);
  }

  /** Any number of 1024s, then smaller sizes each used at most once, then at most one tail below 8. */
  ghost predicate Fine(sizes: seq<nat>)
  {
    && (forall i | 0 <= i < |sizes| :: IsSize(sizes[i]) || (i == |sizes| - 1 && 0 < sizes[i] < 8))
    && (forall i, j | 0 <= i < j < |sizes| :: sizes[j] < sizes[i] || sizes[i] == sizes[j] == 1024)
  }

  /** How many statements may still follow one of this size, itself included. */
  function Rank(size: nat): nat
  {
    if size >= 512 then 8 else if size >= 256 then 7 else if size >= 128 then 6 else if size >= 64 then 5
    else if size >= 32 then 4 else if size >= 16 then 3 else if size >= 8 then 2 else 1
  }

  lemma {:induction false} SmallPieces(sizes: seq<nat>)
    requires Fine(sizes) && sizes != [] && sizes[0] < 1024
    ensures |sizes| <= Rank(sizes[0])
  {
    if |sizes| > 1 {
      assert Fine(sizes[1..]) by {
        assert forall i | 0 <= i < |sizes| - 1 :: sizes[1..][i] == sizes[i + 1];
      }
      SmallPieces(sizes[1..]);
    }
  }

  /** A fine split of `n` rows takes at most n / 1024 + 8 statements. */
  lemma {:induction false} FineIsFew(sizes: seq<nat>)
    requires Fine(sizes)
    ensures |sizes| <= SumOf(sizes) / 1024 + 8
  {
    if sizes != [] {
      if sizes[0] < 1024 {
        SmallPieces(sizes);
        SumOfNats(sizes);
      } else {
        assert Fine(sizes[1..]) by {
          assert forall i | 0 <= i < |sizes| - 1 :: sizes[1..][i] == sizes[i + 1];
        }
        FineIsFew(sizes[1..]);
      }
    }
  }

  /** A fine split can go on: what is left is less than its last piece, unless that was a full 1024. */
  ghost predicate GoesOn(sizes: seq<nat>, left: nat)
  {
    && Fine(sizes) && (forall i | 0 <= i < |sizes| :: IsSize(sizes[i]))
    && (sizes != [] && sizes[|sizes| - 1] < 1024 ==> left < sizes[|sizes| - 1])
  }

  lemma OnePiece(sizes: seq<nat>, size: nat, left: nat)
    requires GoesOn(sizes, left) && IsSize(size) && size <= left && (size < 1024 ==> left < 2 * size)
    ensures GoesOn(sizes + [size], left - size)
  {
  }

  lemma TailPiece(sizes: seq<nat>, left: nat)
    requires GoesOn(sizes, left) && left < 8
    ensures Fine(if left == 0 then sizes else sizes + [left])
  {
  }

  /** The largest statement size that is at most `len`. */
  method LargestSize(len: nat) returns (size: nat)
    requires 8 <= len
    ensures IsSize(size) && size <= len && (size < 1024 ==> len < 2 * size)
  {
    var n := 10;
    PowersAreSizes(10);
    while Power(n) > len
      invariant 3 <= n <= 10 && (n < 10 ==> len < Power(n + 1))
    {
      PowersAreSizes(n);
      n := n - 1;
    }
    PowersAreSizes(n);
    size := Power(n);
  }

  lemma Prefixes<Q>(table: seq<Q>, rows: seq<Q>, k: nat, len: nat)
    requires k + len <= |rows|
    ensures table + rows[..k] + rows[k..k + len] == table + rows[..k + len]
  {
  }

  lemma Ends<Q>(table: seq<Q>, rows: seq<Q>)
    ensures rows[..0] == [] && table + rows[..0] == table
    ensures rows[..|rows|] == rows
  {
  }

  /** One statement's part of a batch of which `k` rows are already in. */
  method SendPart<Q>(rows: seq<Q>, k: nat, len: nat, conn: Connection<Q>, ghost table: seq<Q>, ghost sent: seq<nat>, ghost sizes: seq<nat>)
    returns (ok: bool)
    requires k + len <= |rows| && conn.table == table + rows[..k] && conn.sent == sent + sizes && SumOf(sizes) == k
    modifies conn
    ensures conn.sent == sent + (sizes + [len]) && SumOf(sizes + [len]) == k + len
    ensures ok ==> conn.table == table + rows[..k + len] && |conn.script| <= |old(conn.script)|
    ensures !ok ==> conn.table == old(conn.table) && |conn.script| < |old(conn.script)|
    ensures old(conn.script) == [] ==> ok && conn.script == []
  {
    Prefixes(table, rows, k, len);
    SumOfAppend(sizes, len);
    assert sent + sizes + [len] == sent + (sizes + [len]);
    ok := conn.SqlQuery(rows[k..k + len]);
  }

  /** Sends pieces while eight rows or more are left; `k` rows got in. */
  method SendPieces<Q>(rows: seq<Q>, conn: Connection<Q>) returns (k: nat, ok: bool, ghost sizes: seq<nat>)
    modifies conn
    ensures k <= |rows| && conn.table == old(conn.table) + rows[..k] && conn.sent == old(conn.sent) + sizes
    ensures ok ==> |rows| - k < 8 && GoesOn(sizes, |rows| - k) && SumOf(sizes) == k && |conn.script| <= |old(conn.script)|
    ensures !ok ==> k < |rows| && |conn.script| < |old(conn.script)|
    ensures old(conn.script) == [] ==> ok && conn.script == []
  {
    sizes := [];
    k, ok := 0, true;
    Ends(conn.table, rows);
    while |rows| - k >= 8
      invariant k <= |rows| && conn.table == old(conn.table) + rows[..k] && ok
      invariant conn.sent == old(conn.sent) + sizes && SumOf(sizes) == k && GoesOn(sizes, |rows| - k)
      invariant |conn.script| <= |old(conn.script)|
      decreases |rows| - k
    {
      var size := LargestSize(|rows| - k);
      OnePiece(sizes, size, |rows| - k);
      ok := SendPart(rows, k, size, conn, old(conn.table), old(conn.sent), sizes);
      sizes := sizes + [size];
      if !ok {
        return;
      }
      k := k + size;
    }
  }

  lemma AllSent<Q>(rows: seq<Q>, k: nat)
    requires k <= |rows|
    ensures rows[..k + (|rows| - k)] == rows && (k == |rows| ==> rows[..k] == rows)
  {
  }

  /** Sends the last rows, fewer than eight, if there are any. */
  method SendTail<Q>(rows: seq<Q>, k: nat, conn: Connection<Q>, ghost table: seq<Q>, ghost sent: seq<nat>, ghost sizes: seq<nat>)
    returns (ok: bool, ghost all: seq<nat>)
    requires k <= |rows| && |rows| - k < 8 && GoesOn(sizes, |rows| - k)
    requires conn.table == table + rows[..k] && conn.sent == sent + sizes && SumOf(sizes) == k
    modifies conn
    ensures conn.sent == sent + all && (old(conn.script) == [] ==> ok)
    ensures ok ==> conn.table == table + rows && Fine(all) && SumOf(all) == |rows| && |conn.script| <= |old(conn.script)|
    ensures !ok ==> k < |rows| && conn.table == table + rows[..k] && |conn.script| < |old(conn.script)|
  {
    AllSent(rows, k);
    TailPiece(sizes, |rows| - k);
    ok, all := true, sizes;
    if k < |rows| {
      ok := SendPart(rows, k, |rows| - k, conn, table, sent, sizes);
      all := sizes + [|rows| - k];
    }
  }

  /** Sends the rows in pieces.  On a failure it returns what was not inserted. */
  method SqlQueryFine<Q>(rows: seq<Q>, conn: Connection<Q>) returns (r: Result<(), seq<Q>>, ghost sizes: seq<nat>)
    modifies conn
    ensures |conn.script| <= |old(conn.script)| && conn.sent == old(conn.sent) + sizes
    ensures r.Ok? ==> conn.table == old(conn.table) + rows && Fine(sizes) && SumOf(sizes) == |rows|
    ensures r.Err? ==>
              && 0 < |r.error| <= |rows| && r.error == rows[|rows| - |r.error|..]
              && conn.table == old(conn.table) + rows[..|rows| - |r.error|]
              && |conn.script| < |old(conn.script)|
    ensures old(conn.script) == [] ==> r.Ok?
  {
    if rows == [] {
      return Ok(()), [];
    }
    var k, ok;
    k, ok, sizes := SendPieces(rows, conn);
    if ok {
      ok, sizes := SendTail(rows, k, conn, old(conn.table), old(conn.sent), sizes);
    }
    r := if ok then Ok(()) else Err(rows[k..]);
  }

  // ---------------------------------------------------------------- dumping

  /** An iterator over rows. */
  class RowIter<Q> {
    var rest: seq<Q>

    constructor (rest: seq<Q>)
      ensures this.rest == rest
    {
      this.rest := rest;
    }

    method Next() returns (q: Option<Q>)
      modifies this
      ensures old(rest) == [] ==> q == None && rest == []
      ensures old(rest) != [] ==> q == Some(old(rest)[0]) && rest == old(rest)[1..]
    {
      if rest == [] {
        return None;
      }
      q := Some(rest[0]);
      rest := rest[1..];
    }
  }

  /** Tops `record` up to `n` rows, as far as there are any. */
  method CollectN<Q>(iter: RowIter<Q>, n: nat, record: seq<Q>) returns (r: seq<Q>)
    modifies iter
    ensures r + iter.rest == record + old(iter.rest)
    ensures |r| >= n || iter.rest == []
    ensures |r| == if |record| >= n then |record| else Min(n, |record| + |old(iter.rest)|)
  {
    r := record;
    if |r| >= n {
      return;
    }
    while true
      invariant |r| < n && r + iter.rest == record + old(iter.rest)
      decreases n - |r|
    {
      ghost var before := r + iter.rest;
      var q := iter.Next();
      if q == None {
        return;
      }
      r := r + [q.value];
      assert r + iter.rest == before;
      if |r| >= n {
        return;
      }
    }
  }

  /** Dumps every record exactly once and in order, whichever statements fail, and counts them. */
  method DumpRecords<Q>(iter: RowIter<Q>, n: nat, conn: Connection<Q>) returns (inserted: nat)
    requires 0 < n
    modifies iter, conn
    ensures conn.table == old(conn.table) + old(iter.rest)
    ensures inserted == |old(iter.rest)| && iter.rest == []
  {
    var records := CollectN(iter, n, []);
    inserted := 0;
    ghost var sizes;
    while records != []
      invariant conn.table + (records + iter.rest) == old(conn.table) + old(iter.rest)
      invariant |conn.table| == |old(conn.table)| + inserted
      invariant records == [] ==> iter.rest == []
      decreases |conn.script| + |records| + |iter.rest|
    {
      inserted := inserted + |records|;
      ghost var was, rest, table := records, iter.rest, conn.table;
      var r;
      r, sizes := SqlQueryFine(records, conn);
      match r
      case Err(resident) =>
        inserted := inserted - |resident|;
        assert was == was[..|was| - |resident|] + resident;
        records := CollectN(iter, n, resident);
        assert conn.table + (resident + rest) == table + (was + rest);
      case Ok(_) =>
        records := CollectN(iter, n, []);
        assert conn.table + rest == table + (was + rest);
        assert records + iter.rest == rest;
    }
  }
}
