/**
 * The SQLite table `response_times` (app.py:14-23) as an append-only log:
 * its creation (init_db), the single-row INSERT of monitor_api, and the
 * recency query of get_metrics.
 */
module MetricsStore {
  import opened Wrappers
  import opened Collation

  /** One row of `response_times`, column by column. */
  datatype Row = Row(
    id: int,
    timestamp: string,
    apiName: string,
    responseTime: real,
    statusCode: int,
    errorMessage: Option<string>)

  /** The errors sqlite3 raises for the statements of the core. */
  datatype DbError =
    | NoSuchTable  // OperationalError: the table was never created
    | Full         // SQLITE_FULL: AUTOINCREMENT has used the largest rowid

  /** The largest rowid SQLite can assign (a signed 64-bit integer). */
  const MaxRowId: int := 0x7FFF_FFFF_FFFF_FFFF

  /** The LIMIT of the get_metrics query. */
  const MetricsLimit: nat := 100

  function Min(a: nat, b: nat): nat { if a <= b then a else b }

  /** Ordered by `timestamp`, most recent (largest under BINARY) first. */
  ghost predicate SortedDesc(s: seq<Row>)
  {
    forall i, j :: 0 <= i < j < |s| ==> BinaryLe(s[j].timestamp, s[i].timestamp)
  }

  /**
   * What `SELECT * ... ORDER BY timestamp DESC LIMIT limit` may return over
   * `rows`: `min(limit, |rows|)` rows of the table, newest first, and no row
   * left out is newer than a row returned. SQLite leaves the order among equal
   * timestamps unspecified, and so does this predicate.
   */
  ghost predicate IsRecencyAnswer(rows: seq<Row>, limit: nat, r: seq<Row>)
  {
    && |r| == Min(limit, |rows|)
    && SortedDesc(r)
    && multiset(r) <= multiset(rows)
    && (forall x, i :: x in multiset(rows) - multiset(r) && 0 <= i < |r| ==>
          BinaryLe(x.timestamp, r[i].timestamp))
  }

  /** A row at least as new as the head of a newest-first list may go in front of it. */
  lemma PrependNewest(x: Row, s: seq<Row>)
    requires SortedDesc(s) && s != []
    requires BinaryLe(s[0].timestamp, x.timestamp)
    ensures SortedDesc([x] + s)
  {
    forall j | 0 <= j < |s| ensures BinaryLe(s[j].timestamp, x.timestamp) {
      if j > 0 { BinaryLeTransitive(s[j].timestamp, s[0].timestamp, x.timestamp); }
    }
  }

  /** The head of a newest-first list stays in front when a row older than it is inserted behind it. */
  lemma KeepHead(x: Row, s: seq<Row>, tail: seq<Row>)
    requires SortedDesc(s) && s != []
    requires BinaryLe(x.timestamp, s[0].timestamp)
    requires SortedDesc(tail) && multiset(tail) == multiset(s[1..]) + multiset{x}
    ensures SortedDesc([s[0]] + tail)
  {
    forall j | 0 <= j < |tail| ensures BinaryLe(tail[j].timestamp, s[0].timestamp) {
      assert tail[j] in multiset(tail);
      if tail[j] != x {
        assert tail[j] in multiset(s[1..]);
        var k :| 0 <= k < |s[1..]| && s[1..][k] == tail[j];
        assert s[k + 1] == tail[j];
      }
    }
  }

  /** Insertion of one row into a list already ordered newest first. */
  function InsertDesc(x: Row, s: seq<Row>): (r: seq<Row>)
    requires SortedDesc(s)
    ensures SortedDesc(r)
    ensures multiset(r) == multiset(s) + multiset{x}
    ensures |r| == |s| + 1
  {
    if s == [] then [x]
    else if BinaryLe(s[0].timestamp, x.timestamp) then
      PrependNewest(x, s);
      [x] + s
    else
      var tail := InsertDesc(x, s[1..]);
      assert s == [s[0]] + s[1..];
      BinaryLeTotal(s[0].timestamp, x.timestamp);
      KeepHead(x, s, tail);
      [s[0]] + tail
  }

  /** A stable sort on `timestamp`, newest first. */
  function SortDesc(s: seq<Row>): (r: seq<Row>)
    ensures SortedDesc(r)
    ensures multiset(r) == multiset(s)
    ensures |r| == |s|
  {
    if s == [] then []
    else
      assert s == [s[0]] + s[1..];
      InsertDesc(s[0], SortDesc(s[1..]))
  }

  /** Rows past position `n` of a newest-first list are no newer than any row before it. */
  lemma SuffixNotNewer(s: seq<Row>, n: nat)
    requires SortedDesc(s) && n <= |s|
    ensures forall x, i :: x in multiset(s[n..]) && 0 <= i < n ==> BinaryLe(x.timestamp, s[i].timestamp)
  {
    forall x, i | x in multiset(s[n..]) && 0 <= i < n ensures BinaryLe(x.timestamp, s[i].timestamp) {
      var k :| 0 <= k < |s[n..]| && s[n..][k] == x;
      assert s[n + k] == x;
    }
  }

  /** The first `limit` rows of a newest-first permutation of the table answer the query. */
  lemma PrefixAnswers(rows: seq<Row>, s: seq<Row>, limit: nat)
    requires SortedDesc(s) && multiset(s) == multiset(rows) && |s| == |rows|
    ensures IsRecencyAnswer(rows, limit, s[..Min(limit, |s|)])
  {
    var n := Min(limit, |s|);
    assert s == s[..n] + s[n..];
    assert multiset(s) == multiset(s[..n]) + multiset(s[n..]);
    assert multiset(rows) - multiset(s[..n]) == multiset(s[n..]);
    SuffixNotNewer(s, n);
  }

  /** The answer the model gives to the recency query over `rows`. */
  function Recent(rows: seq<Row>, limit: nat): (r: seq<Row>)
    ensures IsRecencyAnswer(rows, limit, r)
  {
    var s := SortDesc(rows);
    PrefixAnswers(rows, s, limit);
    s[..Min(limit, |s|)]
  }

  /**
   * A shorter LIMIT returns a prefix of what a longer one returns. This holds
   * of the model's tie-break among equal timestamps, not of every answer
   * SQLite may give.
   */
  lemma RecentPrefix(rows: seq<Row>, n: nat, k: nat)
    ensures Recent(rows, n) <= Recent(rows, n + k)
  {
  }

  /**
   * A row newer than every other row of the table is in every answer to the
   * recency query, whatever the LIMIT (at least one).
   */
  lemma NewestRowIsReturned(rows: seq<Row>, x: Row, limit: nat, r: seq<Row>)
    requires limit >= 1
    requires forall y :: y in rows ==> !BinaryLe(x.timestamp, y.timestamp)
    requires IsRecencyAnswer(rows + [x], limit, r)
    ensures x in r
  {
    assert r[0] in multiset(rows + [x]);
  }

  /** Row ids are strictly increasing in insertion order. */
  ghost predicate IdsIncreasing(rows: seq<Row>)
  {
    forall i, j :: 0 <= i < j < |rows| ==> rows[i].id < rows[j].id
  }

  /**
   * The database file with its one table. `created` says whether the table
   * exists; `nextId` is the rowid AUTOINCREMENT assigns next (one more than
   * the value SQLite keeps in `sqlite_sequence`).
   */
  class ResponseTimes {
    var created: bool
    var rows: seq<Row>
    var nextId: int

    ghost predicate Valid()
      reads this
    {
      && 1 <= nextId <= MaxRowId + 1
      && (!created ==> rows == [] && nextId == 1)
      && IdsIncreasing(rows)
      && (forall i :: 0 <= i < |rows| ==> 1 <= rows[i].id < nextId)
    }

    /** A database file without the table. */
    constructor ()
      ensures Valid()
      ensures !created && rows == [] && nextId == 1
    {
      created := false;
      rows := [];
      nextId := 1;
    }

    /** init_db (app.py:11-25): `CREATE TABLE IF NOT EXISTS`; no row and no counter ever changes. */
    method InitDb()
      requires Valid()
      modifies this
      ensures Valid()
      ensures created
      ensures rows == old(rows) && nextId == old(nextId)
    {
      if !created {
        created := true;
        rows := [];
        nextId := 1;
      }
    }

    /**
     * The INSERT of monitor_api (app.py:58-66): appends one row with the next
     * AUTOINCREMENT id, greater than every id in the table; the rows already
     * there are untouched. Fails, changing nothing, when the table is missing
     * or the rowids are exhausted.
     */
    method Insert(timestamp: string, apiName: string, responseTime: real,
                  statusCode: int, errorMessage: Option<string>)
      returns (res: Result<int, DbError>)
      requires Valid()
      modifies this
      ensures Valid()
      ensures created == old(created)
      ensures res.Err? <==> !old(created) || old(nextId) > MaxRowId
      ensures !old(created) ==> res == Err(NoSuchTable)
      ensures old(created) && old(nextId) > MaxRowId ==> res == Err(Full)
      ensures res.Err? ==> rows == old(rows) && nextId == old(nextId)
      ensures res.Ok? ==>
                && res.value == old(nextId)
                && rows == old(rows) + [Row(res.value, timestamp, apiName, responseTime, statusCode, errorMessage)]
                && nextId == old(nextId) + 1
                && (forall y :: y in old(rows) ==> y.id < res.value)
    {
      if !created {
        return Err(NoSuchTable);
      }
      if nextId > MaxRowId {
        return Err(Full);
      }
      var id := nextId;
      rows := rows + [Row(id, timestamp, apiName, responseTime, statusCode, errorMessage)];
      nextId := nextId + 1;
      return Ok(id);
    }

    /** get_metrics (app.py:95-103): at most 100 rows, newest timestamp first. */
    function GetMetrics(): (r: Result<seq<Row>, DbError>)
      reads this
      requires Valid()
      ensures r.Err? <==> !created
      ensures r.Err? ==> r.error == NoSuchTable
      ensures r.Ok? ==> IsRecencyAnswer(rows, MetricsLimit, r.value)
    {
      if !created then Err(NoSuchTable) else Ok(Recent(rows, MetricsLimit))
    }
  }
}
