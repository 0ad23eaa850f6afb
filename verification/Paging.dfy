/** Reading a stored session back: the server's pages and the dashboard's loop
    that collects them, while the log may still be growing. */
module Paging {
  import opened Sequences
  import opened Wrappers

  /** A row of the message table. */
  datatype Row = Row(seqNo: int, eventType: string, envelope: string)

  const DEFAULT_LIMIT := 1000
  const MAX_SNAPSHOT_PAGES := 200

  /** Rows of one session in the table's order. */
  predicate Ordered(log: seq<Row>) {
    (forall i :: 0 <= i < |log| ==> log[i].seqNo >= 0)
    && forall i, j :: 0 <= i < j < |log| ==> log[i].seqNo < log[j].seqNo
  }

  /** How many rows lie at or before the cursor. */
  function Seen(log: seq<Row>, afterSeq: int): (k: nat)
    ensures k <= |log|
  {
    if log == [] || log[0].seqNo > afterSeq then 0 else 1 + Seen(log[1..], afterSeq)
  }

  datatype Page = Page(events: seq<Row>, nextAfterSeq: int, hasMore: bool)

  predicate Wanted(types: set<string>, row: Row) { types == {} || row.eventType in types }

  function Filter(rows: seq<Row>, types: set<string>): seq<Row> {
    if rows == [] then []
    else Filter(rows[..|rows| - 1], types) + if Wanted(types, rows[|rows| - 1]) then [rows[|rows| - 1]] else []
  }

  function Min(a: int, b: int): int { if a < b then a else b }

  /** The rows behind the cursor, at most `limit + 1` of them. */
  function Query(log: seq<Row>, afterSeq: int, limit: nat): seq<Row> {
    var k := Seen(log, afterSeq);
    log[k..Min(|log|, k + limit + 1)]
  }

  /** The answer of the snapshot endpoint. */
  function Answer(log: seq<Row>, afterSeq: int, limit: nat, types: set<string>): Page {
    var k := Seen(log, afterSeq);
    var rows := log[k..Min(|log|, k + limit)];
    Page(Filter(rows, types), if rows == [] then afterSeq else rows[|rows| - 1].seqNo, k + limit < |log|)
  }

  // ---------- the cursor ----------

  lemma {:induction false} SeenIs(log: seq<Row>, k: nat, afterSeq: int)
    requires Ordered(log) && k <= |log|
    requires k > 0 ==> log[k - 1].seqNo <= afterSeq
    requires k < |log| ==> log[k].seqNo > afterSeq
    ensures Seen(log, afterSeq) == k
  {
    if k > 0 {
      assert log[0].seqNo <= log[k - 1].seqNo;
      SeenIs(log[1..], k - 1, afterSeq);
    }
  }

  /** The cursor of a page stands exactly behind the rows handed out, also when a
      filter keeps some of them back. */
  lemma CursorAdvances(log: seq<Row>, k: nat, afterSeq: int, limit: nat, types: set<string>)
    requires Ordered(log) && k <= |log| && limit > 0
    requires afterSeq == if k == 0 then -1 else log[k - 1].seqNo
    ensures var page := Answer(log, afterSeq, limit, types);
            var n := Min(|log|, k + limit);
            && page.events == Filter(log[k..n], types)
            && page.nextAfterSeq == (if n == 0 then -1 else log[n - 1].seqNo)
            && (page.hasMore <==> n < |log|)
            && (k < n ==> page.nextAfterSeq > afterSeq)
  {
    SeenIs(log, k, afterSeq);
  }

  lemma {:induction false} FilterConcat(a: seq<Row>, b: seq<Row>, types: set<string>)
    ensures Filter(a + b, types) == Filter(a, types) + Filter(b, types)
    decreases |b|
  {
    if b == [] {
      assert a + b == a;
    } else {
      var n := |b| - 1;
      FilterConcat(a, b[..n], types);
      assert (a + b)[..|a + b| - 1] == a + b[..n];
    }
  }

  /** A filter keeps exactly the rows of the listed types, all rows when none is
      listed, in their order. */
  lemma {:induction false} FilterKeeps(rows: seq<Row>, types: set<string>)
    ensures forall row :: row in Filter(rows, types) <==> row in rows && (types == {} || row.eventType in types)
    ensures Subsequence(Filter(rows, types), rows)
    decreases |rows|
  {
    hide Subsequence;
    if rows == [] {
      SubsequenceOfNone();
    } else {
      var n := |rows| - 1;
      FilterKeeps(rows[..n], types);
      assert rows == rows[..n] + [rows[n]];
      SubsequenceSnoc(Filter(rows[..n], types), rows[..n], rows[n]);
      assert Filter(rows[..n], types) + [] == Filter(rows[..n], types);
    }
  }

  lemma SubsequenceOfNone()
    ensures Subsequence<Row>([], [])
  {
  }

  lemma {:induction false} NoFilter(rows: seq<Row>)
    ensures Filter(rows, {}) == rows
    decreases |rows|
  {
    if rows != [] {
      NoFilter(rows[..|rows| - 1]);
    }
  }

  /** Following the cursor from the start until there is no more. */
  function Follow(log: seq<Row>, k: nat, limit: nat, types: set<string>): seq<Row>
    requires Ordered(log) && k <= |log| && limit > 0
    decreases |log| - k
  {
    var page := Answer(log, if k == 0 then -1 else log[k - 1].seqNo, limit, types);
    if !page.hasMore then page.events
    else
      CursorAdvances(log, k, if k == 0 then -1 else log[k - 1].seqNo, limit, types);
      page.events + Follow(log, k + limit, limit, types)
  }

  lemma {:induction false} FollowFilters(log: seq<Row>, k: nat, limit: nat, types: set<string>)
    requires Ordered(log) && k <= |log| && limit > 0
    ensures Follow(log, k, limit, types) == Filter(log[k..], types)
    decreases |log| - k
  {
    hide Filter, Answer, Wanted;
    CursorAdvances(log, k, if k == 0 then -1 else log[k - 1].seqNo, limit, types);
    if k + limit < |log| {
      FollowFilters(log, k + limit, limit, types);
      FilterConcat(log[k..k + limit], log[k + limit..], types);
      assert log[k..] == log[k..k + limit] + log[k + limit..];
    } else {
      assert log[k..|log|] == log[k..];
    }
  }

  /** For every limit and filter, following the cursor yields exactly the wanted
      rows of the log, each once and in order. */
  lemma FollowIsFilter(log: seq<Row>, k: nat, limit: nat, types: set<string>)
    requires Ordered(log) && k <= |log| && limit > 0
    ensures Follow(log, k, limit, types) == Filter(log[k..], types)
    ensures forall row :: row in Follow(log, k, limit, types) <==>
              row in log[k..] && (types == {} || row.eventType in types)
    ensures Subsequence(Follow(log, k, limit, types), log[k..])
  {
    hide *;
    FollowFilters(log, k, limit, types);
    FilterKeeps(log[k..], types);
  }

  // ---------- the server ----------

  /** Messages, after its parameters are parsed. */
  method Messages(log: seq<Row>, afterSeq: int, limit: nat, types: set<string>) returns (page: Page)
    requires 1 <= limit <= 10000
    ensures page == Answer(log, afterSeq, limit, types)
  {
    hide Seen;
    var rows := Query(log, afterSeq, limit);
    ghost var k := Seen(log, afterSeq);
    var hasMore := false;
    if |rows| > limit {
      rows := rows[..limit];
      hasMore := true;
    }
    assert rows == log[k..Min(|log|, k + limit)];
    var events: seq<Row> := [];
    var nextAfterSeq := afterSeq;
    for i := 0 to |rows|
      invariant events == Filter(rows[..i], types)
      invariant nextAfterSeq == if i == 0 then afterSeq else rows[i - 1].seqNo
    {
      var row := rows[i];
      assert rows[..i + 1][..i] == rows[..i];
      if types != {} && row.eventType !in types {
        nextAfterSeq := row.seqNo;
        continue;
      }
      events := events + [row];
      nextAfterSeq := row.seqNo;
    }
    assert rows[..|rows|] == rows;
    return Page(events, nextAfterSeq, hasMore);
  }

  // ---------- the dashboard ----------

  datatype Status = Ready(messages: seq<Row>) | NonAdvancing | Stopped

  /** The log as each request finds it: rows are only ever added at its end. */
  ghost predicate Growing(snapshot: nat -> seq<Row>) {
    forall k: nat :: Ordered(snapshot(k)) && snapshot(k) <= snapshot(k + 1)
  }

  /** Request `k` reaches the end of the log as it then is. */
  predicate Reaches(snapshot: nat -> seq<Row>, k: nat) { |snapshot(k)| <= (k + 1) * DEFAULT_LIMIT }

  function Insert(row: Row, rows: seq<Row>): seq<Row> {
    if rows == [] || row.seqNo < rows[0].seqNo then [row] + rows else [rows[0]] + Insert(row, rows[1..])
  }

  /** A stable sort by sequence number. */
  function SortBySeq(rows: seq<Row>): seq<Row> {
    if rows == [] then [] else Insert(rows[|rows| - 1], SortBySeq(rows[..|rows| - 1]))
  }

  lemma {:induction false} InsertLast(rows: seq<Row>, row: Row)
    requires forall i :: 0 <= i < |rows| ==> rows[i].seqNo < row.seqNo
    ensures Insert(row, rows) == rows + [row]
  {
    if rows != [] {
      InsertLast(rows[1..], row);
    }
  }

  lemma {:induction false} SortOrdered(rows: seq<Row>)
    requires Ordered(rows)
    ensures SortBySeq(rows) == rows
    decreases |rows|
  {
    if rows != [] {
      SortOrdered(rows[..|rows| - 1]);
      InsertLast(rows[..|rows| - 1], rows[|rows| - 1]);
    }
  }

  /** The page-collecting loop of load(): it is ready with exactly the rows the
      log had at its last request, which is the first request that reaches the
      end of the log; it stops only when none of the first 200 does; and the
      server never makes it complain of a page that does not advance. */
  method Load(snapshot: nat -> seq<Row>) returns (status: Status, ghost requests: nat)
    requires Growing(snapshot)
    ensures status.Ready? || status.Stopped?
    ensures status.Ready? ==>
              requests < 200 && |snapshot(requests)| <= (requests + 1) * 1000 && status.messages == snapshot(requests)
    ensures forall j :: 0 <= j < requests ==> !Reaches(snapshot, j)
    ensures status.Stopped? ==> requests == 200
  {
    hide Answer, Filter, SortBySeq, Ordered;
    var collected: seq<Row> := [];
    var afterSeq: Option<int> := None;
    var pages := 0;
    requests := 0;
    while true
      invariant pages == requests < MAX_SNAPSHOT_PAGES
      invariant |collected| == pages * DEFAULT_LIMIT && collected <= snapshot(pages)
      invariant afterSeq == if pages == 0 then None else Some(collected[|collected| - 1].seqNo)
      invariant forall j :: 0 <= j < pages ==> !Reaches(snapshot, j)
      decreases MAX_SNAPSHOT_PAGES - pages
    {
      var log := snapshot(pages);
      var cursor := if afterSeq.Some? then afterSeq.value else -1;
      var page := Messages(log, cursor, DEFAULT_LIMIT, {});
      CursorAdvances(log, |collected|, cursor, DEFAULT_LIMIT, {});
      NoFilter(log[|collected|..Min(|log|, |collected| + DEFAULT_LIMIT)]);
      collected := collected + page.events;
      if !page.hasMore {
        assert collected == log;
        break;
      }
      if afterSeq.Some? && page.nextAfterSeq <= afterSeq.value {
        return NonAdvancing, requests;
      }
      afterSeq := Some(page.nextAfterSeq);
      pages := pages + 1;
      requests := requests + 1;
      if pages >= MAX_SNAPSHOT_PAGES {
        return Stopped, requests;
      }
    }
    SortOrdered(collected);
    collected := SortBySeq(collected);
    return Ready(collected), requests;
  }

  /** For a finished session: the loop collects the whole log if and only if the
      log has at most 200 pages. */
  method LoadFinished(log: seq<Row>) returns (status: Status)
    requires Ordered(log)
    ensures status == if |log| <= 200_000 then Ready(log) else Stopped
  {
    var snapshot := (k: nat) => log;
    ghost var requests;
    status, requests := Load(snapshot);
    assert status.Stopped? ==> !Reaches(snapshot, MAX_SNAPSHOT_PAGES - 1);
  }
}
