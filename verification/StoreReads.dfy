/**
 Reading the schedule table: bounded pages with a continuation cursor, and the
 list of active rows a worker reloads (crates/sc-cron/src/sqlite.rs, query types
 in crates/sc-cron/src/consumer_contract.rs).
 */
module StoreReads {
  import opened Options
  import opened Types
  import opened ScheduleTable

  datatype Selection = ActiveRows | EndedRows | AllRows

  datatype Query = Query(selection: Selection, name: Option<string>, afterId: Option<nat>, limit: nat)

  datatype Page = Page(items: seq<Schedule>, nextAfterId: Option<nat>)

  datatype QueryResult = Answer(page: Page) | InvalidLimit | InvalidCursor

  predicate Selected(row: Schedule, selection: Selection, name: Option<string>) {
    && (match selection
        case AllRows => true
        case ActiveRows => row.IsActive()
        case EndedRows => !row.IsActive())
    && (name.None? || row.spec.name == name.value)
  }

  /** The selected rows with ids from `from` on, in ascending id order. */
  function Scan(t: Table, selection: Selection, name: Option<string>, from: nat): (rows: seq<Schedule>)
    decreases t.lastId + 1 - from
  {
    if from > t.lastId then []
    else if from in t.rows && Selected(t.rows[from], selection, name)
    then [t.rows[from]] + Scan(t, selection, name, from + 1)
    else Scan(t, selection, name, from + 1)
  }

  ghost predicate Ascending(rows: seq<Schedule>) {
    forall i, j :: 0 <= i < j < |rows| ==> rows[i].id < rows[j].id
  }

  /** The scan is the filtered table: every selected row once, by ascending id. */
  lemma {:induction false} ScanIsFilteredTable(t: Table, selection: Selection, name: Option<string>, from: nat)
    requires Valid(t)
    ensures var rows := Scan(t, selection, name, from);
            && Ascending(rows)
            && forall row :: row in rows <==>
                 row.id in t.rows && row == t.rows[row.id] && row.id >= from && Selected(row, selection, name)
    decreases t.lastId + 1 - from
  {
    if from <= t.lastId {
      ScanIsFilteredTable(t, selection, name, from + 1);
      var rest := Scan(t, selection, name, from + 1);
      assert forall k :: 0 <= k < |rest| ==> rest[k] in rest;
    }
  }

  /** `query`: one row more than the limit is read to learn whether a page follows. */
  function RunQuery(t: Table, q: Query): QueryResult {
    if !(1 <= q.limit <= 1000) then InvalidLimit
    else if q.afterId.Some? && !(1 <= q.afterId.value <= I64_MAX) then InvalidCursor
    else
      var after := if q.afterId.Some? then q.afterId.value else 0;
      var rows := Scan(t, q.selection, q.name, after + 1);
      if |rows| > q.limit
      then Answer(Page(rows[..q.limit], Some(rows[q.limit - 1].id)))
      else Answer(Page(rows, None))
  }

  /** The ids of the rows a query asks for: past its cursor, in its selection and of its name. */
  ghost function AskedFor(t: Table, q: Query): set<nat> {
    set id | id in t.rows && (q.afterId.Some? ==> q.afterId.value < id)
             && (q.selection.ActiveRows? ==> t.rows[id].endedAt.None?)
             && (q.selection.EndedRows? ==> t.rows[id].endedAt.Some?)
             && (q.name.Some? ==> t.rows[id].spec.name == q.name.value)
  }

  function IdsOf(rows: seq<Schedule>): (ids: set<nat>)
    ensures forall id :: id in ids <==> exists k :: 0 <= k < |rows| && rows[k].id == id
  {
    set k | 0 <= k < |rows| :: rows[k].id
  }

  /** Rows by ascending id have as many ids as they are. */
  lemma {:induction false} AscendingIdsCount(rows: seq<Schedule>)
    requires Ascending(rows)
    ensures |IdsOf(rows)| == |rows|
    decreases |rows|
  {
    if rows != [] {
      var n := |rows| - 1;
      AscendingIdsCount(rows[..n]);
      assert IdsOf(rows) == IdsOf(rows[..n]) + {rows[n].id} by {
        assert forall k :: 0 <= k < n ==> rows[..n][k] == rows[k];
        assert rows == rows[..n] + [rows[n]];
      }
      assert rows[n].id !in IdsOf(rows[..n]);
    }
  }

  /**
   One page, from the table: the first of the rows asked for, as many as there are and
   at most the limit; a cursor exactly if there are more, and then the last row's id.
   */
  lemma PageIsExact(t: Table, q: Query)
    requires Valid(t)
    ensures RunQuery(t, q).InvalidLimit? <==> q.limit < 1 || 1000 < q.limit
    ensures RunQuery(t, q).InvalidCursor? <==>
              1 <= q.limit <= 1000 && q.afterId.Some? && (q.afterId.value < 1 || I64_MAX < q.afterId.value)
    ensures RunQuery(t, q).Answer? ==>
              var page, asked := RunQuery(t, q).page, AskedFor(t, q);
              && |page.items| == (if |asked| <= q.limit then |asked| else q.limit)
              && Ascending(page.items)
              && (forall k :: 0 <= k < |page.items| ==> page.items[k].id in asked)
              && (forall k :: 0 <= k < |page.items| ==> page.items[k] == t.rows[page.items[k].id])
              && (forall id, k :: id in asked && id !in IdsOf(page.items) && 0 <= k < |page.items| ==>
                    page.items[k].id < id)
              && (page.nextAfterId.None? <==> |asked| <= q.limit)
              && (page.nextAfterId.Some? ==> page.nextAfterId.value == page.items[|page.items| - 1].id)
  {
    hide Scan, Valid, Selected, AskedFor, IdsOf;
    if RunQuery(t, q).Answer? {
      var rows := Scan(t, q.selection, q.name, (if q.afterId.Some? then q.afterId.value else 0) + 1);
      var n := |RunQuery(t, q).page.items|;
      AskedRows(t, q);
      FirstOfAscending(rows, n);
      assert RunQuery(t, q).page.items == rows[..n];
    }
  }

  /** The rows a query reads are those asked for. */
  lemma AskedRows(t: Table, q: Query)
    requires Valid(t)
    ensures var rows := Scan(t, q.selection, q.name, (if q.afterId.Some? then q.afterId.value else 0) + 1);
            && Ascending(rows) && |AskedFor(t, q)| == |rows| && IdsOf(rows) == AskedFor(t, q)
            && forall k :: 0 <= k < |rows| ==>
                 rows[k].id in AskedFor(t, q) && rows[k].id in t.rows && rows[k] == t.rows[rows[k].id]
  {
    hide Scan, Valid, Selected;
    var after := if q.afterId.Some? then q.afterId.value else 0;
    var rows := Scan(t, q.selection, q.name, after + 1);
    ScanIsFilteredTable(t, q.selection, q.name, after + 1);
    IdsAreAskedFor(t, q, rows);
    AscendingIdsCount(rows);
    assert forall k :: 0 <= k < |rows| ==> rows[k] in rows;
  }

  /** The first rows have the least ids. */
  lemma FirstOfAscending(rows: seq<Schedule>, n: nat)
    requires Ascending(rows) && n <= |rows|
    ensures forall id, k :: id in IdsOf(rows) && id !in IdsOf(rows[..n]) && 0 <= k < n ==> rows[..n][k].id < id
  {
    assert forall i :: 0 <= i < n ==> rows[..n][i] == rows[i];
    forall id, k | id in IdsOf(rows) && id !in IdsOf(rows[..n]) && 0 <= k < n ensures rows[..n][k].id < id {
      var j :| 0 <= j < |rows| && rows[j].id == id;
      assert n <= j;
    }
  }

  lemma IdsAreAskedFor(t: Table, q: Query, rows: seq<Schedule>)
    requires Valid(t)
    requires forall row :: row in rows <==>
               && row.id in t.rows && row == t.rows[row.id]
               && row.id >= (if q.afterId.Some? then q.afterId.value else 0) + 1
               && Selected(row, q.selection, q.name)
    ensures IdsOf(rows) == AskedFor(t, q)
  {
    forall id | id in AskedFor(t, q) ensures id in IdsOf(rows) {
      assert t.rows[id] in rows;
    }
    forall k | 0 <= k < |rows| ensures rows[k].id in AskedFor(t, q) {
      assert rows[k] in rows;
    }
  }

  /** The rows from one id on are the row of that id, if it is selected, and those after it. */
  lemma ScanStep(t: Table, selection: Selection, name: Option<string>, id: nat)
    ensures id > t.lastId ==> Scan(t, selection, name, id) == []
    ensures id <= t.lastId ==>
              Scan(t, selection, name, id) ==
              (if id in t.rows && Selected(t.rows[id], selection, name) then [t.rows[id]] else [])
              + Scan(t, selection, name, id + 1)
  {
    assert [] + Scan(t, selection, name, id + 1) == Scan(t, selection, name, id + 1);
  }

  /** The rows pushed so far and those from `id` on are all the rows. */
  predicate Pushed(t: Table, q: Query, rows: seq<Schedule>, items: seq<Schedule>, id: nat) {
    rows == items + Scan(t, q.selection, q.name, id)
  }

  lemma NonePushed(t: Table, q: Query, id: nat)
    ensures Pushed(t, q, Scan(t, q.selection, q.name, id), [], id)
  {
    hide Scan;
  }

  lemma PushesOne(t: Table, q: Query, rows: seq<Schedule>, items: seq<Schedule>, id: nat)
    requires id <= t.lastId && Pushed(t, q, rows, items, id)
    ensures if id in t.rows && Selected(t.rows[id], q.selection, q.name)
            then Pushed(t, q, rows, items + [t.rows[id]], id + 1) else Pushed(t, q, rows, items, id + 1)
  {
    hide Scan, Selected;
    ScanStep(t, q.selection, q.name, id);
  }

  /** What the loop has pushed when it stops makes the page. */
  lemma PageOfRows(t: Table, q: Query, rows: seq<Schedule>, items: seq<Schedule>, id: nat)
    requires Pushed(t, q, rows, items, id) && |items| <= q.limit + 1
    requires id > t.lastId || |items| == q.limit + 1
    ensures |items| > q.limit <==> |rows| > q.limit
    ensures |items| > q.limit ==> items[..q.limit] == rows[..q.limit]
    ensures |items| <= q.limit ==> items == rows
  {
    hide Scan;
    ScanStep(t, q.selection, q.name, id);
  }

  /** The query as the source runs it: rows are pushed one at a time, and a surplus row is popped. */
  method ExecuteQuery(t: Table, q: Query) returns (result: QueryResult)
    requires Valid(t)
    ensures result == RunQuery(t, q)
  {
    hide Valid, Scan, Selected, Pushed;
    if !(1 <= q.limit <= 1000) {
      return InvalidLimit;
    }
    if q.afterId.Some? && !(1 <= q.afterId.value <= I64_MAX) {
      return InvalidCursor;
    }
    var after := if q.afterId.Some? then q.afterId.value else 0;
    var items: seq<Schedule> := [];
    var id := after + 1;
    var limit := q.limit;
    ghost var rows := Scan(t, q.selection, q.name, after + 1);
    NonePushed(t, q, id);
    while id <= t.lastId && |items| < limit + 1
      invariant id >= after + 1
      invariant |items| <= limit + 1
      invariant Pushed(t, q, rows, items, id)
      decreases t.lastId + 1 - id
    {
      PushesOne(t, q, rows, items, id);
      if id in t.rows && Selected(t.rows[id], q.selection, q.name) {
        items := items + [t.rows[id]];
      }
      id := id + 1;
    }
    PageOfRows(t, q, rows, items, id);
    if |items| > q.limit {
      items := items[..|items| - 1];
      return Answer(Page(items, Some(items[|items| - 1].id)));
    }
    return Answer(Page(items, None));
  }

  /** Following the continuation cursor from `afterId` to the last page. */
  ghost function FollowPages(t: Table, q: Query): seq<Schedule>
    requires Valid(t) && 1 <= q.limit <= 1000
    requires q.afterId.Some? ==> 1 <= q.afterId.value <= t.lastId
    decreases if q.afterId.Some? then t.lastId - q.afterId.value else t.lastId
  {
    PageAdvances(t, q);
    var page := RunQuery(t, q).page;
    if page.nextAfterId.None? then page.items
    else page.items + FollowPages(t, q.(afterId := page.nextAfterId))
  }

  /** A continuation cursor lies after the one before it and names a row. */
  lemma PageAdvances(t: Table, q: Query)
    requires Valid(t) && 1 <= q.limit <= 1000
    requires q.afterId.Some? ==> 1 <= q.afterId.value <= t.lastId
    ensures RunQuery(t, q).Answer?
    ensures var next := RunQuery(t, q).page.nextAfterId;
            next.Some? ==>
              && 1 <= next.value <= t.lastId
              && (q.afterId.Some? ==> q.afterId.value < next.value)
  {
    var after := if q.afterId.Some? then q.afterId.value else 0;
    ScanIsFilteredTable(t, q.selection, q.name, after + 1);
    var rows := Scan(t, q.selection, q.name, after + 1);
    if |rows| > q.limit {
      assert rows[q.limit - 1] in rows;
    }
  }

  lemma RowHasItsId(t: Table, id: nat)
    requires Valid(t) && id in t.rows
    ensures t.rows[id].id == id
  {
  }

  lemma TakesOneMore<T>(first: T, rest: seq<T>, tail: seq<T>, count: nat)
    requires 1 < count <= |rest| + 1 && rest == rest[..count - 1] + tail
    ensures [first] + rest == ([first] + rest)[..count] + tail
  {
    assert ([first] + rest)[..count] == [first] + rest[..count - 1];
  }

  /** The rest of a scan begins after the last row already taken. */
  lemma {:induction false} ScanSplits(t: Table, selection: Selection, name: Option<string>, from: nat, count: nat)
    requires Valid(t)
    requires 0 < count <= |Scan(t, selection, name, from)|
    ensures var rows := Scan(t, selection, name, from);
            rows == rows[..count] + Scan(t, selection, name, rows[count - 1].id + 1)
    decreases t.lastId + 1 - from
  {
    hide Valid, Scan, Selected;
    ScanStep(t, selection, name, from);
    var rows := Scan(t, selection, name, from);
    var rest := Scan(t, selection, name, from + 1);
    assert [] + rest == rest;
    if from in t.rows && Selected(t.rows[from], selection, name) {
      if count > 1 {
        ScanSplits(t, selection, name, from + 1, count - 1);
        TakesOneMore(t.rows[from], rest, Scan(t, selection, name, rest[count - 2].id + 1), count);
      } else {
        RowHasItsId(t, from);
        assert rows[..1] == [t.rows[from]];
      }
    } else {
      ScanSplits(t, selection, name, from + 1, count);
    }
  }

  /** The pages, one after the other, are the whole filtered table: no row lost or repeated. */
  lemma {:induction false} PagesAreTheFilteredTable(t: Table, q: Query)
    requires Valid(t) && 1 <= q.limit <= 1000
    requires q.afterId.Some? ==> 1 <= q.afterId.value <= t.lastId
    ensures FollowPages(t, q) == Scan(t, q.selection, q.name, if q.afterId.Some? then q.afterId.value + 1 else 1)
    decreases if q.afterId.Some? then t.lastId - q.afterId.value else t.lastId
  {
    PageAdvances(t, q);
    var page := RunQuery(t, q).page;
    var from := if q.afterId.Some? then q.afterId.value + 1 else 1;
    if page.nextAfterId.Some? {
      PagesAreTheFilteredTable(t, q.(afterId := page.nextAfterId));
      ScanSplits(t, q.selection, q.name, from, q.limit);
    }
  }

  // ------------------------------------------------------------------
  // The active rows
  // ------------------------------------------------------------------

  predicate ComesBefore(a: Schedule, b: Schedule) {
    a.createdAt < b.createdAt || (a.createdAt == b.createdAt && a.id < b.id)
  }

  function InsertByCreation(row: Schedule, rows: seq<Schedule>): (r: seq<Schedule>)
    ensures forall x :: x in r <==> x == row || x in rows
    ensures |r| == |rows| + 1
  {
    if rows == [] then [row]
    else if ComesBefore(row, rows[0]) then [row] + rows
    else [rows[0]] + InsertByCreation(row, rows[1..])
  }

  /** The active rows that decode, oldest first; `unreadable` rows are skipped. */
  function ListFrom(t: Table, unreadable: set<nat>, from: nat): seq<Schedule>
    decreases t.lastId + 1 - from
  {
    if from > t.lastId then []
    else
      var rest := ListFrom(t, unreadable, from + 1);
      if from in t.rows && t.rows[from].IsActive() && from !in unreadable
      then InsertByCreation(t.rows[from], rest)
      else rest
  }

  function ListActive(t: Table, unreadable: set<nat>): seq<Schedule> {
    ListFrom(t, unreadable, 1)
  }

  ghost predicate OldestFirst(rows: seq<Schedule>) {
    forall i, j :: 0 <= i < j < |rows| ==> ComesBefore(rows[i], rows[j])
  }

  /** By ascending time of creation, rows of the same time by ascending id. */
  ghost predicate ByCreation(rows: seq<Schedule>) {
    forall i, j :: 0 <= i < j < |rows| ==>
      && rows[i].createdAt <= rows[j].createdAt
      && (rows[i].createdAt == rows[j].createdAt ==> rows[i].id < rows[j].id)
  }

  lemma {:induction false} InsertKeepsOrder(row: Schedule, rows: seq<Schedule>)
    requires OldestFirst(rows)
    requires forall x :: x in rows ==> x.id != row.id
    ensures OldestFirst(InsertByCreation(row, rows))
  {
    if rows != [] {
      assert rows[0] in rows;
      if !ComesBefore(row, rows[0]) {
        assert forall x :: x in rows[1..] ==> x in rows;
        InsertKeepsOrder(row, rows[1..]);
        var tail := InsertByCreation(row, rows[1..]);
        forall k | 0 <= k < |tail| ensures ComesBefore(rows[0], tail[k]) {
          assert tail[k] in tail;
          if tail[k] != row {
            var m :| 0 <= m < |rows[1..]| && rows[1..][m] == tail[k];
            assert rows[m + 1] == tail[k];
          }
        }
      }
    }
  }

  /** The list holds every readable active row exactly once, oldest first. */
  lemma {:induction false} ListIsActiveRows(t: Table, unreadable: set<nat>, from: nat)
    requires Valid(t)
    ensures var rows := ListFrom(t, unreadable, from);
            && OldestFirst(rows) && ByCreation(rows)
            && forall row :: row in rows <==>
                 && row.id in t.rows && row == t.rows[row.id] && row.id >= from && row.endedAt.None?
                 && row.id !in unreadable
    decreases t.lastId + 1 - from
  {
    if from <= t.lastId {
      ListIsActiveRows(t, unreadable, from + 1);
      if from in t.rows && t.rows[from].IsActive() && from !in unreadable {
        InsertKeepsOrder(t.rows[from], ListFrom(t, unreadable, from + 1));
      }
    }
  }

  /** The rows of one list have pairwise distinct ids. */
  lemma ListIdsDistinct(t: Table, unreadable: set<nat>)
    requires Valid(t)
    ensures var rows := ListActive(t, unreadable);
            forall i, j :: 0 <= i < j < |rows| ==> rows[i].id != rows[j].id
  {
    ListIsActiveRows(t, unreadable, 1);
    var rows := ListActive(t, unreadable);
    forall i, j | 0 <= i < j < |rows| ensures rows[i].id != rows[j].id {
      assert ComesBefore(rows[i], rows[j]);
      assert rows[i] in rows && rows[j] in rows;
    }
  }
}
