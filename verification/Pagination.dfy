/**
 getMarkets and getBets of indexer/src/db.js step by step: the parameters they push, the query they build
 around their positions, the rows they pop. The database answers a query by sorting, skipping and cutting.
 */
module Pagination {
  import opened Results
  import opened PaginationModel

  datatype Param = Num(n: int) | Text(s: string)

  /** A SELECT on one table, with the 1-based positions of the parameters it mentions. */
  datatype Query = Query(
    marketParam: Option<nat>, timeParam: Option<nat>, idParam: Option<nat>, limitParam: nat, offsetParam: Option<nat>)

  /** What the query asks for once its parameters are filled in. */
  datatype Plan = Plan(market: Option<string>, cursor: Option<Cursor>, limit: int, offset: int)

  function Number(params: seq<Param>, at: nat): Option<int>
  {
    if 1 <= at <= |params| && params[at - 1].Num? then Some(params[at - 1].n) else None
  }

  /** None when a parameter is missing or of the wrong type, or when LIMIT or OFFSET is negative. */
  function Fill(q: Query, params: seq<Param>): Option<Plan>
  {
    var market := if q.marketParam.None? then Some(None)
                  else if 1 <= q.marketParam.value <= |params| && params[q.marketParam.value - 1].Text?
                  then Some(Some(params[q.marketParam.value - 1].s)) else None;
    var cursor := if q.timeParam.None? && q.idParam.None? then Some(None)
                  else if q.timeParam.None? || q.idParam.None? then None
                  else
                    var time, id := Number(params, q.timeParam.value), Number(params, q.idParam.value);
                    if time.Some? && id.Some? then Some(Some(Cursor(time.value, id.value))) else None;
    var limit := Number(params, q.limitParam);
    var offset := if q.offsetParam.None? then Some(0) else Number(params, q.offsetParam.value);
    if market.None? || cursor.None? || limit.None? || offset.None? || limit.value < 0 || offset.value < 0 then None
    else Some(Plan(market.value, cursor.value, limit.value, offset.value))
  }

  function OfMarket(t: set<Row>, market: Option<string>): set<Row>
  {
    match market
    case None => t
    case Some(m) => set r | r in t && r.marketId == m
  }

  ghost function Answer(t: set<Row>, plan: Plan): seq<Row>
    requires UniqueIds(t)
  {
    Take(Drop(Sorted(Rest(OfMarket(t, plan.market), plan.cursor)), plan.offset), plan.limit)
  }

  /** `Math.min(MAX_PAGE, Number(limit) || 20)` */
  function EffectiveLimit(limit: int): int
  {
    var wanted := if limit == 0 then 20 else limit;
    if wanted < MAX_PAGE then wanted else MAX_PAGE
  }

  /** The offset that a request without a cursor asks for; with a cursor the page number is ignored. */
  function OffsetFor(cursor: Option<Cursor>, page: int, limit: int): int
  {
    var pageNum := if page == 0 then 1 else page;
    if cursor.None? && pageNum > 1 then (pageNum - 1) * limit else 0
  }

  /** Both queries of a request stand in one `try`: the count comes first, and a failure skips the rest. */
  datatype Failure = NoFailure | CountFails | SelectFails

  /** What a request answers: the rows and the cursor, the size of the whole list, and the settings used. */
  datatype Response = Response(page: Page, total: nat, limit: int, pageNum: int)

  /** The page that the request asks for, or nothing at all when the limit is negative or a query fails. */
  ghost function ExpectedPage(
      t: set<Row>, market: Option<string>, limit: int, cursor: Option<Cursor>, page: int, failure: Failure): Page
    requires UniqueIds(t)
  {
    var n := EffectiveLimit(limit);
    if failure != NoFailure || n < 1 then Page([], None)
    else PageOf(OfMarket(t, market), cursor, n, OffsetFor(cursor, page, n))
  }

  /** The total counts the whole list, wherever the cursor stands; it is 0 only when counting itself fails. */
  ghost function Expected(
      t: set<Row>, market: Option<string>, limit: int, cursor: Option<Cursor>, page: int, failure: Failure): Response
    requires UniqueIds(t)
  {
    Response(ExpectedPage(t, market, limit, cursor, page, failure),
             if failure == CountFails then 0 else |OfMarket(t, market)|,
             EffectiveLimit(limit), if page == 0 then 1 else page)
  }

  /** The newest row comes next. */
  lemma TakeTop(sorted: seq<Row>, rest: set<Row>, top: Row)
    requires UniqueIds(rest) && IsTop(rest, top)
    ensures UniqueIds(rest - {top}) && sorted + Sorted(rest) == (sorted + [top]) + Sorted(rest - {top})
  {
    OneTop(rest, top, Top(rest));
    assert Sorted(rest) == [top] + Sorted(rest - {top});
  }

  class Database {
    var table: set<Row>

    constructor (rows: set<Row>)
      ensures table == rows
    {
      table := rows;
    }

    /** ORDER BY created_at DESC, id DESC */
    method Order(rows: set<Row>) returns (sorted: seq<Row>)
      requires UniqueIds(rows)
      ensures sorted == Sorted(rows)
    {
      sorted := [];
      var rest := rows;
      while rest != {}
        invariant rest <= rows && UniqueIds(rest)
        invariant Sorted(rows) == sorted + Sorted(rest)
        decreases rest
      {
        TopExists(rest);
        var top :| top in rest && forall s :: s in rest && s != top ==> Newer(top, s);
        TakeTop(sorted, rest, top);
        sorted := sorted + [top];
        rest := rest - {top};
      }
    }

    /** Runs the query; `fails` stands for a database that cannot be reached. */
    method Select(q: Query, params: seq<Param>, fails: bool) returns (rows: Option<seq<Row>>)
      requires UniqueIds(table)
      ensures fails || Fill(q, params).None? ==> rows == None
      ensures !fails && Fill(q, params).Some? ==> rows == Some(Answer(table, Fill(q, params).value))
    {
      var plan := Fill(q, params);
      if fails || plan.None? { return None; }
      var p := plan.value;
      var matching := match p.market { case None => table case Some(m) => set r | r in table && r.marketId == m };
      var below := match p.cursor { case None => matching case Some(c) => set r | r in matching && Below(r, c) };
      assert matching == OfMarket(table, p.market) && below == Rest(matching, p.cursor);
      var sorted := Order(below);
      return Some(Take(Drop(sorted, p.offset), p.limit));
    }

    /**
     Drops the row too many and hands out a cursor for what follows; JavaScript's pop leaves an empty array
     empty.
     */
    method PopExtra(fetched: seq<Row>, limitNum: int) returns (r: Page)
      ensures limitNum >= 1 && |fetched| <= limitNum + 1 ==> r == PageFrom(fetched, limitNum)
      ensures fetched == [] ==> r == Page([], None)
    {
      var rows, next := fetched, None;
      if |rows| > limitNum {
        if |rows| > 0 { rows := rows[..|rows| - 1]; }
        if |rows| > 0 { next := Some(CursorOf(rows[|rows| - 1])); }
      }
      return Page(rows, next);
    }

    /** The parameters of getBets in the order in which they are pushed, and the query that points at them. */
    method BuildBetsQuery(marketId: string, limitNum: int, cursor: Option<Cursor>, offset: int)
      returns (q: Query, params: seq<Param>)
      ensures Fill(q, params) ==
              if limitNum + 1 < 0 then None
              else Some(Plan(if marketId == "" then None else Some(marketId), cursor, limitNum + 1,
                             if offset > 0 then offset else 0))
    {
      params := [];
      q := Query(None, None, None, 0, None);
      if marketId != "" {
        params := params + [Text(marketId)];
        q := q.(marketParam := Some(|params|));
      }
      if cursor.Some? {
        params := params + [Num(cursor.value.time), Num(cursor.value.id)];
        q := q.(timeParam := Some(|params| - 1), idParam := Some(|params|));
      }
      params := params + [Num(limitNum + 1)];
      q := q.(limitParam := |params|);
      if offset > 0 {
        params := params + [Num(offset)];
        q := q.(offsetParam := Some(|params|));
      }
    }

    /** The parameters of getMarkets, whose cursor always takes the first two places. */
    method BuildMarketsQuery(limitNum: int, cursor: Option<Cursor>, offset: int) returns (q: Query, params: seq<Param>)
      ensures Fill(q, params) ==
              if limitNum + 1 < 0 then None
              else Some(Plan(None, cursor, limitNum + 1, if offset > 0 then offset else 0))
    {
      params := [];
      q := Query(None, None, None, 0, None);
      if cursor.Some? {
        params := params + [Num(cursor.value.time), Num(cursor.value.id)];
        q := q.(timeParam := Some(1), idParam := Some(2));
      }
      params := params + [Num(limitNum + 1)];
      q := q.(limitParam := |params|);
      if offset > 0 {
        params := params + [Num(offset)];
        q := q.(offsetParam := Some(|params|));
      }
    }

    /** SELECT COUNT(*), of all rows or of one market's. */
    method Count(market: Option<string>) returns (total: nat)
      ensures total == |OfMarket(table, market)|
    {
      var matching := match market { case None => table case Some(m) => set r | r in table && r.marketId == m };
      assert matching == OfMarket(table, market);
      return |matching|;
    }

    /** What both functions do with their queries: a failure counts as no rows at all. */
    method FetchPage(market: Option<string>, q: Query, params: seq<Param>, limitNum: int, failure: Failure)
      returns (r: Page, total: nat)
      requires UniqueIds(table)
      ensures total == if failure == CountFails then 0 else |OfMarket(table, market)|
      ensures failure != NoFailure || Fill(q, params).None? ==> r == Page([], None)
      ensures Fill(q, params).Some? && Fill(q, params).value.limit == 0 ==> r == Page([], None)
      ensures failure == NoFailure && Fill(q, params).Some? && 1 <= limitNum
              && Fill(q, params).value.limit == limitNum + 1 ==>
                r == PageFrom(Answer(table, Fill(q, params).value), limitNum)
    {
      var rows := [];
      total := 0;
      if failure != CountFails {
        total := Count(market);
        var answer := Select(q, params, failure == SelectFails);
        if answer.Some? { rows := answer.value; }
      }
      r := PopExtra(rows, limitNum);
    }

    method GetMarkets(limit: int, cursor: Option<Cursor>, page: int, failure: Failure) returns (r: Response)
      requires UniqueIds(table)
      ensures r == Expected(table, None, limit, cursor, page, failure)
    {
      var limitNum := EffectiveLimit(limit);
      var pageNum := if page == 0 then 1 else page;
      var offset := if cursor.None? && pageNum > 1 then (pageNum - 1) * limitNum else 0;
      if pageNum > 1 && limitNum >= 1 { OffsetNonNegative(pageNum, limitNum); }
      var q, params := BuildMarketsQuery(limitNum, cursor, offset);
      var fetched, total := FetchPage(None, q, params, limitNum, failure);
      return Response(fetched, total, limitNum, pageNum);
    }

    method GetBets(marketId: string, limit: int, cursor: Option<Cursor>, page: int, failure: Failure)
      returns (r: Response)
      requires UniqueIds(table)
      ensures r == Expected(table, if marketId == "" then None else Some(marketId), limit, cursor, page, failure)
    {
      var limitNum := EffectiveLimit(limit);
      var pageNum := if page == 0 then 1 else page;
      var offset := if cursor.None? && pageNum > 1 then (pageNum - 1) * limitNum else 0;
      if pageNum > 1 && limitNum >= 1 { OffsetNonNegative(pageNum, limitNum); }
      var q, params := BuildBetsQuery(marketId, limitNum, cursor, offset);
      var fetched, total := FetchPage(if marketId == "" then None else Some(marketId), q, params, limitNum, failure);
      return Response(fetched, total, limitNum, pageNum);
    }
  }

  lemma OffsetNonNegative(pageNum: int, limitNum: int)
    requires pageNum > 1 && limitNum >= 1
    ensures (pageNum - 1) * limitNum >= 0
  {
  }

  // What the responses mean.

  /** The rows that belong to the market asked for, if one is, and that the cursor has not passed. */
  ghost function Wanted(t: set<Row>, market: Option<string>, cursor: Option<Cursor>): set<Row>
  {
    set r | r in t && (market.Some? ==> r.marketId == market.value)
                   && (cursor.Some? ==> r.createdAt < cursor.value.time
                                        || (r.createdAt == cursor.value.time && r.id < cursor.value.id))
  }

  lemma WantedIs(t: set<Row>, market: Option<string>, cursor: Option<Cursor>)
    ensures Rest(OfMarket(t, market), cursor) == Wanted(t, market, cursor)
    ensures OfMarket(t, market) == Wanted(t, market, None)
    ensures UniqueIds(t) ==> UniqueIds(Wanted(t, market, cursor))
  {
  }

  /** The elements from place `skip` on, at most `n`, as far as there are any. */
  function Slice(s: seq<Row>, skip: int, n: int): seq<Row>
    requires skip >= 0 && n >= 0
  {
    if skip >= |s| then [] else if skip + n >= |s| then s[skip..] else s[skip..skip + n]
  }

  lemma PageIsSlice(s: seq<Row>, skip: int, n: int)
    requires skip >= 0 && n >= 1
    ensures var page := PageFrom(Take(Drop(s, skip), n + 1), n);
            && page.rows == Slice(s, skip, n) && (page.next.Some? <==> |s| > skip + n)
            && (page.next.Some? ==> page.rows != [] && page.next.value == CursorOf(page.rows[|page.rows| - 1]))
  {
    var rest := Drop(s, skip);
    assert rest == if skip < |s| then s[skip..] else [];
    var fetched := Take(rest, n + 1);
    if |rest| > n {
      assert fetched == rest[..n + 1] && fetched[..n] == s[skip..skip + n];
    } else {
      assert fetched == rest;
    }
  }

  /**
   A response in full, when no query fails: at most 200 rows, 20 if no number is given; they are the newest of the
   wanted ones in order, page after page without a cursor; a next cursor is there exactly if more rows follow, and
   is that of the last row; and the total counts all rows of the market, wherever the cursor stands.
   */
  lemma ResponseIs(t: set<Row>, market: Option<string>, limit: int, cursor: Option<Cursor>, page: int)
    requires UniqueIds(t) && limit >= 0
    ensures var r, wanted := Expected(t, market, limit, cursor, page, NoFailure), Wanted(t, market, cursor);
            var n := if limit == 0 then 20 else if limit > 200 then 200 else limit;
            var skipped := if cursor.None? && page > 1 then (page - 1) * n else 0;
            var rows, next := r.page.rows, r.page.next;
            && r.limit == n && r.pageNum == (if page == 0 then 1 else page)
            && r.total == |Wanted(t, market, None)|
            && UniqueIds(wanted) && skipped >= 0 && rows == Slice(Sorted(wanted), skipped, n)
            && (next.Some? <==> |wanted| > skipped + n)
            && (next.Some? ==> rows != [] && next.value == CursorOf(rows[|rows| - 1]))
  {
    WantedIs(t, market, cursor);
    var n := EffectiveLimit(limit);
    var skipped := OffsetFor(cursor, page, n);
    if cursor.None? && page > 1 { OffsetNonNegative(page, n); }
    PageIsSlice(Sorted(Wanted(t, market, cursor)), skipped, n);
  }

  /** A failed query or a negative limit costs the rows, and a failed count the total as well; nothing is thrown. */
  lemma FailedResponseIs(t: set<Row>, market: Option<string>, limit: int, cursor: Option<Cursor>, page: int)
    requires UniqueIds(t)
    ensures Expected(t, market, limit, cursor, page, CountFails).page == Page([], None)
    ensures Expected(t, market, limit, cursor, page, SelectFails).page == Page([], None)
    ensures limit < 0 ==> Expected(t, market, limit, cursor, page, NoFailure).page == Page([], None)
    ensures Expected(t, market, limit, cursor, page, CountFails).total == 0
    ensures Expected(t, market, limit, cursor, page, SelectFails).total == |Wanted(t, market, None)|
  {
    WantedIs(t, market, None);
  }
}
