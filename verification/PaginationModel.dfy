/**
 Keyset pagination of indexer/src/db.js (getMarkets, getBets): pages of a table in descending order of
 (created_at, id), each starting below the cursor that the page before it handed out.
 */
module PaginationModel {
  import opened Results
  import opened Sums

  /** `createdAt` counts microseconds, the resolution of the database; ids are unique in a table. */
  datatype Row = Row(createdAt: int, id: int, marketId: string)

  /** What a cursor holds once decoded: the time in whole milliseconds, here as microseconds. */
  datatype Cursor = Cursor(time: int, id: int)

  const MAX_PAGE: int := 200

  ghost predicate UniqueIds(t: set<Row>) { forall r, s :: r in t && s in t && r.id == s.id ==> r == s }

  /** `r` comes before `s` in descending order. */
  predicate Newer(r: Row, s: Row) { r.createdAt > s.createdAt || (r.createdAt == s.createdAt && r.id > s.id) }

  /** encodeCursor: `toISOString` keeps milliseconds and drops the rest. */
  function CursorOf(r: Row): Cursor { Cursor(r.createdAt / 1000 * 1000, r.id) }

  /** `(created_at, id) < ($1, $2)` */
  predicate Below(r: Row, c: Cursor) { r.createdAt < c.time || (r.createdAt == c.time && r.id < c.id) }

  function Rest(t: set<Row>, cursor: Option<Cursor>): set<Row>
  {
    match cursor
    case None => t
    case Some(c) => set r | r in t && Below(r, c)
  }

  // The table in order.

  ghost predicate IsTop(t: set<Row>, r: Row) { r in t && forall s :: s in t && s != r ==> Newer(r, s) }

  lemma {:induction false} TopExists(t: set<Row>)
    requires UniqueIds(t) && t != {}
    ensures exists r :: IsTop(t, r)
    decreases t
  {
    var x :| x in t;
    if t == {x} {
      assert IsTop(t, x);
    } else {
      TopExists(t - {x});
      var r :| IsTop(t - {x}, r);
      assert r in t && r != x;
      assert x.id != r.id;
      forall s | s in t && s != x && s != r ensures Newer(r, s) { assert s in t - {x}; }
      if Newer(x, r) { assert IsTop(t, x); } else { assert IsTop(t, r); }
    }
  }

  ghost function Top(t: set<Row>): (r: Row)
    requires UniqueIds(t) && t != {}
    ensures IsTop(t, r)
  {
    TopExists(t);
    var r :| IsTop(t, r);
    r
  }

  /** ORDER BY created_at DESC, id DESC */
  ghost function Sorted(t: set<Row>): (s: seq<Row>)
    requires UniqueIds(t)
    ensures |s| == |t|
  {
    if t == {} then [] else [Top(t)] + Sorted(t - {Top(t)})
  }

  ghost predicate Descending(s: seq<Row>) { forall i, j :: 0 <= i < j < |s| ==> Newer(s[i], s[j]) }

  ghost function Elements(s: seq<Row>): set<Row> { set r | r in s }

  lemma {:induction false} SortedIsDescending(t: set<Row>)
    requires UniqueIds(t)
    ensures Descending(Sorted(t)) && Elements(Sorted(t)) == t
    decreases t
  {
    if t != {} {
      SortedIsDescending(t - {Top(t)});
      InFront(Top(t), Sorted(t - {Top(t)}));
      assert {Top(t)} + (t - {Top(t)}) == t;
    }
  }

  lemma InFront(top: Row, rest: seq<Row>)
    requires Descending(rest) && forall r :: r in Elements(rest) ==> Newer(top, r)
    ensures Descending([top] + rest) && Elements([top] + rest) == {top} + Elements(rest)
  {
  }

  /** The rows after position `k` are the older ones, still in order. */
  lemma TailElements(s: seq<Row>, k: nat, older: set<Row>)
    requires Descending(s) && k < |s|
    requires forall r :: r in older <==> r in Elements(s) && Newer(s[k], r)
    ensures Descending(s[k + 1..]) && Elements(s[k + 1..]) == older
  {
  }

  lemma SubsetUnique(a: set<Row>, b: set<Row>)
    requires a <= b && UniqueIds(b)
    ensures UniqueIds(a)
  {
  }

  lemma OneTop(t: set<Row>, a: Row, b: Row)
    requires IsTop(t, a) && IsTop(t, b)
    ensures a == b
  {
  }

  lemma FirstIsTop(s: seq<Row>)
    requires Descending(s) && s != []
    ensures IsTop(Elements(s), s[0])
  {
  }

  /** A descending list is determined by its elements. */
  lemma {:induction false} OneOrder(s: seq<Row>, t: set<Row>)
    requires UniqueIds(t) && Descending(s) && Elements(s) == t
    ensures Sorted(t) == s
    decreases t
  {
    if s == [] {
      assert t == {};
    } else {
      FirstIsTop(s);
      OneTop(t, Top(t), s[0]);
      TailElements(s, 0, t - {s[0]});
      OneOrder(s[1..], t - {s[0]});
    }
  }

  /** In a descending list the newer of two rows stands first. */
  lemma NewerFirst(all: seq<Row>, r: Row, s: Row) returns (k: nat, m: nat)
    requires Descending(all) && r in all && s in all && Newer(r, s)
    ensures k < m < |all| && all[k] == r && all[m] == s
  {
    k :| 0 <= k < |all| && all[k] == r;
    m :| 0 <= m < |all| && all[m] == s;
    assert !Newer(all[m], all[k]);
  }

  // One page.

  datatype Page = Page(rows: seq<Row>, next: Option<Cursor>)

  /** limit + 1 rows are fetched; one too many means there is a further page, which starts after the last row kept. */
  function PageFrom(fetched: seq<Row>, limit: int): Page
    requires limit >= 1
  {
    if |fetched| > limit then Page(fetched[..limit], Some(CursorOf(fetched[limit - 1]))) else Page(fetched, None)
  }

  function Take(s: seq<Row>, n: int): seq<Row> { if n <= 0 then [] else if n < |s| then s[..n] else s }

  function Drop(s: seq<Row>, n: int): seq<Row> { if n <= 0 then s else if n < |s| then s[n..] else [] }

  /** The rows that `LIMIT limit + 1 OFFSET offset` leaves of the ordered rest of the table. */
  ghost function Fetch(t: set<Row>, cursor: Option<Cursor>, limit: int, offset: int): seq<Row>
    requires UniqueIds(t)
  {
    Take(Drop(Sorted(Rest(t, cursor)), offset), limit + 1)
  }

  ghost function PageOf(t: set<Row>, cursor: Option<Cursor>, limit: int, offset: int): Page
    requires UniqueIds(t) && limit >= 1
  {
    PageFrom(Fetch(t, cursor, limit, offset), limit)
  }

  // Following the cursors.

  /** All rows handed out from this cursor on, request after request, while the table stays as it is. */
  ghost function Follow(t: set<Row>, cursor: Option<Cursor>, limit: int): seq<Row>
    requires UniqueIds(t) && limit >= 1
    decreases |Rest(t, cursor)|
  {
    var page := PageOf(t, cursor, limit, 0);
    match page.next
    case None => page.rows
    case Some(c) => NextIsSmaller(t, cursor, limit); page.rows + Follow(t, Some(c), limit)
  }

  lemma CursorNotAbove(r: Row)
    ensures !Below(r, CursorOf(r))
    ensures forall s :: Below(s, CursorOf(r)) ==> Newer(r, s)
  {
  }

  lemma SubsetSmaller(a: set<Row>, b: set<Row>, r: Row)
    requires a <= b && r in b && r !in a
    ensures |a| < |b|
  {
    SubsetSize(a, b - {r});
  }

  /** Whatever lies below a row that was below the old cursor is below the old cursor too. */
  lemma BelowLast(t: set<Row>, cursor: Option<Cursor>, last: Row)
    requires last in Rest(t, cursor)
    ensures Rest(t, Some(CursorOf(last))) <= Rest(t, cursor)
    ensures forall r :: r in t && Newer(last, r) ==> r in Rest(t, cursor)
  {
  }

  /** The next page starts in a strictly smaller rest, so following cursors always comes to an end. */
  lemma NextIsSmaller(t: set<Row>, cursor: Option<Cursor>, limit: int)
    requires UniqueIds(t) && limit >= 1 && PageOf(t, cursor, limit, 0).next.Some?
    ensures |Rest(t, PageOf(t, cursor, limit, 0).next)| < |Rest(t, cursor)|
    ensures Sorted(Rest(t, cursor))[limit - 1] in Rest(t, cursor)
  {
    var s := Sorted(Rest(t, cursor));
    SortedIsDescending(Rest(t, cursor));
    var last := s[limit - 1];
    assert last in Elements(s);
    BelowLast(t, cursor, last);
    CursorNotAbove(last);
    SubsetSmaller(Rest(t, Some(CursorOf(last))), Rest(t, cursor), last);
  }

  // No row gets lost, if no row hides between another and its cursor.

  /** Some row lies in the part of a millisecond that the cursor of `r` cuts off. */
  ghost predicate Hidden(t: set<Row>, r: Row, s: Row)
  {
    r in t && s in t && Newer(r, s) && !Below(s, CursorOf(r))
  }

  ghost predicate GapFree(t: set<Row>) { forall r, s :: !Hidden(t, r, s) }

  /** Whole milliseconds everywhere are enough. */
  lemma MillisecondsAreGapFree(t: set<Row>)
    requires forall r :: r in t ==> r.createdAt % 1000 == 0
    ensures GapFree(t)
  {
  }

  /** Without hidden rows, below the cursor of a row is exactly after that row. */
  lemma BelowIsOlder(t: set<Row>, cursor: Option<Cursor>, last: Row, r: Row)
    requires last in Rest(t, cursor) && GapFree(Rest(t, cursor))
    ensures r in Rest(t, Some(CursorOf(last))) <==> r in Rest(t, cursor) && Newer(last, r)
  {
    BelowLast(t, cursor, last);
    CursorNotAbove(last);
    assert !Hidden(Rest(t, cursor), last, r);
  }

  /** What is left after a page is exactly the rest of the ordered list. */
  lemma RestAfterPage(t: set<Row>, cursor: Option<Cursor>, limit: int)
    requires UniqueIds(t) && GapFree(Rest(t, cursor)) && 1 <= limit < |Rest(t, cursor)|
    ensures var s := Sorted(Rest(t, cursor)); Sorted(Rest(t, Some(CursorOf(s[limit - 1])))) == s[limit..]
  {
    var s := Sorted(Rest(t, cursor));
    var last := s[limit - 1];
    var below := Rest(t, Some(CursorOf(last)));
    SubsetUnique(below, t);
    SortedIsDescending(Rest(t, cursor));
    AfterPage(t, cursor, limit, s);
    OneOrder(s[limit..], below);
  }

  lemma AfterPage(t: set<Row>, cursor: Option<Cursor>, limit: int, s: seq<Row>)
    requires GapFree(Rest(t, cursor)) && 1 <= limit < |s|
    requires Descending(s) && Elements(s) == Rest(t, cursor)
    ensures Descending(s[limit..]) && Elements(s[limit..]) == Rest(t, Some(CursorOf(s[limit - 1])))
  {
    var last := s[limit - 1];
    assert last in Elements(s);
    forall r ensures r in Rest(t, Some(CursorOf(last))) <==> r in Elements(s) && Newer(last, r) {
      BelowIsOlder(t, cursor, last, r);
    }
    TailElements(s, limit - 1, Rest(t, Some(CursorOf(last))));
  }

  lemma GapFreeSubset(a: set<Row>, b: set<Row>)
    requires a <= b && GapFree(b)
    ensures GapFree(a)
  {
    forall r, s ensures !Hidden(a, r, s) { assert !Hidden(b, r, s); }
  }

  lemma PageIs(t: set<Row>, cursor: Option<Cursor>, limit: int)
    requires UniqueIds(t) && 1 <= limit < |Rest(t, cursor)|
    ensures var s := Sorted(Rest(t, cursor));
            PageOf(t, cursor, limit, 0) == Page(s[..limit], Some(CursorOf(s[limit - 1])))
  {
  }

  lemma LastPageIs(t: set<Row>, cursor: Option<Cursor>, limit: int)
    requires UniqueIds(t) && limit >= 1 && limit >= |Rest(t, cursor)|
    ensures PageOf(t, cursor, limit, 0) == Page(Sorted(Rest(t, cursor)), None)
  {
  }

  lemma GapFreeAfterPage(t: set<Row>, cursor: Option<Cursor>, limit: int)
    requires UniqueIds(t) && GapFree(Rest(t, cursor)) && 1 <= limit < |Rest(t, cursor)|
    ensures GapFree(Rest(t, Some(CursorOf(Sorted(Rest(t, cursor))[limit - 1]))))
  {
    var last := Sorted(Rest(t, cursor))[limit - 1];
    SortedIsDescending(Rest(t, cursor));
    assert last in Elements(Sorted(Rest(t, cursor)));
    BelowLast(t, cursor, last);
    GapFreeSubset(Rest(t, Some(CursorOf(last))), Rest(t, cursor));
  }

  /** Following the cursors over a fixed, gap-free table yields the table in order: no skips and no repeats. */
  lemma {:induction false} FollowYieldsAll(t: set<Row>, cursor: Option<Cursor>, limit: int)
    requires UniqueIds(t) && GapFree(Rest(t, cursor)) && limit >= 1
    ensures Follow(t, cursor, limit) == Sorted(Rest(t, cursor))
    decreases |Rest(t, cursor)|
  {
    if |Rest(t, cursor)| > limit {
      var c := CursorOf(Sorted(Rest(t, cursor))[limit - 1]);
      PageIs(t, cursor, limit);
      NextIsSmaller(t, cursor, limit);
      GapFreeAfterPage(t, cursor, limit);
      FollowYieldsAll(t, Some(c), limit);
      FollowStep(t, cursor, limit, c);
    } else {
      LastPageIs(t, cursor, limit);
    }
  }

  lemma FollowStep(t: set<Row>, cursor: Option<Cursor>, limit: int, c: Cursor)
    requires UniqueIds(t) && GapFree(Rest(t, cursor)) && 1 <= limit < |Rest(t, cursor)|
    requires c == CursorOf(Sorted(Rest(t, cursor))[limit - 1])
    requires Follow(t, Some(c), limit) == Sorted(Rest(t, Some(c)))
    ensures Follow(t, cursor, limit) == Sorted(Rest(t, cursor))
  {
    var s := Sorted(Rest(t, cursor));
    FirstPage(t, cursor, limit, c);
    RestAfterPage(t, cursor, limit);
    assert s[..limit] + s[limit..] == s;
  }

  lemma FirstPage(t: set<Row>, cursor: Option<Cursor>, limit: int, c: Cursor)
    requires UniqueIds(t) && 1 <= limit < |Rest(t, cursor)|
    requires c == CursorOf(Sorted(Rest(t, cursor))[limit - 1])
    ensures Follow(t, cursor, limit) == Sorted(Rest(t, cursor))[..limit] + Follow(t, Some(c), limit)
  {
    PageIs(t, cursor, limit);
    FollowUnfolds(t, cursor, limit);
  }

  lemma FollowUnfolds(t: set<Row>, cursor: Option<Cursor>, limit: int)
    requires UniqueIds(t) && limit >= 1 && PageOf(t, cursor, limit, 0).next.Some?
    ensures var page := PageOf(t, cursor, limit, 0); Follow(t, cursor, limit) == page.rows + Follow(t, page.next, limit)
  {
  }

  // The condition is exact.

  lemma {:induction false} FollowStaysBelow(t: set<Row>, c: Cursor, limit: int)
    requires UniqueIds(t) && limit >= 1
    ensures forall r :: r in Follow(t, Some(c), limit) ==> Below(r, c)
    decreases |Rest(t, Some(c))|
  {
    var page := PageOf(t, Some(c), limit, 0);
    SortedIsDescending(Rest(t, Some(c)));
    var s := Sorted(Rest(t, Some(c)));
    forall r | r in page.rows ensures Below(r, c) { assert r in Elements(s); }
    if page.next.Some? {
      NextIsSmaller(t, Some(c), limit);
      BelowLast(t, Some(c), s[limit - 1]);
      CursorNotAbove(s[limit - 1]);
      FollowStaysBelow(t, page.next.value, limit);
      forall r | r in Follow(t, page.next, limit) ensures Below(r, c) { assert Newer(s[limit - 1], r); }
    }
  }

  /** Every row lies below the cursors of all rows in front of it. */
  ghost predicate StepsDown(f: seq<Row>) { forall k, m :: 0 <= k < m < |f| ==> Below(f[m], CursorOf(f[k])) }

  lemma StepInFront(first: Row, rest: seq<Row>)
    requires StepsDown(rest) && forall r :: r in rest ==> Below(r, CursorOf(first))
    ensures StepsDown([first] + rest)
  {
  }

  /** One row a page: everything that follows a row is below that row's cursor. */
  lemma {:induction false} SinglePages(t: set<Row>, cursor: Option<Cursor>)
    requires UniqueIds(t)
    ensures StepsDown(Follow(t, cursor, 1))
    decreases |Rest(t, cursor)|
  {
    if |Follow(t, cursor, 1)| > 1 {
      var first := FirstSinglePage(t, cursor);
      FollowStaysBelow(t, CursorOf(first), 1);
      SinglePages(t, Some(CursorOf(first)));
      StepInFront(first, Follow(t, Some(CursorOf(first)), 1));
    }
  }

  lemma FirstSinglePage(t: set<Row>, cursor: Option<Cursor>) returns (first: Row)
    requires UniqueIds(t) && |Follow(t, cursor, 1)| > 1
    ensures Follow(t, cursor, 1) == [first] + Follow(t, Some(CursorOf(first)), 1)
    ensures |Rest(t, Some(CursorOf(first)))| < |Rest(t, cursor)|
  {
    var s := Sorted(Rest(t, cursor));
    if |s| <= 1 { LastPageIs(t, cursor, 1); }
    first := s[0];
    PageIs(t, cursor, 1);
    NextIsSmaller(t, cursor, 1);
    FollowUnfolds(t, cursor, 1);
    assert s[..1] == [first];
  }

  ghost predicate CompleteAt(t: set<Row>, limit: int)
    requires UniqueIds(t) && limit >= 1
  {
    Follow(t, None, limit) == Sorted(t)
  }

  /**
   Exactly: following the cursors gives the whole table in order for every page size if and only if no row
   lies between another row and its cursor.
   */
  lemma CompleteIffGapFree(t: set<Row>)
    requires UniqueIds(t)
    ensures (forall limit :: 1 <= limit <= MAX_PAGE ==> CompleteAt(t, limit)) <==> GapFree(t)
  {
    if GapFree(t) {
      forall limit | 1 <= limit <= MAX_PAGE ensures CompleteAt(t, limit) { FollowYieldsAll(t, None, limit); }
    } else {
      OnePerPageLoses(t);
      assert !CompleteAt(t, 1);
    }
  }

  lemma OnePerPageLoses(t: set<Row>)
    requires UniqueIds(t) && !GapFree(t)
    ensures Follow(t, None, 1) != Sorted(t)
  {
    var r, s :| Hidden(t, r, s);
    var all := Sorted(t);
    if Follow(t, None, 1) == all {
      SortedIsDescending(t);
      assert r in Elements(all) && s in Elements(all);
      var k, m := NewerFirst(all, r, s);
      SinglePages(t, None);
    }
  }

  /** Two rows within one millisecond, of which the second is on no page of one row each. */
  lemma MicrosecondsCanHideARow()
    ensures var a, b := Row(1900, 1, "m"), Row(1500, 2, "m");
            UniqueIds({a, b}) && b !in Follow({a, b}, None, 1)
  {
    var a, b := Row(1900, 1, "m"), Row(1500, 2, "m");
    var t := {a, b};
    assert IsTop(t, a) && Top(t) == a;
    assert PageOf(t, None, 1, 0) == Page([a], Some(CursorOf(a)));
    NextIsSmaller(t, None, 1);
    FollowStaysBelow(t, CursorOf(a), 1);
    assert Follow(t, None, 1) == [a] + Follow(t, Some(CursorOf(a)), 1);
    assert !Below(b, CursorOf(a)) && b !in Follow(t, Some(CursorOf(a)), 1);
  }

  // The table may grow at the top meanwhile.

  /** What a client collects who sends one request to each table in turn; `done` once a page has no cursor. */
  ghost function Session(tables: seq<set<Row>>, cursor: Option<Cursor>, limit: int): (seq<Row>, bool)
    requires (forall i :: 0 <= i < |tables| ==> UniqueIds(tables[i])) && limit >= 1
    decreases |tables|
  {
    if tables == [] then ([], false) else
      var page := PageOf(tables[0], cursor, limit, 0);
      if page.next.None? then (page.rows, true) else
        var (rows, done) := Session(tables[1..], page.next, limit);
        (page.rows + rows, done)
  }

  /** Between two requests the table may change in any way, except below the cursor just handed out. */
  ghost predicate UndisturbedBelow(tables: seq<set<Row>>, cursor: Option<Cursor>, limit: int)
    requires (forall i :: 0 <= i < |tables| ==> UniqueIds(tables[i])) && limit >= 1
    decreases |tables|
  {
    |tables| <= 1 ||
    (var next := PageOf(tables[0], cursor, limit, 0).next;
     next.Some? ==> Rest(tables[1], next) == Rest(tables[0], next) && UndisturbedBelow(tables[1..], next, limit))
  }

  lemma PageAndRest(t: set<Row>, cursor: Option<Cursor>, limit: int)
    requires UniqueIds(t) && GapFree(Rest(t, cursor)) && limit >= 1
    ensures var all, page := Sorted(Rest(t, cursor)), PageOf(t, cursor, limit, 0);
            && page.rows == Take(all, limit)
            && (page.next.None? <==> |all| <= limit)
            && (page.next.Some? ==> GapFree(Rest(t, page.next)) && Sorted(Rest(t, page.next)) == all[limit..])
  {
    if |Rest(t, cursor)| > limit {
      PageIs(t, cursor, limit);
      RestAfterPage(t, cursor, limit);
      GapFreeAfterPage(t, cursor, limit);
    } else {
      LastPageIs(t, cursor, limit);
    }
  }

  /** How many rows `pages` requests can bring. */
  function Budget(pages: nat, limit: int): int { if pages == 0 then 0 else limit + Budget(pages - 1, limit) }

  lemma {:induction false} BudgetIsProduct(pages: nat, limit: int)
    requires limit >= 1
    ensures Budget(pages, limit) == pages * limit >= 0
  {
    if pages > 0 { BudgetIsProduct(pages - 1, limit); }
  }

  ghost predicate Yields(result: (seq<Row>, bool), all: seq<Row>, budget: int)
  {
    result.0 == Take(all, budget) && (result.1 <==> |all| <= budget)
  }

  lemma {:induction false} SessionYieldsBudget(tables: seq<set<Row>>, cursor: Option<Cursor>, limit: int)
    requires (forall i :: 0 <= i < |tables| ==> UniqueIds(tables[i])) && limit >= 1
    requires tables != [] && GapFree(Rest(tables[0], cursor)) && UndisturbedBelow(tables, cursor, limit)
    ensures Yields(Session(tables, cursor, limit), Sorted(Rest(tables[0], cursor)), Budget(|tables|, limit))
    decreases |tables|
  {
    var page, rest := PageOf(tables[0], cursor, limit, 0), tables[1..];
    PageAndRest(tables[0], cursor, limit);
    if page.next.None? {
      SessionEnds(tables, cursor, limit);
    } else {
      if rest != [] { SessionYieldsBudget(rest, page.next, limit); }
      SessionGoesOn(tables, cursor, limit, Session(tables, cursor, limit), Sorted(Rest(tables[0], cursor)),
                    Budget(|tables|, limit));
    }
  }

  lemma SessionEnds(tables: seq<set<Row>>, cursor: Option<Cursor>, limit: int)
    requires (forall i :: 0 <= i < |tables| ==> UniqueIds(tables[i])) && limit >= 1
    requires tables != [] && GapFree(Rest(tables[0], cursor)) && PageOf(tables[0], cursor, limit, 0).next.None?
    ensures Yields(Session(tables, cursor, limit), Sorted(Rest(tables[0], cursor)), Budget(|tables|, limit))
  {
    var all, rows := Sorted(Rest(tables[0], cursor)), PageOf(tables[0], cursor, limit, 0).rows;
    PageAndRest(tables[0], cursor, limit);
    SessionUnfolds(tables, cursor, limit);
    BudgetIsProduct(|tables[1..]|, limit);
    LastPage(rows, all, limit, Budget(|tables[1..]|, limit));
  }

  lemma SessionGoesOn(tables: seq<set<Row>>, cursor: Option<Cursor>, limit: int,
                      result: (seq<Row>, bool), all: seq<Row>, budget: int)
    requires (forall i :: 0 <= i < |tables| ==> UniqueIds(tables[i])) && limit >= 1
    requires tables != [] && GapFree(Rest(tables[0], cursor)) && PageOf(tables[0], cursor, limit, 0).next.Some?
    requires var next, rest := PageOf(tables[0], cursor, limit, 0).next, tables[1..];
             rest != [] ==> Yields(Session(rest, next, limit), Sorted(Rest(tables[0], next)), Budget(|rest|, limit))
    requires result == Session(tables, cursor, limit) && all == Sorted(Rest(tables[0], cursor))
    requires budget == Budget(|tables|, limit)
    ensures Yields(result, all, budget)
  {
    var page, rest := PageOf(tables[0], cursor, limit, 0), tables[1..];
    PageAndRest(tables[0], cursor, limit);
    SessionUnfolds(tables, cursor, limit);
    BudgetIsProduct(|rest|, limit);
    LaterPages(rest, page.next, limit, all);
    var whole := PageThenRest(page.rows, Session(rest, page.next, limit), all, limit, Budget(|rest|, limit));
    assert result == whole;
  }

  lemma LaterPages(rest: seq<set<Row>>, next: Option<Cursor>, limit: int, all: seq<Row>)
    requires (forall i :: 0 <= i < |rest| ==> UniqueIds(rest[i])) && 1 <= limit < |all|
    requires rest != [] ==> Yields(Session(rest, next, limit), all[limit..], Budget(|rest|, limit))
    ensures Yields(Session(rest, next, limit), all[limit..], Budget(|rest|, limit))
  {
  }

  lemma LastPage(rows: seq<Row>, all: seq<Row>, limit: int, more: int)
    requires |all| <= limit && more >= 0 && rows == Take(all, limit)
    ensures Yields((rows, true), all, limit + more)
  {
  }

  lemma PageThenRest(rows: seq<Row>, later: (seq<Row>, bool), all: seq<Row>, limit: int, more: int)
    returns (whole: (seq<Row>, bool))
    requires 1 <= limit < |all| && more >= 0 && rows == Take(all, limit)
    requires Yields(later, all[limit..], more)
    ensures whole == (rows + later.0, later.1) && Yields(whole, all, limit + more)
  {
    whole := (rows + later.0, later.1);
  }

  lemma SessionUnfolds(tables: seq<set<Row>>, cursor: Option<Cursor>, limit: int)
    requires (forall i :: 0 <= i < |tables| ==> UniqueIds(tables[i])) && limit >= 1 && tables != []
    ensures var page := PageOf(tables[0], cursor, limit, 0);
            && (page.next.None? ==> Session(tables, cursor, limit) == (page.rows, true))
            && (page.next.Some? ==>
                  var later := Session(tables[1..], page.next, limit);
                  Session(tables, cursor, limit) == (page.rows + later.0, later.1))
    ensures Budget(|tables|, limit) == limit + Budget(|tables[1..]|, limit)
  {
  }

  /**
   Rows added above the cursor between pages do not disturb the walk: what is collected is always the
   beginning of the table as it was at the first request, and all of it once enough requests were made.
   */
  lemma {:induction false} SessionYieldsFirstTable(tables: seq<set<Row>>, cursor: Option<Cursor>, limit: int)
    requires (forall i :: 0 <= i < |tables| ==> UniqueIds(tables[i])) && limit >= 1
    requires tables != [] && GapFree(Rest(tables[0], cursor)) && UndisturbedBelow(tables, cursor, limit)
    ensures var (rows, done) := Session(tables, cursor, limit);
            var all := Sorted(Rest(tables[0], cursor));
            && rows == Take(all, |tables| * limit)
            && (done <==> |all| <= |tables| * limit)
  {
    SessionYieldsBudget(tables, cursor, limit);
    BudgetIsProduct(|tables|, limit);
  }

  /** All rows handed out when the first request skips `offset` rows and the others follow its cursor. */
  ghost function FromOffset(t: set<Row>, offset: int, limit: int): seq<Row>
    requires UniqueIds(t) && limit >= 1
  {
    var first := PageOf(t, None, limit, offset);
    if first.next.Some? then first.rows + Follow(t, first.next, limit) else first.rows
  }

  lemma MiddleOf(s: seq<Row>, offset: nat, limit: nat)
    requires 1 <= limit && offset + limit < |s|
    ensures Drop(s, offset) == s[offset..] && Drop(s, offset)[limit - 1] == s[offset + limit - 1]
    ensures Take(Drop(s, offset), limit + 1)[..limit] + s[offset + limit..] == Drop(s, offset)
    ensures Take(Drop(s, offset), limit + 1)[limit - 1] == s[offset + limit - 1]
    ensures |Take(Drop(s, offset), limit + 1)| == limit + 1
  {
  }

  lemma OffsetThenFollow(t: set<Row>, offset: nat, limit: int)
    requires UniqueIds(t) && GapFree(t) && limit >= 1
    ensures FromOffset(t, offset, limit) == Drop(Sorted(t), offset)
  {
    var s := Sorted(t);
    if |s| > offset + limit {
      var last := s[offset + limit - 1];
      MiddleOf(s, offset, limit);
      RestAfterPage(t, None, offset + limit);
      GapFreeAfterPage(t, None, offset + limit);
      FollowYieldsAll(t, Some(CursorOf(last)), limit);
    }
  }

  /** Starting on page `n` without a cursor skips whole pages of the order, and following goes on from there. */
  lemma PageThenFollow(t: set<Row>, page: nat, limit: int)
    requires UniqueIds(t) && GapFree(t) && limit >= 1 && page >= 1
    ensures FromOffset(t, (page - 1) * limit, limit) == Drop(Sorted(t), (page - 1) * limit)
  {
    var offset := (page - 1) * limit;
    assert offset >= 0;
    OffsetThenFollow(t, offset, limit);
  }
}
