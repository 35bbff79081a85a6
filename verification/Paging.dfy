/** Cursor paging by (date, id): the federation streams upwards, the front-page feed downwards. */
module Paging {
  import opened Bytes

  datatype RowKey = RowKey(date: int, id: seq<byte>)

  datatype Direction = Ascending | Descending

  const EVENTS_PAGE_LIMIT: nat := 200
  const FEED_PAGE_LIMIT: nat := 50

  /** Row comparison `(date, id) < (date, id)`. */
  predicate KeyLess(a: RowKey, b: RowKey)
  {
    a.date < b.date || (a.date == b.date && Less(a.id, b.id))
  }

  predicate Before(dir: Direction, a: RowKey, b: RowKey)
  {
    if dir.Ascending? then KeyLess(a, b) else KeyLess(b, a)
  }

  lemma BeforeTransitive(dir: Direction, a: RowKey, b: RowKey, c: RowKey)
    requires Before(dir, a, b) && Before(dir, b, c)
    ensures Before(dir, a, c)
  {
    if a.date == b.date && b.date == c.date {
      if dir.Ascending? { LessTransitive(a.id, b.id, c.id); } else { LessTransitive(c.id, b.id, a.id); }
    }
  }

  lemma BeforeTotal(dir: Direction, a: RowKey, b: RowKey)
    ensures a == b || Before(dir, a, b) || Before(dir, b, a)
  {
    LessTotal(a.id, b.id);
  }

  lemma BeforeIrreflexive(dir: Direction, a: RowKey)
    ensures !Before(dir, a, a)
  {
    LessIrreflexive(a.id);
  }

  /** Past the cursor; no cursor means from the beginning. */
  predicate After(dir: Direction, cursor: Option<RowKey>, x: RowKey)
  {
    cursor.None? || Before(dir, cursor.value, x)
  }

  ghost predicate Sorted(dir: Direction, s: seq<RowKey>)
  {
    forall i, j | 0 <= i < j < |s| :: Before(dir, s[i], s[j])
  }

  /** What `WHERE key > cursor ORDER BY key LIMIT n` may return from this table. */
  ghost predicate IsPage(dir: Direction, table: set<RowKey>, cursor: Option<RowKey>, limit: nat, page: seq<RowKey>)
  {
    && |page| <= limit && Sorted(dir, page)
    && (forall x | x in page :: x in table && After(dir, cursor, x))
    && (forall x | x in table && After(dir, cursor, x) && x !in page ::
          |page| == limit && forall y | y in page :: Before(dir, y, x))
  }

  /** A reader of one stream: where it began, where its cursor stands, what it has been given, and
      the rows inserted at or before its cursor while it read. */
  datatype Reader = Reader(table: set<RowKey>, start: Option<RowKey>, cursor: Option<RowKey>,
                           got: seq<RowKey>, late: set<RowKey>)

  datatype Step = Insert(x: RowKey) | Fetch(page: seq<RowKey>)

  ghost predicate Enabled(dir: Direction, limit: nat, r: Reader, step: Step)
  {
    match step
    case Insert(x) => x !in r.table
    case Fetch(page) => IsPage(dir, r.table, r.cursor, limit, page)
  }

  function Next(dir: Direction, r: Reader, step: Step): Reader
  {
    match step
    case Insert(x) =>
      r.(table := r.table + {x},
         late := if After(dir, r.start, x) && !After(dir, r.cursor, x) then r.late + {x} else r.late)
    case Fetch(page) =>
      r.(got := r.got + page, cursor := if |page| == 0 then r.cursor else Some(page[|page| - 1]))
  }

  ghost predicate Reads(dir: Direction, limit: nat, r: Reader, steps: seq<Step>)
    decreases |steps|
  {
    |steps| > 0 ==> Enabled(dir, limit, r, steps[0]) && Reads(dir, limit, Next(dir, r, steps[0]), steps[1..])
  }

  function Exec(dir: Direction, r: Reader, steps: seq<Step>): Reader
    decreases |steps|
  {
    if |steps| == 0 then r else Exec(dir, Next(dir, r, steps[0]), steps[1..])
  }

  /** The rows so far, in order and up to the cursor, are the table's but for the late ones. */
  ghost predicate Inv(dir: Direction, r: Reader)
  {
    && Sorted(dir, r.got)
    && (forall x | x in r.got :: x in r.table && After(dir, r.start, x) && !After(dir, r.cursor, x))
    && (forall x | x in r.late :: x in r.table && After(dir, r.start, x) && !After(dir, r.cursor, x))
    && (forall x | x in r.table && After(dir, r.start, x) && !After(dir, r.cursor, x) :: x in r.got <==> x !in r.late)
    && (r.cursor == r.start || (|r.got| > 0 && r.cursor == Some(r.got[|r.got| - 1])))
  }

  lemma AfterStart(dir: Direction, r: Reader, x: RowKey)
    requires Inv(dir, r) && After(dir, r.cursor, x)
    ensures After(dir, r.start, x)
  {
    if r.cursor != r.start && r.start.Some? {
      assert r.cursor.value in r.got;
      BeforeTransitive(dir, r.start.value, r.cursor.value, x);
    }
  }

  /** An empty page changes nothing; a page moves the cursor forward and takes exactly the rows it
      passes over. */
  lemma FetchKeepsInv(dir: Direction, limit: nat, r: Reader, page: seq<RowKey>)
    requires limit > 0 && Inv(dir, r) && IsPage(dir, r.table, r.cursor, limit, page)
    ensures Inv(dir, Next(dir, r, Fetch(page)))
    ensures |page| > 0 ==> After(dir, r.cursor, page[|page| - 1])
  {
    var t := Next(dir, r, Fetch(page));
    if |page| > 0 {
      var last := page[|page| - 1];
      assert last in page;
      forall i, j | 0 <= i < j < |t.got| ensures Before(dir, t.got[i], t.got[j]) {
        if i < |r.got| <= j {
          CrossesCursor(dir, r, t.got[i], t.got[j]);
        }
      }
      forall x | !After(dir, r.cursor, x) ensures !After(dir, t.cursor, x) {
        if After(dir, t.cursor, x) {
          if r.cursor.Some? { BeforeTransitive(dir, r.cursor.value, last, x); }
        }
      }
      forall x | x in page ensures After(dir, r.start, x) && !After(dir, t.cursor, x) {
        AfterStart(dir, r, x);
        NotAfterLast(dir, page, x);
      }
      forall x | x in r.table && After(dir, r.start, x) && !After(dir, t.cursor, x)
        ensures x in t.got <==> x !in t.late
      {
        if After(dir, r.cursor, x) {
          assert Before(dir, last, x) <==> After(dir, t.cursor, x);
          assert x in page;
        } else {
          assert x !in page;
        }
      }
    } else {
      assert t == r by { assert r.got + page == r.got; }
    }
  }

  lemma CrossesCursor(dir: Direction, r: Reader, x: RowKey, y: RowKey)
    requires Inv(dir, r) && x in r.got && After(dir, r.cursor, y)
    ensures Before(dir, x, y)
  {
    var c := r.cursor.value;
    BeforeTotal(dir, x, c);
    if x != c {
      BeforeTransitive(dir, x, c, y);
    }
  }

  lemma NotAfterLast(dir: Direction, page: seq<RowKey>, x: RowKey)
    requires |page| > 0 && Sorted(dir, page) && x in page
    ensures !Before(dir, page[|page| - 1], x)
  {
    var i :| 0 <= i < |page| && page[i] == x;
    BeforeIrreflexive(dir, x);
    if i < |page| - 1 && Before(dir, page[|page| - 1], x) {
      BeforeTransitive(dir, x, page[|page| - 1], x);
    }
  }

  lemma {:induction false} ReadsKeepInv(dir: Direction, limit: nat, r: Reader, steps: seq<Step>)
    requires limit > 0 && Inv(dir, r) && Reads(dir, limit, r, steps)
    ensures Inv(dir, Exec(dir, r, steps))
    decreases |steps|
  {
    if |steps| > 0 {
      if steps[0].Fetch? {
        FetchKeepsInv(dir, limit, r, steps[0].page);
      }
      ReadsKeepInv(dir, limit, Next(dir, r, steps[0]), steps[1..]);
    }
  }

  lemma {:induction false} StartStays(dir: Direction, r: Reader, steps: seq<Step>)
    ensures Exec(dir, r, steps).start == r.start
    decreases |steps|
  {
    if |steps| > 0 {
      StartStays(dir, Next(dir, r, steps[0]), steps[1..]);
    }
  }

  /** Paging is the sorted table: whatever is inserted while a reader pages, once a page comes back
      empty the rows it was given are in strictly increasing order, so each once, and they are the
      table's rows past its starting cursor, all of them and no others, except exactly those that
      were inserted at or before the cursor of their moment. */
  lemma PagingDelivers(dir: Direction, limit: nat, table: set<RowKey>, start: Option<RowKey>, steps: seq<Step>)
    requires limit > 0
    requires var r := Reader(table, start, start, [], {}); Reads(dir, limit, r, steps)
    requires IsPage(dir, Exec(dir, Reader(table, start, start, [], {}), steps).table,
                    Exec(dir, Reader(table, start, start, [], {}), steps).cursor, limit, [])
    ensures var r := Exec(dir, Reader(table, start, start, [], {}), steps);
            && Sorted(dir, r.got)
            && forall x :: x in r.got <==> x in r.table && After(dir, start, x) && x !in r.late
  {
    var r0 := Reader(table, start, start, [], {});
    ReadsKeepInv(dir, limit, r0, steps);
    StartStays(dir, r0, steps);
  }

  ghost predicate NoInserts(steps: seq<Step>) { forall i | 0 <= i < |steps| :: steps[i].Fetch? }

  lemma {:induction false} NoInsertsNoLate(dir: Direction, r: Reader, steps: seq<Step>)
    requires NoInserts(steps)
    ensures Exec(dir, r, steps).late == r.late && Exec(dir, r, steps).table == r.table
    decreases |steps|
  {
    if |steps| > 0 {
      NoInsertsNoLate(dir, Next(dir, r, steps[0]), steps[1..]);
    }
  }

  /** On a table that does not change nothing is ever late, so paging until an empty page gives
      every row past the starting cursor exactly once and in order. */
  lemma FixedTableIsDeliveredWhole(dir: Direction, limit: nat, table: set<RowKey>, start: Option<RowKey>,
                                   steps: seq<Step>)
    requires limit > 0 && NoInserts(steps)
    requires Reads(dir, limit, Reader(table, start, start, [], {}), steps)
    requires IsPage(dir, table, Exec(dir, Reader(table, start, start, [], {}), steps).cursor, limit, [])
    ensures var r := Exec(dir, Reader(table, start, start, [], {}), steps);
            && Sorted(dir, r.got)
            && forall x :: x in r.got <==> x in table && After(dir, start, x)
  {
    NoInsertsNoLate(dir, Reader(table, start, start, [], {}), steps);
    PagingDelivers(dir, limit, table, start, steps);
  }

  /** The feed page's reader of `/api/feed`. */
  class FeedPager {
    var cursor: Option<RowKey>
    var exhausted: bool
    var loading: bool
    var items: seq<RowKey>
    var errors: nat

    constructor ()
      ensures cursor == None && !exhausted && !loading && items == [] && errors == 0
    {
      cursor, exhausted, loading, items, errors := None, false, false, [], 0;
    }

    /** As a reader of the table, with the rows that came in behind its cursor. */
    ghost function View(table: set<RowKey>, late: set<RowKey>): Reader
      reads this
    {
      Reader(table, None, cursor, items, late)
    }

    /** `loadMore` up to its `await`: nothing is asked for while an answer is awaited or after the end. */
    method Ask() returns (sent: bool, from: Option<RowKey>)
      modifies this`loading
      ensures sent <==> !old(loading) && !exhausted
      ensures sent ==> loading && from == cursor
      ensures !sent ==> loading == old(loading)
    {
      from := cursor;
      if loading || exhausted {
        return false, from;
      }
      loading := true;
      sent := true;
    }

    method RenderItems(page: seq<RowKey>)
      modifies this`items
      ensures items == old(items) + page
    {
      for i := 0 to |page|
        invariant items == old(items) + page[..i]
      {
        items := items + [page[i]];
      }
      assert page[..|page|] == page;
    }

    /** The rest of `loadMore`, with the server's page or a failure: a page is one fetch of the reader
        and an empty one the end of the feed, by when everything is there but rows that came in behind
        the cursor; a failure leaves the reader where it was, free to ask again. */
    method Receive(ghost table: set<RowKey>, ghost late: set<RowKey>, answer: Option<seq<RowKey>>)
      requires loading && !exhausted && Inv(Descending, View(table, late))
      requires answer.Some? ==> IsPage(Descending, table, cursor, FEED_PAGE_LIMIT, answer.value)
      modifies this
      ensures !loading && Inv(Descending, View(table, late))
      ensures answer.Some? ==>
                && View(table, late) == Next(Descending, old(View(table, late)), Fetch(answer.value))
                && exhausted == (|answer.value| == 0) && errors == (if old(cursor).None? then 0 else old(errors))
      ensures exhausted ==> forall x :: x in items <==> x in table && x !in late
      ensures forall i, j | 0 <= i < j < |items| :: items[i].date >= items[j].date
      ensures answer.Some? ==> items == old(items) + answer.value && |answer.value| <= 50
      ensures answer.Some? && |answer.value| < 50 ==> forall x | x in table :: x in items || x in late
      ensures answer.None? ==>
                View(table, late) == old(View(table, late)) && !exhausted && errors == old(errors) + 1
    {
      hide Inv, IsPage;
      loading := false;
      if answer.None? {
        errors := errors + 1;
        NewestFirst(View(table, late));
        return;
      }
      var page := answer.value;
      EmptyPageIsTheEnd(View(table, late), page);
      ShortPageIsTheLast(View(table, late), page);
      FetchKeepsInv(Descending, FEED_PAGE_LIMIT, View(table, late), page);
      if cursor.None? {
        NothingBeforeTheCursor(View(table, late));
        items, errors := [], 0;
      }
      RenderItems(page);
      if |page| == 0 {
        exhausted := true;
      } else {
        cursor := Some(page[|page| - 1]);
      }
      NewestFirst(View(table, late));
    }
  }

  lemma NewestFirst(r: Reader)
    requires Inv(Descending, r)
    ensures forall i, j | 0 <= i < j < |r.got| :: r.got[i].date >= r.got[j].date
  {
  }

  lemma ShortPageIsTheLast(r: Reader, page: seq<RowKey>)
    requires Inv(Descending, r) && IsPage(Descending, r.table, r.cursor, FEED_PAGE_LIMIT, page) && r.start.None?
    ensures |page| <= 50 && (|page| < 50 ==> forall x | x in r.table :: x in r.got + page || x in r.late)
  {
  }

  lemma EmptyPageIsTheEnd(r: Reader, page: seq<RowKey>)
    requires Inv(Descending, r) && IsPage(Descending, r.table, r.cursor, FEED_PAGE_LIMIT, page)
    requires r.start.None?
    ensures |page| == 0 ==> forall x :: x in r.got <==> x in r.table && x !in r.late
  {
  }

  /** Clearing the page before the first answer clears no rows. */
  lemma NothingBeforeTheCursor(r: Reader)
    requires Inv(Descending, r) && r.cursor.None?
    ensures r.got == []
  {
    if |r.got| > 0 {
      HasOne(r.got);
    }
  }

  lemma HasOne(s: seq<RowKey>)
    requires |s| > 0
    ensures exists x :: x in s
  {
    assert s[0] in s;
  }
}
