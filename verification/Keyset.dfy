/** Keyset pagination: pages of rows, newest first, each starting after the last row of the
    one before.  Flows are listed this way by last_seen and id, and the messages of a flow
    by timestamp and record id.

    A table is a list of rows in any order with distinct ids; the filter of a listing is a
    predicate on rows.
 */
module Keyset {
  import opened Ordering
  import opened Text

  datatype Key = Key(time: string, id: string)

  datatype Row<T> = Row(key: Key, item: T)

  /** A cursor as the client holds it: blank text, an encoded pair, or text that does not decode. */
  datatype Cursor = Blank | Encoded(key: Key) | Garbage

  datatype Page<T> = Page(rows: seq<Row<T>>, next: Cursor) | BadCursor

  const DEFAULT_PAGE_LIMIT: int := 50

  function NormalizeLimit(limit: int): (n: nat)
    ensures 1 <= n <= 500
  {
    if limit <= 0 then DEFAULT_PAGE_LIMIT else if limit > 500 then 500 else limit
  }

  predicate Complete(k: Key) {
    k.time != "" && k.id != ""
  }

  predicate Decodes(c: Cursor) {
    c.Blank? || (c.Encoded? && Complete(c.key))
  }

  // ---------- the listing order ----------

  predicate KeyBefore(a: Key, b: Key) {
    Less(b.time, a.time) || (a.time == b.time && Less(b.id, a.id))
  }

  predicate RowBefore<T>(a: Row<T>, b: Row<T>) {
    KeyBefore(a.key, b.key)
  }

  /** The rows a request with this cursor may return. */
  predicate After<T>(c: Cursor, r: Row<T>) {
    c.Encoded? ==> KeyBefore(c.key, r.key)
  }

  ghost predicate DistinctIds<T>(table: seq<Row<T>>) {
    forall i, j :: 0 <= i < j < |table| ==> table[i].key.id != table[j].key.id
  }

  lemma KeyBeforeIsOrder()
    ensures forall a, b :: KeyBefore(a, b) ==> !KeyBefore(b, a)
    ensures forall a, b :: KeyBefore(a, b) || a == b || KeyBefore(b, a)
    ensures forall a, b, c :: KeyBefore(a, c) ==> KeyBefore(a, b) || KeyBefore(b, c)
  {
    LessIsOrder();
    forall a: Key, b: Key
      ensures (KeyBefore(a, b) ==> !KeyBefore(b, a)) && (KeyBefore(a, b) || a == b || KeyBefore(b, a))
    {
      LessTotal(a.time, b.time);
      LessTotal(a.id, b.id);
    }
    forall a: Key, b: Key, c: Key ensures KeyBefore(a, c) ==> KeyBefore(a, b) || KeyBefore(b, c) {
      LessTotal(a.time, b.time);
      LessTotal(b.time, c.time);
    }
  }

  lemma RowBeforeIsOrder<T(!new)>()
    ensures StrictWeak<Row<T>>(RowBefore)
  {
    KeyBeforeIsOrder();
  }

  // ---------- one request ----------

  function Matching<T(!new)>(table: seq<Row<T>>, matches: Row<T> -> bool, c: Cursor): (rows: seq<Row<T>>)
    ensures forall r :: r in rows <==> r in table && matches(r) && After(c, r)
  {
    if table == [] then []
    else (if matches(table[0]) && After(c, table[0]) then [table[0]] else []) + Matching(table[1..], matches, c)
  }

  /** The whole answer of the query, before its LIMIT. */
  function Listing<T(!new)>(table: seq<Row<T>>, matches: Row<T> -> bool, c: Cursor): seq<Row<T>> {
    Sort(Matching(table, matches, c), RowBefore)
  }

  function PageOf<T(!new)>(table: seq<Row<T>>, matches: Row<T> -> bool, limit: int, after: Cursor): Page<T> {
    if !Decodes(after) then BadCursor
    else
      var n := NormalizeLimit(limit);
      var all := Listing(table, matches, after);
      if |all| <= n then Page(all, Blank) else Page(all[..n], Encoded(all[n - 1].key))
  }

  /** One request: it fetches one row more than the page holds, and hands out a cursor exactly
      if that row came. */
  method List<T(!new)>(table: seq<Row<T>>, matches: Row<T> -> bool, limit: int, after: Cursor) returns (page: Page<T>)
    ensures page == PageOf(table, matches, limit, after)
  {
    var n := NormalizeLimit(limit);
    if !Decodes(after) {
      return BadCursor;
    }
    var answer := Listing(table, matches, after);
    var fetched := if |answer| > n + 1 then answer[..n + 1] else answer;
    if |fetched| <= n {
      return Page(fetched, Blank);
    }
    var last := fetched[n - 1];
    assert fetched[..n] == answer[..n];
    return Page(fetched[..n], Encoded(last.key));
  }

  lemma {:induction false} MatchingIsDistinct<T(!new)>(table: seq<Row<T>>, matches: Row<T> -> bool, c: Cursor)
    requires DistinctIds(table)
    ensures DistinctIds(Matching(table, matches, c))
  {
    if table != [] {
      MatchingIsDistinct(table[1..], matches, c);
      forall r | r in Matching(table[1..], matches, c) ensures r.key.id != table[0].key.id {
        assert r in table[1..];
      }
    }
  }

  /** The listing is the one strictly ordered list of the rows that match and come after the cursor. */
  lemma ListingIsOrdered<T(!new)>(table: seq<Row<T>>, matches: Row<T> -> bool, c: Cursor)
    requires DistinctIds(table)
    ensures Strictly(Listing(table, matches, c), RowBefore)
    ensures forall r :: r in Listing(table, matches, c) <==> r in table && matches(r) && After(c, r)
  {
    RowBeforeIsOrder<T>();
    KeyBeforeIsOrder();
    MatchingIsDistinct(table, matches, c);
    var rows := Matching(table, matches, c);
    forall x, y | x in rows && y in rows && x != y ensures RowBefore(x, y) || RowBefore(y, x) {
      assert x.key.id != y.key.id;
    }
    SortIsStrict(rows, RowBefore);
  }

  // ---------- a crawl while others write ----------

  /** What a client sees that follows `next` from the empty cursor, every request answered;
      `tables[i]` is the table as request `i` finds it. */
  ghost predicate IsCrawl<T(!new)>(
      tables: seq<seq<Row<T>>>, matches: Row<T> -> bool, limit: int, pages: seq<Page<T>>)
  {
    && |tables| == |pages|
    && (pages != [] ==>
          var k := |pages| - 1;
          && pages[k].Page? && DistinctIds(tables[k])
          && IsCrawl(tables[..k], matches, limit, pages[..k])
          && (k > 0 ==> pages[k - 1].Page? && pages[k - 1].next != Blank)
          && pages[k] == PageOf(tables[k], matches, limit, if k == 0 then Blank else pages[k - 1].next))
  }

  /** The rows of a list of pages, front to back; a refused request has none. */
  function RowsOf<T>(pages: seq<Page<T>>): seq<Row<T>> {
    if pages == [] then []
    else (if pages[0].Page? then pages[0].rows else []) + RowsOf(pages[1..])
  }

  lemma {:induction false} RowsOfMore<T>(pages: seq<Page<T>>, p: Page<T>)
    ensures RowsOf(pages + [p]) == RowsOf(pages) + if p.Page? then p.rows else []
  {
    if pages == [] {
      assert pages + [p] == [p] && [p][1..] == [];
    } else {
      RowsOfMore(pages[1..], p);
      assert (pages + [p])[1..] == pages[1..] + [p];
    }
  }

  /** One page: everything on it comes after the request's cursor and not after the cursor it
      hands out, and it holds every matching row of the table in between. */
  lemma PageIsSlice<T(!new)>(table: seq<Row<T>>, matches: Row<T> -> bool, limit: int, c: Cursor)
    requires DistinctIds(table) && Decodes(c)
    ensures var p := PageOf(table, matches, limit, c);
            && p.Page? && !p.next.Garbage? && Strictly(p.rows, RowBefore)
            && (p.next.Encoded? && c.Encoded? ==> KeyBefore(c.key, p.next.key))
            && (forall r :: r in p.rows ==> r in table && matches(r))
            && (forall r :: r in p.rows ==> After(c, r) && (p.next.Encoded? ==> !After(p.next, r)))
            && (forall r :: r in table && matches(r) && After(c, r) && (p.next.Encoded? ==> !After(p.next, r)) ==>
                  r in p.rows)
  {
    ListingIsOrdered(table, matches, c);
    KeyBeforeIsOrder();
    var n := NormalizeLimit(limit);
    var all := Listing(table, matches, c);
    if |all| > n {
      hide Listing, DistinctIds, Less;
      var last := all[n - 1];
      assert last in all;
      forall k | 0 <= k < |all| ensures k < n <==> !RowBefore(last, all[k]) {
        assert k < n - 1 ==> RowBefore(all[k], last);
        assert k == n - 1 ==> all[k] == last;
        assert k > n - 1 ==> RowBefore(last, all[k]);
      }
      forall r | r in all && !RowBefore(last, r) ensures r in all[..n] {
        var k :| 0 <= k < |all| && all[k] == r;
        assert all[..n][k] == r;
      }
    }
  }

  /** MAIN RESULT.  One answered request by its fields.  Only a cursor without a time or an id, or one that does
      not decode, is refused.  A page holds 50 rows if the limit is not positive, 500 if it is more, and
      `limit` otherwise; the rows are the latest of those that match and come after the cursor, latest
      first, the greater id first among equals; fewer come only if there are no more, and a cursor on the
      last one exactly if there are. */
  lemma PageByFields<T(!new)>(table: seq<Row<T>>, matches: Row<T> -> bool, limit: int, c: Cursor)
    requires DistinctIds(table)
    ensures var p := PageOf(table, matches, limit, c);
            var n := if limit <= 0 then 50 else if limit > 500 then 500 else limit;
            && (p.BadCursor? <==> c.Garbage? || (c.Encoded? && (c.key.time == "" || c.key.id == "")))
            && (p.Page? ==>
                  && (forall r :: r in p.rows ==> r in table && matches(r) && Follows(c, r.key))
                  && (forall i, j :: 0 <= i < j < |p.rows| ==> LaterKey(p.rows[i].key, p.rows[j].key))
                  && (forall r, q :: r in table && matches(r) && Follows(c, r.key) && r !in p.rows && q in p.rows ==>
                        LaterKey(q.key, r.key))
                  && (if exists r :: r in table && matches(r) && Follows(c, r.key) && r !in p.rows
                      then |p.rows| == n && p.next == Encoded(p.rows[n - 1].key)
                      else |p.rows| <= n && p.next == Blank))
  {
    hide Listing, Matching, DistinctIds, Less;
    if Decodes(c) {
      ListingIsOrdered(table, matches, c);
      var all, n := Listing(table, matches, c), NormalizeLimit(limit);
      var p := PageOf(table, matches, limit, c);
      forall r: Row<T> ensures After(c, r) <==> Follows(c, r.key) {
      }
      hide After, Follows;
      forall i, j | 0 <= i < j < |all| ensures LaterKey(all[i].key, all[j].key) {
        assert RowBefore(all[i], all[j]);
      }
      hide LaterKey, RowBefore;
      if |all| > n {
        CutOff(all, n);
      } else {
        assert forall r :: r in table && matches(r) && Follows(c, r.key) ==> r in p.rows;
      }
    }
  }

  lemma CutOff<T(!new)>(all: seq<Row<T>>, n: nat)
    requires 0 < n < |all| && forall i, j :: 0 <= i < j < |all| ==> LaterKey(all[i].key, all[j].key)
    ensures forall r, q :: r in all && r !in all[..n] && q in all[..n] ==> LaterKey(q.key, r.key)
    ensures all[n] in all && all[n] !in all[..n]
  {
    assert forall k :: 0 <= k < n ==> all[k] == all[..n][k] && all[k] in all[..n];
    forall r, q | r in all && r !in all[..n] && q in all[..n] ensures LaterKey(q.key, r.key) {
      var i :| 0 <= i < |all| && all[i] == r;
      var j :| 0 <= j < n && all[..n][j] == q;
      assert j < i && all[j] == q;
    }
    if all[n] in all[..n] {
      var j :| 0 <= j < n && all[..n][j] == all[n];
      assert all[j] == all[n] && LaterKey(all[j].key, all[n].key);
      LaterIsStrict(all[n].key);
    }
  }

  lemma LaterIsStrict(k: Key)
    ensures !LaterKey(k, k)
  {
    LessTotal(k.time, k.time);
    LessTotal(k.id, k.id);
  }

  /** Later, or of the same time and with the greater id. */
  predicate LaterKey(a: Key, b: Key) {
    Less(b.time, a.time) || (a.time == b.time && Less(b.id, a.id))
  }

  predicate Follows(c: Cursor, k: Key) {
    c.Encoded? ==> LaterKey(c.key, k)
  }

  /** Invariant of a crawl, whatever writers do between requests: the rows seen so far are
      strictly ordered and none comes after the current cursor, and a matching row that every
      table so far held has been seen unless it comes after the cursor. */
  lemma {:induction false} CrawlInvariant<T(!new)>(
      tables: seq<seq<Row<T>>>, matches: Row<T> -> bool, limit: int, pages: seq<Page<T>>)
    requires IsCrawl(tables, matches, limit, pages) && pages != []
    ensures pages[|pages| - 1].Page?
    ensures var seen := RowsOf(pages);
            var c := pages[|pages| - 1].next;
            && !c.Garbage? && Strictly(seen, RowBefore)
            && (c.Encoded? ==> forall r :: r in seen ==> !After(c, r))
            && forall r :: (forall i :: 0 <= i < |tables| ==> r in tables[i]) && matches(r) ==>
                 r in seen || (c.Encoded? && After(c, r))
    decreases |pages|
  {
    hide IsCrawl, PageOf, DistinctIds, KeyBefore, RowsOf;
    var k := |pages| - 1;
    var page := pages[k];
    LastPage(tables, matches, limit, pages);
    if k == 0 {
      assert pages == [page];
      EmptyCrawl<T>();
      RowsOfMore([], page);
      assert [] + [page] == [page] && [] + page.rows == page.rows;
      PageIsSlice(tables[0], matches, limit, Blank);
    } else {
      var init := pages[..k];
      var c := pages[k - 1].next;
      CrawlInvariant(tables[..k], matches, limit, init);
      PageIsSlice(tables[k], matches, limit, c);
      assert pages == init + [page];
      RowsOfMore(init, page);
      var seen := RowsOf(init);
      SliceJoins(seen, page.rows, c, page.next);
      forall r | (forall i :: 0 <= i < |tables| ==> r in tables[i]) && matches(r)
        ensures r in seen + page.rows || (page.next.Encoded? && After(page.next, r))
      {
        assert forall i :: 0 <= i < k ==> r in tables[..k][i];
        assert r in tables[k];
      }
    }
  }

  lemma LastPage<T(!new)>(
      tables: seq<seq<Row<T>>>, matches: Row<T> -> bool, limit: int, pages: seq<Page<T>>)
    requires IsCrawl(tables, matches, limit, pages) && pages != []
    ensures var k := |pages| - 1;
            && |tables| == |pages| && pages[k].Page? && DistinctIds(tables[k])
            && IsCrawl(tables[..k], matches, limit, pages[..k])
            && (k > 0 ==> pages[k - 1].Page? && pages[k - 1].next != Blank)
            && pages[k] == PageOf(tables[k], matches, limit, if k == 0 then Blank else pages[k - 1].next)
            && Decodes(if k == 0 then Blank else pages[k - 1].next)
  {
    hide DistinctIds;
  }

  lemma EmptyCrawl<T>()
    ensures RowsOf<T>([]) == []
  {
  }

  lemma SliceJoins<T(!new)>(seen: seq<Row<T>>, rows: seq<Row<T>>, c: Cursor, next: Cursor)
    requires c.Encoded? && Strictly(seen, RowBefore) && Strictly(rows, RowBefore)
    requires forall r :: r in seen ==> !After(c, r)
    requires forall r :: r in rows ==> After(c, r) && (next.Encoded? ==> !After(next, r))
    requires next.Encoded? ==> KeyBefore(c.key, next.key)
    ensures Strictly(seen + rows, RowBefore)
    ensures next.Encoded? ==> forall r :: r in seen + rows ==> !After(next, r)
  {
    KeyBeforeIsOrder();
    hide KeyBefore;
    forall a, b | a in seen && b in rows ensures RowBefore(a, b) {
      assert KeyBefore(c.key, b.key) && !KeyBefore(c.key, a.key);
    }
    StrictJoin(seen, rows, RowBefore);
  }

  /** MAIN RESULT.  A crawl that runs to its end lists no row twice, lists only rows that matched
      when their page was served, and lists every matching row that stayed unchanged throughout,
      whatever was inserted, changed or deleted between the requests. */
  lemma CrawlIsComplete<T(!new)>(
      tables: seq<seq<Row<T>>>, matches: Row<T> -> bool, limit: int, pages: seq<Page<T>>)
    requires IsCrawl(tables, matches, limit, pages) && pages != []
    requires pages[|pages| - 1].Page? && pages[|pages| - 1].next == Blank
    ensures Strictly(RowsOf(pages), RowBefore) && NoDuplicates(RowsOf(pages))
    ensures forall i :: 0 <= i < |pages| ==> FromTable(tables[i], matches, pages[i])
    ensures forall r :: (forall i :: 0 <= i < |tables| ==> r in tables[i]) && matches(r) ==> r in RowsOf(pages)
  {
    CrawlInvariant(tables, matches, limit, pages);
    CrawlIsSound(tables, matches, limit, pages);
    KeyBeforeIsOrder();
  }

  ghost predicate FromTable<T(!new)>(table: seq<Row<T>>, matches: Row<T> -> bool, p: Page<T>) {
    p.Page? && forall r :: r in p.rows ==> r in table && matches(r)
  }

  lemma {:induction false} CrawlIsSound<T(!new)>(
      tables: seq<seq<Row<T>>>, matches: Row<T> -> bool, limit: int, pages: seq<Page<T>>)
    requires IsCrawl(tables, matches, limit, pages)
    ensures forall i :: 0 <= i < |pages| ==> FromTable(tables[i], matches, pages[i])
    decreases |pages|
  {
    hide IsCrawl, PageOf, DistinctIds, FromTable;
    CrawlLength(tables, matches, limit, pages);
    if pages != [] {
      var k := |pages| - 1;
      LastPage(tables, matches, limit, pages);
      CrawlIsSound(tables[..k], matches, limit, pages[..k]);
      PageIsFromTable(tables[k], matches, limit, if k == 0 then Blank else pages[k - 1].next);
      forall i | 0 <= i < k ensures FromTable(tables[i], matches, pages[i]) {
        assert tables[..k][i] == tables[i] && pages[..k][i] == pages[i];
      }
    }
  }

  lemma CrawlLength<T(!new)>(
      tables: seq<seq<Row<T>>>, matches: Row<T> -> bool, limit: int, pages: seq<Page<T>>)
    requires IsCrawl(tables, matches, limit, pages)
    ensures |tables| == |pages|
  {
  }

  lemma PageIsFromTable<T(!new)>(table: seq<Row<T>>, matches: Row<T> -> bool, limit: int, c: Cursor)
    requires DistinctIds(table) && Decodes(c)
    ensures FromTable(table, matches, PageOf(table, matches, limit, c))
  {
    PageIsSlice(table, matches, limit, c);
  }

  // ---------- a crawl over a fixed table ----------

  /** After the n-th row of a listing comes the rest of the listing. */
  lemma NextListing<T(!new)>(table: seq<Row<T>>, matches: Row<T> -> bool, c: Cursor, n: nat)
    requires DistinctIds(table) && 1 <= n <= |Listing(table, matches, c)|
    ensures var all := Listing(table, matches, c);
            Listing(table, matches, Encoded(all[n - 1].key)) == all[n..]
  {
    var all := Listing(table, matches, c);
    var next := Encoded(all[n - 1].key);
    var rest := Listing(table, matches, next);
    ListingIsOrdered(table, matches, c);
    ListingIsOrdered(table, matches, next);
    RowBeforeIsOrder<T>();
    KeyBeforeIsOrder();
    hide Listing, DistinctIds, KeyBefore;
    StrictSuffix(all, n, RowBefore);
    var last := all[n - 1];
    assert last in all;
    forall r ensures r in rest <==> r in all[n..] {
      assert RowBefore(last, r) <==> After(next, r);
    }
    StrictIsUnique(rest, all[n..], RowBefore);
  }

  /** The pages of a crawl over one table, up to the page without a cursor or the refused request. */
  ghost function Crawl<T(!new)>(table: seq<Row<T>>, matches: Row<T> -> bool, limit: int, c: Cursor): seq<Page<T>>
    requires DistinctIds(table)
    decreases |Listing(table, matches, c)|
  {
    var p := PageOf(table, matches, limit, c);
    if p.BadCursor? || p.next == Blank then [p]
    else
      NextListing(table, matches, c, NormalizeLimit(limit));
      [p] + Crawl(table, matches, limit, p.next)
  }

  /** The last row of every page but the last has a time and an id. */
  predicate PageEndsComplete<T>(rows: seq<Row<T>>, n: nat)
    requires n > 0
  {
    |rows| <= n || (Complete(rows[n - 1].key) && PageEndsComplete(rows[n..], n))
  }

  /** `k` rows fill their pages exactly. */
  predicate FillsPages(k: nat, n: nat)
    requires n > 0
  {
    k > 0 && k % n == 0
  }

  lemma {:induction false} PageEnds<T>(rows: seq<Row<T>>, n: nat)
    requires n > 0
    ensures PageEndsComplete(rows, n) <==>
            forall k :: 0 < k < |rows| && FillsPages(k, n) ==> Complete(rows[k - 1].key)
    decreases |rows|
  {
    hide FillsPages, Complete;
    if |rows| > n {
      var rest := rows[n..];
      PageEnds(rest, n);
      FillsPagesStep(n, n);
      if forall k :: 0 < k < |rows| && FillsPages(k, n) ==> Complete(rows[k - 1].key) {
        forall k | 0 < k < |rest| && FillsPages(k, n) ensures Complete(rest[k - 1].key) {
          FillsPagesStep(k + n, n);
          assert rest[k - 1] == rows[k + n - 1];
        }
      }
      if PageEndsComplete(rows, n) {
        forall k | 0 < k < |rows| && FillsPages(k, n) ensures Complete(rows[k - 1].key) {
          FillsPagesStep(k, n);
          if k > n {
            assert rest[k - n - 1] == rows[k - 1];
          }
        }
      }
    } else {
      forall k | 0 < k < |rows| ensures !FillsPages(k, n) {
        FillsPagesStep(k, n);
      }
    }
  }

  lemma FillsPagesStep(k: nat, n: nat)
    requires n > 0
    ensures FillsPages(k, n) <==> k == n || (k > n && FillsPages(k - n, n))
  {
    if k >= n {
      var q, r := (k - n) / n, (k - n) % n;
      assert k - n == q * n + r;
      assert (q + 1) * n == q * n + n;
      DivModUnique(k, n, q + 1, r);
    } else {
      DivModUnique(k, n, 0, k);
    }
  }

  lemma DivModUnique(a: int, n: int, q: int, r: int)
    requires n > 0 && 0 <= r < n && a == q * n + r
    ensures a / n == q && a % n == r
  {
    var d := q - a / n;
    assert d * n == q * n - (a / n) * n;
    assert a == (a / n) * n + a % n;
    MultipleIsFar(d, n);
  }

  lemma MultipleIsFar(d: int, n: int)
    requires n > 0
    ensures d >= 1 ==> d * n >= n
    ensures d <= -1 ==> d * n <= -n
  {
  }

  /** The least number of pages of size n, at least one, that hold m rows. */
  predicate IsPageCount(pages: nat, m: nat, n: nat) {
    pages >= 1 && m <= pages * n && (pages > 1 ==> (pages - 1) * n < m)
  }

  lemma PageCountStep(pages: nat, m: nat, n: nat)
    requires m >= n && IsPageCount(pages, m - n, n) && m > n
    ensures IsPageCount(pages + 1, m, n)
  {
    assert (pages + 1) * n == pages * n + n;
    assert pages > 1 ==> pages * n == (pages - 1) * n + n;
  }

  lemma {:induction false} CrawlOutcomeFrom<T(!new)>(table: seq<Row<T>>, matches: Row<T> -> bool, limit: int, c: Cursor)
    requires DistinctIds(table) && Decodes(c)
    ensures var all := Listing(table, matches, c);
            var n := NormalizeLimit(limit);
            var pages := Crawl(table, matches, limit, c);
            && pages != []
            && (pages[|pages| - 1].Page? <==> PageEndsComplete(all, n))
            && (pages[|pages| - 1].Page? ==> RowsOf(pages) == all && IsPageCount(|pages|, |all|, n))
    decreases |Listing(table, matches, c)|
  {
    var all := Listing(table, matches, c);
    var n := NormalizeLimit(limit);
    hide Listing, NormalizeLimit, PageOf, Crawl, PageEndsComplete, IsPageCount, RowsOf;
    FirstPage(table, matches, limit, c);
    if |all| <= n {
      OnlyPage(all, n);
    } else {
      var next := Encoded(all[n - 1].key);
      NextListing(table, matches, c, n);
      if Decodes(next) {
        CrawlOutcomeFrom(table, matches, limit, next);
      } else {
        RefusedPage(table, matches, limit, next);
      }
      OnePageMore(all, n, Crawl(table, matches, limit, next));
    }
  }

  lemma OnlyPage<T>(all: seq<Row<T>>, n: nat)
    requires |all| <= n && 1 <= n
    ensures PageEndsComplete(all, n) && RowsOf([Page(all, Blank)]) == all && IsPageCount(1, |all|, n)
  {
    assert [Page(all, Blank)][1..] == [] && all + RowsOf([]) == all;
  }

  lemma OnePageMore<T>(all: seq<Row<T>>, n: nat, more: seq<Page<T>>)
    requires 1 <= n < |all| && more != []
    requires more[|more| - 1].Page? <==> Complete(all[n - 1].key) && PageEndsComplete(all[n..], n)
    requires more[|more| - 1].Page? ==> RowsOf(more) == all[n..] && IsPageCount(|more|, |all| - n, n)
    ensures var pages := [Page(all[..n], Encoded(all[n - 1].key))] + more;
            && (pages[|pages| - 1].Page? <==> PageEndsComplete(all, n))
            && (pages[|pages| - 1].Page? ==> RowsOf(pages) == all && IsPageCount(|pages|, |all|, n))
  {
    var pages := [Page(all[..n], Encoded(all[n - 1].key))] + more;
    assert pages[|more|] == more[|more| - 1];
    assert pages[1..] == more;
    if more[|more| - 1].Page? {
      PageCountStep(|more|, |all|, n);
      assert all == all[..n] + all[n..];
    }
  }

  lemma FirstPage<T(!new)>(table: seq<Row<T>>, matches: Row<T> -> bool, limit: int, c: Cursor)
    requires DistinctIds(table) && Decodes(c)
    ensures var all := Listing(table, matches, c);
            var n := NormalizeLimit(limit);
            Crawl(table, matches, limit, c) ==
            if |all| <= n then [Page(all, Blank)]
            else
              var next := Encoded(all[n - 1].key);
              [Page(all[..n], next)] + Crawl(table, matches, limit, next)
  {
    hide Listing, NormalizeLimit;
  }

  lemma RefusedPage<T(!new)>(table: seq<Row<T>>, matches: Row<T> -> bool, limit: int, c: Cursor)
    requires DistinctIds(table) && !Decodes(c)
    ensures Crawl(table, matches, limit, c) == [BadCursor]
  {
  }

  /** MAIN RESULT.  Over a fixed table, following `next` from the empty cursor reaches the end if
      and only if every row that ends a page but the last has a time and an id.  It then has listed
      every matching row once, in order, on max(1, ceil(n / limit)) pages. */
  lemma CrawlOutcome<T(!new)>(table: seq<Row<T>>, matches: Row<T> -> bool, limit: int)
    requires DistinctIds(table)
    ensures var all := Listing(table, matches, Blank);
            var n := NormalizeLimit(limit);
            var pages := Crawl(table, matches, limit, Blank);
            && pages != []
            && (pages[|pages| - 1].Page? <==>
                  forall k :: 0 < k < |all| && FillsPages(k, n) ==> Complete(all[k - 1].key))
            && (pages[|pages| - 1].Page? ==> RowsOf(pages) == all && IsPageCount(|pages|, |all|, n))
    ensures var all := Listing(table, matches, Blank);
            Strictly(all, RowBefore) && forall r :: r in all <==> r in table && matches(r)
  {
    CrawlOutcomeFrom(table, matches, limit, Blank);
    PageEnds(Listing(table, matches, Blank), NormalizeLimit(limit));
    ListingIsOrdered(table, matches, Blank);
  }
}
