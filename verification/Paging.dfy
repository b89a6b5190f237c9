/**
 * Keyset pagination with one row of look-ahead (internal/state/list.go, internal/state/snapshot.go):
 * what a page is, the loop that reads it, and what a reader who follows cursors collects.
 */
module Paging {
  import opened Base
  import opened PageToken
  import opened Rows

  /** `next` is the cursor: the position behind which the next page starts. */
  datatype Page<+V> = Page(rows: seq<Row<V>>, next: Option<int>)

  datatype Listing<+T> = Listing(entries: seq<T>, next: Option<int>)

  /** The least position behind a cursor; a token may carry a negative one. */
  function Lower(after: Option<int>): nat {
    if after.None? || after.value < 0 then 0 else after.value + 1
  }

  /** Everything behind the cursor. */
  function Rest<V>(m: map<nat, V>, after: Option<int>, hi: nat): seq<Row<V>> {
    Between(m, Lower(after), hi)
  }

  /** SELECT ... WHERE position > after ORDER BY position LIMIT limit. */
  function Query<V>(m: map<nat, V>, after: Option<int>, limit: nat, hi: nat): seq<Row<V>> {
    var rest := Rest(m, after, hi);
    if |rest| <= limit then rest else rest[..limit]
  }

  /** The first `n` rows, and a cursor when there are more. */
  function Cut<V>(rows: seq<Row<V>>, n: nat): Page<V>
    requires n > 0
  {
    if |rows| <= n then Page(rows, None) else Page(rows[..n], Some(rows[n - 1].position))
  }

  /** What one request returns, page size normalised. */
  function PageOf<V>(m: map<nat, V>, after: Option<int>, size: int32, hi: nat): Page<V> {
    Cut(Rest(m, after, hi), NormalizePageSize(size))
  }

  /** One row that does not convert fails the page. */
  function Convert<V, T>(page: Page<V>, toDomain: V -> Option<T>): Result<Listing<T>> {
    if exists i :: 0 <= i < |page.rows| && toDomain(page.rows[i].value).None? then Err(UnreadableBody)
    else Ok(Listing(seq(|page.rows|, i requires 0 <= i < |page.rows| => toDomain(page.rows[i].value).value), page.next))
  }

  // ---------------------------------------------------------------- the loop

  /** Reads rows until the page is full; a row behind a full page only says that there are more. */
  method CollectPage<V, T>(rows: seq<Row<V>>, limit: int32, toDomain: V -> Option<T>) returns (r: Result<Listing<T>>)
    requires limit > 0
    ensures r == Convert(Cut(rows, limit), toDomain)
  {
    var entries: seq<T> := [];
    var lastPosition, hasMore := 0, false;
    for i := 0 to |rows|
      invariant !hasMore && |entries| == i <= limit
      invariant forall k :: 0 <= k < i ==> toDomain(rows[k].value) == Some(entries[k])
      invariant i > 0 ==> lastPosition == rows[i - 1].position
    {
      if |entries| == limit {
        hasMore := true;
        break;
      }
      var entry := toDomain(rows[i].value);
      if entry.None? {
        assert toDomain(Cut(rows, limit).rows[i].value).None?;
        return Err(UnreadableBody);
      }
      entries := entries + [entry.value];
      lastPosition := rows[i].position;
    }
    ghost var page := Cut(rows, limit);
    assert page.rows == rows[..|entries|];
    assert forall k :: 0 <= k < |page.rows| ==> toDomain(page.rows[k].value) == Some(entries[k]);
    assert entries == seq(|page.rows|, k requires 0 <= k < |page.rows| => toDomain(page.rows[k].value).value);
    r := Ok(Listing(entries, if hasMore then Some(lastPosition) else None));
  }

  /** Asking the database for one row more than the page is enough to know whether there are more. */
  lemma LookAheadSuffices<V>(m: map<nat, V>, after: Option<int>, size: int32, hi: nat)
    ensures Cut(Query(m, after, NormalizePageSize(size) + 1, hi), NormalizePageSize(size)) == PageOf(m, after, size, hi)
  {
    var n := NormalizePageSize(size);
    var rest := Rest(m, after, hi);
    if |rest| > n + 1 {
      assert rest[..n + 1][..n] == rest[..n];
    }
  }

  // ---------------------------------------------------------------- one page

  lemma LastOfPrefix<V>(m: map<nat, V>, lo: nat, p: nat)
    requires p in m && lo <= p
    ensures var a := Between(m, lo, p + 1); a != [] && a[|a| - 1].position == p
  {
    BetweenIsSelection(m, lo, p + 1);
    SelectionLast(Between(m, lo, p + 1), m, lo, p);
  }

  /** Behind the i-th row come exactly the rows after it. */
  lemma Resume<V>(m: map<nat, V>, lo: nat, hi: nat, i: nat)
    requires i < |Between(m, lo, hi)|
    ensures var rows := Between(m, lo, hi); Between(m, rows[i].position + 1, hi) == rows[i + 1..]
  {
    var rows := Between(m, lo, hi);
    BetweenIsSelection(m, lo, hi);
    var p := rows[i].position;
    Split(m, lo, p + 1, hi);
    LastOfPrefix(m, lo, p);
    var a := Between(m, lo, p + 1);
    assert rows[|a| - 1].position == p;
    assert |a| == i + 1;
  }

  /** What is still to come after a page: nothing without a cursor. */
  function Remaining<V>(m: map<nat, V>, page: Page<V>, hi: nat): seq<Row<V>> {
    if page.next.None? then [] else Rest(m, page.next, hi)
  }

  /** A page and what remains behind its cursor are what there was; with a cursor neither is empty. */
  lemma PageSplits<V>(m: map<nat, V>, after: Option<int>, size: int32, hi: nat)
    ensures var page := PageOf(m, after, size, hi);
            && Rest(m, after, hi) == page.rows + Remaining(m, page, hi)
            && |page.rows| <= NormalizePageSize(size)
            && (page.next.Some? ==> |page.rows| == NormalizePageSize(size) && Remaining(m, page, hi) != [])
  {
    var rest, n := Rest(m, after, hi), NormalizePageSize(size);
    if |rest| > n {
      Resume(m, Lower(after), hi, n - 1);
    }
  }

  /** A cursor is returned exactly when rows are left behind the page. */
  lemma CursorWhenMore<V>(m: map<nat, V>, after: Option<int>, size: int32, hi: nat)
    ensures var page := PageOf(m, after, size, hi);
            page.next.Some? <==>
              exists p :: p in m && Lower(after) <= p < hi && forall i :: 0 <= i < |page.rows| ==> page.rows[i].position < p
  {
    var page, rest := PageOf(m, after, size, hi), Rest(m, after, hi);
    BetweenIsSelection(m, Lower(after), hi);
    if page.next.Some? {
      var p := rest[|page.rows|].position;
      assert p in m && forall i :: 0 <= i < |page.rows| ==> page.rows[i].position < p;
    } else {
      forall p | p in m && Lower(after) <= p < hi ensures exists i :: 0 <= i < |page.rows| && page.rows[i].position >= p {
        var i :| 0 <= i < |rest| && rest[i] == Row(p, m[p]);
        assert page.rows[i].position >= p;
      }
    }
  }

  /** The positions that lie behind a cursor. */
  ghost function PositionsBehind<V>(m: map<nat, V>, after: Option<int>): set<nat> {
    set p | p in m && (after.None? || p > after.value)
  }

  ghost predicate Increasing(ps: seq<nat>) {
    forall i, j :: 0 <= i < j < |ps| ==> ps[i] < ps[j]
  }

  ghost predicate Above(p: nat, ps: seq<nat>) {
    forall i :: 0 <= i < |ps| ==> ps[i] < p
  }

  /** Some of the positions, and every other one is above them. */
  ghost predicate FirstAmong(ps: seq<nat>, all: set<nat>) {
    && (forall i :: 0 <= i < |ps| ==> ps[i] in all)
    && forall p :: p in all ==> p in ps || Above(p, ps)
  }

  /**
   * What a page is, in terms of positions: the first ones behind the cursor, as many as were asked for
   * (50 when the size is not positive, 100 at most), and a cursor at the last of them when there are more.
   */
  ghost predicate IsPage(ps: seq<nat>, next: Option<int>, behind: set<nat>, size: int32) {
    var n: int := if size <= 0 then 50 else if size > 100 then 100 else size;
    && Increasing(ps) && FirstAmong(ps, behind)
    && |ps| == (if |behind| < n then |behind| else n)
    && next == if |behind| > n then Some(ps[n - 1]) else None
  }

  function Positions<V>(rows: seq<Row<V>>): seq<nat> {
    seq(|rows|, i requires 0 <= i < |rows| => rows[i].position)
  }

  lemma RestIsBehind<V>(m: map<nat, V>, after: Option<int>, hi: nat)
    requires forall p :: p in m ==> p < hi
    ensures |Rest(m, after, hi)| == |PositionsBehind(m, after)|
    ensures forall p :: p in PositionsBehind(m, after) <==> p in Positions(Rest(m, after, hi))
  {
    var rest := Rest(m, after, hi);
    BetweenIsSelection(m, Lower(after), hi);
    BetweenLength(m, Lower(after), hi);
    assert KeysIn(m, Lower(after), hi) == PositionsBehind(m, after);
    forall p | p in PositionsBehind(m, after) ensures p in Positions(rest) {
      var i :| 0 <= i < |rest| && rest[i] == Row(p, m[p]);
      assert Positions(rest)[i] == p;
    }
  }

  lemma PrefixIsFirst(all: seq<nat>, behind: set<nat>, k: nat)
    requires k <= |all| && Increasing(all) && forall p :: p in behind <==> p in all
    ensures Increasing(all[..k]) && FirstAmong(all[..k], behind)
  {
    var ps := all[..k];
    forall i | 0 <= i < k ensures ps[i] in behind {
      assert ps[i] == all[i];
    }
    forall p | p in behind ensures p in ps || Above(p, ps) {
      var j :| 0 <= j < |all| && all[j] == p;
      if j < k {
        assert ps[j] == p;
      } else {
        assert forall i :: 0 <= i < k ==> ps[i] == all[i];
      }
    }
  }

  /** The first `n` of all positions behind the cursor are a page. */
  lemma PrefixIsPage(all: seq<nat>, behind: set<nat>, size: int32, n: nat)
    requires n == NormalizePageSize(size) && |all| == |behind|
    requires Increasing(all) && forall p :: p in behind <==> p in all
    ensures IsPage(if |all| <= n then all else all[..n], if |all| <= n then None else Some(all[n - 1]), behind, size)
  {
    assert all[..|all|] == all;
    PrefixIsFirst(all, behind, if |all| <= n then |all| else n);
  }

  lemma PagePositions<V>(m: map<nat, V>, after: Option<int>, size: int32, hi: nat)
    ensures var all, n, page := Positions(Rest(m, after, hi)), NormalizePageSize(size), PageOf(m, after, size, hi);
            && Positions(page.rows) == (if |all| <= n then all else all[..n])
            && page.next == if |all| <= n then None else Some(all[n - 1])
  {
  }

  lemma RestRows<V>(m: map<nat, V>, after: Option<int>, hi: nat)
    ensures var rest := Rest(m, after, hi);
            && Increasing(Positions(rest))
            && forall k :: 0 <= k < |rest| ==> rest[k].position in m && rest[k].value == m[rest[k].position]
  {
    BetweenIsSelection(m, Lower(after), hi);
  }

  /** Every page is that, row by row. */
  lemma PageIsFirst<V>(m: map<nat, V>, after: Option<int>, size: int32, hi: nat)
    requires forall p :: p in m ==> p < hi
    ensures var page := PageOf(m, after, size, hi);
            && IsPage(Positions(page.rows), page.next, PositionsBehind(m, after), size)
            && forall k :: 0 <= k < |page.rows| ==> page.rows[k].position in m && page.rows[k].value == m[page.rows[k].position]
  {
    RestIsBehind(m, after, hi);
    RestRows(m, after, hi);
    PagePositions(m, after, size, hi);
    PrefixIsPage(Positions(Rest(m, after, hi)), PositionsBehind(m, after), size, NormalizePageSize(size));
  }

  // ---------------------------------------------------------------- following cursors

  /** The pages of a reader who asks for `sizes` in turn and stops at a page without a cursor. */
  function Follow<V>(m: map<nat, V>, after: Option<int>, sizes: seq<int32>, hi: nat): seq<Page<V>>
    decreases |sizes|
  {
    if sizes == [] then []
    else
      var page := PageOf(m, after, sizes[0], hi);
      [page] + if page.next.Some? then Follow(m, page.next, sizes[1..], hi) else []
  }

  function Gathered<V>(pages: seq<Page<V>>): seq<Row<V>> {
    if pages == [] then [] else pages[0].rows + Gathered(pages[1..])
  }

  /** Every page but the last has a cursor, the last has none. */
  ghost predicate Finished<V>(pages: seq<Page<V>>) {
    pages != [] && forall k :: 0 <= k < |pages| ==> (pages[k].next.None? <==> k == |pages| - 1)
  }

  /** The pages so far and what remains behind the last one are exactly `all`. */
  ghost predicate Partition<V>(m: map<nat, V>, pages: seq<Page<V>>, hi: nat, all: seq<Row<V>>) {
    pages != [] && Gathered(pages) + Remaining(m, pages[|pages| - 1], hi) == all
  }

  lemma PartitionOne<V>(m: map<nat, V>, page: Page<V>, hi: nat, all: seq<Row<V>>)
    requires all == page.rows + Remaining(m, page, hi)
    ensures Partition(m, [page], hi, all)
  {
    assert Gathered([page][1..]) == [];
  }

  lemma PartitionMore<V>(m: map<nat, V>, page: Page<V>, pages: seq<Page<V>>, hi: nat, rest: seq<Row<V>>)
    requires Partition(m, pages, hi, rest)
    ensures Partition(m, [page] + pages, hi, page.rows + rest)
  {
    assert ([page] + pages)[1..] == pages;
    var last := Remaining(m, pages[|pages| - 1], hi);
    assert page.rows + Gathered(pages) + last == page.rows + (Gathered(pages) + last);
  }

  /** Wherever the reader stops, the pages so far and what remains behind the last are what there was. */
  lemma {:induction false} NothingLost<V>(m: map<nat, V>, after: Option<int>, sizes: seq<int32>, hi: nat)
    requires sizes != []
    ensures Partition(m, Follow(m, after, sizes, hi), hi, Rest(m, after, hi))
    decreases |sizes|
  {
    PageSplits(m, after, sizes[0], hi);
    var page := PageOf(m, after, sizes[0], hi);
    if page.next.Some? && sizes[1..] != [] {
      NothingLost(m, page.next, sizes[1..], hi);
      PartitionMore(m, page, Follow(m, page.next, sizes[1..], hi), hi, Rest(m, page.next, hi));
    } else {
      PartitionOne(m, page, hi, Rest(m, after, hi));
    }
  }

  /** A page that follows a cursor is not empty. */
  lemma {:induction false} LaterPagesNotEmpty<V>(m: map<nat, V>, after: Option<int>, sizes: seq<int32>, hi: nat, k: nat)
    requires 0 < k < |Follow(m, after, sizes, hi)|
    ensures Follow(m, after, sizes, hi)[k].rows != []
    decreases |sizes|
  {
    PageSplits(m, after, sizes[0], hi);
    var page := PageOf(m, after, sizes[0], hi);
    if k == 1 {
      PageSplits(m, page.next, sizes[1..][0], hi);
    } else {
      LaterPagesNotEmpty(m, page.next, sizes[1..], hi, k - 1);
    }
  }

  /** As many requests as there are rows, and at least one, reach the end. */
  lemma {:induction false} Terminates<V>(m: map<nat, V>, after: Option<int>, sizes: seq<int32>, hi: nat)
    requires sizes != [] && |Rest(m, after, hi)| <= |sizes|
    ensures Finished(Follow(m, after, sizes, hi))
    decreases |sizes|
  {
    PageSplits(m, after, sizes[0], hi);
    var page := PageOf(m, after, sizes[0], hi);
    if page.next.Some? {
      Terminates(m, page.next, sizes[1..], hi);
      assert Follow(m, after, sizes, hi) == [page] + Follow(m, page.next, sizes[1..], hi);
    } else {
      assert Follow(m, after, sizes, hi) == [page];
    }
  }

  /**
   * Following cursors to the end, whatever page sizes are asked for: it ends, the pages make up
   * exactly the rows in order without gap or repeat, and no page after a cursor is empty.
   */
  lemma FullPaging<V>(m: map<nat, V>, after: Option<int>, sizes: seq<int32>, hi: nat)
    requires sizes != [] && |Rest(m, after, hi)| <= |sizes|
    ensures var pages := Follow(m, after, sizes, hi);
            && Finished(pages) && Gathered(pages) == Rest(m, after, hi)
            && forall k :: 0 < k < |pages| ==> pages[k].rows != []
  {
    var pages := Follow(m, after, sizes, hi);
    Terminates(m, after, sizes, hi);
    NothingLost(m, after, sizes, hi);
    forall k | 0 < k < |pages| ensures pages[k].rows != [] {
      LaterPagesNotEmpty(m, after, sizes, hi, k);
    }
  }

  // ---------------------------------------------------------------- filters

  /** The part of a table that a filter selects. */
  function Where<V>(m: map<nat, V>, keep: V -> bool): map<nat, V> {
    map p | p in m && keep(m[p]) :: m[p]
  }

  function Matching<V>(rows: seq<Row<V>>, keep: V -> bool): seq<Row<V>> {
    if rows == [] then []
    else Matching(rows[..|rows| - 1], keep) + if keep(rows[|rows| - 1].value) then [rows[|rows| - 1]] else []
  }

  lemma MatchingSnoc<V>(rows: seq<Row<V>>, r: Row<V>, keep: V -> bool)
    ensures Matching(rows + [r], keep) == Matching(rows, keep) + if keep(r.value) then [r] else []
  {
    assert (rows + [r])[..|rows|] == rows;
  }

  /** Filtering the table and listing it is listing it and dropping what does not match. */
  lemma {:induction false} FilterKeepsOrder<V>(m: map<nat, V>, keep: V -> bool, lo: nat, hi: nat)
    ensures Between(Where(m, keep), lo, hi) == Matching(Between(m, lo, hi), keep)
    decreases hi
  {
    if lo < hi {
      FilterKeepsOrder(m, keep, lo, hi - 1);
      if hi - 1 in m {
        MatchingSnoc(Between(m, lo, hi - 1), Row(hi - 1, m[hi - 1]), keep);
      } else {
        assert Between(m, lo, hi) == Between(m, lo, hi - 1);
      }
    }
  }

  /** `n` holds the images of the rows of `m`. */
  ghost predicate Mirrors<V, W>(m: map<nat, V>, n: map<nat, W>, image: V -> W) {
    n.Keys == m.Keys && forall p :: p in m ==> n[p] == image(m[p])
  }

  function Image<V, W>(rows: seq<Row<V>>, image: V -> W): seq<Row<W>> {
    seq(|rows|, i requires 0 <= i < |rows| => Row(rows[i].position, image(rows[i].value)))
  }

  lemma {:induction false} MirrorRows<V, W>(m: map<nat, V>, n: map<nat, W>, image: V -> W, lo: nat, hi: nat)
    requires Mirrors(m, n, image)
    ensures Between(n, lo, hi) == Image(Between(m, lo, hi), image)
    decreases hi
  {
    if lo < hi {
      MirrorRows(m, n, image, lo, hi - 1);
    }
  }

  /** Two listings over the same positions have page for page the same length, cursor and images. */
  lemma MirrorPages<V, W>(m: map<nat, V>, n: map<nat, W>, image: V -> W, after: Option<int>, size: int32, hi: nat)
    requires Mirrors(m, n, image)
    ensures PageOf(n, after, size, hi) == Page(Image(PageOf(m, after, size, hi).rows, image), PageOf(m, after, size, hi).next)
  {
    MirrorRows(m, n, image, Lower(after), hi);
  }
}
