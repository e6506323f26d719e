/** The pull side of sync: one page of changes over `row_version`. Five tables are read
    separately, merged, sorted and truncated; the page is exactly the first rows of the
    whole sorted delta. */
module Feed {
  datatype Row<+D> = Row(version: nat, id: nat, data: D)

  const ENTITIES: nat := 5 // tenant, customer, daily_service_record, payment, statement
  const MAX_PAGE_LIMIT: int := 1000

  datatype Page<+D> = Page(rows: seq<Row<D>>, cursor: nat, hasMore: bool, head: nat)

  // ---- queries -----------------------------------------------------------------

  ghost predicate DistinctVersions<D(!new)>(s: seq<Row<D>>) {
    forall i, j :: 0 <= i < j < |s| ==> s[i].version != s[j].version
  }

  ghost predicate Ascending<D(!new)>(s: seq<Row<D>>) {
    forall i, j :: 0 <= i < j < |s| ==> s[i].version < s[j].version
  }

  /** `WHERE row_version > since`. */
  function Above<D(!new)>(table: seq<Row<D>>, since: nat): (r: seq<Row<D>>)
    ensures forall x :: x in r <==> x in table && since < x.version
  {
    if table == [] then []
    else
      var last := |table| - 1;
      assert table == table[..last] + [table[last]];
      Above(table[..last], since) + if since < table[last].version then [table[last]] else []
  }

  function Insert<D(!new)>(r: Row<D>, s: seq<Row<D>>): (t: seq<Row<D>>)
    ensures forall x :: x in t <==> x == r || x in s
    ensures |t| == |s| + 1
  {
    if s == [] || r.version <= s[0].version then [r] + s else [s[0]] + Insert(r, s[1..])
  }

  /** `ORDER BY row_version`. */
  function SortRows<D(!new)>(s: seq<Row<D>>): (t: seq<Row<D>>)
    ensures forall x :: x in t <==> x in s
    ensures |t| == |s|
  {
    if s == [] then []
    else
      assert s == s[..|s| - 1] + [s[|s| - 1]];
      Insert(s[|s| - 1], SortRows(s[..|s| - 1]))
  }

  /** `LIMIT n`. */
  function Take<D(!new)>(s: seq<Row<D>>, n: nat): (t: seq<Row<D>>)
    ensures forall x :: x in t ==> x in s
  {
    if n < |s| then s[..n] else s
  }

  function Flatten<D(!new)>(tables: seq<seq<Row<D>>>): seq<Row<D>> {
    if tables == [] then [] else Flatten(tables[..|tables| - 1]) + tables[|tables| - 1]
  }

  /** Everything newer than the cursor, oldest first. */
  function Delta<D(!new)>(rows: seq<Row<D>>, since: nat): (r: seq<Row<D>>)
    ensures forall x :: x in r <==> x in rows && since < x.version
  {
    SortRows(Above(rows, since))
  }

  /** One entity's reader. The tenant reader fetches its single row and has no limit. */
  function ReadEntity<D(!new)>(entity: nat, table: seq<Row<D>>, since: nat, limit: nat): seq<Row<D>> {
    if entity == 0 then Delta(table, since) else Take(Delta(table, since), limit)
  }

  function Clamp(limit: int): (r: nat)
    ensures 1 <= r <= MAX_PAGE_LIMIT
  {
    if limit < 1 then 1 else if MAX_PAGE_LIMIT < limit then MAX_PAGE_LIMIT else limit
  }

  /** The greatest version held, or 0. */
  function Head<D(!new)>(rows: seq<Row<D>>): (h: nat)
    ensures forall x :: x in rows ==> x.version <= h
    ensures h != 0 ==> exists x :: x in rows && x.version == h
  {
    if rows == [] then 0
    else
      var last := |rows| - 1;
      assert rows == rows[..last] + [rows[last]];
      var h := Head(rows[..last]);
      if h < rows[last].version then rows[last].version else h
  }

  // ---- sorted sequences --------------------------------------------------------

  lemma {:induction false} InsertAscends<D(!new)>(r: Row<D>, s: seq<Row<D>>)
    requires Ascending(s) && forall x :: x in s ==> x.version != r.version
    ensures Ascending(Insert(r, s))
  {
    if s != [] && s[0].version < r.version {
      InsertAscends(r, s[1..]);
      var t := Insert(r, s[1..]);
      forall j | 0 <= j < |t| ensures s[0].version < t[j].version {
        assert t[j] in t;
      }
    }
  }

  lemma {:induction false} SortAscends<D(!new)>(s: seq<Row<D>>)
    requires DistinctVersions(s)
    ensures Ascending(SortRows(s))
  {
    if s != [] {
      var last := |s| - 1;
      SortAscends(s[..last]);
      forall x | x in SortRows(s[..last]) ensures x.version != s[last].version {
        assert x in s[..last];
      }
      InsertAscends(s[last], SortRows(s[..last]));
    }
  }

  lemma {:induction false} AboveKeepsDistinct<D(!new)>(s: seq<Row<D>>, since: nat)
    requires DistinctVersions(s)
    ensures DistinctVersions(Above(s, since))
  {
    if s != [] {
      var last := |s| - 1;
      AboveKeepsDistinct(s[..last], since);
      var a := Above(s[..last], since);
      forall i | 0 <= i < |a| ensures a[i].version != s[last].version {
        assert a[i] in s[..last];
      }
    }
  }

  lemma DeltaAscends<D(!new)>(s: seq<Row<D>>, since: nat)
    requires DistinctVersions(s)
    ensures Ascending(Delta(s, since))
  {
    AboveKeepsDistinct(s, since);
    SortAscends(Above(s, since));
  }

  /** In a sub-collection a row stands no later than in the whole. */
  lemma {:induction false} RankInPart<D(!new)>(part: seq<Row<D>>, whole: seq<Row<D>>, j: nat, k: nat)
    requires Ascending(part) && Ascending(whole) && forall x :: x in part ==> x in whole
    requires j < |part| && k < |whole| && part[j] == whole[k]
    ensures j <= k
  {
    if 0 < j {
      assert part[j - 1] in whole;
      var m :| 0 <= m < |whole| && whole[m] == part[j - 1];
      RankInPart(part, whole, j - 1, m);
    }
  }

  /** Two ascending sequences agree on a prefix of one that the other contains. */
  lemma {:induction false} PrefixesAgree<D(!new)>(part: seq<Row<D>>, whole: seq<Row<D>>, m: nat)
    requires Ascending(part) && Ascending(whole) && forall x :: x in part ==> x in whole
    requires m <= |whole| && forall k :: 0 <= k < m ==> whole[k] in part
    ensures m <= |part| && part[..m] == whole[..m]
  {
    if 0 < m {
      PrefixesAgree(part, whole, m - 1);
      assert whole[m - 1] in part;
      var j :| 0 <= j < |part| && part[j] == whole[m - 1];
      assert m - 1 <= j by {
        forall i | 0 <= i < m - 1 ensures part[i] == whole[i] {
          assert part[..m - 1][i] == whole[..m - 1][i];
        }
      }
      RankInPart(part, whole, j, m - 1);
    }
  }

  // ---- the page is the prefix of the whole delta -------------------------------

  lemma {:induction false} InFlatten<D(!new)>(tables: seq<seq<Row<D>>>, i: nat, x: Row<D>)
    requires i < |tables| && x in tables[i]
    ensures x in Flatten(tables)
  {
    var last := |tables| - 1;
    if i < last {
      InFlatten(tables[..last], i, x);
    }
  }

  lemma {:induction false} FromFlatten<D(!new)>(tables: seq<seq<Row<D>>>, x: Row<D>) returns (i: nat)
    requires x in Flatten(tables)
    ensures i < |tables| && x in tables[i]
  {
    var last := |tables| - 1;
    if x in tables[last] {
      i := last;
    } else {
      i := FromFlatten(tables[..last], x);
    }
  }

  lemma SplitDistinct<D(!new)>(a: seq<Row<D>>, b: seq<Row<D>>)
    requires DistinctVersions(a + b)
    ensures DistinctVersions(a) && DistinctVersions(b)
    ensures forall x, y :: x in a && y in b ==> x.version != y.version
  {
    var s := a + b;
    assert forall i :: 0 <= i < |a| ==> s[i] == a[i];
    assert forall i :: 0 <= i < |b| ==> s[|a| + i] == b[i];
  }

  lemma JoinDistinct<D(!new)>(a: seq<Row<D>>, b: seq<Row<D>>)
    requires DistinctVersions(a) && DistinctVersions(b)
    requires forall x, y :: x in a && y in b ==> x.version != y.version
    ensures DistinctVersions(a + b)
  {
  }

  lemma {:induction false} TablesAreDistinct<D(!new)>(tables: seq<seq<Row<D>>>, i: nat)
    requires DistinctVersions(Flatten(tables)) && i < |tables|
    ensures DistinctVersions(tables[i])
  {
    var last := |tables| - 1;
    SplitDistinct(Flatten(tables[..last]), tables[last]);
    if i < last {
      TablesAreDistinct(tables[..last], i);
    }
  }

  function ReadAll<D(!new)>(tables: seq<seq<Row<D>>>, since: nat, limit: nat): seq<seq<Row<D>>> {
    seq(|tables|, i requires 0 <= i < |tables| => ReadEntity(i, tables[i], since, limit))
  }

  lemma ReadComesFromDelta<D(!new)>(tables: seq<seq<Row<D>>>, since: nat, limit: nat, x: Row<D>)
    requires x in Flatten(ReadAll(tables, since, limit))
    ensures x in Flatten(tables) && since < x.version
  {
    var i := FromFlatten(ReadAll(tables, since, limit), x);
    assert x in Delta(tables[i], since);
    InFlatten(tables, i, x);
  }

  /** Parts of tables with distinct versions have distinct versions. */
  lemma {:induction false} PartsAreDistinct<D(!new)>(tables: seq<seq<Row<D>>>, parts: seq<seq<Row<D>>>)
    requires DistinctVersions(Flatten(tables)) && |parts| == |tables|
    requires forall i :: 0 <= i < |parts| ==> DistinctVersions(parts[i])
    requires forall i, x :: 0 <= i < |parts| && x in parts[i] ==> x in tables[i]
    ensures DistinctVersions(Flatten(parts))
  {
    if tables != [] {
      var last := |tables| - 1;
      SplitDistinct(Flatten(tables[..last]), tables[last]);
      PartsAreDistinct(tables[..last], parts[..last]);
      forall x, y | x in Flatten(parts[..last]) && y in parts[last] ensures x.version != y.version {
        var i := FromFlatten(parts[..last], x);
        InFlatten(tables[..last], i, x);
      }
      JoinDistinct(Flatten(parts[..last]), parts[last]);
    }
  }

  lemma ReadEntityFacts<D(!new)>(entity: nat, table: seq<Row<D>>, since: nat, limit: nat)
    requires DistinctVersions(table)
    ensures DistinctVersions(ReadEntity(entity, table, since, limit))
    ensures forall x :: x in ReadEntity(entity, table, since, limit) ==> x in table
  {
    DeltaAscends(table, since);
  }

  lemma ReadsAreDistinct<D(!new)>(tables: seq<seq<Row<D>>>, since: nat, limit: nat)
    requires DistinctVersions(Flatten(tables))
    ensures DistinctVersions(Flatten(ReadAll(tables, since, limit)))
  {
    var parts := ReadAll(tables, since, limit);
    forall i | 0 <= i < |parts|
      ensures DistinctVersions(parts[i]) && forall x :: x in parts[i] ==> x in tables[i]
    {
      TablesAreDistinct(tables, i);
      ReadEntityFacts(i, tables[i], since, limit);
    }
    PartsAreDistinct(tables, parts);
  }

  /** A row among the first `k` of the whole stands among the first `k` of any part of it
      that holds it. */
  lemma RanksEarlyInPart<D(!new)>(part: seq<Row<D>>, whole: seq<Row<D>>, k: nat, limit: nat)
    requires Ascending(part) && Ascending(whole) && forall x :: x in part ==> x in whole
    requires k < |whole| && k <= limit && whole[k] in part
    ensures whole[k] in Take(part, limit + 1)
  {
    var j :| 0 <= j < |part| && part[j] == whole[k];
    RankInPart(part, whole, j, k);
    assert Take(part, limit + 1)[j] == whole[k];
  }

  lemma PartOfWhole<D(!new)>(tables: seq<seq<Row<D>>>, i: nat, since: nat)
    requires i < |tables|
    ensures forall x :: x in Delta(tables[i], since) ==> x in Delta(Flatten(tables), since)
  {
    forall x | x in Delta(tables[i], since) ensures x in Delta(Flatten(tables), since) {
      InFlatten(tables, i, x);
    }
  }

  lemma ReadFromItsTable<D(!new)>(tables: seq<seq<Row<D>>>, since: nat, limit: nat, k: nat, i: nat, whole: seq<Row<D>>)
    requires DistinctVersions(Flatten(tables)) && i < |tables|
    requires whole == Delta(Flatten(tables), since) && k < |whole| && k <= limit
    requires whole[k] in tables[i] && since < whole[k].version
    ensures whole[k] in ReadEntity(i, tables[i], since, limit + 1)
  {
    TablesAreDistinct(tables, i);
    DeltaAscends(tables[i], since);
    DeltaAscends(Flatten(tables), since);
    PartOfWhole(tables, i, since);
    RanksEarlyInPart(Delta(tables[i], since), whole, k, limit);
  }

  /** A row among the first `limit + 1` of the whole delta is among the first
      `limit + 1` of its own table's delta. */
  lemma TopRowsAreRead<D(!new)>(tables: seq<seq<Row<D>>>, since: nat, limit: nat, k: nat)
    requires DistinctVersions(Flatten(tables))
    requires k < |Delta(Flatten(tables), since)| && k <= limit
    ensures Delta(Flatten(tables), since)[k] in Flatten(ReadAll(tables, since, limit + 1))
  {
    var all := Flatten(tables);
    var whole := Delta(all, since);
    var r := whole[k];
    assert r in all && since < r.version by { assert r in whole; }
    var i := FromFlatten(tables, r);
    var perTable := ReadAll(tables, since, limit + 1);
    ReadFromItsTable(tables, since, limit, k, i, whole);
    assert perTable[i] == ReadEntity(i, tables[i], since, limit + 1);
    InFlatten(perTable, i, r);
  }

  ghost predicate HoldsTop<D(!new)>(part: seq<Row<D>>, whole: seq<Row<D>>, limit: nat) {
    forall k :: 0 <= k < |whole| && k <= limit ==> whole[k] in part
  }

  /** Two ascending sequences where the part holds the first `limit + 1` of the whole. */
  lemma TruncationsAgree<D(!new)>(part: seq<Row<D>>, whole: seq<Row<D>>, limit: nat)
    requires Ascending(part) && Ascending(whole) && forall x :: x in part ==> x in whole
    requires HoldsTop(part, whole, limit)
    ensures Take(part, limit) == Take(whole, limit) && (limit < |part| <==> limit < |whole|)
  {
    PartIsNoLonger(part, whole);
    if |whole| <= limit {
      PrefixesAgree(part, whole, |whole|);
      assert part == part[..|whole|] == whole[..|whole|] == whole;
    } else {
      PrefixesAgree(part, whole, limit + 1);
      assert part[..limit] == part[..limit + 1][..limit] == whole[..limit + 1][..limit] == whole[..limit];
    }
  }

  /** What the merge sorts is part of the whole delta. */
  lemma MergedIsPart<D(!new)>(tables: seq<seq<Row<D>>>, since: nat, limit: nat)
    requires DistinctVersions(Flatten(tables))
    ensures var merged := SortRows(Flatten(ReadAll(tables, since, limit)));
            Ascending(merged) && forall x :: x in merged ==> x in Delta(Flatten(tables), since)
  {
    ReadsAreDistinct(tables, since, limit);
    SortAscends(Flatten(ReadAll(tables, since, limit)));
    forall x | x in SortRows(Flatten(ReadAll(tables, since, limit))) ensures x in Delta(Flatten(tables), since) {
      ReadComesFromDelta(tables, since, limit, x);
    }
  }

  lemma TopRowsAreMerged<D(!new)>(tables: seq<seq<Row<D>>>, since: nat, limit: nat, merged: seq<Row<D>>)
    requires DistinctVersions(Flatten(tables)) && merged == SortRows(Flatten(ReadAll(tables, since, limit + 1)))
    ensures HoldsTop(merged, Delta(Flatten(tables), since), limit)
  {
    var whole := Delta(Flatten(tables), since);
    forall k | 0 <= k < |whole| && k <= limit ensures whole[k] in merged {
      TopRowsAreRead(tables, since, limit, k);
    }
  }

  /** Taking `limit + 1` rows per table, merging, sorting and truncating gives the first
      `limit` rows of the whole sorted union, and knows exactly whether more exist. */
  lemma MergeIsPrefix<D(!new)>(tables: seq<seq<Row<D>>>, since: nat, limit: nat)
    requires DistinctVersions(Flatten(tables))
    ensures var whole := Delta(Flatten(tables), since);
            var merged := SortRows(Flatten(ReadAll(tables, since, limit + 1)));
            Take(merged, limit) == Take(whole, limit) && (limit < |merged| <==> limit < |whole|)
  {
    var merged := SortRows(Flatten(ReadAll(tables, since, limit + 1)));
    MergedIsPart(tables, since, limit + 1);
    TopRowsAreMerged(tables, since, limit, merged);
    DeltaAscends(Flatten(tables), since);
    TruncationsAgree(merged, Delta(Flatten(tables), since), limit);
  }

  lemma PartIsNoLonger<D(!new)>(part: seq<Row<D>>, whole: seq<Row<D>>)
    requires Ascending(part) && Ascending(whole) && forall x :: x in part ==> x in whole
    ensures |part| <= |whole|
  {
    if part != [] {
      var last := |part| - 1;
      assert part[last] in part;
      var k :| 0 <= k < |whole| && whole[k] == part[last];
      RankInPart(part, whole, last, k);
    }
  }

  // ---- the route's page --------------------------------------------------------

  method AppendRows<D(!new)>(merged: seq<Row<D>>, rows: seq<Row<D>>) returns (r: seq<Row<D>>)
    ensures r == merged + rows
  {
    r := merged;
    var i := 0;
    while i < |rows|
      invariant 0 <= i <= |rows|
      invariant r == merged + rows[..i]
    {
      r := r + [rows[i]];
      i := i + 1;
    }
    assert rows[..i] == rows;
  }

  /** The loop over the entities, appending every row each reader returns. */
  method ReadAndMerge<D(!new)>(tables: seq<seq<Row<D>>>, since: nat, limit: nat) returns (merged: seq<Row<D>>)
    ensures merged == Flatten(ReadAll(tables, since, limit))
  {
    merged := [];
    ghost var fetched := ReadAll(tables, since, limit);
    var entity := 0;
    while entity < |tables|
      invariant 0 <= entity <= |tables|
      invariant merged == Flatten(fetched[..entity])
    {
      var rows := ReadEntity(entity, tables[entity], since, limit);
      merged := AppendRows(merged, rows);
      assert fetched[entity] == rows;
      assert fetched[..entity + 1][..entity] == fetched[..entity];
      entity := entity + 1;
    }
    assert fetched[..entity] == fetched;
  }

  /** `changes_since` in one read-only snapshot of the five tables. */
  method ChangesSince<D(!new)>(tables: seq<seq<Row<D>>>, since: nat, limit: int) returns (page: Page<D>)
    requires |tables| == ENTITIES && |tables[0]| <= 1
    requires DistinctVersions(Flatten(tables))
    ensures page.rows == PageOf(Flatten(tables), since, Clamp(limit))
    ensures page.hasMore <==> Clamp(limit) < |Delta(Flatten(tables), since)|
    ensures page.cursor == CursorAfter(page.rows, since)
    ensures page.head == Head(Flatten(tables))
  {
    var n := Clamp(limit);
    var merged := ReadAndMerge(tables, since, n + 1);
    MergedPage(tables, since, n, merged);
    var sorted := SortRows(merged);
    var hasMore := n < |sorted|;
    var rows := Take(sorted, n);
    page := Page(rows, CursorAfter(rows, since), hasMore, Head(Flatten(tables)));
  }

  lemma MergedPage<D(!new)>(tables: seq<seq<Row<D>>>, since: nat, n: nat, merged: seq<Row<D>>)
    requires DistinctVersions(Flatten(tables)) && 1 <= n
    requires merged == Flatten(ReadAll(tables, since, n + 1))
    ensures Take(SortRows(merged), n) == PageOf(Flatten(tables), since, n)
    ensures n < |SortRows(merged)| <==> n < |Delta(Flatten(tables), since)|
  {
    MergeIsPrefix(tables, since, n);
  }

  /** The page a client receives, as a function. */
  function PageOf<D(!new)>(rows: seq<Row<D>>, since: nat, limit: nat): (page: seq<Row<D>>)
    requires 1 <= limit
  {
    Take(Delta(rows, since), limit)
  }

  function CursorAfter<D(!new)>(page: seq<Row<D>>, since: nat): nat {
    if page == [] then since else page[|page| - 1].version
  }

  /** What a page promises about the rows of its snapshot: it is ascending, contains only
      newer rows, and leaves nothing out up to its own cursor. */
  ghost predicate IsPage<D(!new)>(rows: set<Row<D>>, since: nat, page: seq<Row<D>>) {
    Ascending(page)
    && (forall x :: x in page ==> x in rows && since < x.version)
    && (forall x :: x in rows && since < x.version <= CursorAfter(page, since) ==> x in page)
  }

  /** The page is a prefix of the delta, cut at its own cursor. */
  lemma PageIsPrefix<D(!new)>(rows: seq<Row<D>>, since: nat, limit: nat)
    requires DistinctVersions(rows) && 1 <= limit
    ensures var whole, page := Delta(rows, since), PageOf(rows, since, limit);
            Ascending(whole) && |page| <= |whole| && page == whole[..|page|]
            && (page == [] <==> whole == [])
            && (page != [] ==>
                  CursorAfter(page, since) == whole[|page| - 1].version && since < CursorAfter(page, since))
  {
    DeltaAscends(rows, since);
    var whole, page := Delta(rows, since), PageOf(rows, since, limit);
    if page != [] {
      assert whole[|page| - 1] in whole;
    }
  }

  lemma UpToPivot<D(!new)>(whole: seq<Row<D>>, n: nat, x: Row<D>)
    requires Ascending(whole) && 0 < n <= |whole| && x in whole && x.version <= whole[n - 1].version
    ensures x in whole[..n]
  {
    var k :| 0 <= k < |whole| && whole[k] == x;
    assert whole[..n][k] == x;
  }

  lemma PageHasNoGap<D(!new)>(rows: seq<Row<D>>, since: nat, limit: nat)
    requires DistinctVersions(rows) && 1 <= limit
    ensures IsPage((set x | x in rows), since, PageOf(rows, since, limit))
    ensures PageOf(rows, since, limit) == [] <==> forall x :: x in rows ==> x.version <= since
  {
    PageIsPrefix(rows, since, limit);
    EmptyPageMeansNothingNewer(rows, since, limit);
    CompleteUpToCursor(rows, since, Delta(rows, since), PageOf(rows, since, limit));
  }

  lemma CompleteUpToCursor<D(!new)>(rows: seq<Row<D>>, since: nat, whole: seq<Row<D>>, page: seq<Row<D>>)
    requires Ascending(whole) && |page| <= |whole| && page == whole[..|page|]
    requires forall x :: x in rows && since < x.version ==> x in whole
    ensures forall x :: x in rows && since < x.version <= CursorAfter(page, since) ==> x in page
  {
    forall x | x in rows && since < x.version <= CursorAfter(page, since) ensures x in page {
      UpToPivot(whole, |page|, x);
    }
  }

  lemma EmptyPageMeansNothingNewer<D(!new)>(rows: seq<Row<D>>, since: nat, limit: nat)
    requires 1 <= limit
    ensures PageOf(rows, since, limit) == [] <==> forall x :: x in rows ==> x.version <= since
  {
    var whole, page := Delta(rows, since), PageOf(rows, since, limit);
    if page == [] {
      forall x | x in rows ensures x.version <= since {
        assert since < x.version ==> x in whole;
      }
    } else {
      assert whole[0] in whole;
    }
  }

  // ---- following the cursor ----------------------------------------------------

  /** All pages from a cursor on a quiescent server, concatenated. */
  function Follow<D(!new)>(rows: seq<Row<D>>, since: nat, limit: nat): (all: seq<Row<D>>)
    requires 1 <= limit
    decreases Head(rows) - since
  {
    var page := PageOf(rows, since, limit);
    if page == [] then []
    else
      assert page[|page| - 1] in page;
      page + Follow(rows, CursorAfter(page, since), limit)
  }

  /** What a page leaves behind is the delta above its cursor. */
  lemma RestOfDelta<D(!new)>(rows: seq<Row<D>>, since: nat, limit: nat)
    requires DistinctVersions(rows) && 1 <= limit && PageOf(rows, since, limit) != []
    ensures var page := PageOf(rows, since, limit);
            Delta(rows, since) == page + Delta(rows, CursorAfter(page, since))
  {
    var whole, page := Delta(rows, since), PageOf(rows, since, limit);
    var cut := CursorAfter(page, since);
    PageIsPrefix(rows, since, limit);
    DeltaAscends(rows, cut);
    forall x ensures x in Delta(rows, cut) <==> x in whole && cut < x.version {
      HigherDelta(rows, since, cut, x);
    }
    TailAbovePivot(whole, Delta(rows, cut), |page|);
  }

  lemma HigherDelta<D(!new)>(rows: seq<Row<D>>, since: nat, cut: nat, x: Row<D>)
    requires since <= cut
    ensures x in Delta(rows, cut) <==> x in Delta(rows, since) && cut < x.version
  {
  }

  lemma InTail<D(!new)>(whole: seq<Row<D>>, n: nat, x: Row<D>)
    requires Ascending(whole) && 0 < n <= |whole|
    ensures x in whole[n..] <==> x in whole && whole[n - 1].version < x.version
  {
    if x in whole {
      var m :| 0 <= m < |whole| && whole[m] == x;
      if n <= m {
        assert whole[n..][m - n] == x;
      }
    }
    if x in whole[n..] {
      var k :| 0 <= k < |whole[n..]| && whole[n..][k] == x;
      assert whole[n + k] == x;
    }
  }

  /** Two ascending sequences with the same rows are the same. */
  lemma SameRowsSameSequence<D(!new)>(a: seq<Row<D>>, b: seq<Row<D>>)
    requires Ascending(a) && Ascending(b) && forall x :: x in a <==> x in b
    ensures a == b
  {
    PartIsNoLonger(a, b);
    PrefixesAgree(a, b, |b|);
    assert a[..|b|] == a && b[..|b|] == b;
  }

  /** Cutting an ascending sequence after a row leaves exactly the rows above it. */
  lemma TailAbovePivot<D(!new)>(whole: seq<Row<D>>, rest: seq<Row<D>>, n: nat)
    requires Ascending(whole) && Ascending(rest) && 0 < n <= |whole|
    requires forall x :: x in rest <==> x in whole && whole[n - 1].version < x.version
    ensures whole == whole[..n] + rest
  {
    forall x ensures x in whole[n..] <==> x in rest {
      InTail(whole, n, x);
    }
    SameRowsSameSequence(whole[n..], rest);
  }

  /** Following the cursor terminates (`Follow` is a total function) and delivers the
      whole delta: every row exactly once, in version order. */
  lemma {:induction false} FollowDeliversAll<D(!new)>(rows: seq<Row<D>>, since: nat, limit: nat)
    requires DistinctVersions(rows) && 1 <= limit
    ensures Follow(rows, since, limit) == Delta(rows, since)
    ensures Ascending(Follow(rows, since, limit))
    decreases Head(rows) - since
  {
    DeltaAscends(rows, since);
    var page := PageOf(rows, since, limit);
    if page != [] {
      RestOfDelta(rows, since, limit);
      assert page[|page| - 1] in page;
      FollowDeliversAll(rows, CursorAfter(page, since), limit);
    }
  }
}
