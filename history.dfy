/**
 * The history routes: one page of generations newest first with the page
 * count, and the delete handler with the files it unlinks.
 */
module History {
  import opened Wrappers
  import opened Js
  import opened Db

  const DefaultPage: int := 1
  const DefaultLimit: int := 20

  /** `Math.ceil` */
  function Ceil(x: real): (n: int)
    ensures x <= n as real < x + 1.0
  {
    -((-x).Floor)
  }

  /** `Math.ceil(total / limit)`; the limit is never 0, since `|| 20` replaces a zero. */
  function PageCount(total: nat, limit: int): int
    requires limit != 0
  {
    Ceil(total as real / limit as real)
  }

  /** Multiplying by a positive real keeps an order. */
  lemma ScaleLess(a: real, b: real, c: real)
    requires a < b && c > 0.0
    ensures a * c < b * c
  {
  }

  lemma ScaleAtMost(a: real, b: real, c: real)
    requires a <= b && c > 0.0
    ensures a * c <= b * c
  {
  }

  /** Converting a product of integers to a real multiplies the converted factors. */
  lemma CastProduct(a: int, b: int)
    ensures (a * b) as real == a as real * b as real
  {
  }

  lemma Distribute(q: real, l: real)
    ensures (q + 1.0) * l == q * l + l
  {
  }

  /** A real within one above `t / l` covers `t` when scaled by `l`, and falls short of `t + l`. */
  lemma ScaledCeil(t: real, l: real, c: real)
    requires l > 0.0 && t / l <= c < t / l + 1.0
    ensures t <= c * l
    ensures c * l < t + l
  {
    var q := t / l;
    var u := q + 1.0;
    ScaleAtMost(q, c, l);
    ScaleLess(c, u, l);
    Distribute(q, l);
    assert q * l == t;
  }

  /** For a positive limit the pages just cover the rows: none for no rows, else the last page is non-empty. */
  lemma PageCountBounds(total: nat, limit: int)
    requires limit > 0
    ensures total == 0 ==> PageCount(total, limit) == 0
    ensures total > 0 ==> (PageCount(total, limit) - 1) * limit < total <= PageCount(total, limit) * limit
  {
    var p := PageCount(total, limit);
    ScaledCeil(total as real, limit as real, p as real);
    CastProduct(p, limit);
    CastProduct(p - 1, limit);
    if total == 0 {
      assert 0.0 / limit as real == 0.0;
    }
  }

  /** A negative limit (which SQLite reads as "no limit") gives no positive page count. */
  lemma PageCountNegativeLimit(total: nat, limit: int)
    requires limit < 0
    ensures PageCount(total, limit) <= 0
  {
    var q := total as real / limit as real;
    assert q <= 0.0 by {
      assert q * limit as real == total as real;
    }
  }

  /** One element of `items` in the reply. */
  datatype HistoryItem = HistoryItem(
    id: int, status: Status, resultUrl: Option<string>, params: Params, createdAt: int, error: Option<string>)

  /** The `items.map` callback: `result_url` is `result_image || null`, `params` the parsed column. */
  function FormatItem(g: Generation): (item: HistoryItem)
    ensures item.id == g.id && item.status == g.status && item.params == g.params
    ensures item.createdAt == g.createdAt && item.error == g.error
    ensures item.resultUrl.Some? <==> TruthyText(g.resultImage)
    ensures item.resultUrl.Some? ==> item.resultUrl == g.resultImage
  {
    HistoryItem(g.id, g.status, NullIfEmpty(g.resultImage), g.params, g.createdAt, g.error)
  }

  /** `items.map(...)`: one formatted item per row, in the same order. */
  function FormatItems(items: seq<Generation>): (r: seq<HistoryItem>)
    ensures |r| == |items|
    ensures forall i :: 0 <= i < |items| ==> r[i] == FormatItem(items[i])
  {
    if |items| == 0 then [] else [FormatItem(items[0])] + FormatItems(items[1..])
  }

  /** The JSON reply of GET `/`. */
  datatype HistoryPage = HistoryPage(items: seq<HistoryItem>, total: nat, page: int, limit: int, pages: int)

  /** GET `/` on a table, from `parseInt(page)` and `parseInt(limit)` (`None`: absent or NaN). */
  function HistoryReply(rows: map<int, Generation>, nextId: int, page: Option<int>, limit: Option<int>): HistoryPage
  {
    var p := IntOr(page, DefaultPage);
    var l := IntOr(limit, DefaultLimit);
    HistoryPage(FormatItems(HistoryItems(rows, nextId, p, l)), |rows|, p, l, PageCount(|rows|, l))
  }

  /**
   * Supplied nonzero values are echoed, absent, NaN and 0 become page 1 and
   * limit 20; the total counts all rows whatever the page; a positive limit
   * bounds the items, which are newest first and rows of the table.
   */
  lemma HistoryReplyFacts(rows: map<int, Generation>, nextId: int, page: Option<int>, limit: Option<int>)
    requires forall id :: id in rows ==> 1 <= id < nextId && rows[id].id == id
    ensures var r := HistoryReply(rows, nextId, page, limit);
      && r.page == (if page.Some? && page.value != 0 then page.value else DefaultPage)
      && r.limit == (if limit.Some? && limit.value != 0 then limit.value else DefaultLimit)
      && r.total == |rows|
      && (r.limit > 0 ==> |r.items| <= r.limit)
      && (forall i, j :: 0 <= i < j < |r.items| ==> r.items[i].createdAt >= r.items[j].createdAt)
      && (forall i :: 0 <= i < |r.items| ==> r.items[i].id in rows && FormatItem(rows[r.items[i].id]) == r.items[i])
  {
    var p := IntOr(page, DefaultPage);
    var l := IntOr(limit, DefaultLimit);
    var s := HistoryItems(rows, nextId, p, l);
    var r := HistoryReply(rows, nextId, page, limit);
    HistoryItemsOrdered(rows, nextId, p, l);
    forall i | 0 <= i < |r.items|
      ensures r.items[i].id in rows && FormatItem(rows[r.items[i].id]) == r.items[i]
    {
      assert r.items[i] == FormatItem(s[i]);
      assert s[i] in s;
    }
  }

  /** The API tests' queries: none gives page 1, and `?page=2&limit=10` is echoed back. */
  lemma HistoryReplyExamples(rows: map<int, Generation>, nextId: int)
    ensures HistoryReply(rows, nextId, None, None).page == 1
    ensures HistoryReply(rows, nextId, Some(2), Some(10)).page == 2
    ensures HistoryReply(rows, nextId, Some(2), Some(10)).limit == 10
  {
  }

  /** GET `/`: reads the table and changes nothing. */
  method ListHistory(db: GenerationTable, page: Option<int>, limit: Option<int>) returns (reply: HistoryPage)
    requires db.Valid()
    ensures reply == HistoryReply(db.rows, db.nextId, page, limit)
  {
    var p := IntOr(page, DefaultPage);
    var l := IntOr(limit, DefaultLimit);
    var items, total := db.GetHistory(p, l);
    reply := HistoryPage(FormatItems(items), total, p, l, PageCount(total, l));
  }

  // ---------------------------------------------------------------- delete

  /** `.filter(Boolean)` on a list of optional paths. */
  function TruthyPaths(s: seq<Option<string>>): (r: seq<string>)
    ensures |r| <= |s|
    ensures forall x :: x in r <==> Some(x) in s && x != ""
  {
    if |s| == 0 then []
    else (if TruthyText(s[0]) then [s[0].value] else []) + TruthyPaths(s[1..])
  }

  /** Filtering a concatenation filters each part and keeps their order. */
  lemma {:induction false} TruthyPathsAppend(a: seq<Option<string>>, b: seq<Option<string>>)
    ensures TruthyPaths(a + b) == TruthyPaths(a) + TruthyPaths(b)
    decreases |a|
  {
    if |a| == 0 {
      assert a + b == b;
    } else {
      assert (a + b)[1..] == a[1..] + b;
      TruthyPathsAppend(a[1..], b);
    }
  }

  /** `[model_image, garment_image, background_image, result_image]` */
  function StoredFiles(g: Generation): seq<Option<string>>
  {
    [Some(g.modelImage), Some(g.garmentImage), g.backgroundImage, g.resultImage]
  }

  function FilesToDelete(g: Generation): seq<string>
  {
    TruthyPaths(StoredFiles(g))
  }

  function PathIf(o: Option<string>): seq<string>
  {
    if TruthyText(o) then [o.value] else []
  }

  /** Exactly the truthy paths of the row, model, garment, background and result, in that order. */
  lemma FilesToDeleteOrder(g: Generation)
    ensures FilesToDelete(g)
         == PathIf(Some(g.modelImage)) + PathIf(Some(g.garmentImage)) + PathIf(g.backgroundImage) + PathIf(g.resultImage)
    ensures forall x :: x in FilesToDelete(g) <==> x != "" && (x == g.modelImage || x == g.garmentImage || Some(x) == g.backgroundImage || Some(x) == g.resultImage)
  {
    var s := StoredFiles(g);
    assert s == [s[0]] + [s[1]] + [s[2]] + [s[3]];
    TruthyPathsAppend([s[0]] + [s[1]] + [s[2]], [s[3]]);
    TruthyPathsAppend([s[0]] + [s[1]], [s[2]]);
    TruthyPathsAppend([s[0]], [s[1]]);
    forall o: Option<string> ensures TruthyPaths([o]) == PathIf(o) {
      assert [o][1..] == [];
    }
  }

  datatype DeleteReply = DeleteNotFound | Deleted

  /**
   * DELETE `/:id`: 404 and nothing deleted when `parseInt(id)` is NaN or
   * names no row; otherwise the row's files are unlinked (failures swallowed)
   * and the row is removed whatever the unlinks did.
   */
  method DeleteRoute(db: GenerationTable, id: Option<int>) returns (reply: DeleteReply, unlinked: seq<string>)
    requires db.Valid()
    modifies db
    ensures db.Valid() && db.nextId == old(db.nextId)
    ensures (id.None? || id.value !in old(db.rows)) ==>
      reply == DeleteNotFound && unlinked == [] && db.rows == old(db.rows)
    ensures id.Some? && id.value in old(db.rows) ==>
      reply == Deleted && unlinked == FilesToDelete(old(db.rows)[id.value]) && db.rows == old(db.rows) - {id.value}
  {
    if id.None? {
      return DeleteNotFound, [];
    }
    var g := db.Get(id.value);
    if g.None? {
      return DeleteNotFound, [];
    }
    unlinked := FilesToDelete(g.value);
    db.Delete(id.value);
    reply := Deleted;
  }
}
