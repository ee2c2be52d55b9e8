/**
 * The `generations` table as an in-memory store: a map from row id to row
 * and the AUTOINCREMENT counter. SQL text is not modelled; each statement
 * becomes a method stating the table it leaves behind.
 */
module Db {
  import opened Wrappers
  import opened Js
  import StableSort

  datatype Status = Pending | Processing | Completed | Failed

  /**
   * The `seed` member of the stored parameters: left out of the JSON, stored
   * as `null` (what `JSON.stringify` makes of a `NaN` from `parseInt`), or a number.
   */
  datatype Seed = NoSeed | NullSeed | SeedValue(value: int)

  /** `GenerationParams`, held as the value the `params` column encodes. */
  datatype Params = Params(steps: int, guidanceScale: real, seed: Seed)

  /** One row; `createdAt` is the insertion timestamp, ordered like SQLite's `CURRENT_TIMESTAMP` text. */
  datatype Generation = Generation(
    id: int, modelImage: string, garmentImage: string,
    backgroundImage: Option<string>, backgroundPrompt: Option<string>,
    resultImage: Option<string>, status: Status, replicateId: Option<string>,
    params: Params, error: Option<string>, createdAt: int)

  /** The argument of `createGeneration`. */
  datatype NewGeneration = NewGeneration(
    modelImage: string, garmentImage: string,
    backgroundImage: Option<string>, backgroundPrompt: Option<string>, params: Params)

  /** The argument of `updateGeneration`: `Some` for each key present in the object. */
  datatype Patch = Patch(
    status: Option<Status>, resultImage: Option<string>,
    replicateId: Option<string>, error: Option<string>)

  /** `value || null` */
  function NullIfEmpty(o: Option<string>): (r: Option<string>)
    ensures r.Some? <==> TruthyText(o)
    ensures r.Some? ==> r == o
  {
    if TruthyText(o) then o else None
  }

  /** The row INSERT creates: column defaults for status and timestamp, everything else NULL. */
  function NewRow(id: int, data: NewGeneration, now: int): Generation
  {
    Generation(id, data.modelImage, data.garmentImage,
      NullIfEmpty(data.backgroundImage), NullIfEmpty(data.backgroundPrompt),
      None, Pending, None, data.params, None, now)
  }

  /** A row never holds an empty background image or prompt: they are stored as NULL. */
  predicate NullsStored(g: Generation)
  {
    g.backgroundImage != Some("") && g.backgroundPrompt != Some("")
  }

  /** No key present: the generated `UPDATE ... SET  WHERE` is not valid SQL. */
  predicate IsEmpty(p: Patch)
  {
    p.status.None? && p.resultImage.None? && p.replicateId.None? && p.error.None?
  }

  /** The row after `UPDATE ... SET`: the keys present are overwritten, every other column is kept. */
  function Apply(g: Generation, p: Patch): (r: Generation)
    ensures r.id == g.id && r.modelImage == g.modelImage && r.garmentImage == g.garmentImage
    ensures r.backgroundImage == g.backgroundImage && r.backgroundPrompt == g.backgroundPrompt
    ensures r.params == g.params && r.createdAt == g.createdAt
    ensures r.status == (if p.status.Some? then p.status.value else g.status)
    ensures r.resultImage == (if p.resultImage.Some? then p.resultImage else g.resultImage)
    ensures r.replicateId == (if p.replicateId.Some? then p.replicateId else g.replicateId)
    ensures r.error == (if p.error.Some? then p.error else g.error)
  {
    g.(status := if p.status.Some? then p.status.value else g.status,
       resultImage := if p.resultImage.Some? then p.resultImage else g.resultImage,
       replicateId := if p.replicateId.Some? then p.replicateId else g.replicateId,
       error := if p.error.Some? then p.error else g.error)
  }

  /** An empty patch leaves a row as it is. */
  lemma ApplyEmpty(g: Generation, p: Patch)
    requires IsEmpty(p)
    ensures Apply(g, p) == g
  {
  }

  /** `SELECT * ... WHERE id = ?`: the row, or `undefined`. */
  function Lookup(rows: map<int, Generation>, id: int): (r: Option<Generation>)
    ensures r.Some? <==> id in rows
    ensures r.Some? ==> r.value == rows[id]
  {
    if id in rows then Some(rows[id]) else None
  }

  // ---------------------------------------------------------------- history order

  /** The rows with ids `n, n - 1, ..., 1` that exist, highest id first. */
  function Listing(rows: map<int, Generation>, n: int): seq<Generation>
    decreases n
  {
    if n <= 0 then [] else (if n in rows then [rows[n]] else []) + Listing(rows, n - 1)
  }

  /** `ORDER BY created_at DESC` as an ascending sort key. */
  function NewestKey(g: Generation): real { -(g.createdAt as real) }

  /** All rows, newest first; equal timestamps keep the id-descending order of `Listing`. */
  function Newest(rows: map<int, Generation>, n: int): seq<Generation>
  {
    StableSort.SortBy(NewestKey, Listing(rows, n))
  }

  /** SQLite's `LIMIT ? OFFSET ?`: a negative limit means no limit, a negative offset counts as 0. */
  function Window<T>(s: seq<T>, limit: int, offset: int): (r: seq<T>)
    ensures limit >= 0 ==> |r| <= limit
  {
    var start := if offset < 0 then 0 else if offset < |s| then offset else |s|;
    if limit < 0 || start + limit > |s| then s[start..] else s[start..start + limit]
  }

  /** The items `getHistory(page, limit)` returns. */
  function HistoryItems(rows: map<int, Generation>, nextId: int, page: int, limit: int): seq<Generation>
  {
    Window(Newest(rows, nextId - 1), limit, (page - 1) * limit)
  }

  /** `Listing` holds exactly the rows with ids up to `n`. */
  lemma {:induction false} ListingMembers(rows: map<int, Generation>, n: int)
    ensures forall id :: id in rows && 1 <= id <= n ==> rows[id] in Listing(rows, n)
    ensures forall g :: g in Listing(rows, n) ==> g in rows.Values
    decreases n
  {
    if n > 0 {
      ListingMembers(rows, n - 1);
    }
  }

  /** Strictly decreasing ids, all in `1..n`. */
  predicate IdsDescendingWithin(l: seq<Generation>, n: int)
  {
    && (forall i, j :: 0 <= i < j < |l| ==> l[i].id > l[j].id)
    && (forall i :: 0 <= i < |l| ==> 1 <= l[i].id <= n)
  }

  lemma ConsDescending(g: Generation, l: seq<Generation>, n: int)
    requires IdsDescendingWithin(l, n - 1) && g.id == n && 1 <= n
    ensures IdsDescendingWithin([g] + l, n)
  {
    var c := [g] + l;
    assert forall i :: 1 <= i < |c| ==> c[i] == l[i - 1];
  }

  /** With ids stored in their rows, `Listing` has strictly decreasing ids: each row once, highest id first. */
  lemma {:induction false} ListingDescending(rows: map<int, Generation>, n: int)
    requires forall id :: id in rows ==> rows[id].id == id
    ensures IdsDescendingWithin(Listing(rows, n), n)
    decreases n
  {
    if n > 0 {
      ListingDescending(rows, n - 1);
      assert IdsDescendingWithin(Listing(rows, n - 1), n);
      if n in rows {
        ConsDescending(rows[n], Listing(rows, n - 1), n);
      }
    }
  }

  /** The window is the contiguous slice `s[a..b]` of the ordered rows. */
  lemma WindowIsSlice<T>(s: seq<T>, limit: int, offset: int) returns (a: nat, b: nat)
    ensures a <= b <= |s| && Window(s, limit, offset) == s[a..b]
  {
    a := if offset < 0 then 0 else if offset < |s| then offset else |s|;
    b := if limit < 0 || a + limit > |s| then |s| else a + limit;
  }

  /** A page followed by everything after it is everything from that page's offset on. */
  lemma WindowAdjacent<T>(s: seq<T>, limit: int, offset: int)
    requires limit >= 0 && offset >= 0
    ensures Window(s, limit, offset) + Window(s, -1, offset + limit) == Window(s, -1, offset)
  {
  }

  /** Page `page` starts at position `(page - 1) * limit` of the newest-first order. */
  lemma WindowIndex<T>(s: seq<T>, limit: int, page: int, j: int)
    requires limit > 0 && page >= 1 && 0 <= j < limit && (page - 1) * limit + j < |s|
    ensures |Window(s, limit, (page - 1) * limit)| > j
    ensures Window(s, limit, (page - 1) * limit)[j] == s[(page - 1) * limit + j]
  {
    assert (page - 1) * limit >= 0;
  }

  /** The history is newest first and holds exactly the stored rows. */
  lemma NewestOrder(rows: map<int, Generation>, n: int)
    requires forall id :: id in rows ==> 1 <= id <= n
    ensures var s := Newest(rows, n);
      && (forall i, j :: 0 <= i < j < |s| ==> s[i].createdAt >= s[j].createdAt)
      && (forall id :: id in rows ==> rows[id] in s)
      && (forall g :: g in s ==> g in rows.Values)
  {
    var l := Listing(rows, n);
    ListingMembers(rows, n);
    StableSort.SortBySorted(NewestKey, l);
    StableSort.SortByPermutes(NewestKey, l);
    var s := Newest(rows, n);
    forall i, j | 0 <= i < j < |s| ensures s[i].createdAt >= s[j].createdAt {
      assert NewestKey(s[i]) <= NewestKey(s[j]);
    }
    forall g | g in s ensures g in rows.Values {
      assert g in multiset(s);
    }
    forall id | id in rows ensures rows[id] in s {
      assert rows[id] in multiset(l);
    }
  }

  /** In a sequence whose ids all differ, every element occurs at most once. */
  lemma {:induction false} OnceEach(l: seq<Generation>, x: Generation)
    requires forall i, j :: 0 <= i < j < |l| ==> l[i].id != l[j].id
    ensures multiset(l)[x] <= 1
    decreases |l|
  {
    if |l| > 0 {
      var t := l[1..];
      assert l == [l[0]] + t;
      OnceEach(t, x);
      if x == l[0] {
        assert x !in t by {
          forall m | 0 <= m < |t| ensures t[m] != x {
            assert t[m] == l[m + 1];
          }
        }
      }
    }
  }

  /** An element at two positions occurs at least twice. */
  lemma TwoPositions(s: seq<Generation>, i: nat, j: nat)
    requires i < j < |s| && s[i] == s[j]
    ensures multiset(s)[s[i]] >= 2
  {
    assert s == s[..j] + s[j..];
    assert s[i] == s[..j][i];
    assert s[j] == s[j..][0];
  }

  /** Ids that all differ still all differ after any reordering. */
  lemma DistinctIdsPermuted(l: seq<Generation>, s: seq<Generation>)
    requires multiset(s) == multiset(l)
    requires forall i, j :: 0 <= i < j < |l| ==> l[i].id != l[j].id
    ensures forall i, j :: 0 <= i < j < |s| ==> s[i].id != s[j].id
  {
    forall i, j | 0 <= i < j < |s| ensures s[i].id != s[j].id {
      assert s[i] in multiset(l) && s[j] in multiset(l);
      var p :| 0 <= p < |l| && l[p] == s[i];
      var q :| 0 <= q < |l| && l[q] == s[j];
      if p == q {
        TwoPositions(s, i, j);
        OnceEach(l, s[i]);
        assert false;
      } else if p < q {
        assert l[p].id != l[q].id;
      } else {
        assert l[q].id != l[p].id;
      }
    }
  }

  /** With ids stored in their rows the history lists each row once: no two entries share an id. */
  lemma NewestOnce(rows: map<int, Generation>, n: int)
    requires forall id :: id in rows ==> rows[id].id == id
    ensures var s := Newest(rows, n);
      forall i, j :: 0 <= i < j < |s| ==> s[i].id != s[j].id
  {
    var l := Listing(rows, n);
    ListingDescending(rows, n);
    StableSort.SortByPermutes(NewestKey, l);
    DistinctIdsPermuted(l, Newest(rows, n));
  }

  /** A history page is newest first and no longer than a non-negative limit. */
  lemma HistoryItemsOrdered(rows: map<int, Generation>, nextId: int, page: int, limit: int)
    requires forall id :: id in rows ==> 1 <= id < nextId
    ensures var items := HistoryItems(rows, nextId, page, limit);
      && (limit >= 0 ==> |items| <= limit)
      && (forall i, j :: 0 <= i < j < |items| ==> items[i].createdAt >= items[j].createdAt)
      && (forall g :: g in items ==> g in rows.Values)
  {
    var s := Newest(rows, nextId - 1);
    NewestOrder(rows, nextId - 1);
    var a, b := WindowIsSlice(s, limit, (page - 1) * limit);
    var items := HistoryItems(rows, nextId, page, limit);
    forall i, j | 0 <= i < j < |items| ensures items[i].createdAt >= items[j].createdAt {
      assert items[i] == s[a + i] && items[j] == s[a + j];
    }
    forall g | g in items ensures g in rows.Values {
      var k :| 0 <= k < |items| && items[k] == g;
      assert g == s[a + k];
    }
  }

  // ---------------------------------------------------------------- the table

  class GenerationTable {
    var rows: map<int, Generation>
    var nextId: int

    /** Ids are below the counter and agree with their rows; background columns are NULL, not empty. */
    ghost predicate Valid()
      reads this
    {
      && 1 <= nextId
      && forall id :: id in rows ==> 1 <= id < nextId && rows[id].id == id && NullsStored(rows[id])
    }

    /** `CREATE TABLE IF NOT EXISTS` on a fresh database. */
    constructor ()
      ensures Valid()
      ensures rows == map[] && nextId == 1
    {
      rows := map[];
      nextId := 1;
    }

    /** `createGeneration`: inserts a pending row under a fresh id larger than every id before it. */
    method Create(data: NewGeneration, now: int) returns (id: int)
      requires Valid()
      modifies this
      ensures Valid()
      ensures id == old(nextId) && nextId == id + 1
      ensures forall k :: k in old(rows) ==> k < id
      ensures rows == old(rows)[id := NewRow(id, data, now)]
    {
      id := nextId;
      rows := rows[id := NewRow(id, data, now)];
      nextId := nextId + 1;
    }

    /**
     * `updateGeneration`: overwrites the keys present in `patch` on row `id`
     * (no row: nothing happens). An empty patch is rejected and nothing changes.
     */
    method Update(id: int, patch: Patch) returns (accepted: bool)
      requires Valid()
      modifies this
      ensures Valid()
      ensures accepted <==> !IsEmpty(patch)
      ensures nextId == old(nextId)
      ensures rows == if accepted && id in old(rows) then old(rows)[id := Apply(old(rows)[id], patch)] else old(rows)
    {
      if IsEmpty(patch) {
        return false;
      }
      if id in rows {
        rows := rows[id := Apply(rows[id], patch)];
      }
      accepted := true;
    }

    /** `getGeneration` */
    method Get(id: int) returns (g: Option<Generation>)
      requires Valid()
      ensures g.Some? <==> id in rows
      ensures g.Some? ==> g.value == rows[id] && g.value.id == id
    {
      g := Lookup(rows, id);
    }

    /** `getHistory`: one page of the newest-first order, and the count of all rows. */
    method GetHistory(page: int, limit: int) returns (items: seq<Generation>, total: nat)
      requires Valid()
      ensures total == |rows|
      ensures items == HistoryItems(rows, nextId, page, limit)
    {
      var listing: seq<Generation> := [];
      var k := 1;
      while k < nextId
        invariant 1 <= k <= nextId
        invariant listing == Listing(rows, k - 1)
      {
        if k in rows {
          listing := [rows[k]] + listing;
        }
        k := k + 1;
      }
      items := Window(StableSort.SortBy(NewestKey, listing), limit, (page - 1) * limit);
      total := |rows|;
    }

    /** `deleteGeneration`: removes that row only; a missing id changes nothing. */
    method Delete(id: int)
      requires Valid()
      modifies this
      ensures Valid()
      ensures rows == old(rows) - {id} && nextId == old(nextId)
    {
      rows := rows - {id};
    }
  }
}
