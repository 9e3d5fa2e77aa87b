/** Cursor pagination of the VM and snapshot listings. */
module Paging {
  import opened Common

  const DEFAULT_LIMIT: nat := 100
  const MAX_LIMIT: nat := 1000

  /** What the backend's metadata call says about a listed id: a row, with the id the
      backend put in it, nothing (unsupported or gone), or a failure. */
  datatype Meta = Found(id: nat) | Missing | Broken

  datatype ListError = BadLimit | BackendError

  datatype Page = Page(rows: seq<nat>, next: Option<nat>)

  /** A fixed inventory: the ids in the order the backend lists them, their owners, and
      the metadata each would get. */
  datatype Inventory = Inventory(ids: seq<nat>, owner: nat -> string, meta: nat -> Meta)

  predicate Distinct(s: seq<nat>) {
    forall i, j :: 0 <= i < j < |s| ==> s[i] != s[j]
  }

  predicate Ascending(s: seq<nat>) {
    forall i, j :: 0 <= i < j < |s| ==> s[i] < s[j]
  }

  function ValidatedLimit(limit: Option<nat>): (r: Result<nat, ListError>)
    ensures r.Ok? ==> 1 <= r.value <= MAX_LIMIT
    ensures r.Ok? <==> limit.None? || 1 <= limit.value <= MAX_LIMIT
    ensures r.Ok? ==> r.value == if limit.Some? then limit.value else DEFAULT_LIMIT
  {
    if limit.None? then Ok(DEFAULT_LIMIT)
    else if limit.value == 0 || limit.value > MAX_LIMIT then Err(BadLimit)
    else Ok(limit.value)
  }

  // ---- Selecting and ordering --------------------------------------------------------

  function Owned(ids: seq<nat>, owner: nat -> string, org: string): (r: seq<nat>)
    ensures forall x :: x in r <==> x in ids && owner(x) == org
    ensures Distinct(ids) ==> Distinct(r)
  {
    if ids == [] then []
    else if owner(ids[0]) == org then
      assert Distinct(ids) ==> ids[0] !in ids[1..];
      [ids[0]] + Owned(ids[1..], owner, org)
    else Owned(ids[1..], owner, org)
  }

  lemma ConsAscends(x: nat, s: seq<nat>)
    requires Ascending(s) && forall i :: 0 <= i < |s| ==> x < s[i]
    ensures Ascending([x] + s)
  {
  }

  lemma TailAscends(s: seq<nat>)
    requires Ascending(s) && s != []
    ensures Ascending(s[1..]) && forall i :: 0 <= i < |s[1..]| ==> s[0] < s[1..][i]
  {
  }

  function Insert(x: nat, s: seq<nat>): (r: seq<nat>)
    ensures |r| == |s| + 1
    ensures forall y :: y in r <==> y == x || y in s
  {
    if s == [] || x <= s[0] then [x] + s else
      assert s == [s[0]] + s[1..];
      [s[0]] + Insert(x, s[1..])
  }

  lemma {:induction false} InsertAscends(x: nat, s: seq<nat>)
    requires Ascending(s) && x !in s
    ensures Ascending(Insert(x, s))
  {
    if s != [] {
      TailAscends(s);
      if x < s[0] {
        assert forall i :: 0 <= i < |s| ==> x < s[i];
        ConsAscends(x, s);
      } else {
        assert x != s[0];
        assert forall y :: y in s[1..] ==> y in s;
        InsertAscends(x, s[1..]);
        var r := Insert(x, s[1..]);
        forall i | 0 <= i < |r| ensures s[0] < r[i] {
          assert r[i] in r;
        }
        ConsAscends(s[0], r);
      }
    }
  }

  function Sort(s: seq<nat>): (r: seq<nat>)
    ensures |r| == |s|
    ensures forall x :: x in r <==> x in s
  {
    if s == [] then [] else
      assert s == [s[0]] + s[1..];
      Insert(s[0], Sort(s[1..]))
  }

  lemma {:induction false} SortAscends(s: seq<nat>)
    requires Distinct(s)
    ensures Ascending(Sort(s))
  {
    if s != [] {
      SortAscends(s[1..]);
      assert s[0] !in s[1..];
      InsertAscends(s[0], Sort(s[1..]));
    }
  }

  function Above(s: seq<nat>, after: nat): (r: seq<nat>)
    ensures forall x :: x in r <==> x in s && x > after
  {
    if s == [] then []
    else if s[0] > after then [s[0]] + Above(s[1..], after)
    else Above(s[1..], after)
  }

  lemma {:induction false} AboveAll(s: seq<nat>, after: nat)
    requires forall i :: 0 <= i < |s| ==> s[i] > after
    ensures Above(s, after) == s
  {
    if s != [] {
      assert s[0] > after;
      AboveAll(s[1..], after);
    }
  }

  lemma {:induction false} AboveNone(s: seq<nat>, after: nat)
    requires forall i :: 0 <= i < |s| ==> s[i] <= after
    ensures Above(s, after) == []
  {
    if s != [] {
      assert s[0] <= after;
      AboveNone(s[1..], after);
    }
  }

  lemma {:induction false} AboveSplits(s: seq<nat>, t: seq<nat>, after: nat)
    ensures Above(s + t, after) == Above(s, after) + Above(t, after)
  {
    if s == [] {
      assert s + t == t;
    } else {
      assert (s + t)[1..] == s[1..] + t;
      AboveSplits(s[1..], t, after);
    }
  }

  lemma {:induction false} AboveAscends(s: seq<nat>, after: nat)
    requires Ascending(s)
    ensures Ascending(Above(s, after))
  {
    if s != [] {
      TailAscends(s);
      AboveAscends(s[1..], after);
      var r := Above(s[1..], after);
      forall i | 0 <= i < |r| ensures s[0] < r[i] {
        assert r[i] in r;
      }
      ConsAscends(s[0], r);
    }
  }

  /** In an ascending list, what lies above the last id of a page is what the page left. */
  lemma {:induction false} AboveCursor(s: seq<nat>, after: nat, n: nat)
    requires Ascending(s) && 0 < n <= |Above(s, after)|
    ensures var a := Above(s, after); Above(s, a[n - 1]) == a[n..]
  {
    var a := Above(s, after);
    var c := a[n - 1];
    AboveAscends(s, after);
    assert c > after by { assert c in a; }
    hide Above;
    AboveTwice(s, after, c);
    assert a == a[..n] + a[n..];
    AboveSplits(a[..n], a[n..], c);
    AboveNone(a[..n], c);
    AboveAll(a[n..], c);
  }

  lemma {:induction false} AboveTwice(s: seq<nat>, low: nat, high: nat)
    requires low <= high
    ensures Above(Above(s, low), high) == Above(s, high)
  {
    if s != [] {
      AboveTwice(s[1..], low, high);
      if s[0] > low {
        assert Above(s, low)[1..] == Above(s[1..], low);
      }
    }
  }

  // ---- One page ----------------------------------------------------------------------

  /** The id a row carries. */
  function RowId(meta: nat -> Meta, id: nat): nat {
    match meta(id)
    case Found(m) => m
    case Missing => id
    case Broken => id
  }

  /** The rows of a page, unless some metadata call fails. */
  function Rows(meta: nat -> Meta, ids: seq<nat>): (r: Option<seq<nat>>)
    ensures r.Some? <==> forall x :: x in ids ==> !meta(x).Broken?
    ensures r.Some? ==> |r.value| == |ids| && forall i :: 0 <= i < |ids| ==> r.value[i] == RowId(meta, ids[i])
  {
    if ids == [] then Some([])
    else
      var n := |ids| - 1;
      assert ids == ids[..n] + [ids[n]];
      var init := Rows(meta, ids[..n]);
      if init.None? || meta(ids[n]).Broken? then None else Some(init.value + [RowId(meta, ids[n])])
  }

  /** The caller's ids, in ascending order. */
  function Listed(inv: Inventory, org: string): (a: seq<nat>)
    requires Distinct(inv.ids)
    ensures Ascending(a)
    ensures forall x :: x in a <==> x in inv.ids && inv.owner(x) == org
  {
    SortAscends(Owned(inv.ids, inv.owner, org));
    Sort(Owned(inv.ids, inv.owner, org))
  }

  function PageOf(meta: nat -> Meta, listed: seq<nat>, limit: nat, after: nat): Result<Page, ListError> {
    var a := Above(listed, after);
    var kept := a[..Min(limit, |a|)];
    match Rows(meta, kept)
    case None => Err(BackendError)
    case Some(rows) =>
      Ok(Page(rows, if |a| > limit && rows != [] then Some(rows[|rows| - 1]) else None))
  }

  /** A list call: the limit is checked, the caller's ids are selected, sorted and cut, and
      only the rows kept are enriched. */
  method List(inv: Inventory, org: string, limit: Option<nat>, after: Option<nat>) returns (r: Result<Page, ListError>)
    requires Distinct(inv.ids)
    ensures ValidatedLimit(limit).Err? ==> r == Err(BadLimit)
    ensures ValidatedLimit(limit).Ok? ==>
              r == PageOf(inv.meta, Listed(inv, org), ValidatedLimit(limit).value,
                          if after.Some? then after.value else 0)
  {
    hide Owned, Sort, Above, Distinct;
    var checked := ValidatedLimit(limit);
    if checked.Err? {
      return Err(BadLimit);
    }
    var size := checked.value;
    var from := if after.Some? then after.value else 0;
    var handles := Owned(inv.ids, inv.owner, org);
    handles := Sort(handles);
    var filtered := Above(handles, from);
    var hasMore := |filtered| > size;
    filtered := filtered[..Min(size, |filtered|)];
    var rows: seq<nat> := [];
    var i := 0;
    while i < |filtered|
      invariant 0 <= i <= |filtered|
      invariant Rows(inv.meta, filtered[..i]) == Some(rows)
    {
      assert filtered[..i + 1][..i] == filtered[..i];
      match inv.meta(filtered[i]) {
        case Found(m) => rows := rows + [m];
        case Missing => rows := rows + [filtered[i]];
        case Broken =>
          assert filtered[i] in filtered;
          return Err(BackendError);
      }
      i := i + 1;
    }
    assert filtered[..i] == filtered;
    return Ok(Page(rows, if hasMore && rows != [] then Some(rows[|rows| - 1]) else None));
  }

  // ---- Following the cursor ----------------------------------------------------------

  datatype Ending = Finished | Stopped | Failed

  datatype Walk = Walk(pages: seq<seq<nat>>, ending: Ending)

  /** What a client collects with at most `n` requests, each passing the last `next` on. */
  function Follow(meta: nat -> Meta, listed: seq<nat>, limit: nat, after: nat, n: nat): Walk
    decreases n
  {
    if n == 0 then Walk([], Stopped)
    else
      match PageOf(meta, listed, limit, after)
      case Err(_) => Walk([], Failed)
      case Ok(p) =>
        match p.next
        case None => Walk([p.rows], Finished)
        case Some(cursor) =>
          var rest := Follow(meta, listed, limit, cursor, n - 1);
          Walk([p.rows] + rest.pages, rest.ending)
  }

  /** A list cut into pages of the limit, the last one shorter; an empty list is one page. */
  function Chunks(a: seq<nat>, limit: nat): (cs: seq<seq<nat>>)
    requires limit > 0
    ensures |cs| >= 1
    decreases |a|
  {
    if |a| <= limit then [a] else [a[..limit]] + Chunks(a[limit..], limit)
  }

  lemma {:induction false} ChunksCover(a: seq<nat>, limit: nat)
    requires limit > 0
    ensures Flatten(Chunks(a, limit)) == a
    decreases |a|
  {
    if |a| <= limit {
      assert ([a])[1..] == [];
    } else {
      ChunksCover(a[limit..], limit);
      assert Chunks(a, limit)[1..] == Chunks(a[limit..], limit);
    }
  }

  /** The number of pages `n` rows need: max(1, n / limit rounded up). */
  function PageCount(n: nat, limit: nat): nat
    requires limit > 0
  {
    Max(1, (n + limit - 1) / limit)
  }

  lemma {:induction false} ChunkCount(a: seq<nat>, limit: nat)
    requires limit > 0
    ensures |Chunks(a, limit)| == PageCount(|a|, limit)
    decreases |a|
  {
    if |a| <= limit {
      OnePage(|a|, limit);
    } else {
      ChunkCount(a[limit..], limit);
      OneMorePage(|a|, limit);
    }
  }

  lemma AtLeastOnce(k: nat, d: nat)
    requires k >= 1
    ensures k * d >= d
  {
    assert k * d == (k - 1) * d + d;
  }

  lemma LaterMultiple(p: nat, q: nat, d: nat)
    requires p < q
    ensures q * d >= p * d + d
  {
    AtLeastOnce(q - p, d);
    assert q * d == p * d + (q - p) * d;
  }

  lemma Quotient(x: nat, d: nat, q: nat)
    requires d > 0 && q * d <= x < q * d + d
    ensures x / d == q
  {
    var p := x / d;
    assert p * d <= x < p * d + d;
    if p < q {
      LaterMultiple(p, q, d);
    } else if q < p {
      LaterMultiple(q, p, d);
    }
  }

  lemma OnePage(n: nat, limit: nat)
    requires 0 < limit && n <= limit
    ensures PageCount(n, limit) == 1
  {
    if n == 0 {
      Quotient(limit - 1, limit, 0);
    } else {
      Quotient(n + limit - 1, limit, 1);
    }
  }

  lemma OneMorePage(n: nat, limit: nat)
    requires 0 < limit < n
    ensures PageCount(n, limit) == PageCount(n - limit, limit) + 1
  {
    var x := n - 1;
    var q := x / limit;
    assert x == q * limit + x % limit;
    assert (q + 1) * limit == q * limit + limit;
    Quotient(x + limit, limit, q + 1);
    assert q >= 1;
    assert n - limit + limit - 1 == x && n + limit - 1 == x + limit;
  }

  /** Every listed row above the start carries its own id, and no metadata call fails. */
  ghost predicate Faithful(meta: nat -> Meta, a: seq<nat>) {
    forall x :: x in a ==> meta(x) == Missing || meta(x) == Found(x)
  }

  /** A page of faithful rows is the ids themselves; otherwise it is something else. */
  lemma {:induction false} RowsAreIds(meta: nat -> Meta, ids: seq<nat>)
    ensures Rows(meta, ids) == Some(ids) <==> Faithful(meta, ids)
  {
    var r := Rows(meta, ids);
    if Faithful(meta, ids) {
      forall i | 0 <= i < |ids| ensures RowId(meta, ids[i]) == ids[i] && !meta(ids[i]).Broken? {
        assert ids[i] in ids;
      }
      assert r.Some? && r.value == ids;
    }
    if r == Some(ids) {
      forall x | x in ids ensures meta(x) == Missing || meta(x) == Found(x) {
        var i :| 0 <= i < |ids| && ids[i] == x;
        assert r.value[i] == RowId(meta, ids[i]);
      }
    }
  }

  lemma FaithfulSplits(meta: nat -> Meta, s: seq<nat>, t: seq<nat>)
    ensures Faithful(meta, s + t) <==> Faithful(meta, s) && Faithful(meta, t)
  {
    assert forall x :: x in s + t <==> x in s || x in t;
  }

  /** The pages a client should see with at most `n` requests. */
  function Expected(a: seq<nat>, limit: nat, n: nat): Walk
    requires limit > 0
  {
    var cs := Chunks(a, limit);
    if n >= |cs| then Walk(cs, Finished) else Walk(cs[..n], Stopped)
  }

  lemma {:induction false} ExpectedStep(a: seq<nat>, limit: nat, n: nat)
    requires 0 < limit < |a| && n > 0
    ensures var e := Expected(a[limit..], limit, n - 1);
            Expected(a, limit, n) == Walk([a[..limit]] + e.pages, e.ending)
  {
  }

  lemma {:induction false} FollowFrom(meta: nat -> Meta, listed: seq<nat>, limit: nat, after: nat, n: nat)
    requires Ascending(listed) && limit > 0
    ensures var a := Above(listed, after);
            Faithful(meta, a) ==> Follow(meta, listed, limit, after, n) == Expected(a, limit, n)
    ensures var a := Above(listed, after);
            n >= |Chunks(a, limit)| && Follow(meta, listed, limit, after, n) == Expected(a, limit, n)
            ==> Faithful(meta, a)
    decreases n
  {
    hide Rows, Follow, Expected, Above, Chunks, Faithful, Ascending;
    var a := Above(listed, after);
    if n == 0 {
      NoRequests(meta, listed, limit, after);
    } else if |a| <= limit {
      LastPage(meta, listed, limit, after, n);
    } else {
      FollowFrom(meta, listed, limit, a[limit - 1], n - 1);
      FullPage(meta, listed, limit, after, n);
      FullPageIds(meta, listed, limit, after);
      OneMoreChunk(a, limit);
    }
  }

  lemma OneMoreChunk(a: seq<nat>, limit: nat)
    requires 0 < limit < |a|
    ensures |Chunks(a, limit)| == 1 + |Chunks(a[limit..], limit)|
  {
  }

  lemma NoRequests(meta: nat -> Meta, listed: seq<nat>, limit: nat, after: nat)
    requires limit > 0
    ensures Follow(meta, listed, limit, after, 0) == Expected(Above(listed, after), limit, 0)
  {
  }

  lemma {:induction false} FullPageIds(meta: nat -> Meta, listed: seq<nat>, limit: nat, after: nat)
    requires Ascending(listed) && limit > 0 && |Above(listed, after)| > limit
    ensures var a := Above(listed, after);
            && Above(listed, a[limit - 1]) == a[limit..]
            && (Faithful(meta, a) <==> Rows(meta, a[..limit]) == Some(a[..limit]) && Faithful(meta, a[limit..]))
  {
    hide Rows, Faithful, Above, Ascending;
    var a := Above(listed, after);
    AboveCursor(listed, after, limit);
    RowsAreIds(meta, a[..limit]);
    assert a == a[..limit] + a[limit..];
    FaithfulSplits(meta, a[..limit], a[limit..]);
  }

  /** A full page agrees with the expected walk exactly when its rows are its ids and the
      walk from its last id agrees. */
  lemma {:induction false} FullPage(meta: nat -> Meta, listed: seq<nat>, limit: nat, after: nat, n: nat)
    requires n > 0 && limit > 0 && |Above(listed, after)| > limit
    ensures var a := Above(listed, after);
            Follow(meta, listed, limit, after, n) == Expected(a, limit, n)
            <==> && Rows(meta, a[..limit]) == Some(a[..limit])
                 && Follow(meta, listed, limit, a[limit - 1], n - 1) == Expected(a[limit..], limit, n - 1)
  {
    var a := Above(listed, after);
    var kept := a[..limit];
    NextPage(meta, listed, limit, after, n);
    ExpectedStep(a, limit, n);
    var e := Expected(a[limit..], limit, n - 1);
    var rows := Rows(meta, kept);
    hide Follow, Expected, Above, Rows;
    if rows.Some? {
      var rest := Follow(meta, listed, limit, rows.value[limit - 1], n - 1);
      SameWalk(rows.value, rest, kept, e);
    }
  }

  lemma SameWalk(p: seq<nat>, v: Walk, q: seq<nat>, w: Walk)
    ensures Walk([p] + v.pages, v.ending) == Walk([q] + w.pages, w.ending) <==> p == q && v == w
  {
    if [p] + v.pages == [q] + w.pages {
      assert ([p] + v.pages)[0] == p && ([q] + w.pages)[0] == q;
      assert ([p] + v.pages)[1..] == v.pages && ([q] + w.pages)[1..] == w.pages;
    }
  }

  lemma {:induction false} LastPage(meta: nat -> Meta, listed: seq<nat>, limit: nat, after: nat, n: nat)
    requires n > 0 && limit > 0 && |Above(listed, after)| <= limit
    ensures var a := Above(listed, after);
            Follow(meta, listed, limit, after, n) == Expected(a, limit, n) <==> Faithful(meta, a)
  {
    var a := Above(listed, after);
    RowsAreIds(meta, a);
    assert a[..|a|] == a;
    hide Rows, RowId, Faithful, Above;
  }

  /** A full page with more behind it is followed from its last row. */
  lemma {:induction false} NextPage(meta: nat -> Meta, listed: seq<nat>, limit: nat, after: nat, n: nat)
    requires n > 0 && limit > 0 && |Above(listed, after)| > limit
    ensures var kept := Above(listed, after)[..limit];
            var rows := Rows(meta, kept);
            rows.Some? ==> |rows.value| == limit &&
                           var rest := Follow(meta, listed, limit, rows.value[limit - 1], n - 1);
                           Follow(meta, listed, limit, after, n) == Walk([rows.value] + rest.pages, rest.ending)
    ensures Rows(meta, Above(listed, after)[..limit]).None? ==>
              Follow(meta, listed, limit, after, n) == Walk([], Failed)
  {
  }

  /** Following `next` from the first page of a fixed inventory, with any number of
      requests, yields the successive chunks of the caller's ids above 0 in ascending
      order; those are max(1, n / limit rounded up) pages that together hold every such id
      exactly once. */
  lemma {:induction false} FollowingNextVisitsAll(inv: Inventory, org: string, limit: nat, n: nat)
    requires Distinct(inv.ids) && limit > 0
    requires Faithful(inv.meta, Above(Listed(inv, org), 0))
    ensures var a := Above(Listed(inv, org), 0);
            var w := Follow(inv.meta, Listed(inv, org), limit, 0, n);
            var total := PageCount(|a|, limit);
            && |Chunks(a, limit)| == total
            && Ascending(a)
            && (forall x :: x in a <==> x in inv.ids && inv.owner(x) == org && x > 0)
            && (n >= total ==> w.ending == Finished && |w.pages| == total && Flatten(w.pages) == a)
            && (n < total ==> w == Walk(Chunks(a, limit)[..n], Stopped))
  {
    var listed := Listed(inv, org);
    var a := Above(listed, 0);
    AboveAscends(listed, 0);
    FollowFrom(inv.meta, listed, limit, 0, n);
    ChunkCount(a, limit);
    ChunksCover(a, limit);
    hide Follow, Chunks, Flatten, Faithful, Above, Listed;
  }

  /** A client that keeps asking sees exactly those pages if and only if every row carries
      the id it was listed under and no metadata call fails. */
  lemma {:induction false} ExactlyWhenRowsAreFaithful(inv: Inventory, org: string, limit: nat, n: nat)
    requires Distinct(inv.ids) && limit > 0
    requires n >= |Chunks(Above(Listed(inv, org), 0), limit)|
    ensures var a := Above(Listed(inv, org), 0);
            Follow(inv.meta, Listed(inv, org), limit, 0, n) == Walk(Chunks(a, limit), Finished)
            <==> Faithful(inv.meta, a)
  {
    FollowFrom(inv.meta, Listed(inv, org), limit, 0, n);
  }

  // ---- A row that carries another id -------------------------------------------------

  /** The same page `n` times. */
  function Again(page: seq<nat>, n: nat): (pages: seq<seq<nat>>)
    ensures |pages| == n && forall i :: 0 <= i < n ==> pages[i] == page
  {
    if n == 0 then [] else [page] + Again(page, n - 1)
  }

  /** VMs 2 and 3, the first of which is described as VM 1: with one row per page the
      cursor never moves, and the client asks forever. */
  lemma {:induction false} ForeignIdsStopTheCursor(meta: nat -> Meta, after: nat, n: nat)
    requires meta(2) == Found(1) && after <= 1
    ensures Follow(meta, [2, 3], 1, after, n) == Walk(Again([1], n), Stopped)
    decreases n
  {
    hide PageOf;
    if n > 0 {
      FirstRowRepeats(meta, after);
      ForeignIdsStopTheCursor(meta, 1, n - 1);
    }
  }

  lemma {:induction false} FirstRowRepeats(meta: nat -> Meta, after: nat)
    requires meta(2) == Found(1) && after <= 1
    ensures PageOf(meta, [2, 3], 1, after) == Ok(Page([1], Some(1)))
  {
    AboveAll([2, 3], after);
    hide Above;
    assert ([2, 3])[..1] == [2];
    assert ([2])[..0] == [];
    assert Rows(meta, []) == Some([]);
    assert Rows(meta, [2]).value == [1];
  }
}
