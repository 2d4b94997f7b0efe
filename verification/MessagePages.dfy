/** The message history, read backwards a page at a time. */
module MessagePages {
  import opened Common
  import opened Messages

  // ---------- One page ----------

  /** The WHERE clause of ListMessagesPaginated. */
  predicate Wanted(rows: set<Post>, c: Id, before: Option<nat>, m: Post) {
    m in rows && m.conversation == c && (before.Some? ==> m.createdAt < before.value)
  }

  /** `page` is an answer of ListMessagesPaginated: distinct wanted rows, newest first, as
      many as the limit allows, and none left out that is newer than one shown. */
  ghost predicate IsPage(rows: set<Post>, c: Id, before: Option<nat>, limit: nat, page: seq<Post>) {
    && |page| <= limit
    && (forall i | 0 <= i < |page| :: Wanted(rows, c, before, page[i]))
    && (forall i, j | 0 <= i < j < |page| :: page[i] != page[j] && page[i].createdAt >= page[j].createdAt)
    && (forall m | Wanted(rows, c, before, m) && m !in page ::
          |page| == limit && forall i | 0 <= i < |page| :: page[i].createdAt >= m.createdAt)
  }

  function Reversed<T>(s: seq<T>): (r: seq<T>)
    ensures |r| == |s| && forall i | 0 <= i < |s| :: r[i] == s[|s| - 1 - i]
  {
    seq(|s|, i requires 0 <= i < |s| => s[|s| - 1 - i])
  }

  /** The handler's two-index loop that turns the page into reading order. */
  method ReverseInPlace<T>(rows: array<T>)
    modifies rows
    ensures rows[..] == Reversed(old(rows[..]))
  {
    var i, j := 0, rows.Length - 1;
    while i < j
      invariant 0 <= i <= j + 2 && i + j == rows.Length - 1
      invariant forall k | 0 <= k < i || j < k < rows.Length :: rows[k] == old(rows[rows.Length - 1 - k])
      invariant forall k | i <= k <= j :: rows[k] == old(rows[k])
    {
      rows[i], rows[j] := rows[j], rows[i];
      i, j := i + 1, j - 1;
    }
  }

  // ---------- The history ----------

  /** `h` lists conversation `c` in reading order; no two messages share a timestamp. */
  ghost predicate IsHistory(h: seq<Post>, rows: set<Post>, c: Id) {
    && (forall i, j | 0 <= i < j < |h| :: h[i].createdAt < h[j].createdAt)
    && (forall m :: m in h <==> m in rows && m.conversation == c)
  }

  predicate Among(h: seq<Post>, k: nat, m: Post) {
    exists i: int :: 0 <= i < k && i < |h| && h[i] == m
  }

  /** The rows a page with this cursor can show are the first `k` of the history. */
  ghost predicate CutsAt(h: seq<Post>, k: nat, rows: set<Post>, c: Id, before: Option<nat>) {
    && k <= |h|
    && (forall m :: Wanted(rows, c, before, m) <==> Among(h, k, m))
  }

  /** A row that may be shown and is newer than one shown is shown before it. */
  lemma NewerIsShown(rows: set<Post>, c: Id, before: Option<nat>, limit: nat, page: seq<Post>, i: nat, m: Post)
    returns (j: nat)
    requires IsPage(rows, c, before, limit, page) && i < |page|
    requires Wanted(rows, c, before, m) && m.createdAt > page[i].createdAt
    ensures j < i && page[j] == m
  {
    assert m in page;
    j :| 0 <= j < |page| && page[j] == m;
  }

  /** Nothing between the entries before `i` and entry `i` is left out. */
  lemma NoneSkipped(h: seq<Post>, k: nat, rows: set<Post>, c: Id, before: Option<nat>, limit: nat, page: seq<Post>,
                    i: nat, q: nat)
    requires forall i, j | 0 <= i < j < |h| :: h[i].createdAt < h[j].createdAt
    requires CutsAt(h, k, rows, c, before) && IsPage(rows, c, before, limit, page) && i < |page|
    requires q < k && h[q] == page[i] && forall j | 0 <= j < i :: j < k && page[j] == h[k - 1 - j]
    ensures q >= k - 1 - i
  {
    if q < k - 1 - i {
      assert Among(h, k, h[k - 1 - i]);
      var j := NewerIsShown(rows, c, before, limit, page, i, h[k - 1 - i]);
      assert false;
    }
  }

  lemma {:induction false} PageEntry(h: seq<Post>, k: nat, rows: set<Post>, c: Id, before: Option<nat>, limit: nat,
                                      page: seq<Post>, i: nat)
    requires forall i, j | 0 <= i < j < |h| :: h[i].createdAt < h[j].createdAt
    requires CutsAt(h, k, rows, c, before) && IsPage(rows, c, before, limit, page) && i < |page|
    ensures i < k && page[i] == h[k - 1 - i]
  {
    assert Wanted(rows, c, before, page[i]);
    var q: int :| 0 <= q < k && q < |h| && h[q] == page[i];
    forall j | 0 <= j < i ensures j < k && page[j] == h[k - 1 - j] {
      PageEntry(h, k, rows, c, before, limit, page, j);
    }
    if i > 0 { assert page[i - 1] != page[i] && page[i - 1].createdAt >= page[i].createdAt; }
    assert q <= k - 1 - i;
    NoneSkipped(h, k, rows, c, before, limit, page, i, q);
  }

  predicate IsEntry(h: seq<Post>, k: nat, page: seq<Post>, i: int) {
    0 <= i < |page| ==> i < k <= |h| && page[i] == h[k - 1 - i]
  }

  lemma InReadingOrder(h: seq<Post>, k: nat, shown: seq<Post>)
    requires k <= |h| && forall i :: IsEntry(h, k, Reversed(shown), i)
    ensures |shown| <= k && shown == h[k - |shown|..k]
  {
    var n := |shown|;
    assert IsEntry(h, k, Reversed(shown), n - 1);
    forall j | 0 <= j < n ensures shown[j] == h[k - n + j] {
      assert IsEntry(h, k, Reversed(shown), n - 1 - j);
    }
  }

  /** A page, once reversed, shows the newest of what is left in reading order, and all of
      it that the limit allows. */
  lemma PageIs(h: seq<Post>, k: nat, rows: set<Post>, c: Id, before: Option<nat>, limit: nat, shown: seq<Post>)
    requires forall i, j | 0 <= i < j < |h| :: h[i].createdAt < h[j].createdAt
    requires CutsAt(h, k, rows, c, before) && IsPage(rows, c, before, limit, Reversed(shown))
    ensures |shown| == if k < limit then k else limit
    ensures shown == h[k - |shown|..k]
  {
    var page := Reversed(shown);
    forall i ensures IsEntry(h, k, page, i) {
      if 0 <= i < |page| { PageEntry(h, k, rows, c, before, limit, page, i); }
    }
    InReadingOrder(h, k, shown);
    if |page| < k {
      var m := h[k - 1 - |page|];
      assert Among(h, k, m);
      forall i | 0 <= i < |page| ensures page[i] != m {
        assert IsEntry(h, k, page, i);
      }
      assert Wanted(rows, c, before, m) && m !in page;
    }
  }

  // ---------- The walk ----------

  /** The `before` a client passes for page `i`: the oldest timestamp it was shown last. */
  function Cursor(pages: seq<seq<Post>>, i: nat): Option<nat>
    requires i <= |pages| && (i > 0 ==> pages[i - 1] != [])
  {
    if i == 0 then None else Some(pages[i - 1][0].createdAt)
  }

  /** Messages added after `first` was read are newer than all it holds of `c`. */
  ghost predicate LaterOnly(first: set<Post>, rows: set<Post>, c: Id) {
    && first <= rows
    && (forall m, n | m in rows && m !in first && m.conversation == c && n in first && n.conversation == c ::
          n.createdAt < m.createdAt)
  }

  /** The pages of a client that keeps going back until a page is empty, as the handler
      returned them: in reading order, each from the table as it then was. */
  ghost predicate IsWalk(tables: seq<set<Post>>, c: Id, limits: seq<nat>, pages: seq<seq<Post>>) {
    && |tables| == |limits| == |pages|
    && (forall i | 0 <= i < |pages| :: 1 <= limits[i] <= 100 && LaterOnly(tables[0], tables[i], c))
    && (forall i | 0 <= i < |pages| - 1 :: pages[i] != [])
    && (forall i | 0 <= i < |pages| :: IsPage(tables[i], c, Cursor(pages, i), limits[i], Reversed(pages[i])))
  }

  /** Later pages hold older messages. */
  function Join(pages: seq<seq<Post>>): seq<Post> {
    if pages == [] then [] else pages[|pages| - 1] + Join(pages[..|pages| - 1])
  }

  lemma WalkPrefix(tables: seq<set<Post>>, c: Id, limits: seq<nat>, pages: seq<seq<Post>>)
    requires IsWalk(tables, c, limits, pages) && |pages| > 1
    ensures var n := |pages| - 1; IsWalk(tables[..n], c, limits[..n], pages[..n]) && pages[n - 1] != []
  {
    var n := |pages| - 1;
    forall i | 0 <= i < n
      ensures IsPage(tables[..n][i], c, Cursor(pages[..n], i), limits[..n][i], Reversed(pages[..n][i]))
    {
      assert Cursor(pages[..n], i) == Cursor(pages, i);
    }
  }

  /** A cursor at message `k` leaves exactly the `k` messages before it, however many newer
      ones were added. */
  lemma CursorCuts(h: seq<Post>, first: set<Post>, rows: set<Post>, c: Id, k: nat)
    requires IsHistory(h, first, c) && LaterOnly(first, rows, c) && k < |h|
    ensures CutsAt(h, k, rows, c, Some(h[k].createdAt))
  {
    forall m ensures Wanted(rows, c, Some(h[k].createdAt), m) <==> Among(h, k, m) {
      if Among(h, k, m) {
        assert m in h;
      }
      if Wanted(rows, c, Some(h[k].createdAt), m) {
        assert h[k] in h;
        assert m in h;
        var i :| 0 <= i < |h| && h[i] == m;
        assert i < k;
      }
    }
  }

  lemma StartCuts(h: seq<Post>, first: set<Post>, c: Id)
    requires IsHistory(h, first, c)
    ensures CutsAt(h, |h|, first, c, None)
  {
    assert forall m :: m in h <==> Among(h, |h|, m);
  }

  /** One more page: if the pages so far are the history from `k` on, they and this one are
      the history from `k - |shown|` on. */
  lemma WalkStep(h: seq<Post>, k: nat, rows: set<Post>, c: Id, before: Option<nat>, limit: nat, shown: seq<Post>)
    requires forall i, j | 0 <= i < j < |h| :: h[i].createdAt < h[j].createdAt
    requires CutsAt(h, k, rows, c, before) && IsPage(rows, c, before, limit, Reversed(shown))
    ensures |shown| == (if k < limit then k else limit) && shown + h[k..] == h[k - |shown|..]
  {
    PageIs(h, k, rows, c, before, limit, shown);
    CutAgain(h, k - |shown|, k);
  }

  lemma CutAgain(h: seq<Post>, i: nat, k: nat)
    requires i <= k <= |h|
    ensures h[i..k] + h[k..] == h[i..]
  {
  }

  /** Where page `n` starts, when the pages before it showed the history from `k` on. */
  lemma WalkCut(tables: seq<set<Post>>, c: Id, limits: seq<nat>, pages: seq<seq<Post>>, h: seq<Post>, k: nat)
    requires IsWalk(tables, c, limits, pages) && |pages| > 1 && IsHistory(h, tables[0], c)
    requires var n := |pages| - 1; k <= |h| && Join(pages[..n]) == h[k..]
    ensures var n := |pages| - 1; CutsAt(h, k, tables[n], c, Cursor(pages, n))
  {
    var n := |pages| - 1;
    var shown := pages[n - 1];
    assert Join(pages[..n]) == shown + Join(pages[..n][..n - 1]);
    assert shown[0] == h[k..][0] == h[k];
    CursorCuts(h, tables[0], tables[n], c, k);
  }

  /** A page at a cut carries on from the pages before it. */
  lemma LastPage(h: seq<Post>, k: nat, rows: set<Post>, c: Id, before: Option<nat>, limit: nat, shown: seq<Post>,
                 pages: seq<seq<Post>>)
    requires forall i, j | 0 <= i < j < |h| :: h[i].createdAt < h[j].createdAt
    requires CutsAt(h, k, rows, c, before) && IsPage(rows, c, before, limit, Reversed(shown))
    requires Join(pages) == h[k..]
    ensures var all := shown + Join(pages); |all| <= |h| && all == h[|h| - |all|..] && (|shown| < limit ==> all == h)
  {
    WalkStep(h, k, rows, c, before, limit, shown);
  }

  /** If the pages before the last one show the history from `k` on, all of them show it
      from some place on. */
  lemma LastOfWalk(tables: seq<set<Post>>, c: Id, limits: seq<nat>, pages: seq<seq<Post>>, h: seq<Post>, k: nat)
    requires pages != [] && IsWalk(tables, c, limits, pages) && IsHistory(h, tables[0], c) && k <= |h|
    requires Join(pages[..|pages| - 1]) == h[k..] && (|pages| == 1 ==> k == |h|)
    ensures |Join(pages)| <= |h| && Join(pages) == h[|h| - |Join(pages)|..]
    ensures var n := |pages| - 1; |pages[n]| < limits[n] ==> Join(pages) == h
  {
    var n := |pages| - 1;
    assert CutsAt(h, k, tables[n], c, Cursor(pages, n)) by {
      if n == 0 { StartCuts(h, tables[0], c); } else { WalkCut(tables, c, limits, pages, h, k); }
    }
    LastPage(h, k, tables[n], c, Cursor(pages, n), limits[n], pages[n], pages[..n]);
  }

  /** Walking back gives the history as it stood at the first page: each message once, in
      order, whatever was added meanwhile; and only an exhausted history gives a page
      shorter than its limit. */
  lemma {:induction false} WalkIsHistory(tables: seq<set<Post>>, c: Id, limits: seq<nat>, pages: seq<seq<Post>>,
                                          h: seq<Post>)
    requires pages != [] && IsWalk(tables, c, limits, pages) && IsHistory(h, tables[0], c)
    ensures |Join(pages)| <= |h| && Join(pages) == h[|h| - |Join(pages)|..]
    ensures var n := |pages| - 1; |pages[n]| < limits[n] ==> Join(pages) == h
    decreases |pages|
  {
    var n := |pages| - 1;
    var k := |h|;
    if n > 0 {
      assert IsWalk(tables[..n], c, limits[..n], pages[..n]) by { WalkPrefix(tables, c, limits, pages); }
      assert tables[..n][0] == tables[0];
      WalkIsHistory(tables[..n], c, limits[..n], pages[..n], h);
      k := |h| - |Join(pages[..n])|;
    }
    LastOfWalk(tables, c, limits, pages, h, k);
  }

  lemma {:induction false} JoinCounts(pages: seq<seq<Post>>)
    requires forall i | 0 <= i < |pages| :: pages[i] != []
    ensures |pages| <= |Join(pages)|
  {
    if pages == [] {
    } else {
      JoinCounts(pages[..|pages| - 1]);
    }
  }

  /** A walk ends: it has at most one page more than the history has messages, and the page
      at which it ends, the first empty one, completes the history. */
  lemma WalkEnds(tables: seq<set<Post>>, c: Id, limits: seq<nat>, pages: seq<seq<Post>>, h: seq<Post>)
    requires pages != [] && IsWalk(tables, c, limits, pages) && IsHistory(h, tables[0], c)
    ensures |pages| <= |h| + 1
    ensures pages[|pages| - 1] == [] <==> Join(pages[..|pages| - 1]) == h
  {
    WalkIsHistory(tables, c, limits, pages, h);
    var n := |pages| - 1;
    JoinCounts(pages[..n]);
    assert |Join(pages)| == |pages[n]| + |Join(pages[..n])|;
    assert pages[n] == [] ==> pages[n] + Join(pages[..n]) == Join(pages[..n]);
  }
}
