/**
 * The partition grid's paging: how many partitions fit on a page, how
 * many pages there are, which page is shown, closing a whole page, and
 * which saved accounts have an open webview.
 */
module Pages {
  import opened Wrappers
  import opened Lists
  import opened Records
  import opened AppStore
  import opened Division

  /**
   * `columns * rows`. The settings dialog hands the setters `value || 1`
   * and its inputs have a minimum of 1, so neither holds less than 1 and a
   * page holds at least one item.
   */
  function ItemsPerPage(columns: nat, rows: nat): (r: nat)
    requires columns >= 1 && rows >= 1
    ensures r >= columns && r >= rows
  {
    columns * rows
  }

  /** `Math.ceil(n / perPage)`: no pages exactly when there are no items. */
  function PageCount(n: nat, perPage: nat): (r: nat)
    requires perPage >= 1
    ensures r == 0 <==> n == 0
  {
    DivBounds(n + perPage - 1, perPage);
    (n + perPage - 1) / perPage
  }

  /**
   * `pageCount` is the ceiling: the pages hold all `n` items, the last page
   * is not empty, and there are no pages exactly when there are no items.
   */
  lemma PageCountIsCeiling(n: nat, perPage: nat)
    requires perPage >= 1
    ensures var c := PageCount(n, perPage);
      n <= c * perPage && (c == 0 || (c - 1) * perPage < n) && (c == 0 <==> n == 0)
  {
    var c := PageCount(n, perPage);
    DivBounds(n + perPage - 1, perPage);
    assert c * perPage <= n + perPage - 1 < c * perPage + perPage;
    assert (c - 1) * perPage == c * perPage - perPage;
  }

  /** Every index of the list lies on one of the counted pages. */
  lemma IndexOnCountedPage(i: nat, n: nat, perPage: nat)
    requires perPage >= 1 && i < n
    ensures i / perPage < PageCount(n, perPage)
  {
    PageCountIsCeiling(n, perPage);
    DivBounds(i, perPage);
    var c := PageCount(n, perPage);
    if i / perPage >= c {
      MulMonotone(c, i / perPage, perPage);
    }
  }

  /** `Math.max(0, Math.min(page, pageCount - 1))`. */
  function CurrentPage(page: int, pageCount: nat): (r: int)
    ensures pageCount > 0 ==> 0 <= r < pageCount
    ensures pageCount == 0 ==> r == 0
    ensures 0 <= page < pageCount ==> r == page
    ensures page >= pageCount > 0 ==> r == pageCount - 1
    ensures page < 0 ==> r == 0
  {
    var m := if page < pageCount - 1 then page else pageCount - 1;
    if 0 < m then m else 0
  }

  /**
   * `closePage(pageIndex)`: the partitions whose index is not on page
   * `pageIndex`, in order. Built from the back so each element keeps its
   * index.
   */
  function ClosePage(partitions: seq<string>, pageIndex: int, perPage: nat): (r: seq<string>)
    requires perPage >= 1
    ensures |r| <= |partitions|
    ensures forall p :: p in r ==> p in partitions
    decreases |partitions|
  {
    if partitions == [] then []
    else
      var last := |partitions| - 1;
      var front := partitions[..last];
      assert forall p :: p in front ==> p in partitions;
      ClosePage(front, pageIndex, perPage) + (if !OnPage(last, perPage, pageIndex) then [partitions[last]] else [])
  }

  /** `pageIndex === Math.floor(index / itemsPerPage)`: the index lies on that page. */
  predicate OnPage(index: nat, perPage: nat, pageIndex: int)
    requires perPage >= 1
  {
    index / perPage == pageIndex
  }

  /**
   * Closing page `q` cuts out exactly the block of indices
   * `[q * perPage, q * perPage + perPage)` and keeps both sides in order.
   */
  lemma ClosePageRemovesBlock(partitions: seq<string>, q: nat, perPage: nat)
    requires perPage >= 1
    ensures ClosePage(partitions, q, perPage)
            == partitions[..Min(q * perPage, |partitions|)] + partitions[Min(q * perPage + perPage, |partitions|)..]
  {
    var a := q * perPage;
    forall i: nat | i < |partitions| ensures OnPage(i, perPage, q) <==> a <= i < a + perPage {
      DivBetween(i, perPage, q, a);
    }
    CloseBlock(partitions, q, perPage, a);
  }

  /**
   * `ClosePageRemovesBlock` for a page whose indices are `[a, a + perPage)`,
   * by induction on the length.
   */
  lemma {:induction false} CloseBlock(partitions: seq<string>, q: nat, perPage: nat, a: nat)
    requires perPage >= 1
    requires forall i: nat :: i < |partitions| ==> (OnPage(i, perPage, q) <==> a <= i < a + perPage)
    ensures ClosePage(partitions, q, perPage)
            == partitions[..Min(a, |partitions|)] + partitions[Min(a + perPage, |partitions|)..]
    decreases |partitions|
  {
    var n := |partitions|;
    if n > 0 {
      var last := n - 1;
      var front := partitions[..last];
      var b := a + perPage;
      CloseBlock(front, q, perPage, a);
      var kept := ClosePage(front, q, perPage);
      assert OnPage(last, perPage, q) <==> a <= last < b;
      if last < a {
        assert Min(a, last) == last && Min(b, last) == last;
        assert Min(a, n) == n && Min(b, n) == n;
        assert kept == front;
        assert front + [partitions[last]] == partitions;
      } else if last < b {
        assert Min(a, last) == a && Min(b, last) == last;
        assert Min(a, n) == a && Min(b, n) == n;
        assert kept == front[..a];
        assert front[..a] == partitions[..a];
      } else {
        assert Min(a, last) == a && Min(b, last) == b;
        assert Min(a, n) == a && Min(b, n) == b;
        assert kept == front[..a] + front[b..];
        assert front[..a] == partitions[..a];
        assert front[b..] + [partitions[last]] == partitions[b..];
      }
    }
  }

  /** A page before the first one closes nothing. */
  lemma {:induction false} CloseNegativePage(partitions: seq<string>, q: int, perPage: nat)
    requires perPage >= 1 && q < 0
    ensures ClosePage(partitions, q, perPage) == partitions
    decreases |partitions|
  {
    if partitions != [] {
      var last := |partitions| - 1;
      CloseNegativePage(partitions[..last], q, perPage);
      DivNonNegative(last, perPage);
      assert partitions[..last] + [partitions[last]] == partitions;
    }
  }

  /** The `filter` callback of `webviews`: the account's partition is open. */
  function IsOpen(partitions: seq<string>): Account -> bool {
    item => PartitionOf(item).Some? && PartitionOf(item).value.Str? && PartitionOf(item).value.s in partitions
  }

  /** `webviews`: the saved accounts whose partition is open, in account order. */
  function Webviews(accounts: seq<Account>, partitions: seq<string>): (r: seq<Account>)
    ensures forall a :: a in r <==> a in accounts && exists p :: p in partitions && PartitionOf(a) == Some(Str(p))
  {
    Filter(accounts, IsOpen(partitions))
  }

  /** The webviews follow the order of the accounts list, not of the partitions list. */
  lemma WebviewsKeepAccountOrder(front: seq<Account>, back: seq<Account>, partitions: seq<string>)
    ensures Webviews(front + back, partitions) == Webviews(front, partitions) + Webviews(back, partitions)
  {
    FilterAppend(front, back, IsOpen(partitions));
  }

  /** Closing a partition removes its webviews. */
  lemma ClosedPartitionHasNoWebview(st: AppState, id: string, a: Account)
    requires PartitionOf(a) == Some(Str(id))
    ensures a !in Webviews(st.accounts, ClosePartition(st, id).partitions)
  {
  }
}
