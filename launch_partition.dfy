/**
 * Launching a partition from the account list: show its page when it is
 * already open, otherwise open it at the end and show the page it lands on.
 */
module LaunchPartition {
  import opened Lists
  import opened AppStore
  import Pages
  import Division

  /**
   * The launch callback; `perPage` is `Pages.ItemsPerPage(columns, rows)`
   * for the current settings, computed by the hook the same way the grid
   * computes it.
   */
  function Launch(st: AppState, id: string, perPage: nat): (r: AppState)
    requires perPage >= 1
    ensures && (id in st.partitions ==>
            r.partitions == st.partitions && r.page == IndexOf(st.partitions, id) / perPage)
      && (id !in st.partitions ==>
            r.partitions == st.partitions + [id] && r.page == |st.partitions| / perPage)
    ensures r.accounts == st.accounts
  {
    if id in st.partitions then SetPage(st, IndexOf(st.partitions, id) / perPage)
    else AddPartition(st, id, |st.partitions| / perPage)
  }

  /** The first occurrence of an id appended to a list that lacks it is the new last slot. */
  lemma IndexOfAppended(xs: seq<string>, id: string)
    requires id !in xs
    ensures IndexOf(xs + [id], id) == |xs|
  {
  }

  /** Afterwards the id is open and the page is the one holding its first occurrence. */
  lemma LaunchShowsPartition(st: AppState, id: string, perPage: nat)
    requires perPage >= 1
    ensures var r := Launch(st, id, perPage);
      id in r.partitions && r.page == IndexOf(r.partitions, id) / perPage
  {
    if id !in st.partitions {
      IndexOfAppended(st.partitions, id);
    }
  }

  /** The launched page is within the page count, so it is the page the grid shows. */
  lemma LaunchedPageIsShown(st: AppState, id: string, perPage: nat)
    requires perPage >= 1
    ensures var r := Launch(st, id, perPage);
      Pages.CurrentPage(r.page, Pages.PageCount(|r.partitions|, perPage)) == r.page
  {
    var r := Launch(st, id, perPage);
    LaunchShowsPartition(st, id, perPage);
    var i := IndexOf(r.partitions, id);
    assert r.page == i / perPage && i < |r.partitions|;
    Pages.IndexOnCountedPage(i, |r.partitions|, perPage);
    Division.DivNonNegative(i, perPage);
  }

  /** Launching never duplicates an open id. */
  lemma LaunchKeepsNoDuplicates(st: AppState, id: string, perPage: nat)
    requires perPage >= 1 && NoDuplicates(st.partitions)
    ensures NoDuplicates(Launch(st, id, perPage).partitions)
  {
    var r := Launch(st, id, perPage).partitions;
    if id !in st.partitions {
      forall i, j | 0 <= i < j < |r| ensures r[i] != r[j] {
        if j == |st.partitions| {
          assert r[i] == st.partitions[i];
        } else {
          assert r[i] == st.partitions[i] && r[j] == st.partitions[j];
        }
      }
    }
  }

  /** Launching the same id twice is launching it once. */
  lemma LaunchIdempotent(st: AppState, id: string, perPage: nat)
    requires perPage >= 1
    ensures Launch(Launch(st, id, perPage), id, perPage) == Launch(st, id, perPage)
  {
    LaunchShowsPartition(st, id, perPage);
  }
}
