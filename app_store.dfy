/**
 * The renderer's persisted application store: the current page, the saved
 * accounts and the ids of the open partitions. Every action builds a new
 * state from the previous one.
 */
module AppStore {
  import opened Wrappers
  import opened Lists
  import opened Records

  /** An account as saved by the account forms: a plain object keyed by field name. */
  type Account = Record

  datatype AppState = AppState(page: int, accounts: seq<Account>, partitions: seq<string>)

  /** The store before anything is restored from storage. */
  const Initial: AppState := AppState(0, [], [])

  /** `account.partition`. */
  function PartitionOf(a: Account): Option<Value> {
    Field(a, "partition")
  }

  function SetPage(st: AppState, page: int): (r: AppState)
    ensures r.page == page
    ensures r.accounts == st.accounts && r.partitions == st.partitions
  {
    st.(page := page)
  }

  function AddAccount(st: AppState, data: Account): (r: AppState)
    ensures |r.accounts| == |st.accounts| + 1
    ensures r.accounts[..|st.accounts|] == st.accounts
    ensures r.accounts[|st.accounts|] == data
    ensures r.page == st.page && r.partitions == st.partitions
  {
    st.(accounts := st.accounts + [data])
  }

  function SetAccounts(st: AppState, accounts: seq<Account>): (r: AppState)
    ensures r.accounts == accounts
    ensures r.page == st.page && r.partitions == st.partitions
  {
    st.(accounts := accounts)
  }

  /** The `map` callback of `updateAccount`. */
  function MergeIfSamePartition(item: Account, data: Account): Account {
    if PartitionOf(item) == PartitionOf(data) then Spread(item, data) else item
  }

  /**
   * `updateAccount(data)`: every account whose partition equals
   * `data.partition` gets the fields of `data` spread over it; the others,
   * the length and the order stay.
   */
  function UpdateAccount(st: AppState, data: Account): (r: AppState)
    ensures |r.accounts| == |st.accounts|
    ensures forall i :: 0 <= i < |st.accounts| && PartitionOf(st.accounts[i]) == PartitionOf(data) ==>
              r.accounts[i].Keys == st.accounts[i].Keys + data.Keys
              && (forall k :: k in data ==> r.accounts[i][k] == data[k])
              && (forall k :: k in st.accounts[i] && k !in data ==> r.accounts[i][k] == st.accounts[i][k])
    ensures forall i :: 0 <= i < |st.accounts| && PartitionOf(st.accounts[i]) != PartitionOf(data) ==>
              r.accounts[i] == st.accounts[i]
    ensures r.page == st.page && r.partitions == st.partitions
  {
    st.(accounts := seq(|st.accounts|, i requires 0 <= i < |st.accounts| => MergeIfSamePartition(st.accounts[i], data)))
  }

  /** An update keeps every account's partition, so it never moves an account between partitions. */
  lemma UpdateAccountKeepsPartitions(st: AppState, data: Account)
    ensures forall i :: 0 <= i < |st.accounts| ==>
              PartitionOf(UpdateAccount(st, data).accounts[i]) == PartitionOf(st.accounts[i])
  {
  }

  /** Applying the same update twice is applying it once. */
  lemma UpdateAccountIdempotent(st: AppState, data: Account)
    ensures UpdateAccount(UpdateAccount(st, data), data) == UpdateAccount(st, data)
  {
    var once := UpdateAccount(st, data);
    var twice := UpdateAccount(once, data);
    forall i | 0 <= i < |st.accounts|
      ensures twice.accounts[i] == once.accounts[i]
    {
      if PartitionOf(st.accounts[i]) == PartitionOf(data) {
        SpreadIdempotent(st.accounts[i], data);
      }
    }
  }

  /** The `filter` callback of `removeAccount`. */
  function NotInPartition(partition: string): Account -> bool {
    item => PartitionOf(item) != Some(Str(partition))
  }

  /** `removeAccount(partition)`: every account of that partition goes, the rest stay in order. */
  function RemoveAccount(st: AppState, partition: string): (r: AppState)
    ensures forall a :: a in r.accounts <==> a in st.accounts && PartitionOf(a) != Some(Str(partition))
    ensures r.page == st.page && r.partitions == st.partitions
  {
    st.(accounts := Filter(st.accounts, NotInPartition(partition)))
  }

  /** Adding an account and removing its partition is the same as only removing that partition. */
  lemma RemoveUndoesAdd(st: AppState, partition: string, data: Account)
    requires PartitionOf(data) == Some(Str(partition))
    ensures RemoveAccount(AddAccount(st, data), partition) == RemoveAccount(st, partition)
  {
    FilterAppend(st.accounts, [data], NotInPartition(partition));
    assert Filter([data], NotInPartition(partition)) == [];
  }

  /** Removing keeps the relative order: removal from a concatenation is removal from each part. */
  lemma RemoveAccountKeepsOrder(st: AppState, front: seq<Account>, back: seq<Account>, partition: string)
    requires st.accounts == front + back
    ensures RemoveAccount(st, partition).accounts
            == RemoveAccount(st.(accounts := front), partition).accounts
             + RemoveAccount(st.(accounts := back), partition).accounts
  {
    FilterAppend(front, back, NotInPartition(partition));
  }

  function SetPartitions(st: AppState, partitions: seq<string>): (r: AppState)
    ensures r.partitions == partitions
    ensures r.page == st.page && r.accounts == st.accounts
  {
    st.(partitions := partitions)
  }

  /** `addPartition(id, page)`: appends without a duplicate check and moves to `page`. */
  function AddPartition(st: AppState, id: string, page: int): (r: AppState)
    ensures r.partitions == st.partitions + [id]
    ensures r.page == page && r.accounts == st.accounts
  {
    AppState(page, st.accounts, st.partitions + [id])
  }

  /** Adding an id that is already open duplicates it. */
  lemma AddPartitionCanDuplicate(st: AppState, id: string, page: int)
    requires id in st.partitions
    ensures !NoDuplicates(AddPartition(st, id, page).partitions)
  {
    var r := AddPartition(st, id, page).partitions;
    var i := IndexOf(st.partitions, id);
    assert r[i] == r[|r| - 1];
  }

  /** The `filter` callback of `closePartition`. */
  function IsNot(id: string): string -> bool {
    item => id != item
  }

  /**
   * `closePartition(id)`: every occurrence of `id` goes and every other id
   * keeps its number of occurrences; `ClosePartitionKeepsOrder` gives the
   * order.
   */
  function ClosePartition(st: AppState, id: string): (r: AppState)
    ensures forall p :: p in r.partitions <==> p in st.partitions && p != id
    ensures forall p :: multiset(r.partitions)[p] == if p == id then 0 else multiset(st.partitions)[p]
    ensures r.page == st.page && r.accounts == st.accounts
  {
    var r := st.(partitions := Filter(st.partitions, IsNot(id)));
    forall p ensures multiset(r.partitions)[p] == if p == id then 0 else multiset(st.partitions)[p] {
      FilterCount(st.partitions, IsNot(id), p);
    }
    r
  }

  /**
   * Closing keeps the relative order of what stays, duplicates included:
   * closing on a concatenation closes on each part.
   */
  lemma ClosePartitionKeepsOrder(st: AppState, front: seq<string>, back: seq<string>, id: string)
    requires st.partitions == front + back
    ensures ClosePartition(st, id).partitions
            == ClosePartition(st.(partitions := front), id).partitions
             + ClosePartition(st.(partitions := back), id).partitions
  {
    FilterAppend(front, back, IsNot(id));
  }

  /** On a list without duplicates, closing removes exactly the slot of the id. */
  lemma ClosePartitionRemovesSlot(st: AppState, id: string)
    requires NoDuplicates(st.partitions) && id in st.partitions
    ensures var k := IndexOf(st.partitions, id);
      ClosePartition(st, id).partitions == st.partitions[..k] + st.partitions[k + 1..]
  {
    var xs, k := st.partitions, IndexOf(st.partitions, id);
    forall i | 0 <= i < |xs| ensures IsNot(id)(xs[i]) <==> i != k {
      if i != k {
        assert xs[i] != xs[k];
      }
    }
    FilterDropsOne(xs, k, IsNot(id));
  }

  /** Closing an id that is not open changes nothing. */
  lemma CloseAbsentPartition(st: AppState, id: string)
    requires id !in st.partitions
    ensures ClosePartition(st, id) == st
  {
    FilterKeepsAll(st.partitions, IsNot(id));
  }
}
