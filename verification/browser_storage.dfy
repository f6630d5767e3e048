/**
 * The browser's `window.localStorage`: a string-keyed, string-valued map,
 * absent when there is no window, and fallible when present.
 */
module BrowserStorage {
  import opened Wrappers

  /**
   * How the storage object behaves. `Blocked`: touching it throws (storage
   * disabled); `QuotaExceeded`: reads, removals and clears work but every
   * `setItem` throws.
   */
  datatype Access = Usable | QuotaExceeded | Blocked

  datatype Storage = Storage(window: bool, access: Access, items: map<string, string>)

  /** There is a window and its storage can be read, removed from and cleared. */
  predicate Reachable(st: Storage) {
    st.window && st.access != Blocked
  }

  /** There is a window and `setItem` succeeds. */
  predicate Writable(st: Storage) {
    st.window && st.access == Usable
  }

  /**
   * The stored text under `key` when it is truthy: `getItem` gives null for
   * a missing key, and an empty string is falsy as well.
   */
  function StoredText(st: Storage, key: string): (r: Option<string>)
    ensures r.Some? <==> Reachable(st) && key in st.items && st.items[key] != ""
    ensures r.Some? ==> r.value == st.items[key]
  {
    if Reachable(st) && key in st.items && st.items[key] != "" then Some(st.items[key]) else None
  }

  /** Two storages that agree on one key: both lack it, or both hold the same text. */
  predicate SameAt(st: Storage, st': Storage, key: string) {
    && (key in st.items <==> key in st'.items)
    && (key in st.items ==> st.items[key] == st'.items[key])
  }

  /** `setItem(key, text)` with the exception it may throw caught. */
  function SetItem(st: Storage, key: string, text: string): (st': Storage)
    ensures st'.window == st.window && st'.access == st.access
    ensures Writable(st) ==> key in st'.items && st'.items[key] == text
    ensures !Writable(st) ==> st' == st
    ensures forall k :: k != key ==> SameAt(st, st', k)
  {
    if Writable(st) then st.(items := st.items[key := text]) else st
  }

  /** `removeItem(key)` with the exception it may throw caught. */
  function RemoveItem(st: Storage, key: string): (st': Storage)
    ensures st'.window == st.window && st'.access == st.access
    ensures Reachable(st) ==> key !in st'.items
    ensures !Reachable(st) ==> st' == st
    ensures forall k :: k != key ==> SameAt(st, st', k)
  {
    if Reachable(st) then st.(items := st.items - {key}) else st
  }

  /** Sum of |key| + |text| over the entries of a map. */
  ghost function TotalSize(m: map<string, string>): nat
    decreases |m.Keys|
  {
    if m.Keys == {} then 0
    else
      var k :| k in m.Keys;
      assert (m - {k}).Keys == m.Keys - {k};
      |k| + |m[k]| + TotalSize(m - {k})
  }

  /** The sum may be split at any key, whichever one the definition happened to choose. */
  lemma {:induction false} TotalSizeRemove(m: map<string, string>, k: string)
    requires k in m
    ensures TotalSize(m) == |k| + |m[k]| + TotalSize(m - {k})
    decreases |m.Keys|
  {
    var j :| j in m.Keys && TotalSize(m) == |j| + |m[j]| + TotalSize(m - {j});
    if j != k {
      assert (m - {j}).Keys == m.Keys - {j};
      assert (m - {k}).Keys == m.Keys - {k};
      TotalSizeRemove(m - {j}, k);
      TotalSizeRemove(m - {k}, j);
      assert m - {j} - {k} == m - {k} - {j};
    }
  }

  /** An empty storage has size 0. */
  lemma TotalSizeEmpty()
    ensures TotalSize(map[]) == 0
  {
  }

  /** Writing `key` replaces its share of the size by the new entry's. */
  lemma TotalSizeUpdate(m: map<string, string>, key: string, text: string)
    ensures TotalSize(m[key := text]) == TotalSize(m - {key}) + |key| + |text|
  {
    TotalSizeRemove(m[key := text], key);
    assert m[key := text] - {key} == m - {key};
  }

  /**
   * `getLocalStorageSize`: walks the stored entries adding the lengths of key
   * and text; 0 without a window or when the storage object throws.
   */
  method StorageSize(st: Storage) returns (total: nat)
    ensures total == (if Reachable(st) then TotalSize(st.items) else 0)
  {
    if !Reachable(st) {
      return 0;
    }
    total := 0;
    var rest := st.items;
    while rest.Keys != {}
      invariant total + TotalSize(rest) == TotalSize(st.items)
      decreases |rest.Keys|
    {
      var k :| k in rest.Keys;
      TotalSizeRemove(rest, k);
      total := total + |rest[k]| + |k|;
      assert (rest - {k}).Keys == rest.Keys - {k};
      rest := rest - {k};
    }
  }
}
