/**
 The response cache: a byte-bounded LRU with per-entry expiry and a flush by tenant.
 The object keeps three indexes and a byte count that must agree; what it holds is
 the recency list, and each method is proved to do to that list what the functions
 below say.  Time is an integer number of nanoseconds, sizes are bytes.
 */
module LruCache {
  import opened Wrappers

  datatype Entry = Entry(body: string, provider: string, model: string)

  datatype Item = Item(key: string, tenant: string, entry: Entry, expires: int, size: int)

  // ----- recency lists, most recent first -----

  function Total(s: seq<Item>): int {
    if s == [] then 0 else s[0].size + Total(s[1..])
  }

  /** The list without the items under some keys. */
  function Drop(s: seq<Item>, keys: set<string>): seq<Item> {
    if s == [] then []
    else (if s[0].key in keys then [] else [s[0]]) + Drop(s[1..], keys)
  }

  /** Evict from the back until the total is within the bound. */
  function Fit(s: seq<Item>, max: int): seq<Item> {
    if s == [] || Total(s) <= max then s else Fit(s[..|s| - 1], max)
  }

  ghost predicate Distinct(s: seq<Item>) {
    forall i, j :: 0 <= i < j < |s| ==> s[i].key != s[j].key
  }

  ghost predicate Sized(s: seq<Item>) {
    forall it :: it in s ==> it.size >= 0
  }

  function Lookup(s: seq<Item>, key: string): Option<Item> {
    if s == [] then None else if s[0].key == key then Some(s[0]) else Lookup(s[1..], key)
  }

  function AfterGet(s: seq<Item>, key: string, now: int): seq<Item> {
    match Lookup(s, key)
    case None => s
    case Some(it) => if now < it.expires then [it] + Drop(s, {key}) else Drop(s, {key})
  }

  function GetAnswer(s: seq<Item>, key: string, now: int): Option<Entry> {
    match Lookup(s, key)
    case None => None
    case Some(it) => if now < it.expires then Some(it.entry) else None
  }

  function SizeOf(key: string, e: Entry): int {
    |e.body| + |e.provider| + |e.model| + |key|
  }

  function AfterPut(s: seq<Item>, tenant: string, key: string, e: Entry, ttl: int, now: int, maxBytes: int, maxEntryBytes: int): seq<Item> {
    if ttl <= 0 || SizeOf(key, e) > maxEntryBytes then s
    else Fit([Item(key, tenant, e, now + ttl, SizeOf(key, e))] + Drop(s, {key}), maxBytes)
  }

  function KeysOf(s: seq<Item>, tenant: string): set<string> {
    set it | it in s && it.tenant == tenant :: it.key
  }

  function AfterFlush(s: seq<Item>, tenant: string): seq<Item> {
    Drop(s, KeysOf(s, tenant))
  }

  // ----- lemmas about lists -----

  lemma {:induction false} DropMembers(s: seq<Item>, keys: set<string>)
    ensures forall it :: it in Drop(s, keys) <==> it in s && it.key !in keys
  {
    if s != [] {
      DropMembers(s[1..], keys);
      assert s == [s[0]] + s[1..];
    }
  }

  lemma DistinctTail(s: seq<Item>)
    requires Distinct(s) && s != []
    ensures Distinct(s[1..]) && forall it :: it in s[1..] ==> it.key != s[0].key
  {
  }

  lemma {:induction false} DropDistinct(s: seq<Item>, keys: set<string>)
    requires Distinct(s)
    ensures Distinct(Drop(s, keys))
  {
    if s != [] {
      DistinctTail(s);
      DropDistinct(s[1..], keys);
      DropMembers(s[1..], keys);
      DistinctCons(s[0], Drop(s[1..], keys));
    }
  }

  lemma DistinctCons(it: Item, s: seq<Item>)
    requires Distinct(s)
    ensures (forall x :: x in s ==> x.key != it.key) <==> Distinct([it] + s)
  {
    if Distinct([it] + s) {
      forall x | x in s ensures x.key != it.key {
        var i :| 0 <= i < |s| && s[i] == x;
        assert ([it] + s)[0] == it && ([it] + s)[i + 1] == x;
      }
    }
  }

  lemma {:induction false} DropNothing(s: seq<Item>, keys: set<string>)
    requires forall it :: it in s ==> it.key !in keys
    ensures Drop(s, keys) == s
  {
    if s != [] {
      assert s[0] in s;
      DropNothing(s[1..], keys);
    }
  }

  lemma {:induction false} DropTwice(s: seq<Item>, a: set<string>, b: set<string>)
    ensures Drop(Drop(s, a), b) == Drop(s, a + b)
  {
    if s != [] {
      DropTwice(s[1..], a, b);
      if s[0].key in a {
        assert Drop(s, a) == Drop(s[1..], a);
      } else {
        assert Drop(s, a)[1..] == Drop(s[1..], a);
      }
    }
  }

  lemma {:induction false} DropTotal(s: seq<Item>, it: Item)
    requires Distinct(s) && it in s
    ensures Total(Drop(s, {it.key})) == Total(s) - it.size && |Drop(s, {it.key})| == |s| - 1
  {
    DistinctTail(s);
    if s[0].key == it.key {
      assert s[0] == it;
      DropNothing(s[1..], {it.key});
      assert Drop(s, {it.key}) == s[1..];
    } else {
      DropTotal(s[1..], it);
      assert Drop(s, {it.key})[1..] == Drop(s[1..], {it.key});
    }
  }

  lemma {:induction false} DropLast(s: seq<Item>)
    requires Distinct(s) && s != []
    ensures Drop(s, {s[|s| - 1].key}) == s[..|s| - 1]
  {
    if |s| > 1 {
      DistinctTail(s);
      DropLast(s[1..]);
      assert s[1..][..|s| - 2] == s[1..|s| - 1];
      assert s[..|s| - 1] == [s[0]] + s[1..|s| - 1];
    }
  }

  lemma {:induction false} LookupFinds(s: seq<Item>, key: string)
    ensures var r := Lookup(s, key);
            if r.Some? then r.value in s && r.value.key == key else forall it :: it in s ==> it.key != key
  {
    if s != [] {
      LookupFinds(s[1..], key);
      assert s == [s[0]] + s[1..];
    }
  }

  lemma {:induction false} LookupUnique(s: seq<Item>, it: Item)
    requires Distinct(s) && it in s
    ensures Lookup(s, it.key) == Some(it)
  {
    DistinctTail(s);
    if s[0].key == it.key {
      assert s[0] == it;
    } else {
      LookupUnique(s[1..], it);
    }
  }

  // ----- eviction keeps the longest recent prefix that fits -----

  lemma {:induction false} TotalMonotone(s: seq<Item>, i: nat, j: nat)
    requires i <= j <= |s| && Sized(s)
    ensures Total(s[..i]) <= Total(s[..j])
    decreases |s|
  {
    if j > 0 {
      assert s[..j][1..] == s[1..][..j - 1];
      assert s[0] in s;
      if i > 0 {
        assert s[..i][1..] == s[1..][..i - 1];
        TotalMonotone(s[1..], i - 1, j - 1);
      } else {
        TotalMonotone(s[1..], 0, j - 1);
      }
    }
  }

  lemma {:induction false} FitIsPrefix(s: seq<Item>, max: int)
    ensures Fit(s, max) <= s
    ensures Fit(s, max) == [] || Total(Fit(s, max)) <= max
    ensures |Fit(s, max)| < |s| ==> Total(s[..|Fit(s, max)| + 1]) > max
  {
    if s != [] && Total(s) > max {
      var shorter := s[..|s| - 1];
      FitIsPrefix(shorter, max);
      var n := |Fit(s, max)|;
      if n == |s| - 1 {
        assert s[..n + 1] == s;
      } else {
        assert shorter[..n + 1] == s[..n + 1];
      }
    }
  }

  /** What is kept is the longest prefix of the recency list within the bound: it fits, and
      every longer prefix does not. */
  lemma FitIsLongest(s: seq<Item>, max: int, n: nat)
    requires Sized(s) && n <= |s|
    ensures Fit(s, max) <= s
    ensures n > |Fit(s, max)| ==> Total(s[..n]) > max
    ensures 0 < n <= |Fit(s, max)| ==> Total(s[..n]) <= max
  {
    FitIsPrefix(s, max);
    var k := |Fit(s, max)|;
    assert Fit(s, max) == s[..k];
    if n > k {
      TotalMonotone(s, k + 1, n);
    } else {
      TotalMonotone(s, n, k);
    }
  }

  /** An accepted entry is always kept when the entry limit is within the byte limit. */
  lemma PutKeepsTheNewEntry(s: seq<Item>, tenant: string, key: string, e: Entry, ttl: int, now: int, maxBytes: int, maxEntryBytes: int)
    requires Sized(s) && ttl > 0 && SizeOf(key, e) <= maxEntryBytes <= maxBytes
    ensures var r := AfterPut(s, tenant, key, e, ttl, now, maxBytes, maxEntryBytes);
            r != [] && r[0] == Item(key, tenant, e, now + ttl, SizeOf(key, e))
  {
    var it := Item(key, tenant, e, now + ttl, SizeOf(key, e));
    var full := [it] + Drop(s, {key});
    DropMembers(s, {key});
    assert full[..1] == [it] && [it][1..] == [];
    FitIsLongest(full, maxBytes, 1);
    assert Total([it]) == it.size;
  }

  // ----- the object -----

  /** The map and the recency list hold the same items, each under its own key. */
  ghost predicate Linked(order: seq<Item>, items: map<string, Item>) {
    && Distinct(order) && Sized(order)
    && (forall it :: it in order ==> it.key in items && items[it.key] == it)
    && (forall key :: key in items ==> items[key] in order && items[key].key == key)
  }

  /** The tenant index holds exactly the keys of each tenant's items, and no empty set. */
  ghost predicate Indexed(items: map<string, Item>, byTenant: map<string, set<string>>) {
    && (forall t :: t in byTenant ==> byTenant[t] != {})
    && (forall t, key :: t in byTenant && key in byTenant[t] ==> key in items && items[key].tenant == t)
    && (forall key :: key in items ==> items[key].tenant in byTenant && key in byTenant[items[key].tenant])
  }

  /** The three indexes and the byte count describe one recency list. */
  ghost predicate Agree(order: seq<Item>, items: map<string, Item>, byTenant: map<string, set<string>>, bytes: int) {
    Linked(order, items) && Indexed(items, byTenant) && bytes == Total(order)
  }

  function Unindexed(byTenant: map<string, set<string>>, tenant: string, key: string): map<string, set<string>> {
    if tenant !in byTenant then byTenant
    else
      var keys := byTenant[tenant] - {key};
      if keys == {} then byTenant - {tenant} else byTenant[tenant := keys]
  }

  function Reindexed(byTenant: map<string, set<string>>, tenant: string, key: string): map<string, set<string>> {
    byTenant[tenant := (if tenant in byTenant then byTenant[tenant] else {}) + {key}]
  }

  lemma UnlinkKeeps(order: seq<Item>, items: map<string, Item>, it: Item)
    requires Linked(order, items) && it in order
    ensures Linked(Drop(order, {it.key}), items - {it.key})
    ensures Total(Drop(order, {it.key})) == Total(order) - it.size
  {
    DropMembers(order, {it.key});
    DropDistinct(order, {it.key});
    DropTotal(order, it);
  }

  lemma UnindexKeeps(items: map<string, Item>, byTenant: map<string, set<string>>, key: string)
    requires Indexed(items, byTenant) && key in items
    ensures Indexed(items - {key}, Unindexed(byTenant, items[key].tenant, key))
  {
    var rest, index := items - {key}, Unindexed(byTenant, items[key].tenant, key);
    forall k | k in rest ensures rest[k].tenant in index && k in index[rest[k].tenant] {
      assert k in items && k in byTenant[items[k].tenant];
      if items[k].tenant == items[key].tenant {
        assert k in byTenant[items[key].tenant] - {key};
      }
    }
  }

  lemma LinkKeeps(order: seq<Item>, items: map<string, Item>, it: Item)
    requires Linked(order, items) && it.size >= 0 && it.key !in items
    ensures Linked([it] + order, items[it.key := it]) && Total([it] + order) == it.size + Total(order)
  {
    DistinctCons(it, order);
    assert ([it] + order)[1..] == order;
  }

  lemma IndexKeeps(items: map<string, Item>, byTenant: map<string, set<string>>, it: Item)
    requires Indexed(items, byTenant) && it.key !in items
    ensures Indexed(items[it.key := it],
                    Reindexed(byTenant, it.tenant, it.key))
  {
  }

  class Cache {
    var items: map<string, Item>
    var order: seq<Item>
    var byTenant: map<string, set<string>>
    var bytes: int
    const maxBytes: int
    const maxEntryBytes: int

    ghost predicate Valid()
      reads this
    {
      Agree(order, items, byTenant, bytes) && (bytes <= maxBytes || order == [])
    }

    constructor (maxBytes: int, maxEntryBytes: int)
      ensures Valid() && order == [] && this.maxBytes == maxBytes && this.maxEntryBytes == maxEntryBytes
    {
      items, order, byTenant, bytes := map[], [], map[], 0;
      this.maxBytes, this.maxEntryBytes := maxBytes, maxEntryBytes;
    }

    static method Unindex(byTenant: map<string, set<string>>, tenant: string, key: string) returns (r: map<string, set<string>>)
      ensures r == Unindexed(byTenant, tenant, key)
    {
      r := byTenant;
      if tenant in r {
        var keys := r[tenant] - {key};
        r := r[tenant := keys];
        if |keys| == 0 {
          r := r - {tenant};
        }
      }
    }

    static method Index(byTenant: map<string, set<string>>, tenant: string, key: string) returns (r: map<string, set<string>>)
      ensures r == Reindexed(byTenant, tenant, key)
    {
      r := byTenant;
      if tenant !in r {
        r := r[tenant := {}];
      }
      r := r[tenant := r[tenant] + {key}];
    }

    /** Drops one element from every index. */
    method RemoveElement(it: Item)
      requires Agree(order, items, byTenant, bytes) && it in order
      modifies this
      ensures Agree(order, items, byTenant, bytes) && order == Drop(old(order), {it.key})
      ensures items == old(items) - {it.key}
    {
      UnlinkKeeps(order, items, it);
      UnindexKeeps(items, byTenant, it.key);
      order := Drop(order, {it.key});
      items := items - {it.key};
      byTenant := Unindex(byTenant, it.tenant, it.key);
      bytes := bytes - it.size;
    }

    method Get(key: string, now: int) returns (r: Option<Entry>)
      requires Valid()
      modifies this
      ensures Valid()
      ensures r == GetAnswer(old(order), key, now)
      ensures order == AfterGet(old(order), key, now)
    {
      LookupFinds(order, key);
      if key !in items {
        return None;
      }
      var it := items[key];
      LookupUnique(order, it);
      if !(now < it.expires) {
        ShrinksWithin(order, it, maxBytes);
        RemoveElement(it);
        return None;
      }
      ToFront(order, items, it);
      order := [it] + Drop(order, {key});
      return Some(it.entry);
    }

    method Put(tenant: string, key: string, e: Entry, ttl: int, now: int)
      requires Valid()
      modifies this
      ensures Valid()
      ensures order == AfterPut(old(order), tenant, key, e, ttl, now, maxBytes, maxEntryBytes)
    {
      if ttl <= 0 {
        return;
      }
      var size := |e.body| + |e.provider| + |e.model| + |key|;
      if size > maxEntryBytes {
        return;
      }
      var it := Item(key, tenant, e, now + ttl, size);
      Forget(key);
      Insert(it);
      Evict();
      assert order == Fit([it] + Drop(old(order), {key}), maxBytes);
      assert it == Item(key, tenant, e, now + ttl, SizeOf(key, e));
    }

    method Forget(key: string)
      requires Agree(order, items, byTenant, bytes)
      modifies this
      ensures Agree(order, items, byTenant, bytes) && order == Drop(old(order), {key}) && key !in items
    {
      if key in items {
        RemoveElement(items[key]);
      } else {
        DropNothing(order, {key});
      }
    }

    method DropOldest()
      requires Agree(order, items, byTenant, bytes) && order != []
      modifies this
      ensures Agree(order, items, byTenant, bytes) && order == old(order)[..|old(order)| - 1]
    {
      DropLast(order);
      RemoveElement(order[|order| - 1]);
    }

    /** Drops least recently used entries until the bound holds. */
    method Evict()
      requires Agree(order, items, byTenant, bytes)
      modifies this
      ensures Valid() && order == Fit(old(order), maxBytes)
    {
      while bytes > maxBytes && |order| > 0
        invariant Agree(order, items, byTenant, bytes) && Fit(order, maxBytes) == Fit(old(order), maxBytes)
        decreases |order|
      {
        DropOldest();
      }
    }

    method Insert(it: Item)
      requires Agree(order, items, byTenant, bytes) && it.size >= 0 && it.key !in items
      modifies this
      ensures Agree(order, items, byTenant, bytes) && order == [it] + old(order)
    {
      LinkKeeps(order, items, it);
      IndexKeeps(items, byTenant, it);
      order := [it] + order;
      items := items[it.key := it];
      byTenant := Index(byTenant, it.tenant, it.key);
      bytes := bytes + it.size;
    }

    /** Drops one of the keys still `left` of those being flushed. */
    method FlushOne(key: string, ghost start: seq<Item>, ghost keys: set<string>, ghost left: set<string>)
      requires Agree(order, items, byTenant, bytes) && order == Drop(start, keys - left)
      requires key in left && left <= keys && left <= items.Keys
      modifies this
      ensures Agree(order, items, byTenant, bytes) && order == Drop(start, keys - (left - {key}))
      ensures left - {key} <= items.Keys
    {
      FlushStep(start, order, keys, left, key);
      RemoveElement(items[key]);
    }

    method FlushKeys(keys: set<string>) returns (n: nat)
      requires Agree(order, items, byTenant, bytes) && keys <= items.Keys
      modifies this
      ensures Agree(order, items, byTenant, bytes) && order == Drop(old(order), keys)
      ensures n == |keys|
    {
      n := 0;
      var left := keys;
      NothingFlushed(order, keys);
      while left != {}
        invariant left <= keys && n == |keys| - |left| && left <= items.Keys
        invariant Agree(order, items, byTenant, bytes) && order == Drop(old(order), keys - left)
        decreases |left|
      {
        var key :| key in left;
        FlushOne(key, old(order), keys, left);
        left := left - {key};
        n := n + 1;
      }
      assert keys - left == keys;
    }

    method Flush(tenant: string) returns (n: nat)
      requires Valid()
      modifies this
      ensures Valid()
      ensures order == AfterFlush(old(order), tenant)
      ensures n == |KeysOf(old(order), tenant)|
    {
      var keys := if tenant in byTenant then byTenant[tenant] else {};
      IndexIsKeysOf(order, items, byTenant, tenant);
      DropShrinks(order, keys);
      n := FlushKeys(keys);
    }
  }

  lemma NothingFlushed(s: seq<Item>, keys: set<string>)
    ensures Drop(s, keys - keys) == s
  {
    assert keys - keys == {};
    DropNothing(s, {});
  }

  lemma {:induction false} DropShrinks(s: seq<Item>, keys: set<string>)
    requires Sized(s)
    ensures Total(Drop(s, keys)) <= Total(s)
  {
    if s != [] {
      assert s[0] in s;
      DropShrinks(s[1..], keys);
      if s[0].key !in keys {
        assert Drop(s, keys)[1..] == Drop(s[1..], keys);
      } else {
        assert Drop(s, keys) == Drop(s[1..], keys);
      }
    }
  }

  lemma FlushStep(start: seq<Item>, order: seq<Item>, keys: set<string>, left: set<string>, key: string)
    requires order == Drop(start, keys - left) && key in left && left <= keys
    ensures Drop(order, {key}) == Drop(start, keys - (left - {key}))
  {
    DropTwice(start, keys - left, {key});
    assert keys - (left - {key}) == (keys - left) + {key};
  }

  lemma IndexIsKeysOf(order: seq<Item>, items: map<string, Item>, byTenant: map<string, set<string>>, tenant: string)
    requires Linked(order, items) && Indexed(items, byTenant)
    ensures (if tenant in byTenant then byTenant[tenant] else {}) == KeysOf(order, tenant)
  {
    var keys := if tenant in byTenant then byTenant[tenant] else {};
    forall key | key in keys ensures key in KeysOf(order, tenant) {
      assert items[key] in order;
    }
  }

  /** Promoting an item reorders the list and changes nothing else. */
  lemma ToFront(order: seq<Item>, items: map<string, Item>, it: Item)
    requires Linked(order, items) && it in order
    ensures Linked([it] + Drop(order, {it.key}), items) && Total([it] + Drop(order, {it.key})) == Total(order)
  {
    UnlinkKeeps(order, items, it);
    PutBack(items, it);
    LinkKeeps(Drop(order, {it.key}), items - {it.key}, it);
  }

  lemma PutBack(items: map<string, Item>, it: Item)
    requires it.key in items && items[it.key] == it
    ensures (items - {it.key})[it.key := it] == items && it.key !in items - {it.key}
  {
  }

  /** Removing an element keeps the list within any bound it was within. */
  lemma ShrinksWithin(s: seq<Item>, it: Item, max: int)
    requires Distinct(s) && Sized(s) && it in s && (Total(s) <= max || s == [])
    ensures Total(Drop(s, {it.key})) <= max
  {
    DropTotal(s, it);
  }
}
