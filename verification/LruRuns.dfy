/**
 What the response cache holds after any run of its operations, said in terms of the run:
 which entry was used last, what was last stored under a key, and what drops an entry.
 Each operation is the step `Cache.Get`, `Cache.Put` and `Cache.Flush` are proved against.
 */
module LruRuns {
  import opened Wrappers
  import opened LruCache

  datatype Op =
    | Fetch(key: string, now: int)
    | Store(tenant: string, key: string, entry: Entry, ttl: int, now: int)
    | Wipe(tenant: string)

  datatype Limits = Limits(maxBytes: int, maxEntryBytes: int)

  function Apply(l: Limits, s: seq<Item>, op: Op): seq<Item> {
    match op
    case Fetch(key, now) => AfterGet(s, key, now)
    case Store(tenant, key, e, ttl, now) => AfterPut(s, tenant, key, e, ttl, now, l.maxBytes, l.maxEntryBytes)
    case Wipe(tenant) => AfterFlush(s, tenant)
  }

  /** The recency list after the first `n` operations. */
  function Kept(l: Limits, ops: seq<Op>, n: nat): seq<Item>
    requires n <= |ops|
  {
    if n == 0 then [] else Apply(l, Kept(l, ops, n - 1), ops[n - 1])
  }

  /** A store is accepted when it has time to live and is not too large. */
  predicate Accepts(l: Limits, op: Op) {
    op.Store? && op.ttl > 0 && |op.entry.body| + |op.entry.provider| + |op.entry.model| + |op.key| <= l.maxEntryBytes
  }

  /** A fetch hits when the key is held and has time left. */
  ghost predicate Hits(s: seq<Item>, op: Op) {
    op.Fetch? && exists it :: it in s && it.key == op.key && op.now < it.expires
  }

  /** Operation `i` uses `key`: a hit, or an accepted store. */
  ghost predicate UsesAt(l: Limits, ops: seq<Op>, i: nat, key: string)
    requires i < |ops|
  {
    (Hits(Kept(l, ops, i), ops[i]) && ops[i].key == key) || (Accepts(l, ops[i]) && ops[i].key == key)
  }

  /** When a key was last used; before everything if never. */
  ghost function LastUse(l: Limits, ops: seq<Op>, n: nat, key: string): int
    requires n <= |ops|
  {
    if n == 0 then -1 else if UsesAt(l, ops, n - 1, key) then n - 1 else LastUse(l, ops, n - 1, key)
  }

  lemma {:induction false} LastUseMeans(l: Limits, ops: seq<Op>, n: nat, key: string)
    requires n <= |ops|
    ensures var r := LastUse(l, ops, n, key);
            -1 <= r < n && (r >= 0 ==> UsesAt(l, ops, r, key)) && forall i :: r < i < n ==> !UsesAt(l, ops, i, key)
    decreases n
  {
    if n > 0 {
      LastUseMeans(l, ops, n - 1, key);
    }
  }

  function NewItem(op: Op): Item
    requires op.Store?
  {
    Item(op.key, op.tenant, op.entry, op.now + op.ttl, |op.entry.body| + |op.entry.provider| + |op.entry.model| + |op.key|)
  }

  /** The list an accepted store makes, before anything is evicted from its end. */
  function Unfitted(s: seq<Item>, op: Op): seq<Item>
    requires op.Store?
  {
    [NewItem(op)] + Drop(s, {op.key})
  }

  // ----- one step -----

  lemma {:induction false} LookupIff(s: seq<Item>, key: string)
    requires Distinct(s)
    ensures forall it :: it in s && it.key == key <==> Lookup(s, key) == Some(it)
  {
    LookupFinds(s, key);
    forall it | it in s && it.key == key ensures Lookup(s, key) == Some(it) {
      LookupUnique(s, it);
    }
  }

  lemma PrefixDistinct(s: seq<Item>, n: nat)
    requires Distinct(s) && n <= |s|
    ensures Distinct(s[..n])
  {
  }

  lemma ApplyDistinct(l: Limits, s: seq<Item>, op: Op)
    requires Distinct(s)
    ensures Distinct(Apply(l, s, op))
  {
    match op
    case Fetch(key, now) =>
      LookupFinds(s, key);
      DropDistinct(s, {key});
      DropMembers(s, {key});
      if Lookup(s, key).Some? {
        DistinctCons(Lookup(s, key).value, Drop(s, {key}));
      }
    case Store(tenant, key, e, ttl, now) => StoreDistinct(l, s, op);
    case Wipe(tenant) => DropDistinct(s, KeysOf(s, tenant));
  }

  lemma StoreIsFit(l: Limits, s: seq<Item>, op: Op)
    requires op.Store?
    ensures Apply(l, s, op) == if Accepts(l, op) then Fit(Unfitted(s, op), l.maxBytes) else s
  {
  }

  lemma UnfittedDistinct(s: seq<Item>, op: Op)
    requires Distinct(s) && op.Store?
    ensures Distinct(Unfitted(s, op))
  {
    DropDistinct(s, {op.key});
    DropMembers(s, {op.key});
    DistinctCons(NewItem(op), Drop(s, {op.key}));
  }

  lemma FitDistinct(s: seq<Item>, max: int)
    requires Distinct(s)
    ensures Distinct(Fit(s, max)) && forall it :: it in Fit(s, max) ==> it in s
  {
    FitIsPrefix(s, max);
    PrefixDistinct(s, |Fit(s, max)|);
    assert Fit(s, max) == s[..|Fit(s, max)|];
  }

  lemma StoreDistinct(l: Limits, s: seq<Item>, op: Op)
    requires Distinct(s) && op.Store?
    ensures Distinct(Apply(l, s, op))
  {
    StoreIsFit(l, s, op);
    UnfittedDistinct(s, op);
    FitDistinct(Unfitted(s, op), l.maxBytes);
  }

  lemma BecomesDistinct(l: Limits, s: seq<Item>, op: Op, t: seq<Item>)
    requires Distinct(s) && t == Apply(l, s, op)
    ensures Distinct(t)
  {
    ApplyDistinct(l, s, op);
  }

  lemma {:induction false} KeptDistinct(l: Limits, ops: seq<Op>, n: nat)
    requires n <= |ops|
    ensures Distinct(Kept(l, ops, n))
  {
    if n > 0 {
      KeptDistinct(l, ops, n - 1);
      BecomesDistinct(l, Kept(l, ops, n - 1), ops[n - 1], Kept(l, ops, n));
    }
  }

  // ----- the list is in order of last use -----

  /** Earlier in the list, later by `f`. */
  ghost predicate Decreasing(s: seq<Item>, f: string -> int) {
    forall a, b :: 0 <= a < b < |s| ==> f(s[a].key) > f(s[b].key)
  }

  lemma {:induction false} DropDecreasing(s: seq<Item>, keys: set<string>, f: string -> int)
    requires Decreasing(s, f)
    ensures Decreasing(Drop(s, keys), f)
  {
    if s != [] {
      DropDecreasing(s[1..], keys, f);
      DropMembers(s[1..], keys);
      var rest := Drop(s[1..], keys);
      forall b | 0 <= b < |rest| ensures f(s[0].key) > f(rest[b].key) {
        assert rest[b] in rest;
        var i :| 0 <= i < |s[1..]| && s[1..][i] == rest[b];
        assert s[i + 1] == rest[b];
      }
      ConsDecreasing(s[0], rest, f);
    }
  }

  lemma ConsDecreasing(it: Item, s: seq<Item>, f: string -> int)
    requires Decreasing(s, f) && forall b :: 0 <= b < |s| ==> f(it.key) > f(s[b].key)
    ensures Decreasing([it] + s, f)
  {
  }

  lemma FitDecreasing(s: seq<Item>, max: int, f: string -> int)
    requires Decreasing(s, f)
    ensures Decreasing(Fit(s, max), f)
  {
    FitIsPrefix(s, max);
  }

  ghost function Clock(l: Limits, ops: seq<Op>, n: nat): string -> int
    requires n <= |ops|
  {
    key => LastUse(l, ops, n, key)
  }

  lemma Reclocked(l: Limits, ops: seq<Op>, n: nat, s: seq<Item>)
    requires n < |ops| && Decreasing(s, Clock(l, ops, n)) && forall it :: it in s ==> !UsesAt(l, ops, n, it.key)
    ensures Decreasing(s, Clock(l, ops, n + 1))
  {
    forall a | 0 <= a < |s| ensures LastUse(l, ops, n + 1, s[a].key) == LastUse(l, ops, n, s[a].key) {
      assert s[a] in s;
    }
  }

  lemma UsedGoesFirst(l: Limits, ops: seq<Op>, n: nat, s: seq<Item>, it: Item)
    requires n < |ops| && Decreasing(s, Clock(l, ops, n)) && UsesAt(l, ops, n, it.key)
    requires forall x :: x in s ==> !UsesAt(l, ops, n, x.key)
    ensures Decreasing([it] + s, Clock(l, ops, n + 1))
  {
    Reclocked(l, ops, n, s);
    assert LastUse(l, ops, n + 1, it.key) == n;
    forall b | 0 <= b < |s| ensures LastUse(l, ops, n + 1, s[b].key) < n {
      assert s[b] in s;
      LastUseMeans(l, ops, n, s[b].key);
    }
    ConsDecreasing(it, s, Clock(l, ops, n + 1));
  }

  lemma OnlyItsKey(l: Limits, ops: seq<Op>, n: nat, key: string)
    requires n < |ops| && UsesAt(l, ops, n, key)
    ensures !ops[n].Wipe? && ops[n].key == key
  {
  }

  lemma FetchKeepsOrder(l: Limits, ops: seq<Op>, n: nat)
    requires n < |ops| && ops[n].Fetch? && Distinct(Kept(l, ops, n)) && Decreasing(Kept(l, ops, n), Clock(l, ops, n))
    ensures Decreasing(Kept(l, ops, n + 1), Clock(l, ops, n + 1))
  {
    var s, key, now := Kept(l, ops, n), ops[n].key, ops[n].now;
    LookupIff(s, key);
    DropMembers(s, {key});
    DropDecreasing(s, {key}, Clock(l, ops, n));
    var found := Lookup(s, key);
    if found.Some? && now < found.value.expires {
      assert UsesAt(l, ops, n, key);
      UsedGoesFirst(l, ops, n, Drop(s, {key}), found.value);
    } else if found.Some? {
      Reclocked(l, ops, n, Drop(s, {key}));
    } else {
      Reclocked(l, ops, n, s);
    }
  }

  lemma UnfittedInOrder(l: Limits, ops: seq<Op>, n: nat)
    requires n < |ops| && Accepts(l, ops[n]) && Decreasing(Kept(l, ops, n), Clock(l, ops, n))
    ensures Decreasing(Unfitted(Kept(l, ops, n), ops[n]), Clock(l, ops, n + 1))
    ensures Kept(l, ops, n + 1) == Fit(Unfitted(Kept(l, ops, n), ops[n]), l.maxBytes)
  {
    var s, op := Kept(l, ops, n), ops[n];
    DropMembers(s, {op.key});
    DropDecreasing(s, {op.key}, Clock(l, ops, n));
    UsedGoesFirst(l, ops, n, Drop(s, {op.key}), NewItem(op));
    StoreIsFit(l, s, op);
  }

  lemma StoreKeepsOrder(l: Limits, ops: seq<Op>, n: nat)
    requires n < |ops| && ops[n].Store? && Decreasing(Kept(l, ops, n), Clock(l, ops, n))
    ensures Decreasing(Kept(l, ops, n + 1), Clock(l, ops, n + 1))
  {
    if Accepts(l, ops[n]) {
      UnfittedInOrder(l, ops, n);
      FitDecreasing(Unfitted(Kept(l, ops, n), ops[n]), l.maxBytes, Clock(l, ops, n + 1));
    } else {
      Reclocked(l, ops, n, Kept(l, ops, n));
    }
  }

  lemma WipeKeepsOrder(l: Limits, ops: seq<Op>, n: nat)
    requires n < |ops| && ops[n].Wipe? && Decreasing(Kept(l, ops, n), Clock(l, ops, n))
    ensures Decreasing(Kept(l, ops, n + 1), Clock(l, ops, n + 1))
  {
    var s, keys := Kept(l, ops, n), KeysOf(Kept(l, ops, n), ops[n].tenant);
    DropDecreasing(s, keys, Clock(l, ops, n));
    Reclocked(l, ops, n, Drop(s, keys));
  }

  lemma StepKeepsOrder(l: Limits, ops: seq<Op>, n: nat)
    requires n < |ops| && Distinct(Kept(l, ops, n)) && Decreasing(Kept(l, ops, n), Clock(l, ops, n))
    ensures Decreasing(Kept(l, ops, n + 1), Clock(l, ops, n + 1))
  {
    match ops[n]
    case Fetch(_, _) => FetchKeepsOrder(l, ops, n);
    case Store(_, _, _, _, _) => StoreKeepsOrder(l, ops, n);
    case Wipe(_) => WipeKeepsOrder(l, ops, n);
  }

  lemma {:induction false} KeptDecreasing(l: Limits, ops: seq<Op>, n: nat)
    requires n <= |ops|
    ensures Decreasing(Kept(l, ops, n), Clock(l, ops, n))
  {
    if n > 0 {
      var before := n - 1;
      KeptDecreasing(l, ops, before);
      KeptDistinct(l, ops, before);
      StepKeepsOrder(l, ops, before);
      assert before + 1 == n;
    }
  }

  /** After every run the list is in order of last use, the latest first. */
  lemma KeptInOrderOfUse(l: Limits, ops: seq<Op>, n: nat, a: nat, b: nat)
    requires n <= |ops| && a < b < |Kept(l, ops, n)|
    ensures LastUse(l, ops, n, Kept(l, ops, n)[a].key) > LastUse(l, ops, n, Kept(l, ops, n)[b].key)
  {
    KeptDecreasing(l, ops, n);
  }

  /** What a store evicts was used before everything it keeps. */
  lemma EvictedWasUsedBeforeKept(l: Limits, ops: seq<Op>, n: nat, x: Item, y: Item)
    requires n < |ops| && Accepts(l, ops[n])
    requires x in Kept(l, ops, n) && x.key != ops[n].key && x !in Kept(l, ops, n + 1) && y in Kept(l, ops, n + 1)
    ensures LastUse(l, ops, n + 1, x.key) < LastUse(l, ops, n + 1, y.key)
  {
    KeptDecreasing(l, ops, n);
    UnfittedInOrder(l, ops, n);
    var full, kept := Unfitted(Kept(l, ops, n), ops[n]), Kept(l, ops, n + 1);
    FitIsPrefix(full, l.maxBytes);
    DropMembers(Kept(l, ops, n), {ops[n].key});
    assert x in full;
    LaterInList(full, kept, x, y, Clock(l, ops, n + 1));
  }

  lemma LaterInList(full: seq<Item>, kept: seq<Item>, x: Item, y: Item, f: string -> int)
    requires kept <= full && x in full && x !in kept && y in kept && Decreasing(full, f)
    ensures f(x.key) < f(y.key)
  {
    var i :| 0 <= i < |full| && full[i] == x;
    var j :| 0 <= j < |kept| && kept[j] == y;
    assert full[j] == y;
    assert forall k :: 0 <= k < |kept| ==> kept[k] == full[k] && kept[k] in kept;
  }

  // ----- what is held, and what drops it -----

  /** A fetch answers exactly what is held under its key with time left. */
  lemma FetchAnswers(l: Limits, ops: seq<Op>, n: nat, key: string, now: int, e: Entry)
    requires n <= |ops|
    ensures GetAnswer(Kept(l, ops, n), key, now) == Some(e) <==>
            exists it :: it in Kept(l, ops, n) && it.key == key && now < it.expires && it.entry == e
  {
    KeptDistinct(l, ops, n);
    LookupIff(Kept(l, ops, n), key);
  }

  /** Held or not, what is under a key came from the last accepted store of that key, and the
      tenant was not wiped since. */
  lemma {:induction false} HeldIsTheLastStored(l: Limits, ops: seq<Op>, n: nat, it: Item) returns (i: nat)
    requires n <= |ops| && it in Kept(l, ops, n)
    ensures i < n && Accepts(l, ops[i]) && it == NewItem(ops[i])
    ensures forall k :: i < k < n ==> !Replaces(l, ops[k], it)
  {
    var s, op := Kept(l, ops, n - 1), ops[n - 1];
    HeldBefore(l, s, op, it);
    if Accepts(l, op) && op.key == it.key {
      i := n - 1;
    } else {
      i := HeldIsTheLastStored(l, ops, n - 1, it);
      assert !Replaces(l, op, it);
    }
  }

  /** A new store of the key, or a wipe of the tenant. */
  predicate Replaces(l: Limits, op: Op, it: Item) {
    (Accepts(l, op) && op.key == it.key) || (op.Wipe? && op.tenant == it.tenant)
  }

  lemma HeldBefore(l: Limits, s: seq<Item>, op: Op, it: Item)
    requires it in Apply(l, s, op)
    ensures if Accepts(l, op) && op.key == it.key then it == NewItem(op) else it in s
    ensures !(op.Wipe? && op.tenant == it.tenant)
  {
    match op
    case Fetch(key, now) =>
      LookupFinds(s, key);
      DropMembers(s, {key});
    case Store(_, _, _, _, _) => StoredBefore(l, s, op, it);
    case Wipe(tenant) => DropMembers(s, KeysOf(s, tenant));
  }

  lemma StoredBefore(l: Limits, s: seq<Item>, op: Op, it: Item)
    requires op.Store? && it in Apply(l, s, op)
    ensures if Accepts(l, op) && op.key == it.key then it == NewItem(op) else it in s
  {
    StoreIsFit(l, s, op);
    DropMembers(s, {op.key});
    FitIsPrefix(Unfitted(s, op), l.maxBytes);
    assert Accepts(l, op) ==> it in Unfitted(s, op);
  }

  /** An entry goes only when it is fetched too late, stored anew, wiped with its tenant, or
      pushed out by a store for which there is not room for all. */
  lemma GoesOnlyBy(l: Limits, s: seq<Item>, op: Op, it: Item)
    requires Distinct(s) && it in s && it !in Apply(l, s, op)
    ensures || (op.Fetch? && op.key == it.key && op.now >= it.expires)
            || (Accepts(l, op) && op.key == it.key)
            || (op.Wipe? && op.tenant == it.tenant)
            || (Accepts(l, op) && Total(Unfitted(s, op)) > l.maxBytes)
  {
    match op
    case Fetch(key, now) =>
      LookupIff(s, key);
      DropMembers(s, {key});
    case Store(_, key, _, _, _) =>
      StoreIsFit(l, s, op);
      DropMembers(s, {key});
    case Wipe(tenant) =>
      DropMembers(s, KeysOf(s, tenant));
      var x :| x in s && x.tenant == tenant && x.key == it.key;
      LookupUnique(s, x);
      LookupUnique(s, it);
  }

  /** And those do drop it, but for the last, which drops from the end of the list. */
  lemma GoesBy(l: Limits, s: seq<Item>, op: Op, it: Item)
    requires Distinct(s) && it in s
    requires || (op.Fetch? && op.key == it.key && op.now >= it.expires)
             || (op.Wipe? && op.tenant == it.tenant)
    ensures forall x :: x in Apply(l, s, op) ==> x.key != it.key
  {
    match op
    case Fetch(key, now) =>
      LookupIff(s, key);
      DropMembers(s, {key});
    case Wipe(tenant) => DropMembers(s, KeysOf(s, tenant));
  }
}
