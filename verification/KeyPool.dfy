/**
 A provider's key pool: where a request starts in it (round robin) and which keys
 are parked by an upstream Retry-After (section 10.2.3 of RFC 9110).  The methods
 that update the cursors and the cooldown map are in `Dispatch`; here are the
 functions they are proved against and what holds over every run of them.
 */
module KeyPool {
  import opened Wrappers

  // ----- rotation -----

  /** Cursors are 64-bit unsigned and wrap. */
  const WRAP: nat := 0x1_0000_0000_0000_0000

  /** The pool walked from `offset` round to just before it. */
  function Rotation(keys: seq<string>, offset: nat): seq<string>
    requires offset <= |keys|
  {
    keys[offset..] + keys[..offset]
  }

  lemma RotationKeepsEveryKey(keys: seq<string>, offset: nat)
    requires offset <= |keys|
    ensures |Rotation(keys, offset)| == |keys|
    ensures multiset(Rotation(keys, offset)) == multiset(keys)
  {
    assert keys == keys[..offset] + keys[offset..];
  }

  /** The cursor seen by the `i`-th round-robin request after one that saw `s`. */
  function Cursor(s: nat, i: nat): nat {
    (s + i) % WRAP
  }

  lemma NextCursor(s: nat, i: nat)
    ensures Cursor(s, i + 1) == (Cursor(s, i) + 1) % WRAP
  {
    NextMod(s + i, WRAP);
    NextMod(Cursor(s, i), WRAP);
  }

  /** How many of `k` consecutive requests on a pool of `n` keys start at position `p`. */
  function Starts(n: nat, s: nat, k: nat, p: nat): nat
    requires n > 0
  {
    if k == 0 then 0
    else Starts(n, s, k - 1, p) + if Cursor(s, k - 1) % n == p then 1 else 0
  }

  ghost predicate Fair(n: nat, s: nat, k: nat)
    requires n > 0
  {
    forall p, q :: 0 <= p < n && 0 <= q < n ==> Starts(n, s, k, p) <= Starts(n, s, k, q) + 1
  }

  lemma ModUnique(m: int, n: int, q: int, r: int)
    requires n > 0 && 0 <= r < n && m == q * n + r
    ensures m % n == r
  {
    var d := m / n - q;
    assert m == (m / n) * n + m % n;
    assert d * n == r - m % n by {
      assert (m / n) * n - q * n == (m / n - q) * n;
    }
    assert d >= 1 ==> d * n >= n;
    assert d <= -1 ==> d * n <= -n;
  }

  lemma NextMod(m: nat, n: nat)
    requires n > 0
    ensures (m + 1) % n == if m % n + 1 == n then 0 else m % n + 1
  {
    assert m == (m / n) * n + m % n;
    if m % n + 1 == n {
      assert (m / n + 1) * n == (m / n) * n + n;
      ModUnique(m + 1, n, m / n + 1, 0);
    } else {
      ModUnique(m + 1, n, m / n, m % n + 1);
    }
  }

  /** Position `p` has been passed once more than a lagging one, going from `from` to `to`. */
  function Ahead(from: nat, to: nat, p: nat): nat {
    if from <= to then (if from <= p < to then 1 else 0)
    else (if from <= p || p < to then 1 else 0)
  }

  /** Offsets advance by one around the pool for as long as the cursor does not wrap,
      or forever when the wrap falls on a pool boundary. */
  lemma OffsetAdvances(n: nat, s: nat, i: nat)
    requires n > 0 && s < WRAP
    requires s + i < WRAP || WRAP % n == 0
    ensures Cursor(s, i) % n == (s + i) % n
  {
    if s + i >= WRAP {
      ModOfMultiple(s + i, WRAP, n);
    }
  }

  lemma ModOfMultiple(m: nat, w: nat, n: nat)
    requires n > 0 && w > 0 && w % n == 0
    ensures (m % w) % n == m % n
  {
    var q, r, k := m / w, m % w, w / n;
    assert w == k * n && m == q * w + r && r == (r / n) * n + r % n;
    Regroup(q, k, n);
    assert m == (q * k + r / n) * n + r % n;
    ModUnique(m, n, q * k + r / n, r % n);
  }

  lemma Regroup(q: nat, k: nat, n: nat)
    ensures q * (k * n) == (q * k) * n
  {
  }

  lemma {:induction false} StartsSpread(n: nat, s: nat, k: nat) returns (c: nat)
    requires n > 0 && s < WRAP
    requires s + k <= WRAP || WRAP % n == 0
    ensures forall p :: 0 <= p < n ==> Starts(n, s, k, p) == c + Ahead(s % n, (s + k) % n, p)
  {
    if k == 0 {
      c := 0;
    } else {
      c := StartsSpread(n, s, k - 1);
      OffsetAdvances(n, s, k - 1);
      NextMod(s + k - 1, n);
      if (s + k) % n == s % n {
        c := c + 1;
      }
    }
  }

  /** Short of wrap-around, any run of requests starts at any two positions of the
      pool equally often, give or take one. */
  lemma RoundRobinIsFair(n: nat, s: nat, k: nat)
    requires n > 0 && s < WRAP
    requires s + k <= WRAP || WRAP % n == 0
    ensures Fair(n, s, k)
  {
    var c := StartsSpread(n, s, k);
  }

  /** The last cursors before the wrap, from the last whole turn of the pool on. */
  lemma CursorBeforeWrap(n: nat, q: nat, r: nat, i: nat)
    requires i < r < n && WRAP == q * n + r
    ensures Cursor(WRAP - r, i) % n == i
  {
    ModUnique(WRAP - r + i, n, q, i);
  }

  lemma {:induction false} StartsBeforeWrap(n: nat, q: nat, r: nat, k: nat, p: nat)
    requires k <= r < n && WRAP == q * n + r && p < n
    ensures Starts(n, WRAP - r, k, p) == if p < k then 1 else 0
  {
    if k > 0 {
      StartsBeforeWrap(n, q, r, k - 1, p);
      CursorBeforeWrap(n, q, r, k - 1);
    }
  }

  /** Across wrap-around fairness survives exactly when the pool size divides 2^64.
      Otherwise the wrap restarts the walk early: position 0 goes twice before the
      last position goes once. */
  lemma FairThroughWrapIffDivides(n: nat)
    requires n > 0
    ensures (forall s, k :: 0 <= s < WRAP && 0 <= k ==> Fair(n, s, k)) <==> WRAP % n == 0
  {
    if WRAP % n == 0 {
      forall s, k | 0 <= s < WRAP && 0 <= k ensures Fair(n, s, k) {
        RoundRobinIsFair(n, s, k);
      }
    } else {
      var r := WRAP % n;
      var s := WRAP - r;
      StartsBeforeWrap(n, WRAP / n, r, r, 0);
      StartsBeforeWrap(n, WRAP / n, r, r, n - 1);
      assert Cursor(s, r) == 0;
      assert Starts(n, s, r + 1, 0) == 2 && Starts(n, s, r + 1, n - 1) == 0;
      assert !Fair(n, s, r + 1);
    }
  }

  // ----- cooldowns -----

  datatype PoolKey = PoolKey(provider: string, key: string)

  type Cooldowns = map<PoolKey, int>

  predicate ParkedIn(m: Cooldowns, k: PoolKey, now: int) {
    k in m && m[k] > now
  }

  /** A key parked twice is free when the later of the two deadlines has passed. */
  function CoolStep(m: Cooldowns, k: PoolKey, until: int): Cooldowns {
    if k in m && m[k] > until then m else m[k := until]
  }

  /** Reading a pool forgets those of its keys whose window is over. */
  function PruneStep(m: Cooldowns, provider: string, order: seq<string>, now: int): Cooldowns {
    map k | k in m && !(k.provider == provider && k.key in order && m[k] <= now) :: m[k]
  }

  /** Reading a pool leaves no expired entry of it behind, and touches nothing else. */
  lemma ReadingForgetsTheExpired(m: Cooldowns, provider: string, order: seq<string>, now: int, k: PoolKey)
    ensures var after := PruneStep(m, provider, order, now);
            && (k.provider == provider && k.key in order ==> (k in after <==> k in m && m[k] > now))
            && (k.provider != provider || k.key !in order ==> (k in after <==> k in m))
            && (k in after ==> after[k] == m[k])
  {
  }

  function Unparked(m: Cooldowns, provider: string, order: seq<string>, now: int): seq<string> {
    if order == [] then []
    else
      var last := order[|order| - 1];
      Unparked(m, provider, order[..|order| - 1], now) +
      if ParkedIn(m, PoolKey(provider, last), now) then [] else [last]
  }

  function ReadyOf(m: Cooldowns, provider: string, order: seq<string>, now: int): seq<string> {
    var ready := Unparked(m, provider, order, now);
    if ready == [] then order else ready
  }

  datatype PoolEvent =
    | Cool(k: PoolKey, until: int, at: int)
    | Read(provider: string, order: seq<string>, at: int)

  function PoolRun(evs: seq<PoolEvent>): Cooldowns {
    if evs == [] then map[]
    else
      var m := PoolRun(evs[..|evs| - 1]);
      match evs[|evs| - 1]
      case Cool(k, until, _) => CoolStep(m, k, until)
      case Read(provider, order, at) => PruneStep(m, provider, order, at)
  }

  /** The latest deadline any upstream ever reported for a key. */
  function Latest(evs: seq<PoolEvent>, k: PoolKey): Option<int> {
    if evs == [] then None
    else
      var before := Latest(evs[..|evs| - 1], k);
      match evs[|evs| - 1]
      case Read(_, _, _) => before
      case Cool(k', until, _) =>
        if k' != k || (before.Some? && before.value > until) then before else Some(until)
  }

  /** It is the latest: one that was reported, and none reported is later. */
  lemma {:induction false} LatestIsReportedAndLast(evs: seq<PoolEvent>, k: PoolKey)
    ensures forall i :: 0 <= i < |evs| && evs[i].Cool? && evs[i].k == k ==> Latest(evs, k).Some? && evs[i].until <= Latest(evs, k).value
    ensures Latest(evs, k).Some? ==> exists i :: 0 <= i < |evs| && evs[i].Cool? && evs[i].k == k && evs[i].until == Latest(evs, k).value
  {
    if evs != [] {
      var n := |evs| - 1;
      LatestIsReportedAndLast(evs[..n], k);
      if Latest(evs, k).Some? {
        if Latest(evs, k) == Latest(evs[..n], k) {
          var i :| 0 <= i < n && evs[..n][i].Cool? && evs[..n][i].k == k && evs[..n][i].until == Latest(evs, k).value;
          assert evs[i].until == Latest(evs, k).value;
        } else {
          assert evs[n].until == Latest(evs, k).value;
        }
      }
    }
  }

  ghost predicate MonotonePool(evs: seq<PoolEvent>) {
    forall i, j :: 0 <= i < j < |evs| ==> evs[i].at <= evs[j].at
  }

  lemma {:induction false} CooldownsTrackLatest(evs: seq<PoolEvent>, k: PoolKey, now: int)
    requires MonotonePool(evs) && (evs != [] ==> evs[|evs| - 1].at <= now)
    ensures var m, latest := PoolRun(evs), Latest(evs, k);
            if k in m then latest.Some? && (m[k] == latest.value || (m[k] <= now && latest.value <= now))
            else latest.None? || latest.value <= now
  {
    if evs != [] {
      var rest := evs[..|evs| - 1];
      CooldownsTrackLatest(rest, k, evs[|evs| - 1].at);
    }
  }

  /** However the map has been pruned, it calls a key parked exactly when the latest
      deadline ever reported for it lies in the future. */
  lemma ParkedIffLatestDeadlineAhead(evs: seq<PoolEvent>, k: PoolKey, now: int)
    requires MonotonePool(evs) && (evs != [] ==> evs[|evs| - 1].at <= now)
    ensures ParkedIn(PoolRun(evs), k, now) <==> Latest(evs, k).Some? && Latest(evs, k).value > now
  {
    CooldownsTrackLatest(evs, k, now);
  }

  ghost predicate StillCooling(evs: seq<PoolEvent>, provider: string, key: string, now: int) {
    var latest := Latest(evs, PoolKey(provider, key));
    latest.Some? && latest.value > now
  }

  lemma {:induction false} UnparkedMembers(m: Cooldowns, provider: string, order: seq<string>, now: int, key: string)
    ensures key in Unparked(m, provider, order, now) <==> key in order && !ParkedIn(m, PoolKey(provider, key), now)
  {
    if order != [] {
      UnparkedMembers(m, provider, order[..|order| - 1], now, key);
      assert order == order[..|order| - 1] + [order[|order| - 1]];
    }
  }

  /** Filtering keeps the order: what is ready of two stretches is what is ready of each. */
  lemma {:induction false} UnparkedInOrder(m: Cooldowns, provider: string, a: seq<string>, b: seq<string>, now: int)
    ensures Unparked(m, provider, a + b, now) == Unparked(m, provider, a, now) + Unparked(m, provider, b, now)
    decreases |b|
  {
    if b == [] {
      assert a + b == a;
    } else {
      var n := |b| - 1;
      UnparkedInOrder(m, provider, a, b[..n], now);
      assert (a + b)[..|a + b| - 1] == a + b[..n];
    }
  }

  /** A key still cooling is walked only when every key of its pool is; and a key that
      is not cooling is always walked. */
  lemma CoolingKeyWalkedOnlyWhenAllCool(evs: seq<PoolEvent>, provider: string, order: seq<string>, now: int, key: string)
    requires MonotonePool(evs) && (evs != [] ==> evs[|evs| - 1].at <= now)
    requires key in order
    ensures key in ReadyOf(PoolRun(evs), provider, order, now) <==>
            !StillCooling(evs, provider, key, now) || forall other :: other in order ==> StillCooling(evs, provider, other, now)
  {
    var m := PoolRun(evs);
    forall other ensures other in Unparked(m, provider, order, now) <==> other in order && !StillCooling(evs, provider, other, now) {
      UnparkedMembers(m, provider, order, now, other);
      ParkedIffLatestDeadlineAhead(evs, PoolKey(provider, other), now);
    }
    var ready := Unparked(m, provider, order, now);
    assert ready != [] ==> ready[0] in ready;
  }
}
