/**
 The per-tenant rate limit: a token bucket (requests per second, burst) and a fixed
 minute window held in one entry, with a sweep that forgets idle entries.

 Time and tokens are reals, in seconds and requests.  `RateLimiter` is the mutable
 object; its `Take` is proved against `TakeStep`.  A run is any sequence of takes by
 any tenants, each tenant's limits fixed, on a clock that does not go back.
 */
module RateLimit {
  import opened Wrappers

  datatype Limits = Limits(rps: int, burst: int, rpm: int)

  datatype Bucket = Bucket(tokens: real, last: real, minuteStart: real, minuteCount: int)

  datatype Verdict = Admitted | Refused(wait: real)

  const MINUTE: real := 60.0

  const SWEEP_ABOVE: nat := 4096

  predicate BucketOn(l: Limits) {
    l.rps >= 1 && l.burst >= 1
  }

  predicate MinuteOn(l: Limits) {
    l.rpm >= 1
  }

  predicate Unlimited(l: Limits) {
    !BucketOn(l) && !MinuteOn(l)
  }

  // ----- refilling -----

  /** What `rps` requests per second amount to over `dt` seconds: their product, summed up
      so that the proofs below stay linear. */
  function Gain(rps: int, dt: real): real {
    if rps <= 0 then 0.0 else Gain(rps - 1, dt) + dt
  }

  /** Multiplication by one more, on reals. */
  lemma OneMoreFactor(dt: real, r: real, next: real)
    requires next == r + 1.0
    ensures dt * next == dt * r + dt
  {
    assert dt * (r + 1.0) == dt * r + dt * 1.0;
  }

  lemma {:induction false} GainIsProduct(rps: nat, dt: real)
    ensures Gain(rps, dt) == dt * rps as real
  {
    if rps == 0 {
      assert rps as real == 0.0;
    } else {
      var before := rps - 1;
      GainIsProduct(before, dt);
      OneMoreFactor(dt, before as real, rps as real);
      assert Gain(rps, dt) == Gain(before, dt) + dt;
    }
  }

  lemma {:induction false} GainAdds(rps: int, a: real, b: real)
    ensures Gain(rps, a + b) == Gain(rps, a) + Gain(rps, b)
  {
    if rps > 0 {
      GainAdds(rps - 1, a, b);
    }
  }

  lemma {:induction false} GainSign(rps: int, dt: real)
    ensures dt >= 0.0 ==> Gain(rps, dt) >= 0.0
    ensures dt > 0.0 && rps >= 1 ==> Gain(rps, dt) > 0.0
  {
    if rps > 0 {
      GainSign(rps - 1, dt);
    }
  }

  lemma GainOrder(rps: int, a: real, b: real)
    requires rps >= 1
    ensures a <= b <==> Gain(rps, a) <= Gain(rps, b)
    ensures a < b <==> Gain(rps, a) < Gain(rps, b)
  {
    GainAdds(rps, a, b - a);
    GainAdds(rps, b, a - b);
    GainSign(rps, b - a);
    GainSign(rps, a - b);
  }

  /** Waiting as long as `amount` takes gains exactly that amount. */
  lemma GainOfQuotient(rps: int, amount: real)
    requires rps >= 1
    ensures Gain(rps, amount / rps as real) == amount
  {
    GainIsProduct(rps, amount / rps as real);
  }

  // ----- one entry -----

  function Fresh(l: Limits, now: real): Bucket {
    Bucket(l.burst as real, now, now, 0)
  }

  function Refilled(l: Limits, b: Bucket, now: real): real {
    var tokens := b.tokens + Gain(l.rps, now - b.last);
    if tokens > l.burst as real then l.burst as real else tokens
  }

  /** The entry brought up to `now`: tokens refilled, an expired minute restarted. */
  function Refreshed(l: Limits, b: Bucket, now: real): Bucket {
    var expired := now - b.minuteStart >= MINUTE;
    Bucket(
      if BucketOn(l) then Refilled(l, b, now) else b.tokens,
      now,
      if expired then now else b.minuteStart,
      if expired then 0 else b.minuteCount)
  }

  function Ready(l: Limits, b: Option<Bucket>, now: real): Bucket {
    if b.None? then Fresh(l, now) else Refreshed(l, b.value, now)
  }

  predicate TokensRefuse(l: Limits, b: Bucket) {
    BucketOn(l) && b.tokens < 1.0
  }

  predicate MinuteRefuses(l: Limits, b: Bucket) {
    MinuteOn(l) && b.minuteCount >= l.rpm
  }

  predicate Denied(l: Limits, b: Bucket) {
    TokensRefuse(l, b) || MinuteRefuses(l, b)
  }

  function TokenWait(l: Limits, b: Bucket): real {
    if TokensRefuse(l, b) then (1.0 - b.tokens) / l.rps as real else 0.0
  }

  function WaitOf(l: Limits, b: Bucket, now: real): real {
    var wait := TokenWait(l, b);
    var minute := MINUTE - (now - b.minuteStart);
    if MinuteRefuses(l, b) && minute > wait then minute else wait
  }

  function Charged(l: Limits, b: Bucket): Bucket {
    b.(tokens := if BucketOn(l) then b.tokens - 1.0 else b.tokens,
       minuteCount := if MinuteOn(l) then b.minuteCount + 1 else b.minuteCount)
  }

  function Decide(l: Limits, b: Bucket, now: real): Verdict {
    if Denied(l, b) then Refused(WaitOf(l, b, now)) else Admitted
  }

  function Settled(l: Limits, b: Bucket): Bucket {
    if Denied(l, b) then b else Charged(l, b)
  }

  /** How long an empty bucket takes to refill. */
  function Full(l: Limits): real {
    if BucketOn(l) then l.burst as real / l.rps as real else 0.0
  }

  predicate Sweepable(caller: Limits, b: Bucket, now: real) {
    now - b.last >= Full(caller) && now - b.minuteStart >= MINUTE
  }

  // ----- all entries -----

  function Find(buckets: map<string, Bucket>, id: string): Option<Bucket> {
    if id in buckets then Some(buckets[id]) else None
  }

  function Swept(buckets: map<string, Bucket>, caller: Limits, now: real): map<string, Bucket> {
    map id | id in buckets && !Sweepable(caller, buckets[id], now) :: buckets[id]
  }

  /** The entries once the taker's own is found or made; making one may trigger a sweep. */
  function Found(sweeps: bool, buckets: map<string, Bucket>, id: string, l: Limits, now: real): map<string, Bucket> {
    var seen := buckets[id := Ready(l, Find(buckets, id), now)];
    if sweeps && id !in buckets && |seen| > SWEEP_ABOVE then Swept(seen, l, now) else seen
  }

  /** One take; `sweeps` says whether the entry count may trigger a sweep. */
  function TakeStep(sweeps: bool, buckets: map<string, Bucket>, id: string, l: Limits, now: real): map<string, Bucket> {
    if Unlimited(l) then buckets
    else Found(sweeps, buckets, id, l, now)[id := Settled(l, Ready(l, Find(buckets, id), now))]
  }

  function Answers(buckets: map<string, Bucket>, id: string, l: Limits, now: real): Verdict {
    if Unlimited(l) then Admitted else Decide(l, Ready(l, Find(buckets, id), now), now)
  }

  class RateLimiter {
    var buckets: map<string, Bucket>

    constructor ()
      ensures buckets == map[]
    {
      buckets := map[];
    }

    method Take(id: string, l: Limits, now: real) returns (v: Verdict)
      modifies this
      ensures v == Answers(old(buckets), id, l, now)
      ensures buckets == TakeStep(true, old(buckets), id, l, now)
    {
      if !(l.rps >= 1 && l.burst >= 1) && l.rpm < 1 {
        return Admitted;
      }
      var b := Fetch(id, l, now);
      v, b := Spend(l, b, now);
      buckets := buckets[id := b];
    }

    /** The taker's entry brought up to `now`, made full if there is none. */
    method Fetch(id: string, l: Limits, now: real) returns (b: Bucket)
      modifies this
      ensures b == Ready(l, Find(old(buckets), id), now)
      ensures buckets == Found(true, old(buckets), id, l, now)
    {
      if id !in buckets {
        b := Bucket(l.burst as real, now, now, 0);
        buckets := buckets[id := b];
        if |buckets| > SWEEP_ABOVE {
          Sweep(now, l);
        }
        return;
      }
      b := buckets[id];
      if l.rps >= 1 && l.burst >= 1 {
        var tokens := Refill(l, b, now);
        b := b.(tokens := tokens);
      }
      if now - b.minuteStart >= MINUTE {
        b := b.(minuteStart := now, minuteCount := 0);
      }
      b := b.(last := now);
      buckets := buckets[id := b];
    }

    static method Refill(l: Limits, b: Bucket, now: real) returns (tokens: real)
      requires l.rps >= 0
      ensures tokens == Refilled(l, b, now)
    {
      var elapsed := now - b.last;
      var gained := elapsed * l.rps as real;
      GainIsProduct(l.rps, elapsed);
      assert gained == Gain(l.rps, elapsed);
      tokens := b.tokens + gained;
      if tokens > l.burst as real {
        tokens := l.burst as real;
      }
    }

    /** The answer looks at the entry as it was; a request is charged only when both agree. */
    static method Spend(l: Limits, ready: Bucket, now: real) returns (v: Verdict, b: Bucket)
      ensures v == Decide(l, ready, now) && b == Settled(l, ready)
    {
      var bucketOn := l.rps >= 1 && l.burst >= 1;
      var minuteOn := l.rpm >= 1;
      b := ready;
      var wait, denied := 0.0, false;
      if bucketOn && b.tokens < 1.0 {
        wait, denied := (1.0 - b.tokens) / l.rps as real, true;
      }
      if minuteOn && b.minuteCount >= l.rpm {
        var w := MINUTE - (now - b.minuteStart);
        if w > wait {
          wait := w;
        }
        denied := true;
      }
      if denied {
        return Refused(wait), b;
      }
      if bucketOn {
        b := b.(tokens := b.tokens - 1.0);
      }
      if minuteOn {
        b := b.(minuteCount := b.minuteCount + 1);
      }
      return Admitted, b;
    }

    method Sweep(now: real, l: Limits)
      modifies this
      ensures buckets == Swept(old(buckets), l, now)
    {
      var full := 0.0;
      if l.rps >= 1 && l.burst >= 1 {
        full := l.burst as real / l.rps as real;
      }
      var left := buckets.Keys;
      while left != {}
        invariant left <= buckets.Keys
        invariant buckets == map id | id in old(buckets) && (id in left || !Sweepable(l, old(buckets)[id], now)) :: old(buckets)[id]
        decreases |left|
      {
        var id :| id in left;
        left := left - {id};
        if now - buckets[id].last >= full && now - buckets[id].minuteStart >= MINUTE {
          buckets := buckets - {id};
        }
      }
    }
  }

  // ----- runs -----

  datatype Op = Op(id: string, at: real)

  ghost predicate Monotone(ops: seq<Op>) {
    forall i, j :: 0 <= i < j < |ops| ==> ops[i].at <= ops[j].at
  }

  /** The entries after the first `n` takes. */
  function After(sweeps: bool, lims: string -> Limits, ops: seq<Op>, n: nat): map<string, Bucket>
    requires n <= |ops|
  {
    if n == 0 then map[]
    else TakeStep(sweeps, After(sweeps, lims, ops, n - 1), ops[n - 1].id, lims(ops[n - 1].id), ops[n - 1].at)
  }

  /** What take `i` answers. */
  function Answer(sweeps: bool, lims: string -> Limits, ops: seq<Op>, i: nat): Verdict
    requires i < |ops|
  {
    Answers(After(sweeps, lims, ops, i), ops[i].id, lims(ops[i].id), ops[i].at)
  }

  /** How many of takes `i` to `j` by `id` were admitted. */
  function Admissions(sweeps: bool, lims: string -> Limits, ops: seq<Op>, id: string, i: nat, j: nat): nat
    requires i <= j <= |ops|
    decreases j
  {
    if i == j then 0
    else Admissions(sweeps, lims, ops, id, i, j - 1) +
         if ops[j - 1].id == id && Answer(sweeps, lims, ops, j - 1).Admitted? then 1 else 0
  }

  /** What every run keeps of an entry. */
  ghost predicate Ok(l: Limits, b: Bucket, now: real) {
    && b.minuteStart <= b.last <= now
    && b.last - b.minuteStart < MINUTE
    && 0 <= b.minuteCount && (MinuteOn(l) ==> b.minuteCount <= l.rpm)
    && (if BucketOn(l) then 0.0 <= b.tokens <= l.burst as real else b.tokens == l.burst as real)
    && (BucketOn(l) ==> b.minuteCount as real + b.tokens <= l.burst as real + Gain(l.rps, b.last - b.minuteStart))
  }

  lemma RefreshOk(l: Limits, b: Bucket, now: real)
    requires Ok(l, b, now)
    ensures Ok(l, Refreshed(l, b, now), now)
  {
    if BucketOn(l) {
      GainSign(l.rps, now - b.last);
      GainSign(l.rps, 0.0);
      GainAdds(l.rps, now - b.last, b.last - b.minuteStart);
    }
  }

  lemma SettleOk(l: Limits, b: Bucket, now: real)
    requires Ok(l, b, now)
    ensures Ok(l, Settled(l, b), now)
  {
  }

  lemma {:induction false} RunOk(sweeps: bool, lims: string -> Limits, ops: seq<Op>, n: nat, id: string, now: real)
    requires n <= |ops| && Monotone(ops) && (n > 0 ==> ops[n - 1].at <= now)
    ensures var m := After(sweeps, lims, ops, n); id in m ==> Ok(lims(id), m[id], now) && !Unlimited(lims(id))
  {
    if n > 0 {
      var at := ops[n - 1].at;
      RunOk(sweeps, lims, ops, n - 1, id, at);
      if ops[n - 1].id == id && !Unlimited(lims(id)) {
        ReadyOk(sweeps, lims, ops, n - 1, id, at);
        SettleOk(lims(id), Ready(lims(id), Find(After(sweeps, lims, ops, n - 1), id), at), at);
      }
    }
  }

  lemma ReadyOk(sweeps: bool, lims: string -> Limits, ops: seq<Op>, n: nat, id: string, now: real)
    requires n <= |ops|
    requires var m := After(sweeps, lims, ops, n); id in m ==> Ok(lims(id), m[id], now)
    ensures Ok(lims(id), Ready(lims(id), Find(After(sweeps, lims, ops, n), id), now), now)
  {
    var m := After(sweeps, lims, ops, n);
    if id in m {
      RefreshOk(lims(id), m[id], now);
    } else {
      GainSign(lims(id).rps, now - now);
    }
  }

  /** A tenant with neither ceiling is always admitted, and leaves no entry. */
  lemma NeitherCeiling(sweeps: bool, buckets: map<string, Bucket>, id: string, l: Limits, now: real)
    requires (l.rps < 1 || l.burst < 1) && l.rpm < 1
    ensures Answers(buckets, id, l, now) == Admitted && TakeStep(sweeps, buckets, id, l, now) == buckets
  {
  }

  // ----- the minute window never binds when it clears what the bucket admits -----

  /** With rpm at least 60 rps + burst, every refusal in every run is the bucket's, whatever
      is swept. */
  lemma MinuteNeverBinds(sweeps: bool, lims: string -> Limits, ops: seq<Op>, i: nat)
    requires i < |ops| && Monotone(ops)
    requires var l := lims(ops[i].id); l.rps >= 1 && l.burst >= 1 && l.rpm >= 60 * l.rps + l.burst
    ensures var l := lims(ops[i].id);
            !MinuteRefuses(l, Ready(l, Find(After(sweeps, lims, ops, i), ops[i].id), ops[i].at))
  {
    var l, at := lims(ops[i].id), ops[i].at;
    RunOk(sweeps, lims, ops, i, ops[i].id, at);
    ReadyOk(sweeps, lims, ops, i, ops[i].id, at);
    RoomInMinute(l, Ready(l, Find(After(sweeps, lims, ops, i), ops[i].id), at), at);
  }

  lemma RoomInMinute(l: Limits, b: Bucket, now: real)
    requires Ok(l, b, now) && BucketOn(l) && l.rpm >= 60 * l.rps + l.burst
    ensures b.minuteCount < l.rpm
  {
    GainOrder(l.rps, b.last - b.minuteStart, MINUTE);
    GainIsProduct(l.rps, MINUTE);
    assert (60 * l.rps + l.burst) as real == MINUTE * l.rps as real + l.burst as real;
    assert l.rpm as real >= (60 * l.rps + l.burst) as real;
    assert b.minuteCount as real < l.rpm as real;
  }

  // ----- the two rate bounds -----

  /** The tokens an entry has left, and the admissions already made since `from`, are
      covered by the burst and what was refilled since. */
  ghost predicate Paid(l: Limits, b: Option<Bucket>, admitted: int, from: real) {
    if b.Some? && b.value.last >= from
    then admitted as real + b.value.tokens <= l.burst as real + Gain(l.rps, b.value.last - from)
    else admitted == 0
  }

  lemma PaidStep(l: Limits, b: Option<Bucket>, admitted: int, from: real, now: real)
    requires BucketOn(l) && from <= now && Paid(l, b, admitted, from) && (b.Some? ==> Ok(l, b.value, now))
    ensures var ready := Ready(l, b, now);
            Paid(l, Some(Settled(l, ready)), if Denied(l, ready) then admitted else admitted + 1, from)
  {
    PaidReady(l, b, admitted, from, now);
  }

  lemma PaidReady(l: Limits, b: Option<Bucket>, admitted: int, from: real, now: real)
    requires BucketOn(l) && from <= now && Paid(l, b, admitted, from) && (b.Some? ==> Ok(l, b.value, now))
    ensures Paid(l, Some(Ready(l, b, now)), admitted, from)
  {
    GainSign(l.rps, now - from);
    if b.Some? {
      GainAdds(l.rps, now - b.value.last, b.value.last - from);
    }
  }

  lemma {:induction false} TokensPayForAdmissions(lims: string -> Limits, ops: seq<Op>, id: string, i: nat, j: nat, from: real)
    requires i <= j <= |ops| && Monotone(ops) && BucketOn(lims(id))
    requires forall k :: i <= k < j ==> from <= ops[k].at
    ensures Paid(lims(id), Find(After(false, lims, ops, j), id), Admissions(false, lims, ops, id, i, j), from)
    decreases j
  {
    if i < j {
      TokensPayForAdmissions(lims, ops, id, i, j - 1, from);
      if ops[j - 1].id == id {
        RunOk(false, lims, ops, j - 1, id, ops[j - 1].at);
        PaidStep(lims(id), Find(After(false, lims, ops, j - 1), id), Admissions(false, lims, ops, id, i, j - 1), from, ops[j - 1].at);
      }
    } else {
      var b := Find(After(false, lims, ops, j), id);
      if b.Some? {
        RunOk(false, lims, ops, j, id, if j == 0 then 0.0 else ops[j - 1].at);
        GainSign(lims(id).rps, b.value.last - from);
      }
    }
  }

  /** Over any interval the bucket admits at most burst + rps times its length. */
  lemma BucketRateBound(lims: string -> Limits, ops: seq<Op>, id: string, i: nat, j: nat, from: real, to: real)
    requires i <= j <= |ops| && Monotone(ops) && lims(id).rps >= 1 && lims(id).burst >= 1 && from <= to
    requires forall k :: i <= k < j ==> from <= ops[k].at <= to
    ensures Admissions(false, lims, ops, id, i, j) as real <= lims(id).burst as real + Gain(lims(id).rps, to - from)
  {
    if i == j {
      PaidBound(lims(id), None, 0, from, to);
    } else {
      TokensPayForAdmissions(lims, ops, id, i, j, from);
      assert ops[j - 1].at <= to;
      RunOk(false, lims, ops, j, id, ops[j - 1].at);
      PaidBound(lims(id), Find(After(false, lims, ops, j), id), Admissions(false, lims, ops, id, i, j), from, to);
    }
  }

  lemma PaidBound(l: Limits, b: Option<Bucket>, admitted: int, from: real, to: real)
    requires BucketOn(l) && from <= to && Paid(l, b, admitted, from) && (b.Some? ==> b.value.tokens >= 0.0 && b.value.last <= to)
    ensures admitted as real <= l.burst as real + Gain(l.rps, to - from)
  {
    GainSign(l.rps, to - from);
    if b.Some? {
      GainOrder(l.rps, b.value.last - from, to - from);
    }
  }

  /** The admissions made since `from`, less than a minute ago, were counted by the entry's
      window and at most one window before it. */
  ghost predicate Counted(l: Limits, b: Option<Bucket>, admitted: int, from: real) {
    if b.None? then admitted <= l.rpm
    else admitted <= b.value.minuteCount + if b.value.minuteStart >= from then l.rpm else 0
  }

  lemma CountedStep(l: Limits, b: Option<Bucket>, admitted: int, from: real, now: real)
    requires MinuteOn(l) && from <= now < from + MINUTE && Counted(l, b, admitted, from) && (b.Some? ==> Ok(l, b.value, now))
    ensures var ready := Ready(l, b, now);
            Counted(l, Some(Settled(l, ready)), if Denied(l, ready) then admitted else admitted + 1, from)
  {
  }

  lemma CountedKept(l: Limits, b: Bucket, caller: Limits, admitted: int, from: real, now: real)
    requires MinuteOn(l) && now < from + MINUTE && Counted(l, Some(b), admitted, from) && Ok(l, b, now) && Sweepable(caller, b, now)
    ensures Counted(l, None, admitted, from)
  {
  }

  lemma {:induction false} WindowsPayForAdmissions(sweeps: bool, lims: string -> Limits, ops: seq<Op>, id: string, i: nat, j: nat, from: real)
    requires i <= j <= |ops| && Monotone(ops) && MinuteOn(lims(id))
    requires forall k :: i <= k < j ==> from <= ops[k].at < from + MINUTE
    ensures Counted(lims(id), Find(After(sweeps, lims, ops, j), id), Admissions(sweeps, lims, ops, id, i, j), from)
    decreases j
  {
    if i < j {
      var m, n, op := After(sweeps, lims, ops, j - 1), Admissions(sweeps, lims, ops, id, i, j - 1), ops[j - 1];
      WindowsPayForAdmissions(sweeps, lims, ops, id, i, j - 1, from);
      RunOk(sweeps, lims, ops, j - 1, id, op.at);
      if op.id == id {
        CountedStep(lims(id), Find(m, id), n, from, op.at);
      } else if id in m && id !in After(sweeps, lims, ops, j) {
        CountedKept(lims(id), m[id], lims(op.id), n, from, op.at);
      }
    } else {
      RunOk(sweeps, lims, ops, j, id, if j == 0 then 0.0 else ops[j - 1].at);
    }
  }

  /** In any span shorter than a minute the window admits at most twice its allowance,
      whatever is swept. */
  lemma MinuteRateBound(sweeps: bool, lims: string -> Limits, ops: seq<Op>, id: string, i: nat, j: nat, from: real)
    requires i <= j <= |ops| && Monotone(ops) && lims(id).rpm >= 1
    requires forall k :: i <= k < j ==> from <= ops[k].at < from + MINUTE
    ensures Admissions(sweeps, lims, ops, id, i, j) <= 2 * lims(id).rpm
  {
    WindowsPayForAdmissions(sweeps, lims, ops, id, i, j, from);
    RunOk(sweeps, lims, ops, j, id, if j == 0 then 0.0 else ops[j - 1].at);
  }

  // ----- the wait -----

  /** The moment a refused entry will next admit: the later of the two ceilings' own. */
  function Due(l: Limits, b: Bucket): real {
    b.last + WaitOf(l, b, b.last)
  }

  lemma TokenDue(l: Limits, b: Bucket, now: real)
    requires TokensRefuse(l, b) && b.last <= now
    ensures TokensRefuse(l, Refreshed(l, b, now)) <==> now < b.last + TokenWait(l, b)
    ensures TokensRefuse(l, Refreshed(l, b, now)) ==> now + TokenWait(l, Refreshed(l, b, now)) == b.last + TokenWait(l, b)
  {
    var wait := TokenWait(l, b);
    GainOfQuotient(l.rps, 1.0 - b.tokens);
    GainOrder(l.rps, now - b.last, wait);
    assert l.burst as real >= 1.0;
    var b' := Refreshed(l, b, now);
    if TokensRefuse(l, b') {
      GainOfQuotient(l.rps, 1.0 - b'.tokens);
      GainAdds(l.rps, now - b.last, TokenWait(l, b'));
      GainOrder(l.rps, now - b.last + TokenWait(l, b'), wait);
      GainOrder(l.rps, wait, now - b.last + TokenWait(l, b'));
    }
  }

  lemma TokensKeep(l: Limits, b: Bucket, now: real)
    requires BucketOn(l) && !TokensRefuse(l, b) && b.last <= now
    ensures !TokensRefuse(l, Refreshed(l, b, now))
  {
    GainSign(l.rps, now - b.last);
  }

  /** A refused entry retried later is refused exactly until it is due, and being refused
      again does not move the moment. */
  lemma RetryAgainstDue(l: Limits, b: Bucket, now: real)
    requires Ok(l, b, now) && Denied(l, b)
    ensures Denied(l, Refreshed(l, b, now)) <==> now < Due(l, b)
    ensures Denied(l, Refreshed(l, b, now)) ==> Due(l, Refreshed(l, b, now)) == Due(l, b)
  {
    if TokensRefuse(l, b) {
      TokenDue(l, b, now);
    } else if BucketOn(l) {
      TokensKeep(l, b, now);
    }
  }

  lemma {:induction false} DueHolds(lims: string -> Limits, ops: seq<Op>, i: nat, j: nat, id: string)
    requires i < j <= |ops| && Monotone(ops) && ops[i].id == id
    requires forall k :: i <= k < j && ops[k].id == id ==> Answer(false, lims, ops, k).Refused?
    ensures var m := After(false, lims, ops, j);
            && id in m && Denied(lims(id), m[id])
            && Due(lims(id), m[id]) == ops[i].at + Answer(false, lims, ops, i).wait
    decreases j
  {
    var before, at := After(false, lims, ops, j - 1), ops[j - 1].at;
    RunOk(false, lims, ops, j - 1, id, at);
    if j - 1 == i {
      assert Answer(false, lims, ops, i).Refused?;
    } else {
      DueHolds(lims, ops, i, j - 1, id);
      if ops[j - 1].id == id {
        assert Answer(false, lims, ops, j - 1).Refused?;
        RetryAgainstDue(lims(id), before[id], at);
      }
    }
  }

  /** The returned wait is exact: with no admission of the tenant in between, a later
      take succeeds if and only if it comes at least the wait after the refusal. */
  lemma WaitIsExact(lims: string -> Limits, ops: seq<Op>, i: nat, j: nat)
    requires i < j < |ops| && Monotone(ops) && ops[i].id == ops[j].id
    requires forall k :: i <= k < j && ops[k].id == ops[i].id ==> Answer(false, lims, ops, k).Refused?
    ensures Answer(false, lims, ops, j).Admitted? <==> ops[j].at - ops[i].at >= Answer(false, lims, ops, i).wait
  {
    var id := ops[i].id;
    DueHolds(lims, ops, i, j, id);
    RunOk(false, lims, ops, j, id, ops[j].at);
    RetryAgainstDue(lims(id), After(false, lims, ops, j)[id], ops[j].at);
  }
}
