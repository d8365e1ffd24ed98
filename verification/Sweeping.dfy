/**
 When forgetting idle entries shows.  A sweep made for one tenant judges every entry by
 that tenant's refill time.  Here is exactly when it can only drop entries that make no
 difference, and a run for every case in which it does not.
 */
module Sweeping {
  import opened Wrappers
  import opened RateLimit

  // ----- entries that make no difference -----

  /** An entry that would be brought up to a fresh one whenever it is next used. */
  ghost predicate Idle(l: Limits, b: Bucket, now: real) {
    && now - b.minuteStart >= MINUTE
    && (if BucketOn(l) then b.tokens + Gain(l.rps, now - b.last) >= l.burst as real else b.tokens == l.burst as real)
  }

  lemma IdleIsFresh(l: Limits, b: Bucket, now: real, later: real)
    requires Idle(l, b, now) && now <= later
    ensures Refreshed(l, b, later) == Fresh(l, later) && Idle(l, b, later)
  {
    if BucketOn(l) {
      GainOrder(l.rps, now - b.last, later - b.last);
    }
  }

  lemma FullGains(l: Limits)
    ensures Full(l) >= 0.0 && (BucketOn(l) ==> Gain(l.rps, Full(l)) == l.burst as real)
  {
    if BucketOn(l) {
      GainOfQuotient(l.rps, l.burst as real);
      GainOrder(l.rps, Full(l), 0.0);
      GainAdds(l.rps, 0.0, 0.0);
    }
  }

  // ----- sweeps that drop only such entries are not seen -----

  /** Take `i` sweeps the entry of `id` away. */
  ghost predicate DropsAt(lims: string -> Limits, ops: seq<Op>, i: nat, id: string)
    requires i < |ops|
  {
    id in After(true, lims, ops, i) && id !in After(true, lims, ops, i + 1)
  }

  ghost predicate DropsIdleAt(lims: string -> Limits, ops: seq<Op>, i: nat, id: string)
    requires i < |ops|
  {
    DropsAt(lims, ops, i, id) ==> Idle(lims(id), After(true, lims, ops, i)[id], ops[i].at)
  }

  ghost predicate DropsIdle(lims: string -> Limits, ops: seq<Op>, id: string) {
    forall i :: 0 <= i < |ops| ==> DropsIdleAt(lims, ops, i, id)
  }

  ghost predicate Forgets(l: Limits, swept: Option<Bucket>, kept: Option<Bucket>, now: real) {
    swept == kept || (swept.None? && kept.Some? && Idle(l, kept.value, now))
  }

  lemma ReadyAlike(l: Limits, swept: Option<Bucket>, kept: Option<Bucket>, now: real, later: real)
    requires Forgets(l, swept, kept, now) && now <= later
    ensures Ready(l, swept, later) == Ready(l, kept, later) && Forgets(l, swept, kept, later)
  {
    if swept != kept {
      IdleIsFresh(l, kept.value, now, later);
    }
  }

  /** A take leaves the other entries alone, but for those its sweep drops. */
  lemma OthersAfter(sweeps: bool, lims: string -> Limits, ops: seq<Op>, n: nat, id: string)
    requires 0 < n <= |ops| && ops[n - 1].id != id
    ensures var op, before, after := ops[n - 1], Find(After(sweeps, lims, ops, n - 1), id), Find(After(sweeps, lims, ops, n), id);
            after == before || (sweeps && after.None? && before.Some? && Sweepable(lims(op.id), before.value, op.at))
  {
  }

  lemma {:induction false} SweptForgetsIdle(lims: string -> Limits, ops: seq<Op>, id: string, n: nat, now: real)
    requires n <= |ops| && Monotone(ops) && DropsIdle(lims, ops, id) && (n > 0 ==> ops[n - 1].at <= now)
    ensures Forgets(lims(id), Find(After(true, lims, ops, n), id), Find(After(false, lims, ops, n), id), now)
  {
    if n > 0 {
      var op := ops[n - 1];
      var s, k := Find(After(true, lims, ops, n - 1), id), Find(After(false, lims, ops, n - 1), id);
      var s', k' := Find(After(true, lims, ops, n), id), Find(After(false, lims, ops, n), id);
      SweptForgetsIdle(lims, ops, id, n - 1, op.at);
      ReadyAlike(lims(id), s, k, op.at, op.at);
      if op.id != id {
        OthersAfter(true, lims, ops, n, id);
        OthersAfter(false, lims, ops, n, id);
        assert DropsIdleAt(lims, ops, n - 1, id);
      }
      assert Forgets(lims(id), s', k', op.at);
      ReadyAlike(lims(id), s', k', op.at, now);
    }
  }

  /** When only idle entries of a tenant are ever dropped, it gets the answers of a limiter
      that keeps them forever. */
  lemma SweepIsUnobservable(lims: string -> Limits, ops: seq<Op>, i: nat)
    requires i < |ops| && Monotone(ops) && DropsIdle(lims, ops, ops[i].id)
    ensures Answer(true, lims, ops, i) == Answer(false, lims, ops, i)
  {
    var id, at := ops[i].id, ops[i].at;
    SweptForgetsIdle(lims, ops, id, i, at);
    ReadyAlike(lims(id), Find(After(true, lims, ops, i), id), Find(After(false, lims, ops, i), id), at, at);
  }

  // ----- the two conditions -----

  /** What an entry regains in the shortest pause after which `caller` may sweep it, or in
      the minute it must be old, whichever is more. */
  function Regained(l: Limits, caller: Limits): real {
    var pause, minute := Gain(l.rps, Full(caller)), Gain(l.rps, MINUTE);
    if pause > minute then pause else minute
  }

  /** The minute window alone keeps a tenant's bucket near full: one window cannot spend what
      the caller's pause regains, nor two windows what that or a minute regains. */
  predicate Tight(l: Limits, caller: Limits) {
    && BucketOn(l) && MinuteOn(l)
    && l.rpm <= 60 * l.rps
    && (l.rpm - 1) as real <= Gain(l.rps, Full(caller))
    && (2 * l.rpm - 1) as real <= Regained(l, caller)
  }

  /** A sweep made for `caller` can only drop entries of `l` that make no difference. */
  predicate Harmless(l: Limits, caller: Limits) {
    Full(l) <= Full(caller) || Tight(l, caller)
  }

  lemma CoveredSweepIsIdle(l: Limits, caller: Limits, b: Bucket, now: real)
    requires Ok(l, b, now) && Sweepable(caller, b, now) && Full(l) <= Full(caller)
    ensures Idle(l, b, now)
  {
    if BucketOn(l) {
      FullGains(l);
      GainOrder(l.rps, Full(l), now - b.last);
    }
  }

  /** What is missing from a bucket whose window cannot outspend it: nothing but what this
      window spent after its first request, or what this window and one before spent, less
      what this window has regained so far. */
  ghost predicate NearFull(l: Limits, b: Bucket) {
    var missing := l.burst as real - b.tokens;
    && 1 <= b.minuteCount
    && (missing <= (b.minuteCount - 1) as real
        || missing <= (l.rpm - 1 + b.minuteCount) as real - Gain(l.rps, b.last - b.minuteStart))
  }

  predicate Paced(l: Limits) {
    BucketOn(l) && MinuteOn(l) && l.rpm <= 60 * l.rps && l.rpm <= l.burst
  }

  lemma SixtySeconds(l: Limits)
    requires l.rps >= 1
    ensures Gain(l.rps, MINUTE) == (60 * l.rps) as real
  {
    GainIsProduct(l.rps, MINUTE);
  }

  lemma FreshNearFull(l: Limits, now: real)
    requires Paced(l)
    ensures NearFull(l, Settled(l, Fresh(l, now)))
  {
    GainAdds(l.rps, 0.0, 0.0);
  }

  lemma SameWindowNearFull(l: Limits, b: Bucket, now: real)
    requires Paced(l) && Ok(l, b, now) && NearFull(l, b) && now - b.minuteStart < MINUTE
    ensures NearFull(l, Settled(l, Refreshed(l, b, now)))
  {
    GainAdds(l.rps, b.last - b.minuteStart, now - b.last);
    GainSign(l.rps, now - b.last);
    assert b.last - b.minuteStart + (now - b.last) == now - b.minuteStart;
  }

  lemma NextWindowNearFull(l: Limits, b: Bucket, now: real)
    requires Paced(l) && Ok(l, b, now) && NearFull(l, b) && now - b.minuteStart >= MINUTE
    ensures NearFull(l, Settled(l, Refreshed(l, b, now)))
  {
    GainAdds(l.rps, b.last - b.minuteStart, now - b.last);
    assert b.last - b.minuteStart + (now - b.last) == now - b.minuteStart;
    GainSign(l.rps, now - b.last);
    GainOrder(l.rps, MINUTE, now - b.minuteStart);
    SixtySeconds(l);
    GainAdds(l.rps, 0.0, 0.0);
    var ready := Refreshed(l, b, now);
    assert l.burst as real - ready.tokens <= (l.rpm - 1) as real;
    assert ready.tokens >= 1.0;
    assert now - now == 0.0;
  }

  lemma {:induction false} RunNearFull(sweeps: bool, lims: string -> Limits, ops: seq<Op>, n: nat, id: string)
    requires n <= |ops| && Monotone(ops) && Paced(lims(id))
    ensures var m := After(sweeps, lims, ops, n); id in m ==> NearFull(lims(id), m[id])
  {
    if n > 0 {
      var l, at, before := lims(id), ops[n - 1].at, Find(After(sweeps, lims, ops, n - 1), id);
      RunNearFull(sweeps, lims, ops, n - 1, id);
      if ops[n - 1].id != id {
        OthersAfter(sweeps, lims, ops, n, id);
      } else if before.None? {
        FreshNearFull(l, at);
      } else {
        RunOk(sweeps, lims, ops, n - 1, id, at);
        if at - before.value.minuteStart < MINUTE {
          SameWindowNearFull(l, before.value, at);
        } else {
          NextWindowNearFull(l, before.value, at);
        }
      }
    }
  }

  lemma TightSweepIsIdle(l: Limits, caller: Limits, b: Bucket, now: real)
    requires Ok(l, b, now) && NearFull(l, b) && Sweepable(caller, b, now) && Tight(l, caller)
    ensures Idle(l, b, now)
  {
    var age := b.last - b.minuteStart;
    GainAdds(l.rps, age, now - b.last);
    assert age + (now - b.last) == now - b.minuteStart;
    GainSign(l.rps, age);
    GainOrder(l.rps, MINUTE, now - b.minuteStart);
    GainOrder(l.rps, Full(caller), now - b.last);
  }

  ghost predicate HarmlessAt(lims: string -> Limits, ops: seq<Op>, i: nat, id: string)
    requires i < |ops|
  {
    DropsAt(lims, ops, i, id) ==> Harmless(lims(id), lims(ops[i].id))
  }

  /** Every take of a run that drops an entry of `id` is made for a tenant whose sweeps are
      harmless to it. */
  ghost predicate HarmlessRun(lims: string -> Limits, ops: seq<Op>, id: string) {
    forall i :: 0 <= i < |ops| ==> HarmlessAt(lims, ops, i, id)
  }

  lemma HarmlessDropIsIdle(lims: string -> Limits, ops: seq<Op>, i: nat, id: string)
    requires i < |ops| && Monotone(ops) && DropsAt(lims, ops, i, id) && Harmless(lims(id), lims(ops[i].id))
    ensures Idle(lims(id), After(true, lims, ops, i)[id], ops[i].at)
  {
    var l, caller, b, at := lims(id), lims(ops[i].id), After(true, lims, ops, i)[id], ops[i].at;
    RunOk(true, lims, ops, i, id, at);
    OthersAfter(true, lims, ops, i + 1, id);
    if Full(l) <= Full(caller) {
      CoveredSweepIsIdle(l, caller, b, at);
    } else {
      FullGains(l);
      GainOrder(l.rps, Full(caller), Full(l));
      assert (l.rpm - 1) as real < l.burst as real;
      RunNearFull(true, lims, ops, i, id);
      TightSweepIsIdle(l, caller, b, at);
    }
  }

  lemma HarmlessRunDropsIdle(lims: string -> Limits, ops: seq<Op>, id: string)
    requires Monotone(ops) && HarmlessRun(lims, ops, id)
    ensures DropsIdle(lims, ops, id)
  {
    forall i | 0 <= i < |ops| ensures DropsIdleAt(lims, ops, i, id) {
      assert HarmlessAt(lims, ops, i, id);
      if DropsAt(lims, ops, i, id) {
        HarmlessDropIsIdle(lims, ops, i, id);
      }
    }
  }

  // ----- so what holds of a limiter that never sweeps holds of the limiter as it is -----

  /** It admits as many. */
  lemma {:induction false} SweptAdmissions(lims: string -> Limits, ops: seq<Op>, id: string, i: nat, j: nat)
    requires i <= j <= |ops| && Monotone(ops) && DropsIdle(lims, ops, id)
    ensures Admissions(true, lims, ops, id, i, j) == Admissions(false, lims, ops, id, i, j)
    decreases j
  {
    if i < j {
      SweptAdmissions(lims, ops, id, i, j - 1);
      if ops[j - 1].id == id {
        SweepIsUnobservable(lims, ops, j - 1);
      }
    }
  }

  /** So the bucket's bound holds of it. */
  lemma SweptRateBound(lims: string -> Limits, ops: seq<Op>, id: string, i: nat, j: nat, from: real, to: real)
    requires i <= j <= |ops| && Monotone(ops) && HarmlessRun(lims, ops, id) && lims(id).rps >= 1 && lims(id).burst >= 1 && from <= to
    requires forall k :: i <= k < j ==> from <= ops[k].at <= to
    ensures Admissions(true, lims, ops, id, i, j) as real <= lims(id).burst as real + Gain(lims(id).rps, to - from)
  {
    HarmlessRunDropsIdle(lims, ops, id);
    SweptAdmissions(lims, ops, id, i, j);
    BucketRateBound(lims, ops, id, i, j, from, to);
  }

  /** And so is the wait it returns exact. */
  lemma SweptWaitIsExact(lims: string -> Limits, ops: seq<Op>, i: nat, j: nat)
    requires i < j < |ops| && Monotone(ops) && HarmlessRun(lims, ops, ops[i].id) && ops[i].id == ops[j].id
    requires forall k :: i <= k < j && ops[k].id == ops[i].id ==> Answer(true, lims, ops, k).Refused?
    ensures Answer(true, lims, ops, j).Admitted? <==> ops[j].at - ops[i].at >= Answer(true, lims, ops, i).wait
  {
    HarmlessRunDropsIdle(lims, ops, ops[i].id);
    forall k | i <= k <= j && ops[k].id == ops[i].id ensures Answer(true, lims, ops, k) == Answer(false, lims, ops, k) {
      SweepIsUnobservable(lims, ops, k);
    }
    WaitIsExact(lims, ops, i, j);
  }

  // ----- one tenant's own takes -----

  /** The entry of a tenant alone in the limiter, after takes at these times. */
  function Own(l: Limits, times: seq<real>): Option<Bucket> {
    if times == [] then None
    else Some(Settled(l, Ready(l, Own(l, times[..|times| - 1]), times[|times| - 1])))
  }

  ghost predicate Rising(times: seq<real>) {
    forall i, j :: 0 <= i < j < |times| ==> times[i] <= times[j]
  }

  ghost predicate Leaves(l: Limits, times: seq<real>, b: Bucket) {
    times != [] && Rising(times) && Own(l, times) == Some(b) && b.last == times[|times| - 1]
  }

  lemma LeavesNext(l: Limits, times: seq<real>, b: Bucket, at: real)
    requires Leaves(l, times, b) && b.last <= at
    ensures Leaves(l, times + [at], Settled(l, Refreshed(l, b, at)))
  {
    assert (times + [at])[..|times|] == times;
  }

  function Spent(l: Limits, ready: Bucket, j: nat): Bucket {
    ready.(tokens := ready.tokens - j as real, minuteCount := if MinuteOn(l) then ready.minuteCount + j else ready.minuteCount)
  }

  predicate CanSpend(l: Limits, ready: Bucket, j: nat) {
    && BucketOn(l) && j as real <= ready.tokens <= l.burst as real
    && (MinuteOn(l) ==> ready.minuteCount + j <= l.rpm)
  }

  lemma StillReady(l: Limits, b: Bucket)
    requires BucketOn(l) && b.tokens <= l.burst as real && b.last - b.minuteStart < MINUTE
    ensures Refreshed(l, b, b.last) == b
  {
    GainAdds(l.rps, 0.0, 0.0);
    assert b.last - b.last == 0.0;
  }

  /** Several takes at one moment, all admitted. */
  lemma {:induction false} SpendAt(l: Limits, times: seq<real>, b: Bucket, at: real, j: nat) returns (longer: seq<real>)
    requires Leaves(l, times, b) && b.last <= at && j >= 1 && CanSpend(l, Refreshed(l, b, at), j)
    ensures Leaves(l, longer, Spent(l, Refreshed(l, b, at), j))
    decreases j
  {
    var ready := Refreshed(l, b, at);
    if j == 1 {
      LeavesNext(l, times, b, at);
      longer := times + [at];
    } else {
      var most := SpendAt(l, times, b, at, j - 1);
      var b' := Spent(l, ready, j - 1);
      StillReady(l, b');
      LeavesNext(l, most, b', at);
      longer := most + [at];
    }
  }

  lemma FirstTake(l: Limits)
    requires BucketOn(l)
    ensures Leaves(l, [0.0], Spent(l, Fresh(l, 0.0), 1))
  {
    assert [0.0][..0] == [];
  }

  /** A second or more after its first take, a bucket is full again. */
  lemma FullAgain(l: Limits, t: real)
    requires BucketOn(l) && 1.0 <= t < MINUTE
    ensures var b := Spent(l, Fresh(l, 0.0), 1);
            Refreshed(l, b, t) == Bucket(l.burst as real, t, 0.0, b.minuteCount)
  {
    GainIsProduct(l.rps, 1.0);
    GainOrder(l.rps, 1.0, t);
    assert 1.0 * l.rps as real == l.rps as real;
    assert t - 0.0 == t;
  }

  // ----- entries a harmful sweep would drop -----

  /** An entry some run produces, that `caller` may sweep though it is not idle. */
  ghost predicate Harmful(l: Limits, caller: Limits, times: seq<real>, b: Bucket, now: real) {
    Leaves(l, times, b) && b.last <= now && Sweepable(caller, b, now) && !Idle(l, b, now)
  }

  /** How long after its last take an entry is looked at: as soon as the caller may. */
  lemma Pause(l: Limits, caller: Limits, n: nat) returns (gap: real)
    requires BucketOn(l) && n >= 1 && Gain(l.rps, Full(caller)) < n as real
    ensures gap > 0.0 && Full(caller) <= gap && Gain(l.rps, gap) < n as real
  {
    FullGains(caller);
    gap := Full(caller);
    if gap == 0.0 {
      gap := 0.5 / l.rps as real;
      GainOfQuotient(l.rps, 0.5);
      GainAdds(l.rps, 0.0, 0.0);
      GainOrder(l.rps, 0.0, gap);
    }
  }

  /** One request opens the window; at its end `n` more are spent at once. */
  lemma OneWindow(l: Limits, caller: Limits, n: nat) returns (times: seq<real>, b: Bucket, now: real)
    requires BucketOn(l) && 1 <= n <= l.burst && (MinuteOn(l) ==> n + 1 <= l.rpm)
    requires Gain(l.rps, Full(caller)) < n as real
    ensures Harmful(l, caller, times, b, now)
  {
    var gap := Pause(l, caller, n);
    var t := if gap > 59.0 then 1.0 else MINUTE - gap;
    FirstTake(l);
    FullAgain(l, t);
    var first := Spent(l, Fresh(l, 0.0), 1);
    times := SpendAt(l, [0.0], first, t, n);
    b := Spent(l, Refreshed(l, first, t), n);
    now := t + gap;
  }

  /** What is missing from the bucket when its window ends, taken as at least one request. */
  ghost predicate Ends(l: Limits, times: seq<real>, b: Bucket, x: real) {
    && Leaves(l, times, b) && b.last < b.minuteStart + MINUTE && x >= 1.0
    && b.tokens + Gain(l.rps, b.minuteStart + MINUTE - b.last) == l.burst as real - x
  }

  /** A bucket missing `x` when its window ends, `late / rps` seconds after that. */
  lemma NextWindow(l: Limits, times: seq<real>, b: Bucket, x: real, late: real) returns (start: real)
    requires BucketOn(l) && Ends(l, times, b, x) && 0.0 <= late < 1.0
    ensures b.last <= start && (late == 0.0 ==> start == b.minuteStart + MINUTE)
    ensures Refreshed(l, b, start) == Bucket(l.burst as real - x + late, start, start, 0)
  {
    var wait := if late == 0.0 then 0.0 else late / l.rps as real;
    start := b.minuteStart + MINUTE + wait;
    GainOfQuotient(l.rps, late);
    GainAdds(l.rps, 0.0, 0.0);
    GainOrder(l.rps, 0.0, wait);
    GainAdds(l.rps, b.minuteStart + MINUTE - b.last, wait);
    assert b.minuteStart + MINUTE - b.last + wait == start - b.last;
  }

  /** The rates of a tenant whose minute binds: what the caller's pause regains covers one
      window but not the bucket. */
  ghost predicate Bound(l: Limits, caller: Limits) {
    && BucketOn(l) && MinuteOn(l)
    && (l.rpm - 1) as real <= Gain(l.rps, Full(caller)) < l.burst as real
  }

  /** How many takes of the last window bring what is missing just past what is regained,
      and how late the window must open for the bucket to allow them. */
  lemma Tuned(l: Limits, caller: Limits, x: real) returns (m: nat, late: real, over: real)
    requires Bound(l, caller) && 1.0 <= x <= Gain(l.rps, Full(caller)) && x + l.rpm as real > Regained(l, caller)
    ensures 1 <= m <= l.rpm && 0.0 <= late < 1.0 && over > 0.0
    ensures x + m as real - late == Regained(l, caller) + over
    ensures Gain(l.rps, Full(caller)) + over <= l.burst as real
  {
    var g, room := Regained(l, caller), l.burst as real - Gain(l.rps, Full(caller));
    m := (g - x).Floor + 1;
    var past := x + m as real - g;
    over := if past < room then past else room;
    late := past - over;
  }

  /** The last window when a single take of it is enough. */
  lemma LastTake(l: Limits, caller: Limits, times: seq<real>, b: Bucket, x: real, late: real) returns (times': seq<real>, b': Bucket, now: real)
    requires Bound(l, caller) && Ends(l, times, b, x) && 0.0 <= late < 1.0
    requires Regained(l, caller) < x + 1.0 - late <= l.burst as real
    ensures Harmful(l, caller, times', b', now)
  {
    var start := NextWindow(l, times, b, x, late);
    times' := SpendAt(l, times, b, start, 1);
    b' := Spent(l, Refreshed(l, b, start), 1);
    FullGains(caller);
    var pause := if Full(caller) > MINUTE then Full(caller) else MINUTE;
    now := start + pause;
    GainOrder(l.rps, MINUTE, Full(caller));
    assert Gain(l.rps, now - b'.last) == Regained(l, caller) by {
      assert now - b'.last == pause;
    }
  }

  /** Between the first take of the last window and the others, the bucket regains what a
      minute regains beyond the caller's pause. */
  lemma SecondMoment(l: Limits, caller: Limits, start: real) returns (t: real)
    requires BucketOn(l) && Gain(l.rps, Full(caller)) >= 1.0
    ensures start <= t < start + MINUTE && t + Full(caller) - start >= MINUTE
    ensures Gain(l.rps, t - start) == Regained(l, caller) - Gain(l.rps, Full(caller))
  {
    var more := Regained(l, caller) - Gain(l.rps, Full(caller));
    var wait := more / l.rps as real;
    GainOfQuotient(l.rps, more);
    GainAdds(l.rps, 0.0, 0.0);
    GainOrder(l.rps, 0.0, wait);
    GainOrder(l.rps, wait, 0.0);
    GainAdds(l.rps, wait, Full(caller));
    GainOrder(l.rps, MINUTE, wait + Full(caller));
    GainOrder(l.rps, wait, MINUTE);
    SixtySeconds(l);
    t := start + wait;
    assert t - start == wait;
  }

  /** The last window when several takes are needed: one opens it, the others come late. */
  lemma LastTakes(l: Limits, caller: Limits, times: seq<real>, b: Bucket, x: real, m: nat, late: real, over: real)
    returns (times': seq<real>, b': Bucket, now: real)
    requires Bound(l, caller) && Ends(l, times, b, x) && 0.0 <= late < 1.0 && 2 <= m <= l.rpm && over > 0.0
    requires x + m as real - late == Regained(l, caller) + over
    requires Gain(l.rps, Full(caller)) + over <= l.burst as real && x + 1.0 - late <= l.burst as real
    ensures Harmful(l, caller, times', b', now)
  {
    var pause := Gain(l.rps, Full(caller));
    var start := NextWindow(l, times, b, x, late);
    var one := SpendAt(l, times, b, start, 1);
    var begun := Spent(l, Refreshed(l, b, start), 1);
    var t := SecondMoment(l, caller, start);
    var ready := Bucket(l.burst as real - (x + 1.0 - late) + Regained(l, caller) - pause, t, start, 1);
    assert Refreshed(l, begun, t) == ready by {
      assert t - begun.last == t - start;
      assert ready.tokens == l.burst as real - pause - over + (m - 1) as real;
      assert (m - 1) as real <= (l.rpm - 1) as real <= pause;
    }
    times' := SpendAt(l, one, begun, t, m - 1);
    b' := Spent(l, ready, m - 1);
    now := t + Full(caller);
    FullGains(caller);
    assert now - b'.last == Full(caller);
  }

  /** From a window that ends missing `x`, a last window that is too much for the pause. */
  lemma LastWindow(l: Limits, caller: Limits, times: seq<real>, b: Bucket, x: real) returns (times': seq<real>, b': Bucket, now: real)
    requires Bound(l, caller) && Ends(l, times, b, x) && x <= Gain(l.rps, Full(caller)) && x + l.rpm as real > Regained(l, caller)
    requires Regained(l, caller) == Gain(l.rps, Full(caller)) || x <= (l.rpm - 1) as real
    ensures Harmful(l, caller, times', b', now)
  {
    var m, late, over := Tuned(l, caller, x);
    assert (l.rpm - 1) as real < l.burst as real;
    assert l.rpm <= l.burst;
    if m == 1 {
      times', b', now := LastTake(l, caller, times, b, x, late);
    } else {
      times', b', now := LastTakes(l, caller, times, b, x, m, late, over);
    }
  }

  /** Window after window spends more than a minute regains, until one more is too much. */
  lemma {:induction false} ManyWindows(l: Limits, caller: Limits, times: seq<real>, b: Bucket, x: real)
    returns (times': seq<real>, b': Bucket, now: real)
    requires Bound(l, caller) && Ends(l, times, b, x) && x <= Gain(l.rps, Full(caller))
    requires l.rpm > 60 * l.rps
    ensures Harmful(l, caller, times', b', now)
    decreases (Gain(l.rps, Full(caller)) - x).Floor
  {
    SixtySeconds(l);
    assert (l.rpm - 1) as real >= (60 * l.rps) as real;
    if x + l.rpm as real > Regained(l, caller) {
      times', b', now := LastWindow(l, caller, times, b, x);
    } else {
      var start := NextWindow(l, times, b, x, 0.0);
      var more := SpendAt(l, times, b, start, l.rpm);
      var spent := Spent(l, Refreshed(l, b, start), l.rpm);
      assert Ends(l, more, spent, x + (l.rpm - 60 * l.rps) as real) by {
        assert spent.minuteStart + MINUTE - spent.last == MINUTE;
      }
      times', b', now := ManyWindows(l, caller, more, spent, x + (l.rpm - 60 * l.rps) as real);
    }
  }

  /** A first window spent to its end. */
  lemma WholeWindow(l: Limits, caller: Limits, short: real) returns (times: seq<real>, b: Bucket)
    requires Bound(l, caller) && l.rpm >= 3 && 0.0 < short <= 0.5
    ensures Ends(l, times, b, (l.rpm - 1) as real - short)
  {
    var before := short / l.rps as real;
    GainOfQuotient(l.rps, short);
    GainAdds(l.rps, 0.0, 0.0);
    GainOrder(l.rps, 0.0, before);
    GainIsProduct(l.rps, 1.0);
    assert 1.0 * l.rps as real == l.rps as real;
    GainOrder(l.rps, before, 1.0);
    var t := MINUTE - before;
    FirstTake(l);
    FullAgain(l, t);
    var first := Spent(l, Fresh(l, 0.0), 1);
    assert (l.rpm - 1) as real < l.burst as real;
    times := SpendAt(l, [0.0], first, t, l.rpm - 1);
    b := Spent(l, Refreshed(l, first, t), l.rpm - 1);
    assert b.minuteStart + MINUTE - b.last == before;
  }

  /** Whenever a sweep is neither covered nor met by a tight minute, some run produces an
      entry it would drop though that entry is not idle. */
  lemma HarmfulEntry(l: Limits, caller: Limits) returns (times: seq<real>, b: Bucket, now: real)
    requires BucketOn(l) && !Harmless(l, caller)
    ensures Harmful(l, caller, times, b, now)
  {
    FullGains(l);
    GainOrder(l.rps, Full(caller), Full(l));
    FullGains(caller);
    GainSign(l.rps, Full(caller));
    var n := if !MinuteOn(l) || l.burst < l.rpm then l.burst else l.rpm - 1;
    if Gain(l.rps, Full(caller)) < n as real {
      times, b, now := OneWindow(l, caller, n);
    } else {
      times, b, now := TwoWindows(l, caller);
    }
  }

  lemma TwoWindows(l: Limits, caller: Limits) returns (times: seq<real>, b: Bucket, now: real)
    requires Bound(l, caller) && !Tight(l, caller)
    ensures Harmful(l, caller, times, b, now)
  {
    SixtySeconds(l);
    var room := (2 * l.rpm - 1) as real - Regained(l, caller);
    var short := if 0.0 < room < 1.0 then room / 2.0 else 0.5;
    var first, spent := WholeWindow(l, caller, short);
    var x := (l.rpm - 1) as real - short;
    if l.rpm > 60 * l.rps {
      times, b, now := ManyWindows(l, caller, first, spent, x);
    } else {
      times, b, now := LastWindow(l, caller, first, spent, x);
    }
  }

  // ----- a run in which that entry is dropped -----

  /** One tenant has limits of its own, all others those of the caller. */
  function Two(id: string, l: Limits, caller: Limits): string -> Limits {
    x => if x == id then l else caller
  }

  /** From `from` to `n`, tenants take that nobody has seen, one after the other. */
  ghost predicate Arrivals(lims: string -> Limits, ops: seq<Op>, id: string, caller: Limits, now: real, from: nat, n: nat) {
    && from <= n <= |ops|
    && (forall i :: from <= i < n ==> ops[i].at == now && lims(ops[i].id) == caller && ops[i].id != id)
    && (forall i, j :: from <= i < j < n ==> ops[i].id != ops[j].id)
  }

  /** The tenant's own takes, then newcomers until the limiter is full, then the tenant again. */
  ghost predicate Staged(lims: string -> Limits, ops: seq<Op>, id: string, l: Limits, caller: Limits, times: seq<real>, now: real, tail: nat) {
    && |ops| == |times| + SWEEP_ABOVE + tail && lims(id) == l
    && (forall i :: 0 <= i < |times| ==> ops[i] == Op(id, times[i]))
    && Arrivals(lims, ops, id, caller, now, |times|, |times| + SWEEP_ABOVE)
    && (forall i :: |times| + SWEEP_ABOVE <= i < |ops| ==> ops[i] == Op(id, now))
  }

  lemma Stage(id: string, l: Limits, caller: Limits, times: seq<real>, now: real, tail: nat) returns (ops: seq<Op>)
    ensures Staged(Two(id, l, caller), ops, id, l, caller, times, now, tail)
  {
    var own := seq(|times|, i requires 0 <= i < |times| => Op(id, times[i]));
    var crowd := seq(SWEEP_ABOVE, i requires 0 <= i < SWEEP_ABOVE => Op(id + seq(i + 1, _ => 'x'), now));
    var again := seq(tail, i => Op(id, now));
    ops := own + crowd + again;
    forall i | |times| <= i < |times| + SWEEP_ABOVE
      ensures ops[i].at == now && |ops[i].id| == |id| + (i - |times|) + 1
    {
      assert ops[i] == crowd[i - |times|];
    }
  }

  lemma StagedMonotone(lims: string -> Limits, ops: seq<Op>, id: string, l: Limits, caller: Limits, times: seq<real>, b: Bucket, now: real, tail: nat)
    requires Staged(lims, ops, id, l, caller, times, now, tail) && Leaves(l, times, b) && b.last <= now
    ensures Monotone(ops)
  {
    assert forall i :: 0 <= i < |times| ==> times[i] <= times[|times| - 1];
    assert forall i :: |times| <= i < |ops| ==> ops[i].at == now;
  }

  lemma AfterNext(sweeps: bool, lims: string -> Limits, ops: seq<Op>, n: nat)
    requires 0 < n <= |ops|
    ensures var op := ops[n - 1];
            After(sweeps, lims, ops, n) == TakeStep(sweeps, After(sweeps, lims, ops, n - 1), op.id, lims(op.id), op.at)
  {
  }

  lemma OwnTake(sweeps: bool, m: map<string, Bucket>, id: string, l: Limits, at: real)
    requires !Unlimited(l)
    ensures Find(TakeStep(sweeps, m, id, l, at), id) == Some(Settled(l, Ready(l, Find(m, id), at)))
  {
  }

  lemma {:induction false} OwnPart(sweeps: bool, lims: string -> Limits, ops: seq<Op>, id: string, times: seq<real>, n: nat)
    requires n <= |times| <= |ops| && !Unlimited(lims(id)) && forall i :: 0 <= i < |times| ==> ops[i] == Op(id, times[i])
    ensures Find(After(sweeps, lims, ops, n), id) == Own(lims(id), times[..n])
    decreases n
  {
    if n > 0 {
      OwnPart(sweeps, lims, ops, id, times, n - 1);
      assert times[..n][..n - 1] == times[..n - 1];
      AfterNext(sweeps, lims, ops, n);
      OwnTake(sweeps, After(sweeps, lims, ops, n - 1), id, lims(id), times[n - 1]);
    }
  }

  /** Entries are of tenants that took. */
  lemma {:induction false} NeverTook(sweeps: bool, lims: string -> Limits, ops: seq<Op>, n: nat, id: string)
    requires n <= |ops| && forall i :: 0 <= i < n ==> ops[i].id != id
    ensures Find(After(sweeps, lims, ops, n), id) == None
    decreases n
  {
    if n > 0 {
      NeverTook(sweeps, lims, ops, n - 1, id);
      OthersAfter(sweeps, lims, ops, n, id);
    }
  }

  /** An entry made at the moment others take is too young to be swept. */
  lemma {:induction false} TooYoung(lims: string -> Limits, ops: seq<Op>, id: string, now: real, from: nat, n: nat)
    requires from <= n <= |ops| && forall i :: from <= i < n ==> ops[i].id != id && ops[i].at == now
    requires var e := Find(After(true, lims, ops, from), id); e.Some? && e.value.minuteStart == now
    ensures Find(After(true, lims, ops, n), id) == Find(After(true, lims, ops, from), id)
    decreases n
  {
    if n > from {
      TooYoung(lims, ops, id, now, from, n - 1);
      OthersAfter(true, lims, ops, n, id);
    }
  }

  lemma FirstEntry(lims: string -> Limits, ops: seq<Op>, n: nat)
    requires 0 < n <= |ops| && !Unlimited(lims(ops[n - 1].id)) && forall i :: 0 <= i < n - 1 ==> ops[i].id != ops[n - 1].id
    ensures var e := Find(After(true, lims, ops, n), ops[n - 1].id); e.Some? && e.value.minuteStart == ops[n - 1].at
  {
    var op := ops[n - 1];
    NeverTook(true, lims, ops, n - 1, op.id);
    AfterNext(true, lims, ops, n);
    OwnTake(true, After(true, lims, ops, n - 1), op.id, lims(op.id), op.at);
  }

  /** Each newcomer so far has an entry. */
  lemma NewcomerStays(lims: string -> Limits, ops: seq<Op>, id: string, caller: Limits, now: real, from: nat, k: nat, n: nat)
    requires Arrivals(lims, ops, id, caller, now, from, n) && from < k <= n && !Unlimited(caller)
    requires forall i :: 0 <= i < from ==> ops[i].id == id
    ensures Find(After(true, lims, ops, n), ops[k - 1].id).Some?
  {
    var newcomer := ops[k - 1].id;
    FirstEntry(lims, ops, k);
    assert forall i :: k <= i < n ==> ops[i].id != newcomer && ops[i].at == now;
    TooYoung(lims, ops, newcomer, now, k, n);
  }

  function Names(ops: seq<Op>, from: nat, n: nat): set<string>
    requires from <= n <= |ops|
  {
    if n == from then {} else Names(ops, from, n - 1) + {ops[n - 1].id}
  }

  lemma {:induction false} NotAmong(ops: seq<Op>, from: nat, n: nat, x: string)
    requires from <= n <= |ops| && forall i :: from <= i < n ==> ops[i].id != x
    ensures x !in Names(ops, from, n)
    decreases n
  {
    if n > from {
      NotAmong(ops, from, n - 1, x);
    }
  }

  lemma {:induction false} NamesDiffer(ops: seq<Op>, from: nat, n: nat, keys: set<string>)
    requires from <= n <= |ops| && forall i, j :: from <= i < j < n ==> ops[i].id != ops[j].id
    requires forall i :: from <= i < n ==> ops[i].id in keys
    ensures |Names(ops, from, n)| == n - from && Names(ops, from, n) <= keys
    decreases n
  {
    if n > from {
      NamesDiffer(ops, from, n - 1, keys);
      NotAmong(ops, from, n - 1, ops[n - 1].id);
    }
  }

  lemma AtLeast(m: map<string, Bucket>, ops: seq<Op>, id: string, from: nat, n: nat)
    requires from <= n <= |ops| && id in m && forall i :: from <= i < n ==> ops[i].id in m && ops[i].id != id
    requires forall i, j :: from <= i < j < n ==> ops[i].id != ops[j].id
    ensures |m| >= n - from + 1
  {
    NamesDiffer(ops, from, n, m.Keys);
    NotAmong(ops, from, n, id);
    var all := Names(ops, from, n) + {id};
    assert m.Keys == all + (m.Keys - all);
    assert |m| == |m.Keys|;
  }

  lemma OneLarger(m: map<string, Bucket>, id: string, b: Bucket)
    requires id !in m
    ensures |m[id := b]| == |m| + 1
  {
    assert m[id := b].Keys == m.Keys + {id};
    assert |m[id := b]| == |m[id := b].Keys|;
  }

  /** A newcomer to a full limiter takes the tenant's entry away, if it is still there. */
  lemma OneTooMany(m: map<string, Bucket>, id: string, newcomer: string, caller: Limits, now: real)
    requires !Unlimited(caller) && newcomer !in m && newcomer != id
    requires id in m ==> |m| >= SWEEP_ABOVE && Sweepable(caller, m[id], now)
    ensures Find(TakeStep(true, m, newcomer, caller, now), id) == None
  {
    if id in m {
      OneLarger(m, newcomer, Fresh(caller, now));
    }
  }

  /** While others take, the tenant's entry stays as it is or goes. */
  lemma {:induction false} StaysOrGoes(sweeps: bool, lims: string -> Limits, ops: seq<Op>, id: string, from: nat, n: nat)
    requires from <= n <= |ops| && forall i :: from <= i < n ==> ops[i].id != id
    ensures var before, after := Find(After(sweeps, lims, ops, from), id), Find(After(sweeps, lims, ops, n), id);
            after == before || (sweeps && after == None)
    decreases n
  {
    if n > from {
      StaysOrGoes(sweeps, lims, ops, id, from, n - 1);
      OthersAfter(sweeps, lims, ops, n, id);
    }
  }

  lemma Crowded(lims: string -> Limits, ops: seq<Op>, id: string, caller: Limits, now: real, from: nat, n: nat)
    requires Arrivals(lims, ops, id, caller, now, from, n) && !Unlimited(caller)
    requires forall i :: 0 <= i < from ==> ops[i].id == id
    ensures id in After(true, lims, ops, n) ==> |After(true, lims, ops, n)| >= n - from + 1
  {
    if id !in After(true, lims, ops, n) {
      return;
    }
    forall i | from <= i < n ensures ops[i].id in After(true, lims, ops, n) && ops[i].id != id {
      NewcomerStays(lims, ops, id, caller, now, from, i + 1, n);
    }
    AtLeast(After(true, lims, ops, n), ops, id, from, n);
  }

  /** One more newcomer sweeps, if the tenant's entry is still there. */
  ghost predicate Brimming(m: map<string, Bucket>, id: string, b: Bucket, newcomer: string) {
    newcomer !in m && newcomer != id && (id in m ==> m[id] == b && |m| >= SWEEP_ABOVE)
  }

  lemma BrimmingAtLast(lims: string -> Limits, ops: seq<Op>, id: string, b: Bucket, caller: Limits, now: real, from: nat, last: nat)
    requires last == from + SWEEP_ABOVE - 1 < |ops| && Arrivals(lims, ops, id, caller, now, from, last + 1) && !Unlimited(caller)
    requires forall i :: 0 <= i < from ==> ops[i].id == id
    requires Find(After(true, lims, ops, from), id) == Some(b)
    ensures Brimming(After(true, lims, ops, last), id, b, ops[last].id)
  {
    StaysOrGoes(true, lims, ops, id, from, last);
    Crowded(lims, ops, id, caller, now, from, last);
    NeverTook(true, lims, ops, last, ops[last].id);
  }

  lemma LastArrival(lims: string -> Limits, ops: seq<Op>, id: string, b: Bucket, caller: Limits, now: real, last: nat, n: nat)
    requires n == last + 1 <= |ops| && ops[last].at == now && lims(ops[last].id) == caller && !Unlimited(caller)
    requires Brimming(After(true, lims, ops, last), id, b, ops[last].id) && Sweepable(caller, b, now)
    ensures Find(After(true, lims, ops, n), id) == None
  {
    AfterNext(true, lims, ops, n);
    OneTooMany(After(true, lims, ops, last), id, ops[last].id, caller, now);
  }

  /** By the time all newcomers have come, the tenant's entry is gone. */
  lemma Gone(lims: string -> Limits, ops: seq<Op>, id: string, b: Bucket, caller: Limits, now: real, from: nat, last: nat, n: nat)
    requires last == from + SWEEP_ABOVE - 1 && n == last + 1 && Arrivals(lims, ops, id, caller, now, from, n) && !Unlimited(caller)
    requires forall i :: 0 <= i < from ==> ops[i].id == id
    requires Find(After(true, lims, ops, from), id) == Some(b) && Sweepable(caller, b, now)
    ensures Find(After(true, lims, ops, n), id) == None
  {
    BrimmingAtLast(lims, ops, id, b, caller, now, from, last);
    LastArrival(lims, ops, id, b, caller, now, last, n);
  }

  lemma {:induction false} SomeTakeDrops(lims: string -> Limits, ops: seq<Op>, id: string, b: Bucket, from: nat, n: nat) returns (i: nat)
    requires from <= n <= |ops| && forall i :: from <= i < n ==> ops[i].id != id
    requires Find(After(true, lims, ops, from), id) == Some(b) && Find(After(true, lims, ops, n), id) == None
    ensures from <= i < n && Find(After(true, lims, ops, i), id) == Some(b) && Find(After(true, lims, ops, i + 1), id) == None
    decreases n
  {
    StaysOrGoes(true, lims, ops, id, from, n - 1);
    if Find(After(true, lims, ops, n - 1), id) == Some(b) {
      i := n - 1;
    } else {
      i := SomeTakeDrops(lims, ops, id, b, from, n - 1);
    }
  }

  /** A staged run starts with the entry the tenant's own takes leave, and drops it. */
  lemma StagedDrop(lims: string -> Limits, ops: seq<Op>, id: string, l: Limits, caller: Limits, times: seq<real>, b: Bucket, now: real, tail: nat, n: nat)
    requires Staged(lims, ops, id, l, caller, times, now, tail) && Leaves(l, times, b) && n == |times| + SWEEP_ABOVE
    requires !Unlimited(l) && !Unlimited(caller) && Sweepable(caller, b, now)
    ensures Find(After(true, lims, ops, |times|), id) == Some(b) && Find(After(true, lims, ops, n), id) == None
    ensures Find(After(false, lims, ops, n), id) == Some(b)
  {
    OwnPart(true, lims, ops, id, times, |times|);
    OwnPart(false, lims, ops, id, times, |times|);
    assert times[..|times|] == times;
    Gone(lims, ops, id, b, caller, now, |times|, n - 1, n);
    StaysOrGoes(false, lims, ops, id, |times|, n);
  }

  /** Nothing is swept while there are fewer than 4096 entries. */
  lemma DropNeedsACrowd(lims: string -> Limits, ops: seq<Op>, i: nat, id: string)
    requires i < |ops| && DropsAt(lims, ops, i, id)
    ensures |After(true, lims, ops, i)| >= 4096
  {
    var m, op := After(true, lims, ops, i), ops[i];
    AfterNext(true, lims, ops, i + 1);
    if op.id !in m {
      OneLarger(m, op.id, Ready(lims(op.id), Find(m, op.id), op.at));
    }
  }

  lemma OwnTakeKeeps(lims: string -> Limits, ops: seq<Op>, i: nat, id: string)
    requires i < |ops| && DropsAt(lims, ops, i, id)
    ensures ops[i].id != id
  {
  }

  lemma HarmlessAlways(id: string, l: Limits, caller: Limits, ops: seq<Op>)
    requires Harmless(l, caller) && Monotone(ops)
    ensures DropsIdle(Two(id, l, caller), ops, id)
  {
    var lims := Two(id, l, caller);
    forall i | 0 <= i < |ops| ensures HarmlessAt(lims, ops, i, id) {
      if DropsAt(lims, ops, i, id) {
        OwnTakeKeeps(lims, ops, i, id);
      }
    }
    HarmlessRunDropsIdle(lims, ops, id);
  }

  /** Sweeps made for `caller` drop only idle entries of a tenant with limits `l`, in every
      run, exactly when they are harmless to it: covered, or met by a tight minute. */
  lemma DropsOnlyIdleIffHarmless(id: string, l: Limits, caller: Limits)
    requires !Unlimited(caller)
    ensures (forall ops :: Monotone(ops) ==> DropsIdle(Two(id, l, caller), ops, id)) <==> Harmless(l, caller)
  {
    var lims := Two(id, l, caller);
    if Harmless(l, caller) {
      forall ops | Monotone(ops) ensures DropsIdle(lims, ops, id) {
        HarmlessAlways(id, l, caller, ops);
      }
    } else {
      FullGains(caller);
      var times, b, now := HarmfulEntry(l, caller);
      var ops := Stage(id, l, caller, times, now, 0);
      StagedMonotone(lims, ops, id, l, caller, times, b, now, 0);
      var n := |times| + SWEEP_ABOVE;
      StagedDrop(lims, ops, id, l, caller, times, b, now, 0, n);
      var i := SomeTakeDrops(lims, ops, id, b, |times|, n);
      assert !DropsIdleAt(lims, ops, i, id);
    }
  }

  // ----- and in which the tenant sees it -----

  lemma SpendOne(l: Limits, ready: Bucket, j: nat)
    requires CanSpend(l, ready, j + 1)
    ensures Settled(l, Spent(l, ready, j)) == Spent(l, ready, j + 1)
  {
  }

  lemma SpendStep(sweeps: bool, m: map<string, Bucket>, id: string, l: Limits, ready: Bucket, j: nat)
    requires j > 0 && CanSpend(l, ready, j) && ready.last - ready.minuteStart < MINUTE
    requires Ready(l, Find(m, id), ready.last) == Spent(l, ready, j - 1)
    ensures Ready(l, Find(TakeStep(sweeps, m, id, l, ready.last), id), ready.last) == Spent(l, ready, j)
  {
    OwnTake(sweeps, m, id, l, ready.last);
    SpendOne(l, ready, j - 1);
    StillReady(l, Spent(l, ready, j));
  }

  /** Takes `from` to `n`, at one moment, all admitted. */
  lemma {:induction false} SpendInRun(sweeps: bool, lims: string -> Limits, ops: seq<Op>, id: string, from: nat, n: nat, ready: Bucket)
    requires from <= n <= |ops| && forall k :: from <= k < n ==> ops[k] == Op(id, ready.last)
    requires Ready(lims(id), Find(After(sweeps, lims, ops, from), id), ready.last) == ready
    requires CanSpend(lims(id), ready, n - from) && ready.last - ready.minuteStart < MINUTE
    ensures Ready(lims(id), Find(After(sweeps, lims, ops, n), id), ready.last) == Spent(lims(id), ready, n - from)
    decreases n
  {
    if n > from {
      var l := lims(id);
      SpendInRun(sweeps, lims, ops, id, from, n - 1, ready);
      AfterNext(sweeps, lims, ops, n);
      SpendStep(sweeps, After(sweeps, lims, ops, n - 1), id, l, ready, n - from);
    }
  }

  /** A tenant that has not taken yet is let through as often at once as its burst, and its
      minute, allow. */
  lemma BurstIsAdmitted(sweeps: bool, lims: string -> Limits, ops: seq<Op>, id: string, from: nat, n: nat, now: real)
    requires from <= n < |ops| && id !in After(sweeps, lims, ops, from) && forall k :: from <= k <= n ==> ops[k] == Op(id, now)
    requires lims(id).rps >= 1 && n - from < lims(id).burst && (lims(id).rpm >= 1 ==> n - from < lims(id).rpm)
    ensures Answer(sweeps, lims, ops, n) == Admitted
  {
    SpendInRun(sweeps, lims, ops, id, from, n, Fresh(lims(id), now));
  }

  /** Takes left at a moment: what the bucket holds then, in whole requests. */
  function Left(l: Limits, b: Bucket, now: real): int {
    (b.tokens + Gain(l.rps, now - b.last)).Floor
  }

  lemma {:induction false} OwnOk(l: Limits, times: seq<real>, now: real)
    requires BucketOn(l) && Rising(times) && times != [] && times[|times| - 1] <= now
    ensures Ok(l, Own(l, times).value, now)
  {
    var rest, at := times[..|times| - 1], times[|times| - 1];
    if rest == [] {
      GainAdds(l.rps, 0.0, 0.0);
    } else {
      OwnOk(l, rest, at);
      RefreshOk(l, Own(l, rest).value, at);
    }
    SettleOk(l, Ready(l, Own(l, rest), at), at);
  }

  lemma LeftInRange(l: Limits, caller: Limits, times: seq<real>, b: Bucket, now: real)
    requires BucketOn(l) && Harmful(l, caller, times, b, now)
    ensures 0 <= Left(l, b, now) < l.burst
  {
    OwnOk(l, times, now);
    GainSign(l.rps, now - b.last);
  }

  /** What a tenant with a burst of its own may spend, its minute allows. */
  predicate Roomy(l: Limits) {
    BucketOn(l) && (!MinuteOn(l) || l.rpm >= l.burst)
  }

  lemma SweptAdmits(lims: string -> Limits, ops: seq<Op>, id: string, from: nat, n: nat, now: real)
    requires Roomy(lims(id)) && from <= n < |ops| && n - from < lims(id).burst && forall k :: from <= k <= n ==> ops[k] == Op(id, now)
    requires id !in After(true, lims, ops, from)
    ensures Answer(true, lims, ops, n).Admitted?
  {
    SpendInRun(true, lims, ops, id, from, n, Fresh(lims(id), now));
  }

  lemma KeptRefuses(lims: string -> Limits, ops: seq<Op>, id: string, from: nat, n: nat, b: Bucket, now: real)
    requires Roomy(lims(id)) && from <= n < |ops| && forall k :: from <= k <= n ==> ops[k] == Op(id, now)
    requires Find(After(false, lims, ops, from), id) == Some(b) && n - from == Left(lims(id), b, now) < lims(id).burst
    requires now - b.minuteStart >= MINUTE && !Idle(lims(id), b, now)
    ensures Answer(false, lims, ops, n).Refused?
  {
    SpendInRun(false, lims, ops, id, from, n, Refreshed(lims(id), b, now));
  }

  /** The same takes, answered by the limiter and by one that keeps its entries. */
  lemma HarmShowsIn(lims: string -> Limits, ops: seq<Op>, id: string, l: Limits, caller: Limits, times: seq<real>, b: Bucket, now: real, from: nat, n: nat)
    requires Roomy(l) && !Unlimited(caller) && Harmful(l, caller, times, b, now)
    requires from == |times| + SWEEP_ABOVE && from <= n && n - from == Left(l, b, now) < l.burst
    requires Staged(lims, ops, id, l, caller, times, now, n - from + 1)
    ensures Answer(true, lims, ops, n).Admitted? && Answer(false, lims, ops, n).Refused?
  {
    StagedDrop(lims, ops, id, l, caller, times, b, now, n - from + 1, from);
    SweptAdmits(lims, ops, id, from, n, now);
    KeptRefuses(lims, ops, id, from, n, b, now);
  }

  /** A harmful entry shows when the minute allows what the bucket holds: the tenant is
      admitted where a limiter that kept its entry refuses. */
  lemma HarmShows(id: string, l: Limits, caller: Limits, times: seq<real>, b: Bucket, now: real) returns (ops: seq<Op>, i: nat)
    requires Roomy(l) && !Unlimited(caller) && Harmful(l, caller, times, b, now)
    ensures Monotone(ops) && i < |ops| && ops[i].id == id
    ensures Answer(true, Two(id, l, caller), ops, i).Admitted? && Answer(false, Two(id, l, caller), ops, i).Refused?
  {
    LeftInRange(l, caller, times, b, now);
    var lims, j, from := Two(id, l, caller), Left(l, b, now), |times| + SWEEP_ABOVE;
    i := from + j;
    ops := Stage(id, l, caller, times, now, i - from + 1);
    StagedMonotone(lims, ops, id, l, caller, times, b, now, i - from + 1);
    HarmShowsIn(lims, ops, id, l, caller, times, b, now, from, i);
  }

  ghost predicate SameAnswer(lims: string -> Limits, ops: seq<Op>, i: nat)
    requires i < |ops|
  {
    Answer(true, lims, ops, i) == Answer(false, lims, ops, i)
  }

  /** For a tenant whose minute allows at least its burst, or that has no minute ceiling,
      sweeps made for `caller` change none of its answers, in any run, exactly when they are
      harmless to it. */
  lemma SweepUnseenIffHarmless(id: string, l: Limits, caller: Limits)
    requires !Unlimited(caller) && (!MinuteOn(l) || l.rpm >= l.burst)
    ensures (forall ops: seq<Op>, i :: Monotone(ops) && 0 <= i < |ops| && ops[i].id == id ==> SameAnswer(Two(id, l, caller), ops, i))
            <==> Harmless(l, caller)
  {
    var lims := Two(id, l, caller);
    if Harmless(l, caller) {
      forall ops: seq<Op>, i | Monotone(ops) && 0 <= i < |ops| && ops[i].id == id ensures SameAnswer(lims, ops, i) {
        HarmlessAlways(id, l, caller, ops);
        SweepIsUnobservable(lims, ops, i);
      }
    } else {
      FullGains(caller);
      var times, b, now := HarmfulEntry(l, caller);
      var ops, i := HarmShows(id, l, caller, times, b, now);
      assert !SameAnswer(lims, ops, i);
    }
  }

  /** A tenant at one request per second with a burst of one, beside tenants with a minute
      ceiling only: in some run it is admitted at once where it should have been refused. */
  lemma UncoveredSweepChangesAnAnswer(id: string) returns (ops: seq<Op>, i: nat)
    ensures Monotone(ops) && i < |ops| && ops[i].id == id
    ensures var lims := Two(id, Limits(1, 1, 0), Limits(0, 0, 10));
            Answer(true, lims, ops, i).Admitted? && Answer(false, lims, ops, i).Refused?
  {
    var l, caller := Limits(1, 1, 0), Limits(0, 0, 10);
    var times, b, now := HarmfulEntry(l, caller);
    ops, i := HarmShows(id, l, caller, times, b, now);
  }

  /** The same tenant held to one request a minute is never harmed by them, covered or not. */
  lemma TightMinuteNeedsNoCover()
    ensures var l, caller := Limits(1, 1, 1), Limits(0, 0, 10); !(Full(l) <= Full(caller)) && Harmless(l, caller)
  {
    SixtySeconds(Limits(1, 1, 1));
    GainAdds(1, 0.0, 0.0);
  }

  // ----- a bucket that never refuses -----

  /** Two windows cannot spend the bucket, and a minute regains what a window spends. */
  predicate Spacious(l: Limits) {
    Paced(l) && 2 * l.rpm <= l.burst
  }

  lemma TokensToSpare(l: Limits, b: Bucket, now: real)
    requires Spacious(l) && Ok(l, b, now) && NearFull(l, b)
    ensures !TokensRefuse(l, Refreshed(l, b, now))
  {
    GainSign(l.rps, b.last - b.minuteStart);
    GainSign(l.rps, now - b.last);
    assert l.burst as real - b.tokens <= (2 * l.rpm - 1) as real;
    assert (2 * l.rpm) as real <= l.burst as real;
  }

  lemma NeverOutOfTokens(sweeps: bool, lims: string -> Limits, ops: seq<Op>, n: nat, id: string, now: real)
    requires n <= |ops| && Monotone(ops) && Spacious(lims(id)) && (n > 0 ==> ops[n - 1].at <= now)
    ensures !TokensRefuse(lims(id), Ready(lims(id), Find(After(sweeps, lims, ops, n), id), now))
  {
    var b := Find(After(sweeps, lims, ops, n), id);
    if b.Some? {
      RunOk(sweeps, lims, ops, n, id, now);
      RunNearFull(sweeps, lims, ops, n, id);
      TokensToSpare(lims(id), b.value, now);
    }
  }

  /** The windows agree, or the swept one is gone and the kept one over. */
  ghost predicate SameMinute(swept: Option<Bucket>, kept: Option<Bucket>, now: real) {
    if swept.None? then kept.None? || now - kept.value.minuteStart >= MINUTE
    else kept.Some? && swept.value.minuteStart == kept.value.minuteStart && swept.value.minuteCount == kept.value.minuteCount
  }

  lemma SameMinuteReady(l: Limits, swept: Option<Bucket>, kept: Option<Bucket>, now: real)
    requires SameMinute(swept, kept, now)
    ensures var rs, rk := Ready(l, swept, now), Ready(l, kept, now);
            rs.minuteStart == rk.minuteStart && rs.minuteCount == rk.minuteCount
  {
  }

  lemma {:induction false} MinutesAgree(lims: string -> Limits, ops: seq<Op>, id: string, n: nat, now: real)
    requires n <= |ops| && Monotone(ops) && Spacious(lims(id)) && (n > 0 ==> ops[n - 1].at <= now)
    ensures SameMinute(Find(After(true, lims, ops, n), id), Find(After(false, lims, ops, n), id), now)
    decreases n
  {
    if n > 0 {
      var op := ops[n - 1];
      var s, k := Find(After(true, lims, ops, n - 1), id), Find(After(false, lims, ops, n - 1), id);
      MinutesAgree(lims, ops, id, n - 1, op.at);
      if op.id == id {
        SameMinuteReady(lims(id), s, k, op.at);
        NeverOutOfTokens(true, lims, ops, n - 1, id, op.at);
        NeverOutOfTokens(false, lims, ops, n - 1, id, op.at);
        AfterNext(true, lims, ops, n);
        AfterNext(false, lims, ops, n);
        OwnTake(true, After(true, lims, ops, n - 1), id, lims(id), op.at);
        OwnTake(false, After(false, lims, ops, n - 1), id, lims(id), op.at);
      } else {
        OthersAfter(true, lims, ops, n, id);
        OthersAfter(false, lims, ops, n, id);
      }
    }
  }

  /** A tenant whose minute is the only ceiling it can meet sees no sweep at all, harmless to
      its entry or not. */
  lemma SpaciousSeesNoSweep(lims: string -> Limits, ops: seq<Op>, i: nat)
    requires i < |ops| && Monotone(ops) && Spacious(lims(ops[i].id))
    ensures SameAnswer(lims, ops, i)
  {
    var id, at := ops[i].id, ops[i].at;
    MinutesAgree(lims, ops, id, i, at);
    SameMinuteReady(lims(id), Find(After(true, lims, ops, i), id), Find(After(false, lims, ops, i), id), at);
    NeverOutOfTokens(true, lims, ops, i, id, at);
    NeverOutOfTokens(false, lims, ops, i, id, at);
  }

  /** Such limits, for which some run drops an entry that is not idle. */
  lemma UnseenThoughNotIdle(id: string)
    ensures var l, caller := Limits(1, 4, 2), Limits(0, 0, 10);
            Spacious(l) && !Harmless(l, caller) &&
            exists ops :: Monotone(ops) && !DropsIdle(Two(id, l, caller), ops, id)
  {
    var l, caller := Limits(1, 4, 2), Limits(0, 0, 10);
    GainAdds(1, 0.0, 0.0);
    DropsOnlyIdleIffHarmless(id, l, caller);
  }
}
