/**
 The circuit breaker: one closed / open / half-open machine per key, driven by
 requests that ask early (`Allow`) and report late (`Success`, `Failure`).

 `Breaker` is the mutable object.  Its methods are proved against the per-entry
 functions `AfterAllow`, `AfterSuccess` and `AfterFailure`; what the breaker
 promises is then proved about every sequence of those steps, which covers every
 interleaving of concurrent requests because each method runs under one lock.
 Time is an integer number of nanoseconds.
 */
module Breakers {
  import opened Names

  datatype State = Closed | Open | HalfOpen

  datatype Entry = Entry(failures: seq<int>, state: State, openedAt: int, probing: bool)

  datatype Config = Config(threshold: int, window: int, openFor: int)

  datatype Status = Status(state: State, until: int)

  datatype Change = Change(key: string, from: State, to: State)

  const SECOND: int := 1_000_000_000

  const FRESH: Entry := Entry([], Closed, 0, false)

  predicate ValidConfig(c: Config) {
    c.threshold >= 1 && c.window > 0 && c.openFor > 0
  }

  // ----- one entry -----

  /** The failures that have not aged out: strictly after the cutoff. */
  function InWindow(times: seq<int>, cutoff: int): seq<int> {
    if times == [] then []
    else InWindow(times[..|times| - 1], cutoff) +
         (if times[|times| - 1] > cutoff then [times[|times| - 1]] else [])
  }

  predicate CoolingOff(c: Config, e: Entry, now: int) {
    e.state == Open && now - e.openedAt < c.openFor
  }

  /** What `Allow` answers. */
  predicate Admits(c: Config, e: Entry, now: int) {
    match e.state
    case Closed => true
    case Open => !CoolingOff(c, e, now)
    case HalfOpen => !e.probing
  }

  function AfterAllow(c: Config, e: Entry, now: int): Entry {
    if e.state == Closed || !Admits(c, e, now) then e
    else e.(state := HalfOpen, probing := true)
  }

  function AfterSuccess(e: Entry): Entry {
    e.(failures := [], state := Closed, probing := false)
  }

  function AfterFailure(c: Config, e: Entry, now: int): Entry {
    if e.state == HalfOpen then e.(state := Open, openedAt := now, probing := false)
    else
      var failures := InWindow(e.failures, now - c.window) + [now];
      if e.state == Closed && |failures| >= c.threshold
      then e.(failures := failures, state := Open, openedAt := now)
      else e.(failures := failures)
  }

  /** What `State` and `Snapshot` report: a cooled-off open entry reads half-open. */
  function Reported(c: Config, e: Entry, now: int): State {
    if e.state == Open && !CoolingOff(c, e, now) then HalfOpen else e.state
  }

  // ----- all entries -----

  datatype Event = Ask(key: string, at: int) | Succeed(key: string, at: int) | Fail(key: string, at: int)

  /** A key never reported on behaves as a closed entry with no history. */
  function View(entries: map<string, Entry>, key: string): Entry {
    if key in entries then entries[key] else FRESH
  }

  function Step(c: Config, entries: map<string, Entry>, ev: Event): map<string, Entry> {
    match ev
    case Ask(key, at) =>
      if key in entries then entries[key := AfterAllow(c, entries[key], at)] else entries
    case Succeed(key, _) =>
      if key in entries then entries[key := AfterSuccess(entries[key])] else entries
    case Fail(key, at) => entries[key := AfterFailure(c, View(entries, key), at)]
  }

  function Run(c: Config, start: map<string, Entry>, evs: seq<Event>): map<string, Entry> {
    if evs == [] then start
    else Step(c, Run(c, start, evs[..|evs| - 1]), evs[|evs| - 1])
  }

  /** The entry for `key` after the first `n` events of a run from an empty breaker. */
  function At(c: Config, evs: seq<Event>, n: nat, key: string): Entry
    requires n <= |evs|
  {
    View(Run(c, map[], evs[..n]), key)
  }

  ghost predicate Monotone(evs: seq<Event>) {
    forall i, j :: 0 <= i < j < |evs| ==> evs[i].at <= evs[j].at
  }

  predicate Reports(ev: Event, key: string) {
    !ev.Ask? && ev.key == key
  }

  // ----- the object -----

  class Breaker {
    const cfg: Config
    var entries: map<string, Entry>
    var changes: seq<Change>  // every call of the onChange hook

    constructor (threshold: int, window: int, openFor: int)
      ensures ValidConfig(cfg) && entries == map[] && changes == []
      ensures cfg.threshold == if threshold >= 1 then threshold else 5
      ensures cfg.window == if window > 0 then window else 30 * SECOND
      ensures cfg.openFor == if openFor > 0 then openFor else 60 * SECOND
    {
      cfg := Config(
        if threshold < 1 then 5 else threshold,
        if window <= 0 then 30 * SECOND else window,
        if openFor <= 0 then 60 * SECOND else openFor);
      entries := map[];
      changes := [];
    }

    /** Stores `e` moved to state `to`, telling the hook when the state changes. */
    method Transition(key: string, e: Entry, to: State)
      modifies this
      ensures entries == old(entries)[key := e.(state := to, probing := e.probing && (to == e.state || to != Closed))]
      ensures changes == old(changes) + (if e.state == to then [] else [Change(key, e.state, to)])
    {
      var from := e.state;
      if from == to {
        entries := entries[key := e];
        return;
      }
      var moved := e.(state := to);
      if to == Closed {
        moved := moved.(probing := false);
      }
      entries := entries[key := moved];
      changes := changes + [Change(key, from, to)];
    }

    method Allow(key: string, now: int) returns (ok: bool)
      modifies this
      ensures ok == Admits(cfg, View(old(entries), key), now)
      ensures entries == Step(cfg, old(entries), Ask(key, now))
      ensures changes == old(changes) + Changed(key, View(old(entries), key), View(entries, key))
    {
      if key !in entries {
        return true;
      }
      var e := entries[key];
      match e.state {
        case Closed =>
          assert entries == entries[key := e];
          return true;
        case Open =>
          if now - e.openedAt < cfg.openFor {
            assert entries == entries[key := e];
            return false;
          }
          Transition(key, e, HalfOpen);
          entries := entries[key := entries[key].(probing := true)];
          return true;
        case HalfOpen =>
          if e.probing {
            assert entries == entries[key := e];
            return false;
          }
          entries := entries[key := e.(probing := true)];
          return true;
      }
    }

    method Success(key: string)
      modifies this
      ensures forall at :: entries == Step(cfg, old(entries), Succeed(key, at))
      ensures changes == old(changes) + Changed(key, View(old(entries), key), View(entries, key))
    {
      if key !in entries {
        return;
      }
      var e := entries[key].(probing := false, failures := []);
      entries := entries[key := e];
      if e.state != Closed {
        Transition(key, e, Closed);
      }
    }

    method Failure(key: string, now: int)
      modifies this
      ensures entries == Step(cfg, old(entries), Fail(key, now))
      ensures changes == old(changes) + Changed(key, View(old(entries), key), View(entries, key))
    {
      var e := if key in entries then entries[key] else FRESH;
      if e.state == HalfOpen {
        Transition(key, e.(probing := false, openedAt := now), Open);
        return;
      }
      var cutoff := now - cfg.window;
      var kept: seq<int> := [];
      for i := 0 to |e.failures|
        invariant kept == InWindow(e.failures[..i], cutoff)
      {
        assert e.failures[..i + 1][..i] == e.failures[..i];
        if e.failures[i] > cutoff {
          kept := kept + [e.failures[i]];
        }
      }
      assert e.failures[..|e.failures|] == e.failures;
      e := e.(failures := kept + [now]);
      if |e.failures| >= cfg.threshold && e.state == Closed {
        Transition(key, e.(openedAt := now), Open);
      } else {
        entries := entries[key := e];
      }
    }

    method State(key: string, now: int) returns (s: State)
      ensures s == Reported(cfg, View(entries, key), now)
    {
      if key !in entries {
        return Closed;
      }
      var e := entries[key];
      if e.state == Open && now - e.openedAt >= cfg.openFor {
        return HalfOpen;
      }
      return e.state;
    }

    /** Exactly the keys `State` does not call closed, each with its reported state,
        and for an open one the moment its cool-off ends. */
    method Snapshot(now: int) returns (out: map<string, Status>)
      ensures out.Keys == set k | k in entries && Reported(cfg, entries[k], now) != Closed
      ensures forall k :: k in out ==> out[k].state == Reported(cfg, entries[k], now)
      ensures forall k :: k in out && out[k].state == Open ==> out[k].until == entries[k].openedAt + cfg.openFor
    {
      out := map[];
      var left := entries.Keys;
      while left != {}
        invariant left <= entries.Keys
        invariant out.Keys == set k | k in entries && k !in left && Reported(cfg, entries[k], now) != Closed
        invariant forall k :: k in out ==> out[k].state == Reported(cfg, entries[k], now)
        invariant forall k :: k in out && out[k].state == Open ==> out[k].until == entries[k].openedAt + cfg.openFor
        decreases |left|
      {
        var key :| key in left;
        left := left - {key};
        var e := entries[key];
        var state := e.state;
        if state == Open && now - e.openedAt >= cfg.openFor {
          state := HalfOpen;
        }
        if state != Closed {
          out := out[key := Status(state, if state == Open then e.openedAt + cfg.openFor else 0)];
        }
      }
    }
  }

  /** The hook hears of a step exactly when it changed the stored state. */
  function Changed(key: string, before: Entry, after: Entry): seq<Change> {
    if before.state == after.state then [] else [Change(key, before.state, after.state)]
  }

  /** What the hook has heard, over a run. */
  function Told(c: Config, evs: seq<Event>): seq<Change> {
    if evs == [] then []
    else
      var rest, ev := evs[..|evs| - 1], evs[|evs| - 1];
      var before := Run(c, map[], rest);
      Told(c, rest) + Changed(ev.key, View(before, ev.key), View(Step(c, before, ev), ev.key))
  }

  /** The state a listener that starts from closed holds a key to be in. */
  function Believed(changes: seq<Change>, key: string): State {
    if changes == [] then Closed
    else if changes[|changes| - 1].key == key then changes[|changes| - 1].to
    else Believed(changes[..|changes| - 1], key)
  }

  // ----- protocol -----

  /** One key's entry is moved only by that key's own events. */
  lemma StepView(c: Config, entries: map<string, Entry>, ev: Event, key: string)
    ensures View(Step(c, entries, ev), key) ==
            if ev.key != key then View(entries, key)
            else match ev
                 case Ask(_, at) => AfterAllow(c, View(entries, key), at)
                 case Succeed(_, _) => AfterSuccess(View(entries, key))
                 case Fail(_, at) => AfterFailure(c, View(entries, key), at)
  {
  }

  lemma AtStep(c: Config, evs: seq<Event>, n: nat, key: string)
    requires n < |evs|
    ensures At(c, evs, n + 1, key) == View(Step(c, Run(c, map[], evs[..n]), evs[n]), key)
  {
    assert evs[..n + 1][..n] == evs[..n];
  }

  /** Following the hook's calls, a listener always knows every key's stored state. */
  lemma {:induction false} ListenerIsRight(c: Config, evs: seq<Event>, key: string)
    ensures Believed(Told(c, evs), key) == At(c, evs, |evs|, key).state
  {
    if evs == [] {
      assert evs[..0] == [];
    } else {
      var rest, ev := evs[..|evs| - 1], evs[|evs| - 1];
      ListenerIsRight(c, rest, key);
      assert rest[..|rest|] == rest && evs[..|evs|] == evs;
      StepView(c, Run(c, map[], rest), ev, key);
      var more := Changed(ev.key, View(Run(c, map[], rest), ev.key), View(Run(c, map[], evs), ev.key));
      assert more != [] ==> (Told(c, rest) + more)[..|Told(c, rest)|] == Told(c, rest);
      assert more == [] ==> Told(c, rest) + more == Told(c, rest);
    }
  }

  /** In every run, an entry is half-open exactly when its probing flag is set.
      So the half-open branch of `Allow` that admits never runs. */
  lemma {:induction false} HalfOpenIffProbing(c: Config, evs: seq<Event>, n: nat, key: string)
    requires n <= |evs|
    ensures At(c, evs, n, key).state == HalfOpen <==> At(c, evs, n, key).probing
  {
    if n > 0 {
      HalfOpenIffProbing(c, evs, n - 1, key);
      AtStep(c, evs, n - 1, key);
      StepView(c, Run(c, map[], evs[..n - 1]), evs[n - 1], key);
    }
  }

  /** Event `i` is an `Allow` that was granted as the recovery probe. */
  predicate ProbeAt(c: Config, evs: seq<Event>, i: nat, key: string)
    requires i < |evs|
  {
    && evs[i].Ask? && evs[i].key == key
    && Admits(c, At(c, evs, i, key), evs[i].at)
    && At(c, evs, i + 1, key).state == HalfOpen
  }

  lemma {:induction false} HalfOpenHolds(c: Config, evs: seq<Event>, i: nat, j: nat, key: string)
    requires i <= j <= |evs|
    requires At(c, evs, i, key).state == HalfOpen
    requires forall k :: i <= k < j ==> !Reports(evs[k], key)
    ensures At(c, evs, j, key) == At(c, evs, i, key)
    decreases j - i
  {
    if i < j {
      HalfOpenHolds(c, evs, i, j - 1, key);
      HalfOpenIffProbing(c, evs, j - 1, key);
      AtStep(c, evs, j - 1, key);
      StepView(c, Run(c, map[], evs[..j - 1]), evs[j - 1], key);
      assert !Reports(evs[j - 1], key);
    }
  }

  /** Between two probe admissions of a key there is always a report for that key. */
  lemma ProbesAreSeparatedByAReport(c: Config, evs: seq<Event>, i: nat, j: nat, key: string)
    requires i < j < |evs|
    requires ProbeAt(c, evs, i, key) && ProbeAt(c, evs, j, key)
    ensures exists k :: i < k < j && Reports(evs[k], key)
  {
    if forall k :: i < k < j ==> !Reports(evs[k], key) {
      HalfOpenHolds(c, evs, i + 1, j, key);
      HalfOpenIffProbing(c, evs, j, key);
      assert false;
    }
  }

  /** An open entry stays as it is until a success or a question at or after the deadline. */
  lemma {:induction false} OpenHolds(c: Config, evs: seq<Event>, i: nat, j: nat, key: string, deadline: int)
    requires i <= j <= |evs|
    requires At(c, evs, i, key).state == Open && deadline == At(c, evs, i, key).openedAt + c.openFor
    requires forall k :: i <= k < j && evs[k].key == key && evs[k].Ask? ==> evs[k].at < deadline
    requires forall k :: i <= k < j ==> !(evs[k].Succeed? && evs[k].key == key)
    ensures At(c, evs, j, key).state == Open && At(c, evs, j, key).openedAt == At(c, evs, i, key).openedAt
    decreases j - i
  {
    if i < j {
      OpenHolds(c, evs, i, j - 1, key, deadline);
      AtStep(c, evs, j - 1, key);
      StepView(c, Run(c, map[], evs[..j - 1]), evs[j - 1], key);
    }
  }

  /** Once open, nothing is admitted before the cool-off ends unless a success,
      perhaps from a request admitted long before, arrives in between. */
  lemma AdmissionInsideCoolOffNeedsSuccess(c: Config, evs: seq<Event>, i: nat, j: nat, key: string)
    requires i <= j < |evs| && Monotone(evs)
    requires At(c, evs, i, key).state == Open
    requires evs[j].Ask? && evs[j].key == key
    requires evs[j].at < At(c, evs, i, key).openedAt + c.openFor
    requires Admits(c, At(c, evs, j, key), evs[j].at)
    ensures exists k :: i <= k < j && evs[k].Succeed? && evs[k].key == key
  {
    if forall k :: i <= k < j ==> !(evs[k].Succeed? && evs[k].key == key) {
      OpenHolds(c, evs, i, j, key, At(c, evs, i, key).openedAt + c.openFor);
      assert false;
    }
  }

  /** Event `i` is a failure that opens `key`: of a closed entry, or of the probe. */
  predicate OpensAt(c: Config, evs: seq<Event>, i: nat, key: string)
    requires i < |evs|
  {
    && evs[i].Fail? && evs[i].key == key
    && At(c, evs, i, key).state != Open && At(c, evs, i + 1, key).state == Open
  }

  lemma OpenedThen(c: Config, evs: seq<Event>, i: nat, key: string)
    requires i < |evs| && OpensAt(c, evs, i, key)
    ensures At(c, evs, i + 1, key).openedAt == evs[i].at
  {
    AtStep(c, evs, i, key);
    StepView(c, Run(c, map[], evs[..i]), evs[i], key);
  }

  /** The cool-off runs from the failure that opened the entry, the first or a failed probe's:
      within it nothing is admitted unless a success arrives. */
  lemma CoolOffRunsFromTheFailure(c: Config, evs: seq<Event>, i: nat, j: nat, key: string)
    requires i < j < |evs| && Monotone(evs) && OpensAt(c, evs, i, key)
    requires evs[j].Ask? && evs[j].key == key && evs[j].at < evs[i].at + c.openFor
    requires Admits(c, At(c, evs, j, key), evs[j].at)
    ensures exists k :: i < k < j && evs[k].Succeed? && evs[k].key == key
  {
    OpenedThen(c, evs, i, key);
    AdmissionInsideCoolOffNeedsSuccess(c, evs, i + 1, j, key);
  }

  /** And no longer: the first question at or after its end is admitted, whatever failures of
      requests let in earlier were reported meanwhile. */
  lemma FirstQuestionAfterCoolOffIsAdmitted(c: Config, evs: seq<Event>, i: nat, j: nat, key: string)
    requires i < j < |evs| && OpensAt(c, evs, i, key)
    requires evs[j].Ask? && evs[j].key == key && evs[j].at >= evs[i].at + c.openFor
    requires forall k :: i < k < j && evs[k].key == key && evs[k].Ask? ==> evs[k].at < evs[i].at + c.openFor
    requires forall k :: i < k < j ==> !(evs[k].Succeed? && evs[k].key == key)
    ensures Admits(c, At(c, evs, j, key), evs[j].at)
  {
    OpenedThen(c, evs, i, key);
    OpenHolds(c, evs, i + 1, j, key, evs[i].at + c.openFor);
  }

  lemma {:induction false} ClosedHolds(c: Config, evs: seq<Event>, i: nat, j: nat, key: string)
    requires i <= j <= |evs| && At(c, evs, i, key).state == Closed
    requires forall k :: i <= k < j ==> !(evs[k].Fail? && evs[k].key == key)
    ensures At(c, evs, j, key).state == Closed
    decreases j - i
  {
    if i < j {
      ClosedHolds(c, evs, i, j - 1, key);
      AtStep(c, evs, j - 1, key);
      StepView(c, Run(c, map[], evs[..j - 1]), evs[j - 1], key);
    }
  }

  /** A success, however late, is followed by admission until the next failure. */
  lemma SuccessIsFollowedByAdmission(c: Config, evs: seq<Event>, i: nat, j: nat, key: string)
    requires i < j < |evs| && evs[i].Succeed? && evs[i].key == key && evs[j].Ask? && evs[j].key == key
    requires forall k :: i < k < j ==> !(evs[k].Fail? && evs[k].key == key)
    ensures Admits(c, At(c, evs, j, key), evs[j].at)
  {
    AtStep(c, evs, i, key);
    StepView(c, Run(c, map[], evs[..i]), evs[i], key);
    ClosedHolds(c, evs, i + 1, j, key);
  }

  /** A key that never failed is always admitted. */
  lemma NeverFailedIsAdmitted(c: Config, evs: seq<Event>, j: nat, key: string)
    requires j < |evs| && evs[j].Ask? && evs[j].key == key
    requires forall k :: 0 <= k < j ==> !(evs[k].Fail? && evs[k].key == key)
    ensures Admits(c, At(c, evs, j, key), evs[j].at)
  {
    ClosedHolds(c, evs, 0, j, key);
  }

  /** In every run, what `State` reports decides what `Allow` answers, up to whether
      a probe is already out; and an open entry's `until` is the first admitting moment. */
  lemma ReportedStateDecidesAllow(c: Config, evs: seq<Event>, key: string, now: int)
    requires ValidConfig(c)
    ensures var e := At(c, evs, |evs|, key);
            && (Admits(c, e, now) <==> Reported(c, e, now) != Open && e.state != HalfOpen)
            && (Reported(c, e, now) == Closed ==> AfterAllow(c, e, now) == e)
            && (Reported(c, e, now) == HalfOpen ==> AfterAllow(c, e, now).state == HalfOpen)
            && (e.state == Open ==> forall t :: Admits(c, e, t) <==> t >= e.openedAt + c.openFor)
  {
    HalfOpenIffProbing(c, evs, |evs|, key);
  }

  // ----- the sliding window -----

  /** The complete log: when `key` failed since its last success, nothing pruned. */
  function SinceSuccess(evs: seq<Event>, key: string): seq<int> {
    if evs == [] then []
    else
      var before := SinceSuccess(evs[..|evs| - 1], key);
      match evs[|evs| - 1]
      case Ask(_, _) => before
      case Succeed(k, _) => if k == key then [] else before
      case Fail(k, at) => if k == key then before + [at] else before
  }

  lemma {:induction false} InWindowTwice(times: seq<int>, early: int, late: int)
    requires early <= late
    ensures InWindow(InWindow(times, early), late) == InWindow(times, late)
  {
    if times != [] {
      var rest, last := times[..|times| - 1], times[|times| - 1];
      InWindowTwice(rest, early, late);
      if last > early {
        assert InWindow(times, early)[..|InWindow(times, early)| - 1] == InWindow(rest, early);
      } else {
        assert InWindow(times, early) == InWindow(rest, early);
      }
    }
  }

  lemma InWindowSnoc(times: seq<int>, t: int, cutoff: int)
    ensures InWindow(times + [t], cutoff) == InWindow(times, cutoff) + (if t > cutoff then [t] else [])
  {
    assert (times + [t])[..|times|] == times;
  }

  lemma {:induction false} LogBound(evs: seq<Event>, key: string)
    requires Monotone(evs)
    ensures forall t :: t in SinceSuccess(evs, key) ==> evs != [] && t <= evs[|evs| - 1].at
  {
    if evs != [] {
      var rest := evs[..|evs| - 1];
      LogBound(rest, key);
    }
  }

  /** The log cut to the window that ends at its latest failure. */
  function Windowed(c: Config, log: seq<int>): seq<int> {
    if log == [] then [] else InWindow(log, log[|log| - 1] - c.window)
  }

  /** Pruning the already pruned list and appending is the same as cutting the complete log. */
  lemma FailureExtendsWindow(c: Config, log: seq<int>, now: int)
    requires c.window > 0 && (log != [] ==> log[|log| - 1] <= now)
    ensures InWindow(Windowed(c, log), now - c.window) + [now] == Windowed(c, log + [now])
  {
    InWindowSnoc(log, now, now - c.window);
    if log != [] {
      InWindowTwice(log, log[|log| - 1] - c.window, now - c.window);
    }
  }

  lemma LastInLog(evs: seq<Event>, key: string, now: int)
    requires Monotone(evs) && (evs != [] ==> evs[|evs| - 1].at <= now)
    ensures var log := SinceSuccess(evs, key); log != [] ==> log[|log| - 1] <= now
  {
    LogBound(evs, key);
    var log := SinceSuccess(evs, key);
    assert log != [] ==> log[|log| - 1] in log;
  }

  ghost predicate WindowInv(c: Config, e: Entry, log: seq<int>) {
    e.state == Closed ==> |e.failures| < c.threshold && e.failures == Windowed(c, log)
  }

  lemma WindowStep(c: Config, e: Entry, log: seq<int>, now: int)
    requires ValidConfig(c) && WindowInv(c, e, log) && (log != [] ==> log[|log| - 1] <= now)
    ensures WindowInv(c, AfterFailure(c, e, now), log + [now])
  {
    if e.state == Closed {
      FailureExtendsWindow(c, log, now);
    }
  }

  /** While closed, the list pruned in place is the complete log cut to the window
      that ends at the latest failure, and it is shorter than the threshold. */
  lemma {:induction false} PrunedListIsWindowedLog(c: Config, evs: seq<Event>, key: string)
    requires ValidConfig(c) && Monotone(evs)
    ensures WindowInv(c, View(Run(c, map[], evs), key), SinceSuccess(evs, key))
  {
    if evs != [] {
      var n := |evs| - 1;
      var rest := evs[..n];
      PrunedListIsWindowedLog(c, rest, key);
      StepView(c, Run(c, map[], rest), evs[n], key);
      if evs[n].Fail? && evs[n].key == key {
        LastInLog(rest, key, evs[n].at);
        WindowStep(c, View(Run(c, map[], rest), key), SinceSuccess(rest, key), evs[n].at);
      }
    }
  }

  lemma {:induction false} InWindowLength(times: seq<int>, cutoff: int)
    ensures |InWindow(times, cutoff)| <= |times|
  {
    if times != [] {
      InWindowLength(times[..|times| - 1], cutoff);
    }
  }

  /** The events that count: failures of `key` after `cutoff` with no success since. */
  ghost function Recent(evs: seq<Event>, key: string, cutoff: int): set<nat> {
    set k: nat | k < |evs| && evs[k].Fail? && evs[k].key == key && evs[k].at > cutoff && !SucceedsAfter(evs, k, key)
  }

  ghost predicate SucceedsAfter(evs: seq<Event>, k: nat, key: string) {
    exists m :: k < m < |evs| && evs[m].Succeed? && evs[m].key == key
  }

  lemma SucceedsLater(evs: seq<Event>, ev: Event, k: nat, key: string)
    requires k < |evs|
    ensures SucceedsAfter(evs + [ev], k, key) <==> SucceedsAfter(evs, k, key) || (ev.Succeed? && ev.key == key)
  {
    var longer := evs + [ev];
    if SucceedsAfter(evs, k, key) {
      var m :| k < m < |evs| && evs[m].Succeed? && evs[m].key == key;
      assert longer[m] == evs[m];
    }
    assert longer[|evs|] == ev;
  }

  lemma RecentSnoc(evs: seq<Event>, ev: Event, key: string, cutoff: int)
    ensures Recent(evs + [ev], key, cutoff) ==
            if ev.key != key || ev.Ask? then Recent(evs, key, cutoff)
            else if ev.Succeed? then {}
            else if ev.at > cutoff then Recent(evs, key, cutoff) + {|evs|} else Recent(evs, key, cutoff)
  {
    var longer, n := evs + [ev], |evs|;
    forall k: nat | k < n ensures SucceedsAfter(longer, k, key) <==> SucceedsAfter(evs, k, key) || (ev.Succeed? && ev.key == key) {
      SucceedsLater(evs, ev, k, key);
    }
    assert forall k: nat :: k < n ==> longer[k] == evs[k];
    assert !SucceedsAfter(longer, n, key);
  }

  lemma RecentSize(evs: seq<Event>, ev: Event, key: string, cutoff: int)
    ensures |Recent(evs + [ev], key, cutoff)| ==
            if ev.key != key || ev.Ask? then |Recent(evs, key, cutoff)|
            else if ev.Succeed? then 0
            else |Recent(evs, key, cutoff)| + if ev.at > cutoff then 1 else 0
  {
    RecentSnoc(evs, ev, key, cutoff);
    assert |evs| !in Recent(evs, key, cutoff);
  }

  lemma LogSize(evs: seq<Event>, ev: Event, key: string, cutoff: int)
    ensures |InWindow(SinceSuccess(evs + [ev], key), cutoff)| ==
            if ev.key != key || ev.Ask? then |InWindow(SinceSuccess(evs, key), cutoff)|
            else if ev.Succeed? then 0
            else |InWindow(SinceSuccess(evs, key), cutoff)| + if ev.at > cutoff then 1 else 0
  {
    assert (evs + [ev])[..|evs|] == evs;
    if ev.Fail? && ev.key == key {
      InWindowSnoc(SinceSuccess(evs, key), ev.at, cutoff);
    }
  }

  /** The windowed part of the log counts exactly those events. */
  lemma {:induction false} LogCountsRecent(evs: seq<Event>, key: string, cutoff: int)
    ensures |InWindow(SinceSuccess(evs, key), cutoff)| == |Recent(evs, key, cutoff)|
  {
    if evs == [] {
      assert Recent(evs, key, cutoff) == {};
    } else {
      var rest, ev := evs[..|evs| - 1], evs[|evs| - 1];
      LogCountsRecent(rest, key, cutoff);
      RecentSize(rest, ev, key, cutoff);
      LogSize(rest, ev, key, cutoff);
      assert evs == rest + [ev];
    }
  }

  lemma OpensByTheLog(c: Config, evs: seq<Event>, key: string, now: int)
    requires ValidConfig(c) && Monotone(evs) && (evs != [] ==> evs[|evs| - 1].at <= now)
    requires View(Run(c, map[], evs), key).state == Closed
    ensures var after := View(Step(c, Run(c, map[], evs), Fail(key, now)), key);
            var count := |InWindow(SinceSuccess(evs, key) + [now], now - c.window)|;
            && count <= c.threshold
            && (after.state == Open <==> count == c.threshold)
            && (after.state == Open ==> after.openedAt == now)
            && (after.state == Open || after.state == Closed)
  {
    var e, log := View(Run(c, map[], evs), key), SinceSuccess(evs, key);
    StepView(c, Run(c, map[], evs), Fail(key, now), key);
    PrunedListIsWindowedLog(c, evs, key);
    LastInLog(evs, key, now);
    FailureExtendsWindow(c, log, now);
    InWindowLength(e.failures, now - c.window);
  }

  lemma CountedWithNow(c: Config, evs: seq<Event>, key: string, now: int)
    requires c.window > 0
    ensures |InWindow(SinceSuccess(evs, key) + [now], now - c.window)| == |Recent(evs, key, now - c.window)| + 1
  {
    InWindowSnoc(SinceSuccess(evs, key), now, now - c.window);
    LogCountsRecent(evs, key, now - c.window);
  }

  /** A closed breaker opens on exactly the failure that, with those of the last window since
      the last success, makes up the threshold: on that one, and on none before. */
  lemma OpensExactlyAtThreshold(c: Config, evs: seq<Event>, key: string, now: int)
    requires ValidConfig(c) && Monotone(evs) && (evs != [] ==> evs[|evs| - 1].at <= now)
    requires View(Run(c, map[], evs), key).state == Closed
    ensures var after := View(Step(c, Run(c, map[], evs), Fail(key, now)), key);
            var count := |Recent(evs, key, now - c.window)| + 1;
            && count <= c.threshold
            && (after.state == Open <==> count == c.threshold)
            && (after.state == Open ==> after.openedAt == now)
            && (after.state == Open || after.state == Closed)
  {
    OpensByTheLog(c, evs, key, now);
    CountedWithNow(c, evs, key, now);
  }

  // ----- keys -----

  function Key(tenant: string, provider: string, model: string): string {
    tenant + "/" + provider + "/" + model
  }

  /** Split on the first two slashes only; a model id keeps any slash of its own. */
  function SplitKey(key: string): (string, string, string) {
    var (found, tenant, rest) := Cut(key);
    if !found then ("", "", key)
    else
      var (again, provider, model) := Cut(rest);
      if !again then ("", "", key) else (tenant, provider, model)
  }

  /** `SplitKey` undoes `Key` whenever tenant and provider carry no slash, so two
      different candidates never share a breaker entry. */
  lemma SplitUndoesKey(tenant: string, provider: string, model: string)
    requires '/' !in tenant && '/' !in provider
    ensures SplitKey(Key(tenant, provider, model)) == (tenant, provider, model)
  {
    assert Key(tenant, provider, model) == tenant + "/" + (provider + "/" + model);
    CutAtFirst(tenant, provider + "/" + model);
    CutAtFirst(provider, model);
  }
}
