/**
 Many requests over one breaker.  A request begins a candidate by asking the
 breaker and, if admitted, is in flight for that key until it leaves the
 candidate; it may leave long after the breaker has moved on, and on some exits it
 says nothing.  Any interleaving of begin and leave steps is a run.
 */
module ProbeProtocol {
  import opened Breakers
  import opened Dispatch

  /** `flights` are the admitted requests and the key each is busy with, `prober` the request
      last admitted as the probe of a key, `abandoned` the keys whose prober left in silence. */
  datatype System = System(
    entries: map<string, Entry>, flights: map<nat, string>, prober: map<string, nat>, abandoned: set<string>)

  datatype Act = Begin(req: nat, key: string, at: int) | Leave(req: nat, exit: Exit, at: int)

  const START: System := System(map[], map[], map[], {})

  predicate Reporting(e: Exit) {
    e == Served || e == Cascaded
  }

  predicate Enabled(s: System, a: Act) {
    match a
    case Begin(req, _, _) => req !in s.flights
    case Leave(req, exit, _) => req in s.flights && exit != Skipped
  }

  function Next(c: Config, s: System, a: Act): System
    requires Enabled(s, a)
  {
    match a
    case Begin(req, key, at) =>
      var entries := Step(c, s.entries, Ask(key, at));
      if !Admits(c, View(s.entries, key), at) then s.(entries := entries)
      else
        s.(entries := entries, flights := s.flights[req := key],
           prober := if View(entries, key).state == HalfOpen then s.prober[key := req] else s.prober)
    case Leave(req, exit, at) =>
      var key := s.flights[req];
      var flights := s.flights - {req};
      if Reporting(exit) then
        s.(entries := Step(c, s.entries, if exit == Served then Succeed(key, at) else Fail(key, at)),
           flights := flights, abandoned := s.abandoned - {key})
      else
        s.(flights := flights,
           abandoned := if Probing(s, req, key) then s.abandoned + {key} else s.abandoned)
  }

  predicate HalfOpenAt(s: System, key: string) {
    View(s.entries, key).state == HalfOpen
  }

  predicate Probing(s: System, req: nat, key: string) {
    && HalfOpenAt(s, key)
    && key in s.prober && s.prober[key] == req
    && req in s.flights && s.flights[req] == key
  }

  predicate Legal(c: Config, s: System, acts: seq<Act>)
    decreases |acts|
  {
    acts == [] || (Enabled(s, acts[0]) && Legal(c, Next(c, s, acts[0]), acts[1..]))
  }

  function Exec(c: Config, s: System, acts: seq<Act>): System
    requires Legal(c, s, acts)
    decreases |acts|
  {
    if acts == [] then s else Exec(c, Next(c, s, acts[0]), acts[1..])
  }

  /** The half-open mark always has an owner: the prober, still in flight, unless the
      key's prober left without a report; and that is what being abandoned means. */
  ghost predicate Inv(s: System) {
    forall key ::
      && (View(s.entries, key).probing <==> HalfOpenAt(s, key))
      && (HalfOpenAt(s, key) && key !in s.abandoned ==> key in s.prober && Probing(s, s.prober[key], key))
      && (key in s.abandoned ==> HalfOpenAt(s, key))
  }

  lemma NextKeepsInv(c: Config, s: System, a: Act)
    requires Inv(s) && Enabled(s, a)
    ensures Inv(Next(c, s, a))
  {
    var t := Next(c, s, a);
    forall key
      ensures View(t.entries, key).probing <==> HalfOpenAt(t, key)
      ensures HalfOpenAt(t, key) && key !in t.abandoned ==> key in t.prober && Probing(t, t.prober[key], key)
      ensures key in t.abandoned ==> HalfOpenAt(t, key)
    {
      KeyKeepsInv(c, s, a, key);
    }
  }

  lemma KeyKeepsInv(c: Config, s: System, a: Act, key: string)
    requires Inv(s) && Enabled(s, a)
    ensures var t := Next(c, s, a);
            && (View(t.entries, key).probing <==> HalfOpenAt(t, key))
            && (HalfOpenAt(t, key) && key !in t.abandoned ==> key in t.prober && Probing(t, t.prober[key], key))
            && (key in t.abandoned ==> HalfOpenAt(t, key))
  {
    assert View(s.entries, key).probing <==> HalfOpenAt(s, key);
    match a
    case Begin(_, k, at) => StepView(c, s.entries, Ask(k, at), key);
    case Leave(req, exit, at) =>
      if Reporting(exit) {
        var k := s.flights[req];
        StepView(c, s.entries, if exit == Served then Succeed(k, at) else Fail(k, at), key);
      }
  }

  lemma {:induction false} ExecKeepsInv(c: Config, s: System, acts: seq<Act>)
    requires Inv(s) && Legal(c, s, acts)
    ensures Inv(Exec(c, s, acts))
    decreases |acts|
  {
    if acts != [] {
      NextKeepsInv(c, s, acts[0]);
      ExecKeepsInv(c, Next(c, s, acts[0]), acts[1..]);
    }
  }

  /** In every run from the start, a half-open key has its probe in flight or was abandoned. */
  lemma ProbeInFlightOrAbandoned(c: Config, acts: seq<Act>, key: string)
    requires Legal(c, START, acts)
    ensures var s := Exec(c, START, acts);
            HalfOpenAt(s, key) ==>
              key in s.abandoned || (key in s.prober && Probing(s, s.prober[key], key))
  {
    ExecKeepsInv(c, START, acts);
  }

  lemma {:induction false} ReportsNeverAbandon(c: Config, s: System, acts: seq<Act>)
    requires Legal(c, s, acts)
    requires forall i :: 0 <= i < |acts| ==> acts[i].Begin? || Reporting(acts[i].exit)
    ensures Exec(c, s, acts).abandoned <= s.abandoned
    decreases |acts|
  {
    if acts != [] {
      assert acts[0] in acts;
      ReportsNeverAbandon(c, Next(c, s, acts[0]), acts[1..]);
    }
  }

  /** No request for this key will ever report again, and the mark is still set. */
  ghost predicate Stuck(s: System, key: string) {
    HalfOpenAt(s, key) && View(s.entries, key).probing && forall r :: r in s.flights ==> s.flights[r] != key
  }

  lemma {:induction false} LastAct(c: Config, s: System, acts: seq<Act>)
    requires acts != [] && Legal(c, s, acts)
    ensures var n := |acts| - 1;
            && Legal(c, s, acts[..n]) && Enabled(Exec(c, s, acts[..n]), acts[n])
            && Exec(c, s, acts) == Next(c, Exec(c, s, acts[..n]), acts[n])
    decreases |acts|
  {
    var n := |acts| - 1;
    if n > 0 {
      LastAct(c, Next(c, s, acts[0]), acts[1..]);
      assert acts[..n][1..] == acts[1..][..n - 1];
    }
  }

  lemma {:induction false} LegalPrefix(c: Config, s: System, acts: seq<Act>, i: nat)
    requires i <= |acts| && Legal(c, s, acts)
    ensures Legal(c, s, acts[..i])
    decreases |acts|
  {
    if i == |acts| {
      assert acts[..i] == acts;
    } else {
      LastAct(c, s, acts);
      LegalPrefix(c, s, acts[..|acts| - 1], i);
      assert acts[..|acts| - 1][..i] == acts[..i];
    }
  }

  /** The system before act `i`. */
  function Before(c: Config, acts: seq<Act>, i: nat): System
    requires i <= |acts| && Legal(c, START, acts)
  {
    LegalPrefix(c, START, acts, i);
    Exec(c, START, acts[..i])
  }

  /** Act `i` is the prober of `key` leaving in silence. */
  ghost predicate AbandonsAt(c: Config, acts: seq<Act>, i: nat, key: string)
    requires i < |acts| && Legal(c, START, acts)
  {
    acts[i].Leave? && !Reporting(acts[i].exit) && Probing(Before(c, acts, i), acts[i].req, key)
  }

  /** Act `i` is a request for `key`, any request, leaving with a report. */
  ghost predicate ReportsAt(c: Config, acts: seq<Act>, i: nat, key: string)
    requires i < |acts| && Legal(c, START, acts)
  {
    && acts[i].Leave? && Reporting(acts[i].exit)
    && var s := Before(c, acts, i); acts[i].req in s.flights && s.flights[acts[i].req] == key
  }

  ghost predicate UnreportedSince(c: Config, acts: seq<Act>, i: nat, key: string)
    requires i < |acts| && Legal(c, START, acts)
  {
    AbandonsAt(c, acts, i, key) && forall j :: i < j < |acts| ==> !ReportsAt(c, acts, j, key)
  }

  /** The prober of `key` left in silence, and nobody has reported on the key since. */
  ghost predicate LeftUnreported(c: Config, acts: seq<Act>, key: string)
    requires Legal(c, START, acts)
  {
    exists i :: 0 <= i < |acts| && UnreportedSince(c, acts, i, key)
  }

  lemma AlikeInPrefix(c: Config, acts: seq<Act>, n: nat, i: nat, key: string)
    requires i < n <= |acts| && Legal(c, START, acts) && Legal(c, START, acts[..n])
    ensures AbandonsAt(c, acts[..n], i, key) == AbandonsAt(c, acts, i, key)
    ensures ReportsAt(c, acts[..n], i, key) == ReportsAt(c, acts, i, key)
  {
    assert acts[..n][..i] == acts[..i];
  }

  lemma UnreportedInPrefix(c: Config, acts: seq<Act>, i: nat, key: string)
    requires i < |acts| - 1 && Legal(c, START, acts) && Legal(c, START, acts[..|acts| - 1])
    ensures var n := |acts| - 1;
            UnreportedSince(c, acts, i, key) <==> UnreportedSince(c, acts[..n], i, key) && !ReportsAt(c, acts, n, key)
  {
    var n := |acts| - 1;
    forall j | 0 <= j < n
      ensures AbandonsAt(c, acts[..n], j, key) == AbandonsAt(c, acts, j, key)
      ensures ReportsAt(c, acts[..n], j, key) == ReportsAt(c, acts, j, key)
    {
      AlikeInPrefix(c, acts, n, j, key);
    }
  }

  lemma PrefixUnreported(c: Config, acts: seq<Act>, key: string)
    requires acts != [] && Legal(c, START, acts) && Legal(c, START, acts[..|acts| - 1])
    ensures var n := |acts| - 1;
            LeftUnreported(c, acts, key) <==>
            AbandonsAt(c, acts, n, key) || (LeftUnreported(c, acts[..n], key) && !ReportsAt(c, acts, n, key))
  {
    var n := |acts| - 1;
    forall i | 0 <= i < n
      ensures UnreportedSince(c, acts, i, key) <==> UnreportedSince(c, acts[..n], i, key) && !ReportsAt(c, acts, n, key)
    {
      UnreportedInPrefix(c, acts, i, key);
    }
    assert UnreportedSince(c, acts, n, key) == AbandonsAt(c, acts, n, key);
  }

  lemma {:induction false} AbandonedIffUnreported(c: Config, acts: seq<Act>, key: string)
    requires Legal(c, START, acts)
    ensures key in Exec(c, START, acts).abandoned <==> LeftUnreported(c, acts, key)
    decreases |acts|
  {
    if acts != [] {
      var n := |acts| - 1;
      LastAct(c, START, acts);
      AbandonedIffUnreported(c, acts[..n], key);
      PrefixUnreported(c, acts, key);
    }
  }

  /** A run leaves a key stuck exactly when the key's prober left in silence, nobody has
      reported on the key since, and nobody is busy with it now.  A silent exit of any other
      request does no harm. */
  lemma StuckIffProbeLeftUnreported(c: Config, acts: seq<Act>, key: string)
    requires Legal(c, START, acts)
    ensures var s := Exec(c, START, acts);
            Stuck(s, key) <==> LeftUnreported(c, acts, key) && forall r :: r in s.flights ==> s.flights[r] != key
  {
    ExecKeepsInv(c, START, acts);
    AbandonedIffUnreported(c, acts, key);
  }

  // ----- a run that gets stuck -----

  function Zeros(k: nat): seq<int> {
    if k == 0 then [] else Zeros(k - 1) + [0]
  }

  lemma {:induction false} ZerosInWindow(k: nat, cutoff: int)
    requires cutoff < 0
    ensures |Zeros(k)| == k && InWindow(Zeros(k), cutoff) == Zeros(k)
  {
    if k > 0 {
      ZerosInWindow(k - 1, cutoff);
      assert Zeros(k)[..k - 1] == Zeros(k - 1);
    }
  }

  /** What `k` failures at once make of a key. */
  function Failed(c: Config, k: nat): Entry {
    if k < c.threshold then Entry(Zeros(k), Closed, 0, false) else Entry(Zeros(k), Open, 0, false)
  }

  /** A request for a closed key is let in and changes nothing else. */
  lemma BeginClosed(c: Config, s: System, key: string)
    requires View(s.entries, key).state == Closed && s.flights == map[]
    ensures var a := Begin(0, key, 0);
            && Enabled(s, a)
            && var t := Next(c, s, a); View(t.entries, key) == View(s.entries, key) && t.flights == map[0 := key]
  {
    StepView(c, s.entries, Ask(key, 0), key);
  }

  lemma LeaveFailed(c: Config, s: System, key: string, k: nat)
    requires ValidConfig(c) && k < c.threshold && View(s.entries, key) == Failed(c, k) && s.flights == map[0 := key]
    ensures var b := Leave(0, Cascaded, 0);
            && Enabled(s, b)
            && var t := Next(c, s, b); View(t.entries, key) == Failed(c, k + 1) && t.flights == map[]
  {
    StepView(c, s.entries, Fail(key, 0), key);
    ZerosInWindow(k, 0 - c.window);
  }

  lemma OneFailure(c: Config, s: System, key: string, k: nat)
    requires ValidConfig(c) && k < c.threshold && View(s.entries, key) == Failed(c, k) && s.flights == map[]
    ensures var a, b := Begin(0, key, 0), Leave(0, Cascaded, 0);
            && Enabled(s, a) && Enabled(Next(c, s, a), b)
            && var t := Next(c, Next(c, s, a), b); View(t.entries, key) == Failed(c, k + 1) && t.flights == map[]
  {
    BeginClosed(c, s, key);
    LeaveFailed(c, Next(c, s, Begin(0, key, 0)), key, k);
  }

  lemma {:induction false} FailuresOpen(c: Config, key: string, k: nat) returns (acts: seq<Act>)
    requires ValidConfig(c) && k <= c.threshold
    ensures Legal(c, START, acts)
    ensures var s := Exec(c, START, acts); View(s.entries, key) == Failed(c, k) && s.flights == map[]
  {
    if k == 0 {
      acts := [];
    } else {
      var before := FailuresOpen(c, key, k - 1);
      var s := Exec(c, START, before);
      OneFailure(c, s, key, k - 1);
      acts := Then(c, before, Begin(0, key, 0), Leave(0, Cascaded, 0));
    }
  }

  lemma Then(c: Config, before: seq<Act>, a: Act, b: Act) returns (acts: seq<Act>)
    requires Legal(c, START, before)
    requires var s := Exec(c, START, before); Enabled(s, a) && Enabled(Next(c, s, a), b)
    ensures Legal(c, START, acts) && Exec(c, START, acts) == Next(c, Next(c, Exec(c, START, before), a), b)
  {
    TwoActs(c, Exec(c, START, before), a, b);
    ExecConcat(c, START, before, [a, b]);
    acts := before + [a, b];
  }

  /** Every silent exit can leave a key stuck: enough failures open it, a request is let
      through as the probe once the cool-off is over, and leaves that way. */
  lemma SilentProbeSticks(c: Config, key: string, exit: Exit) returns (acts: seq<Act>)
    requires ValidConfig(c) && Silent(exit)
    ensures Legal(c, START, acts) && Stuck(Exec(c, START, acts), key)
  {
    var before := FailuresOpen(c, key, c.threshold);
    var s := Exec(c, START, before);
    var a, b := Begin(0, key, c.openFor), Leave(0, exit, c.openFor);
    StepView(c, s.entries, Ask(key, c.openFor), key);
    acts := Then(c, before, a, b);
  }

  /** When every request leaves by an exit that reports, no key is ever stuck. */
  lemma ReportingRunsNeverStick(c: Config, acts: seq<Act>, key: string)
    requires Legal(c, START, acts)
    requires forall i :: 0 <= i < |acts| ==> acts[i].Begin? || Reporting(acts[i].exit)
    ensures !Stuck(Exec(c, START, acts), key)
  {
    ReportsNeverAbandon(c, START, acts);
    ProbeInFlightOrAbandoned(c, acts, key);
  }

  /** The last act of a run asks for `key` and is let through. */
  ghost predicate EndsAdmitted(c: Config, s: System, acts: seq<Act>, key: string) {
    && acts != [] && Legal(c, s, acts) && Legal(c, s, acts[..|acts| - 1])
    && acts[|acts| - 1].Begin? && acts[|acts| - 1].key == key
    && Admits(c, View(Exec(c, s, acts[..|acts| - 1]).entries, key), acts[|acts| - 1].at)
  }

  ghost predicate Later(acts: seq<Act>, now: int) {
    && (acts != [] ==> now <= acts[0].at)
    && forall i, j :: 0 <= i < j < |acts| ==> acts[i].at <= acts[j].at
  }

  /** A stuck key stays stuck through every continuation, whatever other requests do. */
  lemma {:induction false} StuckIsAbsorbing(c: Config, s: System, acts: seq<Act>, key: string)
    requires Stuck(s, key) && Legal(c, s, acts)
    ensures Stuck(Exec(c, s, acts), key)
    ensures forall i :: 0 <= i < |acts| && acts[i].Begin? && acts[i].key == key ==>
              !Admits(c, View(s.entries, key), acts[i].at)
    ensures View(Exec(c, s, acts).entries, key) == View(s.entries, key)
    decreases |acts|
  {
    if acts != [] {
      var a := acts[0];
      var t := Next(c, s, a);
      match a {
        case Begin(_, k, at) => StepView(c, s.entries, Ask(k, at), key);
        case Leave(req, exit, at) =>
          var k := s.flights[req];
          StepView(c, s.entries, if exit == Served then Succeed(k, at) else Fail(k, at), key);
      }
      assert View(t.entries, key) == View(s.entries, key);
      StuckIsAbsorbing(c, t, acts[1..], key);
    }
  }

  /** A key can be admitted again, at some later time by some continuation, exactly when
      it is not stuck. */
  lemma RecoverableIffNotStuck(c: Config, s: System, key: string, now: int)
    requires Inv(s) && ValidConfig(c)
    ensures (exists acts :: Later(acts, now) && EndsAdmitted(c, s, acts, key)) <==> !Stuck(s, key)
  {
    if Stuck(s, key) {
      forall acts ensures !EndsAdmitted(c, s, acts, key) {
        if EndsAdmitted(c, s, acts, key) {
          StuckIsAbsorbing(c, s, acts[..|acts| - 1], key);
          assert false;
        }
      }
    } else {
      var acts := WayBack(c, s, key, now);
    }
  }

  /** A request id nobody is using. */
  lemma UnusedRequest(flights: map<nat, string>) returns (r: nat)
    ensures r !in flights
  {
    r := 0;
    var left := flights.Keys;
    while r in flights
      invariant left <= flights.Keys
      invariant forall k :: k in flights && k >= r ==> k in left
      decreases |left|
    {
      left := left - {r};
      r := r + 1;
    }
  }

  lemma WayBack(c: Config, s: System, key: string, now: int) returns (acts: seq<Act>)
    requires Inv(s) && ValidConfig(c) && !Stuck(s, key)
    ensures Later(acts, now) && EndsAdmitted(c, s, acts, key)
  {
    var e := View(s.entries, key);
    if e.state != HalfOpen {
      var r := UnusedRequest(s.flights);
      var at := if now >= e.openedAt + c.openFor then now else e.openedAt + c.openFor;
      acts := [Begin(r, key, at)];
      OneAct(c, s, acts[0]);
    } else {
      var r :| r in s.flights && s.flights[r] == key;
      var a, b := Leave(r, Served, now), Begin(r, key, now);
      StepView(c, s.entries, Succeed(key, now), key);
      OneAct(c, s, a);
      TwoActs(c, s, a, b);
      acts := [a, b];
      assert acts[..1] == [a];
    }
  }

  // ----- one Dispatch is a run of one request -----

  function ActsOf(req: nat, v: Visit): seq<Act> {
    [Begin(req, BreakerKey(v.cand), v.askedAt)] +
    if v.exit == Skipped then [] else [Leave(req, v.exit, v.leftAt)]
  }

  function TraceActs(req: nat, trace: seq<Visit>): seq<Act> {
    if trace == [] then [] else TraceActs(req, trace[..|trace| - 1]) + ActsOf(req, trace[|trace| - 1])
  }

  lemma {:induction false} ExecConcat(c: Config, s: System, a: seq<Act>, b: seq<Act>)
    requires Legal(c, s, a) && Legal(c, Exec(c, s, a), b)
    ensures Legal(c, s, a + b) && Exec(c, s, a + b) == Exec(c, Exec(c, s, a), b)
    decreases |a|
  {
    if a == [] {
      assert a + b == b;
    } else {
      ExecConcat(c, Next(c, s, a[0]), a[1..], b);
      assert (a + b)[0] == a[0] && (a + b)[1..] == a[1..] + b;
    }
  }

  lemma OneAct(c: Config, s: System, a: Act)
    requires Enabled(s, a)
    ensures Legal(c, s, [a]) && Exec(c, s, [a]) == Next(c, s, a)
  {
    assert [a][1..] == [] && Legal(c, Next(c, s, a), []);
  }

  lemma TwoActs(c: Config, s: System, a: Act, b: Act)
    requires Enabled(s, a) && Enabled(Next(c, s, a), b)
    ensures Legal(c, s, [a, b]) && Exec(c, s, [a, b]) == Next(c, Next(c, s, a), b)
  {
    OneAct(c, Next(c, s, a), b);
    assert [a, b][1..] == [b];
  }

  lemma VisitActs(c: Config, providers: map<string, Provider>, bodyOk: bool, w: World, v: Visit, s: System, req: nat)
    requires Sound(c, providers, bodyOk, w, v) && s.entries == w.entries && req !in s.flights
    ensures Legal(c, s, ActsOf(req, v))
    ensures var t := Exec(c, s, ActsOf(req, v));
            t.entries == AfterVisit(c, providers, w, v).entries && t.flights == s.flights
  {
    var key := BreakerKey(v.cand);
    var a := Begin(req, key, v.askedAt);
    if v.exit == Skipped {
      OneAct(c, s, a);
    } else {
      var b := Leave(req, v.exit, v.leftAt);
      TwoActs(c, s, a, b);
      assert ActsOf(req, v) == [a, b];
    }
  }

  /** What `Dispatcher.Dispatch` promises of its visits makes them a legal run of one
      request here, ending with the same breaker entries and nothing left in flight. */
  lemma {:induction false} DispatchIsARun(
    c: Config, providers: map<string, Provider>, bodyOk: bool, w: World, trace: seq<Visit>, s: System, req: nat)
    requires SoundTrace(c, providers, bodyOk, w, trace) && s.entries == w.entries && req !in s.flights
    ensures Legal(c, s, TraceActs(req, trace))
    ensures var t := Exec(c, s, TraceActs(req, trace));
            t.entries == AfterTrace(c, providers, w, trace).entries && t.flights == s.flights
  {
    if trace != [] {
      var rest, v := trace[..|trace| - 1], trace[|trace| - 1];
      DispatchIsARun(c, providers, bodyOk, w, rest, s, req);
      var mid := Exec(c, s, TraceActs(req, rest));
      VisitActs(c, providers, bodyOk, AfterTrace(c, providers, w, rest), v, mid, req);
      ExecConcat(c, s, TraceActs(req, rest), ActsOf(req, v));
    }
  }
}
