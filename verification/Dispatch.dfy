/**
 The cascade: try candidates in order, rotate through a provider's keys while it
 answers 429, stop when the failure is the caller's own fault, and report to the
 breaker on some ways out but not on others.

 An upstream call is an arbitrary `Answer`, a clock reading an arbitrary integer:
 both come from an `Env` that the theorems quantify over.  One request is one call
 of `Dispatcher.Dispatch`, which returns the `Visit`s it made; interleavings of
 several requests over one breaker are in `ProbeProtocol`.
 */
module Dispatch {
  import opened Wrappers
  import opened Breakers
  import opened KeyPool

  datatype FailureKind = FailNone | FailTransport | FailServer | FailRateLimit | FailClient

  datatype Header = NoHeader | Seconds(n: int) | Date(t: int) | Garbled

  datatype UpstreamError = NoError | TooLarge | OtherError

  datatype Response = Response(status: int, failure: FailureKind, header: Option<Header>)

  datatype Answer = Answer(err: UpstreamError, resp: Option<Response>)

  datatype Env = Env(clock: nat -> int, upstream: nat -> Answer)

  datatype Candidate = Candidate(tenant: string, provider: string, providerId: string, model: string)

  datatype Provider = Provider(id: string, enabled: bool, keys: seq<string>, failover: bool, hasAdapter: bool)

  datatype Attempt = Attempt(cand: Candidate, failure: FailureKind, status: int, skipped: bool)

  /** How one candidate was left. */
  datatype Exit = Skipped | Unusable | NoAdapter | BadBody | Fatal | Served | Cascaded

  datatype Call = Call(key: string, answer: Answer, seenAt: int, parkedAt: int)

  datatype Visit = Visit(
    cand: Candidate, exit: Exit, pool: seq<string>, walk: seq<string>, calls: seq<Call>,
    askedAt: int, readAt: int, leftAt: int)

  datatype Outcome =
    | Answered(cand: Candidate, depth: nat, attempts: seq<Attempt>)
    | Exhausted(attempts: seq<Attempt>)
    | Rejected(why: Exit)

  // ----- one answer -----

  /** An HTTP status as a cascade decision. */
  function Classify(status: int): FailureKind {
    if 200 <= status < 300 then FailNone
    else if status == 429 then FailRateLimit
    else if status >= 500 then FailServer
    else if status >= 400 then FailClient
    else FailServer
  }

  /** The wait a Retry-After asks for; zero when absent, unreadable or already over. */
  function RetryAfter(h: Header, now: int): int {
    match h
    case Seconds(n) => if n <= 0 then 0 else n * SECOND
    case Date(t) => if t - now > 0 then t - now else 0
    case NoHeader => 0
    case Garbled => 0
  }

  datatype Verdict = TooBig | Unreached | Good | Objected | Limited | Broken

  function Judge(a: Answer): Verdict {
    if a.err.TooLarge? then TooBig
    else if a.resp.None? || (a.err.OtherError? && a.resp.value.failure == FailTransport) then Unreached
    else match a.resp.value.failure
         case FailNone => Good
         case FailClient => Objected
         case FailRateLimit => Limited
         case FailServer => Broken
         case FailTransport => Broken
  }

  /** The answer an adapter gives for an HTTP status it received. */
  function Received(status: int, header: Option<Header>): Answer {
    Answer(NoError, Some(Response(status, Classify(status), header)))
  }

  /** What a status does to a candidate: 2xx serves, 429 tries the next key, any other 4xx is
      the request's own fault and ends it, and everything else cascades. */
  lemma StatusDecides(status: int, header: Option<Header>)
    ensures var v := Judge(Received(status, header));
            && (ExitOf(v) == Served <==> 200 <= status < 300)
            && (v == Limited <==> status == 429)
            && (ExitOf(v) == Fatal <==> 400 <= status < 500 && status != 429)
            && (ExitOf(v) == Cascaded <==> status == 429 || status >= 500 || status < 200 || 300 <= status < 400)
  {
  }

  /** Until when a key is parked by its answer, if it is. */
  function ParkOf(c: Call): Option<int> {
    if Judge(c.answer) == Limited && c.answer.resp.value.header.Some?
    then
      var wait := RetryAfter(c.answer.resp.value.header.value, c.seenAt);
      if wait > 0 then Some(c.parkedAt + wait) else None
    else None
  }

  // ----- one candidate -----

  predicate Usable(providers: map<string, Provider>, id: string) {
    id in providers && providers[id].enabled && |providers[id].keys| > 0
  }

  predicate RoundRobin(p: Provider) {
    |p.keys| >= 2 && !p.failover
  }

  function CursorOf(cursors: map<string, nat>, id: string): nat {
    if id in cursors then cursors[id] else 0
  }

  function OrderOf(p: Provider, cursors: map<string, nat>): seq<string> {
    if RoundRobin(p) then Rotation(p.keys, CursorOf(cursors, p.id) % |p.keys|) else p.keys
  }

  function CursorsAfter(p: Provider, cursors: map<string, nat>): map<string, nat> {
    if RoundRobin(p) then cursors[p.id := (CursorOf(cursors, p.id) + 1) % WRAP] else cursors
  }

  /** The cursors after requests to these providers, in this order. */
  function CursorsRun(reqs: seq<Provider>, cursors: map<string, nat>): map<string, nat> {
    if reqs == [] then cursors
    else CursorsAfter(reqs[|reqs| - 1], CursorsRun(reqs[..|reqs| - 1], cursors))
  }

  /** How many of them rotate the pool of `id`. */
  function Turns(reqs: seq<Provider>, id: string): nat {
    if reqs == [] then 0
    else Turns(reqs[..|reqs| - 1], id) + if RoundRobin(reqs[|reqs| - 1]) && reqs[|reqs| - 1].id == id then 1 else 0
  }

  /** However requests to other providers interleave, a pool's cursor is where it started plus
      its own turns, modulo 2^64. */
  lemma {:induction false} CursorCountsTurns(reqs: seq<Provider>, cursors: map<string, nat>, id: string)
    requires CursorOf(cursors, id) < WRAP
    ensures CursorOf(CursorsRun(reqs, cursors), id) == Cursor(CursorOf(cursors, id), Turns(reqs, id))
  {
    if reqs == [] {
      ModUnique(CursorOf(cursors, id), WRAP, 0, CursorOf(cursors, id));
    } else {
      CursorCountsTurns(reqs[..|reqs| - 1], cursors, id);
      NextCursor(CursorOf(cursors, id), Turns(reqs[..|reqs| - 1], id));
    }
  }

  /** How many of the requests to `p` start at position `pos` of its pool. */
  function PoolStarts(reqs: seq<Provider>, cursors: map<string, nat>, p: Provider, pos: nat): nat
    requires RoundRobin(p)
  {
    if reqs == [] then 0
    else
      var rest := reqs[..|reqs| - 1];
      PoolStarts(rest, cursors, p, pos) +
      if reqs[|reqs| - 1] == p && OrderStart(p, CursorsRun(rest, cursors)) == pos then 1 else 0
  }

  /** Where in its pool a request to `p` starts: its order is the pool rotated to there. */
  function OrderStart(p: Provider, cursors: map<string, nat>): (offset: nat)
    requires RoundRobin(p)
    ensures offset < |p.keys| && OrderOf(p, cursors) == Rotation(p.keys, offset)
  {
    CursorOf(cursors, p.id) % |p.keys|
  }

  lemma {:induction false} PoolStartsAreStarts(reqs: seq<Provider>, cursors: map<string, nat>, p: Provider, pos: nat)
    requires RoundRobin(p) && CursorOf(cursors, p.id) < WRAP && forall q :: q in reqs && q.id == p.id ==> q == p
    ensures PoolStarts(reqs, cursors, p, pos) == Starts(|p.keys|, CursorOf(cursors, p.id), Turns(reqs, p.id), pos)
  {
    if reqs != [] {
      var rest, last := reqs[..|reqs| - 1], reqs[|reqs| - 1];
      assert last in reqs;
      PoolStartsAreStarts(rest, cursors, p, pos);
      CursorCountsTurns(rest, cursors, p.id);
    }
  }

  /** So the requests to a provider, however they interleave with others, start at any two
      positions of its pool equally often, give or take one, short of the cursor's wrap. */
  lemma RequestsSpreadFairly(reqs: seq<Provider>, cursors: map<string, nat>, p: Provider, a: nat, b: nat)
    requires RoundRobin(p) && CursorOf(cursors, p.id) < WRAP && forall q :: q in reqs && q.id == p.id ==> q == p
    requires CursorOf(cursors, p.id) + Turns(reqs, p.id) <= WRAP || WRAP % |p.keys| == 0
    requires a < |p.keys| && b < |p.keys|
    ensures PoolStarts(reqs, cursors, p, a) <= PoolStarts(reqs, cursors, p, b) + 1
  {
    PoolStartsAreStarts(reqs, cursors, p, a);
    PoolStartsAreStarts(reqs, cursors, p, b);
    RoundRobinIsFair(|p.keys|, CursorOf(cursors, p.id), Turns(reqs, p.id));
  }

  function ParkStep(m: Cooldowns, provider: string, c: Call): Cooldowns {
    if ParkOf(c).Some? then CoolStep(m, PoolKey(provider, c.key), ParkOf(c).value) else m
  }

  function Parks(m: Cooldowns, provider: string, calls: seq<Call>): Cooldowns {
    if calls == [] then m
    else ParkStep(Parks(m, provider, calls[..|calls| - 1]), provider, calls[|calls| - 1])
  }

  function ExitOf(v: Verdict): Exit {
    match v
    case Good => Served
    case TooBig => Fatal
    case Objected => Fatal
    case Unreached => Cascaded
    case Broken => Cascaded
    case Limited => Cascaded
  }

  ghost predicate LimitedSoFar(walk: seq<string>, calls: seq<Call>)
    requires |calls| <= |walk|
  {
    && (forall i :: 0 <= i < |calls| ==> calls[i].key == walk[i])
    && (forall i :: 0 <= i < |calls| - 1 ==> Judge(calls[i].answer) == Limited)
  }

  ghost predicate SentAs(env: Env, from: nat, calls: seq<Call>) {
    forall i :: 0 <= i < |calls| ==> calls[i].answer == env.upstream(from + i)
  }

  /** Walking the ready keys: each in turn while the answer is 429, and no further.
      The candidate is abandoned as rate limited only when the walk was completed. */
  ghost predicate Walked(walk: seq<string>, calls: seq<Call>, exit: Exit) {
    && 0 < |calls| <= |walk| && LimitedSoFar(walk, calls)
    && exit == ExitOf(Judge(calls[|calls| - 1].answer))
    && (Judge(calls[|calls| - 1].answer) == Limited ==> |calls| == |walk|)
  }

  function Note(before: Attempt, a: Answer): Attempt {
    var seen := if a.resp.None? then before
                else before.(status := a.resp.value.status, failure := a.resp.value.failure);
    if Judge(a) == Unreached then seen.(failure := FailTransport) else seen
  }

  /** The attempt record: the last status and failure an upstream gave. */
  function Noted(cand: Candidate, calls: seq<Call>): Attempt {
    if calls == [] then Attempt(cand, FailNone, 0, false)
    else Note(Noted(cand, calls[..|calls| - 1]), calls[|calls| - 1].answer)
  }

  // ----- one request -----

  datatype World = World(entries: map<string, Entry>, cooldowns: Cooldowns, cursors: map<string, nat>)

  function BreakerKey(cand: Candidate): string {
    Key(cand.tenant, cand.provider, cand.model)
  }

  /** Leaving a candidate reports to the breaker on two exits only. */
  function Report(c: Config, entries: map<string, Entry>, key: string, exit: Exit, at: int): map<string, Entry> {
    match exit
    case Served => Step(c, entries, Succeed(key, at))
    case Cascaded => Step(c, entries, Fail(key, at))
    case _ => entries
  }

  function AfterVisit(c: Config, providers: map<string, Provider>, w: World, v: Visit): World {
    var key := BreakerKey(v.cand);
    var entries := Report(c, Step(c, w.entries, Ask(key, v.askedAt)), key, v.exit, v.leftAt);
    if v.calls == [] || v.cand.providerId !in providers then w.(entries := entries)
    else
      var p := providers[v.cand.providerId];
      World(entries,
            Parks(PruneStep(w.cooldowns, p.id, v.pool, v.readAt), p.id, v.calls),
            CursorsAfter(p, w.cursors))
  }

  function AfterTrace(c: Config, providers: map<string, Provider>, w: World, trace: seq<Visit>): World {
    if trace == [] then w
    else AfterVisit(c, providers, AfterTrace(c, providers, w, trace[..|trace| - 1]), trace[|trace| - 1])
  }

  /** The exits reached by asking the upstream. */
  predicate Walks(e: Exit) {
    e == Fatal || e == Served || e == Cascaded
  }

  /** The exits that say nothing to the breaker after it has admitted the request. */
  predicate Silent(e: Exit) {
    e == Unusable || e == NoAdapter || e == BadBody || e == Fatal
  }

  /** The keys walked are the provider's pool from its cursor on, less those parked. */
  ghost predicate SoundWalk(p: Provider, w: World, v: Visit) {
    && v.pool == OrderOf(p, w.cursors)
    && v.walk == ReadyOf(w.cooldowns, p.id, v.pool, v.readAt)
    && Walked(v.walk, v.calls, v.exit)
  }

  /** A visit as the source allows it, from a given world.  Each exit has exactly one
      cause, and the exits before the walk cost no upstream call. */
  ghost predicate Sound(c: Config, providers: map<string, Provider>, bodyOk: bool, w: World, v: Visit) {
    var admitted := Admits(c, View(w.entries, BreakerKey(v.cand)), v.askedAt);
    var usable := Usable(providers, v.cand.providerId);
    && (v.exit == Skipped <==> !admitted)
    && (v.exit == Unusable <==> admitted && !usable)
    && (v.exit == NoAdapter <==> admitted && usable && !providers[v.cand.providerId].hasAdapter)
    && (v.exit == BadBody <==> admitted && usable && providers[v.cand.providerId].hasAdapter && !bodyOk)
    && (!Walks(v.exit) ==> v.calls == [])
    && (Walks(v.exit) ==> SoundWalk(providers[v.cand.providerId], w, v))
  }

  /** Every visit is sound from the world the visits before it left. */
  ghost predicate SoundTrace(c: Config, providers: map<string, Provider>, bodyOk: bool, w: World, trace: seq<Visit>) {
    trace == [] ||
    var rest := trace[..|trace| - 1];
    && SoundTrace(c, providers, bodyOk, w, rest)
    && Sound(c, providers, bodyOk, AfterTrace(c, providers, w, rest), trace[|trace| - 1])
  }

  predicate Continues(e: Exit) {
    e == Skipped || e == Unusable || e == NoAdapter || e == Cascaded
  }

  function AttemptsOf(v: Visit): seq<Attempt> {
    match v.exit
    case Skipped => [Attempt(v.cand, FailNone, 0, true)]
    case Unusable => [Attempt(v.cand, FailTransport, 0, false)]
    case NoAdapter => [Attempt(v.cand, FailTransport, 0, false)]
    case BadBody => []
    case _ => [Noted(v.cand, v.calls)]
  }

  function Attempts(trace: seq<Visit>): seq<Attempt> {
    if trace == [] then [] else Attempts(trace[..|trace| - 1]) + AttemptsOf(trace[|trace| - 1])
  }

  function CallCount(trace: seq<Visit>): nat {
    if trace == [] then 0 else CallCount(trace[..|trace| - 1]) + |trace[|trace| - 1].calls|
  }

  /** One visit per candidate, in order, for a prefix of the list; only the last may stop. */
  ghost predicate PrefixOf(cands: seq<Candidate>, trace: seq<Visit>) {
    && |trace| <= |cands|
    && (forall i :: 0 <= i < |trace| ==> trace[i].cand == cands[i])
    && (forall i :: 0 <= i < |trace| - 1 ==> Continues(trace[i].exit))
  }

  /** What the request answers, read off its last visit.  Depth is the number of
      attempts before the one that served; exhaustion means the whole list was visited. */
  predicate Concludes(out: Outcome, cands: seq<Candidate>, trace: seq<Visit>) {
    match out
    case Answered(cand, depth, attempts) =>
      && trace != [] && trace[|trace| - 1].exit == Served && cand == trace[|trace| - 1].cand
      && depth == |trace| - 1 == |attempts| - 1 && attempts == Attempts(trace)
    case Exhausted(attempts) =>
      && |trace| == |cands| && attempts == Attempts(trace)
      && (trace != [] ==> Continues(trace[|trace| - 1].exit))
    case Rejected(why) => trace != [] && trace[|trace| - 1].exit == why && (why == BadBody || why == Fatal)
  }

  /** Where a cascade stands: its visits so far, their attempts, and the world they left. */
  ghost predicate Cascading(c: Config, providers: map<string, Provider>, bodyOk: bool, start: World,
                            cands: seq<Candidate>, trace: seq<Visit>, attempts: seq<Attempt>, going: bool, now: World) {
    && PrefixOf(cands, trace) && SoundTrace(c, providers, bodyOk, start, trace)
    && going == (trace == [] || Continues(trace[|trace| - 1].exit))
    && attempts == Attempts(trace) && now == AfterTrace(c, providers, start, trace)
  }

  lemma PrefixSnoc(cands: seq<Candidate>, trace: seq<Visit>, v: Visit)
    requires PrefixOf(cands, trace) && (trace != [] ==> Continues(trace[|trace| - 1].exit))
    requires |trace| < |cands| && v.cand == cands[|trace|]
    ensures PrefixOf(cands, trace + [v])
  {
  }

  lemma AfterSnoc(c: Config, providers: map<string, Provider>, start: World, trace: seq<Visit>, v: Visit)
    ensures AfterTrace(c, providers, start, trace + [v]) == AfterVisit(c, providers, AfterTrace(c, providers, start, trace), v)
  {
    var full := trace + [v];
    assert full[..|full| - 1] == trace && full[|full| - 1] == v;
  }

  lemma TraceSnoc(c: Config, providers: map<string, Provider>, bodyOk: bool, start: World, trace: seq<Visit>, v: Visit)
    requires SoundTrace(c, providers, bodyOk, start, trace)
    requires Sound(c, providers, bodyOk, AfterTrace(c, providers, start, trace), v)
    ensures SoundTrace(c, providers, bodyOk, start, trace + [v])
  {
    var full := trace + [v];
    assert full[..|full| - 1] == trace && full[|full| - 1] == v;
  }

  lemma CountsSnoc(trace: seq<Visit>, v: Visit)
    ensures Attempts(trace + [v]) == Attempts(trace) + AttemptsOf(v)
    ensures CallCount(trace + [v]) == CallCount(trace) + |v.calls|
  {
    assert (trace + [v])[..|trace|] == trace && (trace + [v])[|trace|] == v;
  }

  lemma CascadingStep(c: Config, providers: map<string, Provider>, bodyOk: bool, start: World,
                      cands: seq<Candidate>, trace: seq<Visit>, attempts: seq<Attempt>, now: World, v: Visit)
    requires Cascading(c, providers, bodyOk, start, cands, trace, attempts, true, now)
    requires |trace| < |cands| && v.cand == cands[|trace|] && Sound(c, providers, bodyOk, now, v)
    ensures Cascading(c, providers, bodyOk, start, cands, trace + [v], attempts + AttemptsOf(v), Continues(v.exit),
                      AfterVisit(c, providers, now, v))
    ensures CallCount(trace + [v]) == CallCount(trace) + |v.calls|
  {
    PrefixSnoc(cands, trace, v);
    TraceSnoc(c, providers, bodyOk, start, trace, v);
    AfterSnoc(c, providers, start, trace, v);
    CountsSnoc(trace, v);
  }

  /** Only an unparseable body leaves no attempt behind, and it ends the request. */
  lemma {:induction false} AttemptPerVisit(trace: seq<Visit>)
    requires forall i :: 0 <= i < |trace| ==> trace[i].exit != BadBody
    ensures |Attempts(trace)| == |trace|
  {
    if trace != [] {
      AttemptPerVisit(trace[..|trace| - 1]);
    }
  }

  lemma CascadingEnds(c: Config, providers: map<string, Provider>, bodyOk: bool, start: World,
                      cands: seq<Candidate>, trace: seq<Visit>, attempts: seq<Attempt>, going: bool, now: World)
    requires Cascading(c, providers, bodyOk, start, cands, trace, attempts, going, now)
    requires going ==> |trace| == |cands|
    ensures going ==> Concludes(Exhausted(attempts), cands, trace)
    ensures !going && trace[|trace| - 1].exit == Served ==>
              Concludes(Answered(trace[|trace| - 1].cand, |trace| - 1, attempts), cands, trace)
    ensures !going && trace[|trace| - 1].exit != Served ==> Concludes(Rejected(trace[|trace| - 1].exit), cands, trace)
  {
    if !going && trace[|trace| - 1].exit == Served {
      AttemptPerVisit(trace);
    }
  }

  ghost predicate WellKeyed(providers: map<string, Provider>) {
    forall id :: id in providers ==> providers[id].id == id
  }

  class Dispatcher {
    const breaker: Breaker
    var cursors: map<string, nat>
    var cooldowns: Cooldowns
    var ticks: nat  // clock readings taken
    var sent: nat   // upstream calls made

    constructor (breaker: Breaker)
      ensures this.breaker == breaker && cursors == map[] && cooldowns == map[]
    {
      this.breaker := breaker;
      cursors, cooldowns, ticks, sent := map[], map[], 0, 0;
    }

    method Now(env: Env) returns (t: int)
      modifies this`ticks
      ensures t == env.clock(old(ticks)) && ticks == old(ticks) + 1
    {
      t := env.clock(ticks);
      ticks := ticks + 1;
    }

    method KeyOrder(p: Provider) returns (order: seq<string>)
      modifies this`cursors
      ensures order == OrderOf(p, old(cursors))
      ensures cursors == CursorsAfter(p, old(cursors))
    {
      var n := |p.keys|;
      if n < 2 || p.failover {
        return p.keys;
      }
      var start := if p.id in cursors then cursors[p.id] else 0;
      cursors := cursors[p.id := (start + 1) % WRAP];
      var offset := start % n;
      order := RotateFrom(p.keys, offset);
    }

    static method RotateFrom(keys: seq<string>, offset: nat) returns (order: seq<string>)
      requires offset < |keys|
      ensures order == Rotation(keys, offset)
    {
      order := [];
      for i := 0 to |keys|
        invariant order == Rotation(keys, offset)[..i]
      {
        RotationAt(keys, offset, i);
        order := order + [keys[(offset + i) % |keys|]];
      }
    }

    method CoolKey(provider: string, key: string, until: int)
      modifies this`cooldowns
      ensures cooldowns == CoolStep(old(cooldowns), PoolKey(provider, key), until)
    {
      var k := PoolKey(provider, key);
      if k in cooldowns && cooldowns[k] > until {
        return;
      }
      cooldowns := cooldowns[k := until];
    }

    method ReadyKeys(provider: string, order: seq<string>, now: int) returns (ready: seq<string>)
      modifies this`cooldowns
      ensures ready == ReadyOf(old(cooldowns), provider, order, now)
      ensures cooldowns == PruneStep(old(cooldowns), provider, order, now)
    {
      ghost var was := cooldowns;
      if |cooldowns| == 0 {
        NoneParked(cooldowns, provider, order, now);
        return order;
      }
      ready := [];
      for i := 0 to |order|
        invariant ready == Unparked(was, provider, order[..i], now)
        invariant cooldowns == PruneStep(was, provider, order[..i], now)
      {
        var k := PoolKey(provider, order[i]);
        assert order[..i + 1][..i] == order[..i];
        assert forall x :: x in order[..i + 1] <==> x in order[..i] || x == order[i];
        if k in cooldowns {
          if cooldowns[k] > now {
            continue;
          }
          cooldowns := cooldowns - {k};
        }
        ready := ready + [order[i]];
      }
      assert order[..|order|] == order;
      if |ready| == 0 {
        return order;
      }
    }

    /** One upstream call: note what came back, and park the key when a 429 says how long. */
    method CallKey(env: Env, provider: string, key: string, before: Attempt)
      returns (call: Call, attempt: Attempt, verdict: Verdict)
      modifies this`cooldowns, this`ticks, this`sent
      ensures call.key == key && call.answer == env.upstream(old(sent)) && sent == old(sent) + 1
      ensures verdict == Judge(call.answer) && attempt == Note(before, call.answer)
      ensures cooldowns == ParkStep(old(cooldowns), provider, call)
    {
      var a := env.upstream(sent);
      sent := sent + 1;
      attempt := before;
      if a.resp.Some? {
        attempt := attempt.(status := a.resp.value.status, failure := a.resp.value.failure);
      }
      var seenAt := Now(env);
      call := Call(key, a, seenAt, seenAt);
      if a.err.TooLarge? {
        verdict := TooBig;
      } else if a.err.OtherError? && (a.resp.None? || a.resp.value.failure == FailTransport) {
        attempt := attempt.(failure := FailTransport);
        verdict := Unreached;
      } else if a.resp.None? {
        attempt := attempt.(failure := FailTransport);
        verdict := Unreached;
      } else {
        match a.resp.value.failure {
          case FailNone => verdict := Good;
          case FailClient => verdict := Objected;
          case FailRateLimit =>
            verdict := Limited;
            if a.resp.value.header.Some? {
              var wait := RetryAfter(a.resp.value.header.value, seenAt);
              if wait > 0 {
                var parkedAt := Now(env);
                call := call.(parkedAt := parkedAt);
                CoolKey(provider, key, parkedAt + wait);
              }
            }
          case FailServer => verdict := Broken;
          case FailTransport => verdict := Broken;
        }
      }
    }

    method TryCandidate(env: Env, p: Provider, cand: Candidate)
      returns (exit: Exit, attempt: Attempt, pool: seq<string>, walk: seq<string>, calls: seq<Call>, readAt: int)
      requires |p.keys| > 0
      modifies this`cursors, this`cooldowns, this`ticks, this`sent
      ensures pool == OrderOf(p, old(cursors)) && walk == ReadyOf(old(cooldowns), p.id, pool, readAt)
      ensures Walked(walk, calls, exit) && attempt == Noted(cand, calls)
      ensures cursors == CursorsAfter(p, old(cursors))
      ensures cooldowns == Parks(PruneStep(old(cooldowns), p.id, pool, readAt), p.id, calls)
      ensures sent == old(sent) + |calls| && SentAs(env, old(sent), calls)
    {
      OrderNotEmpty(p, cursors);
      pool := KeyOrder(p);
      readAt := Now(env);
      walk := ReadyKeys(p.id, pool, readAt);
      exit, attempt, calls := WalkKeys(env, p.id, cand, walk);
    }

    method WalkKeys(env: Env, provider: string, cand: Candidate, walk: seq<string>)
      returns (exit: Exit, attempt: Attempt, calls: seq<Call>)
      requires walk != []
      modifies this`cooldowns, this`ticks, this`sent
      ensures Walked(walk, calls, exit) && attempt == Noted(cand, calls)
      ensures cooldowns == Parks(old(cooldowns), provider, calls)
      ensures sent == old(sent) + |calls| && SentAs(env, old(sent), calls)
    {
      attempt := Attempt(cand, FailNone, 0, false);
      calls := [];
      var verdict := Limited;
      while |calls| < |walk| && verdict == Limited
        invariant Walking(env, old(sent), provider, cand, old(cooldowns), walk, calls, attempt, verdict, cooldowns)
        invariant sent == old(sent) + |calls|
        decreases |walk| - |calls|
      {
        ghost var noted, parked := attempt, cooldowns;
        var call;
        call, attempt, verdict := CallKey(env, provider, walk[|calls|], attempt);
        WalkingStep(env, old(sent), provider, cand, old(cooldowns), walk, calls, noted, parked, call);
        calls := calls + [call];
      }
      exit := ExitOf(verdict);
    }

    function Here(): World
      reads this, breaker
    {
      World(breaker.entries, cooldowns, cursors)
    }

    /** The whole request.  Its visits are, in order, one per candidate for a prefix of
        the list, each sound from the world the previous ones left; the request ends at the
        first exit that does not continue, or with the list. */
    method Dispatch(env: Env, providers: map<string, Provider>, cands: seq<Candidate>, bodyOk: bool)
      returns (out: Outcome, trace: seq<Visit>)
      requires WellKeyed(providers)
      modifies this, breaker
      ensures Here() == AfterTrace(breaker.cfg, providers, old(Here()), trace)
      ensures SoundTrace(breaker.cfg, providers, bodyOk, old(Here()), trace)
      ensures sent == old(sent) + CallCount(trace)
      ensures PrefixOf(cands, trace)
      ensures Concludes(out, cands, trace)
    {
      var attempts, going;
      trace, attempts, going := Cascade(env, providers, cands, bodyOk);
      if going {
        out := Exhausted(attempts);
      } else {
        var last := trace[|trace| - 1];
        out := if last.exit == Served then Answered(last.cand, |trace| - 1, attempts) else Rejected(last.exit);
      }
      CascadingEnds(breaker.cfg, providers, bodyOk, old(Here()), cands, trace, attempts, going, Here());
    }

    /** The candidate loop, up to the first exit that does not continue. */
    method Cascade(env: Env, providers: map<string, Provider>, cands: seq<Candidate>, bodyOk: bool)
      returns (trace: seq<Visit>, attempts: seq<Attempt>, going: bool)
      requires WellKeyed(providers)
      modifies this, breaker
      ensures Cascading(breaker.cfg, providers, bodyOk, old(Here()), cands, trace, attempts, going, Here())
      ensures going ==> |trace| == |cands|
      ensures sent == old(sent) + CallCount(trace)
    {
      trace, attempts, going := [], [], true;
      while |trace| < |cands| && going
        invariant Cascading(breaker.cfg, providers, bodyOk, old(Here()), cands, trace, attempts, going, Here())
        invariant sent == old(sent) + CallCount(trace)
        decreases |cands| - |trace|
      {
        trace, attempts, going := Turn(env, providers, cands, bodyOk, old(Here()), trace, attempts);
      }
    }

    /** One turn of the candidate loop, with what came before it. */
    method Turn(env: Env, providers: map<string, Provider>, cands: seq<Candidate>, bodyOk: bool, ghost start: World,
                trace: seq<Visit>, attempts: seq<Attempt>)
      returns (trace': seq<Visit>, attempts': seq<Attempt>, going: bool)
      requires WellKeyed(providers) && |trace| < |cands|
      requires Cascading(breaker.cfg, providers, bodyOk, start, cands, trace, attempts, true, Here())
      modifies this, breaker
      ensures Cascading(breaker.cfg, providers, bodyOk, start, cands, trace', attempts', going, Here())
      ensures |trace'| == |trace| + 1 && sent - CallCount(trace') == old(sent) - CallCount(trace)
    {
      var v, attempt := VisitOne(env, providers, cands[|trace|], bodyOk);
      CascadingStep(breaker.cfg, providers, bodyOk, start, cands, trace, attempts, old(Here()), v);
      trace', attempts', going := trace + [v], attempts + attempt, Continues(v.exit);
    }

    /** Asking the breaker about one candidate, and visiting it. */
    method VisitOne(env: Env, providers: map<string, Provider>, cand: Candidate, bodyOk: bool)
      returns (v: Visit, attempt: seq<Attempt>)
      requires WellKeyed(providers)
      modifies this, breaker
      ensures v.cand == cand && Sound(breaker.cfg, providers, bodyOk, old(Here()), v)
      ensures Here() == AfterVisit(breaker.cfg, providers, old(Here()), v)
      ensures attempt == AttemptsOf(v) && sent == old(sent) + |v.calls|
    {
      var key := BreakerKey(cand);
      var askedAt := Now(env);
      v := Visit(cand, Skipped, [], [], [], askedAt, askedAt, askedAt);
      var ok := breaker.Allow(key, askedAt);
      if !ok {
        return v, [Attempt(cand, FailNone, 0, true)];
      }
      if cand.providerId !in providers || !providers[cand.providerId].enabled || |providers[cand.providerId].keys| == 0 {
        return v.(exit := Unusable), [Attempt(cand, FailTransport, 0, false)];
      }
      var p := providers[cand.providerId];
      if !p.hasAdapter {
        return v.(exit := NoAdapter), [Attempt(cand, FailTransport, 0, false)];
      }
      if !bodyOk {
        return v.(exit := BadBody), [];
      }
      v, attempt := AskUpstream(env, p, v);
    }

    /** The rest of a turn once the candidate is admitted and usable: walk its keys, and
        report unless the failure was the request's own. */
    method AskUpstream(env: Env, p: Provider, asked: Visit) returns (v: Visit, attempt: seq<Attempt>)
      requires |p.keys| > 0
      modifies this, breaker
      ensures v.cand == asked.cand && v.askedAt == asked.askedAt && Walks(v.exit) && SoundWalk(p, old(Here()), v)
      ensures breaker.entries == Report(breaker.cfg, old(breaker.entries), BreakerKey(v.cand), v.exit, v.leftAt)
      ensures cooldowns == Parks(PruneStep(old(cooldowns), p.id, v.pool, v.readAt), p.id, v.calls)
      ensures cursors == CursorsAfter(p, old(cursors))
      ensures attempt == [Noted(v.cand, v.calls)] && sent == old(sent) + |v.calls|
    {
      var exit, noted, pool, walk, calls, readAt := TryCandidate(env, p, asked.cand);
      var leftAt := Now(env);
      v := Visit(asked.cand, exit, pool, walk, calls, asked.askedAt, readAt, leftAt);
      attempt := [noted];
      if exit == Served {
        breaker.Success(BreakerKey(v.cand));
        assert breaker.entries == Step(breaker.cfg, old(breaker.entries), Succeed(BreakerKey(v.cand), leftAt));
      } else if exit == Cascaded {
        breaker.Failure(BreakerKey(v.cand), leftAt);
      }
    }
  }

  // ----- lemmas about the walk -----

  /** Where a walk stands: its records so far, and the last verdict. */
  ghost predicate Walking(env: Env, from: nat, provider: string, cand: Candidate, start: Cooldowns, walk: seq<string>,
                          calls: seq<Call>, attempt: Attempt, verdict: Verdict, now: Cooldowns) {
    && |calls| <= |walk| && LimitedSoFar(walk, calls) && SentAs(env, from, calls)
    && verdict == (if calls == [] then Limited else Judge(calls[|calls| - 1].answer))
    && attempt == Noted(cand, calls) && now == Parks(start, provider, calls)
  }

  lemma WalkingStep(env: Env, from: nat, provider: string, cand: Candidate, start: Cooldowns, walk: seq<string>,
                    calls: seq<Call>, attempt: Attempt, now: Cooldowns, call: Call)
    requires Walking(env, from, provider, cand, start, walk, calls, attempt, Limited, now) && |calls| < |walk|
    requires call.key == walk[|calls|] && call.answer == env.upstream(from + |calls|)
    ensures Walking(env, from, provider, cand, start, walk, calls + [call], Note(attempt, call.answer),
                    Judge(call.answer), ParkStep(now, provider, call))
  {
    LimitedMore(walk, calls, call);
    SentMore(env, from, calls, call);
    RecordedMore(provider, cand, start, calls, call);
  }

  lemma LimitedMore(walk: seq<string>, calls: seq<Call>, call: Call)
    requires |calls| < |walk| && LimitedSoFar(walk, calls) && call.key == walk[|calls|]
    requires calls != [] ==> Judge(calls[|calls| - 1].answer) == Limited
    ensures LimitedSoFar(walk, calls + [call])
  {
  }

  lemma SentMore(env: Env, from: nat, calls: seq<Call>, call: Call)
    requires SentAs(env, from, calls) && call.answer == env.upstream(from + |calls|)
    ensures SentAs(env, from, calls + [call])
  {
  }

  lemma RecordedMore(provider: string, cand: Candidate, start: Cooldowns, calls: seq<Call>, call: Call)
    ensures Noted(cand, calls + [call]) == Note(Noted(cand, calls), call.answer)
    ensures Parks(start, provider, calls + [call]) == ParkStep(Parks(start, provider, calls), provider, call)
  {
    assert (calls + [call])[..|calls|] == calls;
  }

  lemma RotationAt(keys: seq<string>, offset: nat, i: nat)
    requires offset < |keys| && i < |keys|
    ensures (offset + i) % |keys| < |keys|
    ensures Rotation(keys, offset)[i] == keys[(offset + i) % |keys|]
  {
    var n := |keys|;
    if offset + i < n {
      ModUnique(offset + i, n, 0, offset + i);
    } else {
      ModUnique(offset + i, n, 1, offset + i - n);
    }
  }

  lemma {:induction false} NoneParked(m: Cooldowns, provider: string, order: seq<string>, now: int)
    requires m == map[]
    ensures Unparked(m, provider, order, now) == order
  {
    if order != [] {
      NoneParked(m, provider, order[..|order| - 1], now);
      assert order == order[..|order| - 1] + [order[|order| - 1]];
    }
  }

  lemma OrderNotEmpty(p: Provider, cursors: map<string, nat>)
    requires p.keys != []
    ensures OrderOf(p, cursors) != []
  {
    if RoundRobin(p) {
      RotationKeepsEveryKey(p.keys, CursorOf(cursors, p.id) % |p.keys|);
    }
  }

  // ----- what a request does to a half-open key -----

  /** A visit that is admitted as the probe leaves its key half-open exactly when its
      exit reports nothing. */
  lemma ProbeReleasedIffReported(c: Config, providers: map<string, Provider>, bodyOk: bool, w: World, v: Visit)
    requires Sound(c, providers, bodyOk, w, v) && v.exit != Skipped
    requires View(w.entries, BreakerKey(v.cand)).state == Open
    ensures View(AfterVisit(c, providers, w, v).entries, BreakerKey(v.cand)).state == HalfOpen
            <==> Silent(v.exit)
  {
  }

  /** Every visit of `key` is skipped, at no cost upstream. */
  ghost predicate Skips(trace: seq<Visit>, key: string) {
    forall v :: v in trace && BreakerKey(v.cand) == key ==> v.exit == Skipped && v.calls == []
  }

  lemma SkipsSnoc(trace: seq<Visit>, v: Visit, key: string)
    requires Skips(trace, key) && (BreakerKey(v.cand) == key ==> v.exit == Skipped && v.calls == [])
    ensures Skips(trace + [v], key)
  {
  }

  /** Once half-open with its probe gone, a key is skipped by every visit of every later
      request and never moves again. */
  lemma {:induction false} AbandonedProbeSkipsForever(
    c: Config, providers: map<string, Provider>, bodyOk: bool, w: World, trace: seq<Visit>, key: string)
    requires SoundTrace(c, providers, bodyOk, w, trace)
    requires View(w.entries, key).state == HalfOpen && View(w.entries, key).probing
    ensures View(AfterTrace(c, providers, w, trace).entries, key) == View(w.entries, key)
    ensures Skips(trace, key)
  {
    if trace != [] {
      var rest, v := trace[..|trace| - 1], trace[|trace| - 1];
      AbandonedProbeSkipsForever(c, providers, bodyOk, w, rest, key);
      HalfOpenVisit(c, providers, bodyOk, AfterTrace(c, providers, w, rest), v, key);
      SkipsSnoc(rest, v, key);
      assert rest + [v] == trace;
    }
  }

  lemma HalfOpenVisit(c: Config, providers: map<string, Provider>, bodyOk: bool, w: World, v: Visit, key: string)
    requires Sound(c, providers, bodyOk, w, v)
    requires View(w.entries, key).state == HalfOpen && View(w.entries, key).probing
    ensures View(AfterVisit(c, providers, w, v).entries, key) == View(w.entries, key)
    ensures BreakerKey(v.cand) == key ==> v.exit == Skipped && v.calls == []
  {
    VisitMoves(c, providers, w, v, key);
  }

  lemma VisitMoves(c: Config, providers: map<string, Provider>, w: World, v: Visit, key: string)
    ensures BreakerKey(v.cand) != key ==> View(AfterVisit(c, providers, w, v).entries, key) == View(w.entries, key)
    ensures v.exit == Skipped ==> AfterVisit(c, providers, w, v).entries == Step(c, w.entries, Ask(BreakerKey(v.cand), v.askedAt))
  {
  }

  // ----- what the pieces mean, in the source's own terms -----

  /** How a walk ends, read off its last answer.  An answer too large, or a response that
      blames the request, ends the request; a response without failure serves; everything
      else, an upstream that could not be reached included, cascades.  Every answer before
      the last was a 429, and a 429 is the last only when no ready key is left. */
  lemma WalkEndsByItsLastAnswer(walk: seq<string>, calls: seq<Call>, exit: Exit)
    requires Walked(walk, calls, exit)
    ensures var a := calls[|calls| - 1].answer;
            && (exit == Fatal <==> a.err.TooLarge? || (a.resp.Some? && a.resp.value.failure == FailClient))
            && (exit == Served <==> !a.err.TooLarge? && a.resp.Some? && a.resp.value.failure == FailNone)
            && (exit == Fatal || exit == Served || exit == Cascaded)
            && (!a.err.TooLarge? && a.resp.Some? && a.resp.value.failure == FailRateLimit ==> |calls| == |walk|)
    ensures forall i :: 0 <= i < |calls| - 1 ==>
              var a := calls[i].answer; !a.err.TooLarge? && a.resp.Some? && a.resp.value.failure == FailRateLimit
    ensures |calls| <= |walk| && forall i :: 0 <= i < |calls| ==> calls[i].key == walk[i]
  {
    assert forall i :: 0 <= i < |calls| - 1 ==> Judge(calls[i].answer) == Limited;
  }

  /** Which candidates are left without a call, and why. */
  lemma LeftWithoutACall(c: Config, providers: map<string, Provider>, bodyOk: bool, w: World, v: Visit)
    requires Sound(c, providers, bodyOk, w, v)
    ensures var admitted := Admits(c, View(w.entries, BreakerKey(v.cand)), v.askedAt);
            var id := v.cand.providerId;
            && (v.exit == Skipped <==> !admitted)
            && (v.exit == Unusable <==> admitted && (id !in providers || !providers[id].enabled || providers[id].keys == []))
            && (v.exit == NoAdapter <==>
                admitted && id in providers && providers[id].enabled && providers[id].keys != [] && !providers[id].hasAdapter)
            && (v.exit == BadBody <==>
                admitted && id in providers && providers[id].enabled && providers[id].keys != [] && providers[id].hasAdapter && !bodyOk)
            && (v.calls == [] <==> v.exit == Skipped || v.exit == Unusable || v.exit == NoAdapter || v.exit == BadBody)
  {
  }

  /** What the attempt of a visit that asked the upstream records: the last response's status
      and failure, or that none was reached. */
  lemma AttemptRecordsTheLastAnswer(cand: Candidate, calls: seq<Call>)
    requires calls != []
    ensures var t, a := Noted(cand, calls), calls[|calls| - 1].answer;
            && t.cand == cand && !t.skipped
            && (a.resp.Some? ==> t.status == a.resp.value.status && t.failure == a.resp.value.failure)
            && (a.resp.None? && !a.err.TooLarge? ==> t.failure == FailTransport)
  {
    NotedCand(cand, calls[..|calls| - 1]);
  }

  lemma {:induction false} NotedCand(cand: Candidate, calls: seq<Call>)
    ensures Noted(cand, calls).cand == cand && !Noted(cand, calls).skipped
  {
    if calls != [] {
      NotedCand(cand, calls[..|calls| - 1]);
    }
  }

  /** And of one that did not: only a refusal of the breaker is marked as skipped. */
  lemma AttemptWithoutACall(v: Visit)
    ensures v.exit == Skipped ==> AttemptsOf(v) == [Attempt(v.cand, FailNone, 0, true)]
    ensures v.exit == Unusable || v.exit == NoAdapter ==> AttemptsOf(v) == [Attempt(v.cand, FailTransport, 0, false)]
    ensures v.exit == BadBody <==> AttemptsOf(v) == []
  {
  }

  /** What a visit tells the breaker: always one question, then one success when it served,
      one failure when it cascaded, and nothing otherwise. */
  lemma VisitTellsTheBreaker(v: Visit, ev: Event)
    ensures var key := BreakerKey(v.cand);
            ev in EventsOf(v) <==>
            || ev == Ask(key, v.askedAt)
            || (v.exit == Served && ev == Succeed(key, v.leftAt))
            || (v.exit == Cascaded && ev == Fail(key, v.leftAt))
  {
  }

  /** A candidate's entry is its tenant's, provider's and model's own. */
  lemma BreakerKeyIsTheCandidates(a: Candidate, b: Candidate)
    requires '/' !in a.tenant && '/' !in a.provider && '/' !in b.tenant && '/' !in b.provider
    ensures BreakerKey(a) == BreakerKey(b) <==> a.tenant == b.tenant && a.provider == b.provider && a.model == b.model
  {
    SplitUndoesKey(a.tenant, a.provider, a.model);
    SplitUndoesKey(b.tenant, b.provider, b.model);
  }

  /** A pool used for failover, or of one key, always starts at its first key. */
  lemma FailoverStartsAtTheFirst(p: Provider, cursors: map<string, nat>)
    requires p.failover || |p.keys| <= 1
    ensures OrderOf(p, cursors) == p.keys && CursorsAfter(p, cursors) == cursors
  {
  }

  /** Any other pool is walked in its own order from where the cursor points, round to just
      before it. */
  lemma RoundRobinOrder(p: Provider, cursors: map<string, nat>, i: nat)
    requires !p.failover && |p.keys| >= 2 && i < |p.keys|
    ensures var start := if p.id in cursors then cursors[p.id] else 0;
            && |OrderOf(p, cursors)| == |p.keys|
            && (start % |p.keys| + i) % |p.keys| < |p.keys|
            && OrderOf(p, cursors)[i] == p.keys[(start % |p.keys| + i) % |p.keys|]
  {
    RotationAt(p.keys, CursorOf(cursors, p.id) % |p.keys|, i);
  }

  /** A 429 that asks for `n` seconds keeps its key out of the walk for that long; one that
      names a date, until what was left to that date has passed again. */
  lemma RetryAfterParks(m: Cooldowns, provider: string, call: Call, order: seq<string>, now: int)
    requires !call.answer.err.TooLarge? && call.answer.resp.Some? && call.answer.resp.value.failure == FailRateLimit
    requires call.key in Unparked(ParkStep(m, provider, call), provider, order, now)
    ensures var h := call.answer.resp.value.header;
            && (h.Some? && h.value.Seconds? && h.value.n > 0 ==> now >= call.parkedAt + h.value.n * 1_000_000_000)
            && (h.Some? && h.value.Date? && h.value.t > call.seenAt ==> now >= call.parkedAt + (h.value.t - call.seenAt))
  {
    UnparkedMembers(ParkStep(m, provider, call), provider, order, now, call.key);
  }

  /** No other answer parks anything. */
  lemma OnlyRetryAfterParks(m: Cooldowns, provider: string, call: Call)
    ensures var a := call.answer;
            ParkStep(m, provider, call) != m ==>
              && !a.err.TooLarge? && a.resp.Some? && a.resp.value.failure == FailRateLimit && a.resp.value.header.Some?
              && match a.resp.value.header.value
                 case Seconds(n) => n > 0
                 case Date(t) => t > call.seenAt
                 case NoHeader => false
                 case Garbled => false
  {
  }

  lemma LastVisitSound(c: Config, providers: map<string, Provider>, bodyOk: bool, w: World, trace: seq<Visit>) returns (before: World)
    requires SoundTrace(c, providers, bodyOk, w, trace) && trace != []
    ensures Sound(c, providers, bodyOk, before, trace[|trace| - 1])
  {
    before := AfterTrace(c, providers, w, trace[..|trace| - 1]);
  }

  /** What a request's outcome means.  It is rejected only for an unparseable body or an answer
      that ends it, served only by a response without failure, and given up only when every
      candidate was skipped, unusable or cascaded. */
  lemma OutcomeMeans(c: Config, providers: map<string, Provider>, bodyOk: bool, w: World, cands: seq<Candidate>, out: Outcome, trace: seq<Visit>)
    requires SoundTrace(c, providers, bodyOk, w, trace) && PrefixOf(cands, trace) && Concludes(out, cands, trace)
    ensures forall i :: 0 <= i < |trace| - (if out.Exhausted? then 0 else 1) ==>
              trace[i].exit == Skipped || trace[i].exit == Unusable || trace[i].exit == NoAdapter || trace[i].exit == Cascaded
    ensures out.Exhausted? ==> |trace| == |cands|
    ensures out.Rejected? && out.why == BadBody ==> !bodyOk
    ensures out.Rejected? ==> out.why == BadBody || out.why == Fatal
    ensures out.Rejected? && out.why == Fatal ==> trace != [] && EndsTheRequest(trace[|trace| - 1])
    ensures out.Answered? ==> trace != [] && ServesTheRequest(trace[|trace| - 1])
  {
    if trace != [] {
      var before := LastVisitSound(c, providers, bodyOk, w, trace);
      var v := trace[|trace| - 1];
      if Walks(v.exit) {
        WalkEndsByItsLastAnswer(v.walk, v.calls, v.exit);
      }
    }
  }

  predicate EndsTheRequest(v: Visit) {
    v.calls != [] && var a := v.calls[|v.calls| - 1].answer;
    a.err.TooLarge? || (a.resp.Some? && a.resp.value.failure == FailClient)
  }

  predicate ServesTheRequest(v: Visit) {
    v.calls != [] && var a := v.calls[|v.calls| - 1].answer;
    !a.err.TooLarge? && a.resp.Some? && a.resp.value.failure == FailNone
  }

  // ----- the breaker's share of a request -----

  function EventsOf(v: Visit): seq<Event> {
    var key := BreakerKey(v.cand);
    match v.exit
    case Served => [Ask(key, v.askedAt), Succeed(key, v.leftAt)]
    case Cascaded => [Ask(key, v.askedAt), Fail(key, v.leftAt)]
    case _ => [Ask(key, v.askedAt)]
  }

  function TraceEvents(trace: seq<Visit>): seq<Event> {
    if trace == [] then [] else TraceEvents(trace[..|trace| - 1]) + EventsOf(trace[|trace| - 1])
  }

  lemma {:induction false} RunConcat(c: Config, start: map<string, Entry>, a: seq<Event>, b: seq<Event>)
    ensures Run(c, start, a + b) == Run(c, Run(c, start, a), b)
  {
    if b == [] {
      assert a + b == a;
    } else {
      var n := |b| - 1;
      RunConcat(c, start, a, b[..n]);
      assert (a + b)[..|a| + n] == a + b[..n];
    }
  }

  lemma VisitEvents(c: Config, entries: map<string, Entry>, v: Visit)
    ensures var key := BreakerKey(v.cand);
            Run(c, entries, EventsOf(v)) == Report(c, Step(c, entries, Ask(key, v.askedAt)), key, v.exit, v.leftAt)
  {
    var evs := EventsOf(v);
    assert Run(c, entries, evs[..1]) == Step(c, entries, evs[0]) by {
      assert evs[..1][..0] == [];
    }
    assert |evs| == 1 ==> evs[..1] == evs;
  }

  /** A request moves the breaker by one question per visit and one report per visit that
      served or cascaded, so everything proved of breaker runs holds of dispatched ones. */
  lemma {:induction false} TraceIsABreakerRun(c: Config, providers: map<string, Provider>, w: World, trace: seq<Visit>)
    ensures AfterTrace(c, providers, w, trace).entries == Run(c, w.entries, TraceEvents(trace))
  {
    if trace != [] {
      var rest, v := trace[..|trace| - 1], trace[|trace| - 1];
      TraceIsABreakerRun(c, providers, w, rest);
      RunConcat(c, w.entries, TraceEvents(rest), EventsOf(v));
      VisitEvents(c, AfterTrace(c, providers, w, rest).entries, v);
    }
  }
}
