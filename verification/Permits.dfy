/**
 Per-key concurrency permits.  A request that is let in holds one permit; the
 middleware gives it back when the handler returns, unless the handler handed it to
 a stream writer, which then gives it back when the stream ends.  The release is
 guarded so that only its first call counts.
 */
module Permits {

  // ----- the counters -----

  function Count(inUse: map<string, int>, key: string): int {
    if key in inUse then inUse[key] else 0
  }

  function Taken(inUse: map<string, int>, key: string): map<string, int> {
    inUse[key := Count(inUse, key) + 1]
  }

  /** The last permit of a key takes its counter with it. */
  function Dropped(inUse: map<string, int>, key: string): map<string, int> {
    if Count(inUse, key) <= 1 then inUse - {key} else inUse[key := inUse[key] - 1]
  }

  class Permit {
    const key: string
    var done: bool  // the release has been called

    constructor (key: string)
      ensures this.key == key && !done
    {
      this.key, done := key, false;
    }
  }

  class ConcurrencyLimiter {
    const limit: int
    var inUse: map<string, int>

    constructor (limit: int)
      ensures inUse == map[] && this.limit == if limit < 1 then 32 else limit
    {
      this.limit := if limit < 1 then 32 else limit;
      inUse := map[];
    }

    method Acquire(key: string, limit: int) returns (p: Permit?)
      modifies this
      ensures p != null <==> Count(old(inUse), key) < (if limit < 1 then this.limit else limit)
      ensures p != null ==> fresh(p) && p.key == key && !p.done && inUse == Taken(old(inUse), key)
      ensures p == null ==> inUse == old(inUse)
    {
      var bound := if limit < 1 then this.limit else limit;
      var n := if key in inUse then inUse[key] else 0;
      if n >= bound {
        return null;
      }
      inUse := inUse[key := n + 1];
      p := new Permit(key);
    }

    method Release(p: Permit)
      modifies this, p
      ensures p.done
      ensures inUse == if old(p.done) then old(inUse) else Dropped(old(inUse), p.key)
    {
      if p.done {
        return;
      }
      p.done := true;
      if p.key !in inUse || inUse[p.key] <= 1 {
        inUse := inUse - {p.key};
        return;
      }
      inUse := inUse[p.key := inUse[p.key] - 1];
    }
  }

  class Slot {
    const permit: Permit
    var adopted: bool

    constructor (permit: Permit)
      ensures this.permit == permit && !adopted
    {
      this.permit, adopted := permit, false;
    }

    method Take() returns (p: Permit)
      modifies this
      ensures adopted && p == permit
    {
      adopted := true;
      p := permit;
    }

    method ReleaseUnlessAdopted(l: ConcurrencyLimiter)
      modifies l, permit
      ensures adopted ==> l.inUse == old(l.inUse) && permit.done == old(permit.done)
      ensures !adopted ==> permit.done && l.inUse == if old(permit.done) then old(l.inUse) else Dropped(old(l.inUse), permit.key)
    {
      if !adopted {
        l.Release(permit);
      }
    }
  }

  // ----- runs -----

  /** One admitted request: who owns its permit, how far it has come, and how many times
      its release took effect. */
  datatype Request = Request(key: string, adopted: bool, returned: bool, ended: bool, released: nat)

  datatype System = System(inUse: map<string, int>, requests: map<nat, Request>)

  /** `Arrive` asks for a permit, `Adopt` hands it to the stream writer, `Return` is the
      middleware's deferred release, `End` the writer's, `Again` a stray repeat. */
  datatype Act =
    | Arrive(id: nat, key: string, limit: int)
    | Adopt(id: nat)
    | Return(id: nat)
    | End(id: nat)
    | Again(id: nat)

  predicate Enabled(s: System, a: Act) {
    match a
    case Arrive(id, _, _) => id !in s.requests
    case Adopt(id) => id in s.requests && !s.requests[id].returned
    case Return(id) => id in s.requests && !s.requests[id].returned
    case End(id) => id in s.requests && s.requests[id].adopted && s.requests[id].returned && !s.requests[id].ended
    case Again(id) => id in s.requests && s.requests[id].released > 0
  }

  /** Calling the release: the counter moves the first time only. */
  function Call(s: System, id: nat): System
    requires id in s.requests
  {
    var r := s.requests[id];
    if r.released > 0 then s
    else System(Dropped(s.inUse, r.key), s.requests[id := r.(released := r.released + 1)])
  }

  function Next(deflt: int, s: System, a: Act): System
    requires Enabled(s, a)
  {
    match a
    case Arrive(id, key, limit) =>
      if Count(s.inUse, key) >= (if limit < 1 then deflt else limit) then s
      else System(Taken(s.inUse, key), s.requests[id := Request(key, false, false, false, 0)])
    case Adopt(id) => s.(requests := s.requests[id := s.requests[id].(adopted := true)])
    case Return(id) =>
      var t := if s.requests[id].adopted then s else Call(s, id);
      t.(requests := t.requests[id := t.requests[id].(returned := true)])
    case End(id) =>
      var t := Call(s, id);
      t.(requests := t.requests[id := t.requests[id].(ended := true)])
    case Again(id) => Call(s, id)
  }

  function Held(requests: map<nat, Request>, key: string): set<nat> {
    set id | id in requests && requests[id].key == key && requests[id].released == 0
  }

  /** Each counter is the number of permits out for its key, and no counter is zero; and a
      permit is back exactly when its owner is finished with it. */
  ghost predicate Inv(s: System) {
    && (forall key :: Count(s.inUse, key) == |Held(s.requests, key)|)
    && (forall key :: key in s.inUse ==> s.inUse[key] > 0)
    && (forall id :: id in s.requests ==>
          var r := s.requests[id];
          && r.released == (if (if r.adopted then r.ended else r.returned) then 1 else 0)
          && (r.ended ==> r.adopted && r.returned))
  }

  lemma HeldChange(before: map<nat, Request>, after: map<nat, Request>, id: nat, key: string)
    requires after.Keys == before.Keys + {id}
    requires forall other :: other in before && other != id ==> after[other] == before[other]
    ensures var had := id in before && before[id].key == key && before[id].released == 0;
            var has := after[id].key == key && after[id].released == 0;
            |Held(after, key)| == |Held(before, key)| + (if has then 1 else 0) - (if had then 1 else 0)
  {
    var a, b := Held(before, key), Held(after, key);
    forall x | x != id ensures x in a <==> x in b {
      assert x in after <==> x in before;
    }
    SizesDiffer(a, b, id);
  }

  lemma SizesDiffer(a: set<nat>, b: set<nat>, id: nat)
    requires forall x :: x != id ==> (x in a <==> x in b)
    ensures |b| == |a| + (if id in b then 1 else 0) - (if id in a then 1 else 0)
  {
    if id in a && id !in b {
      assert a == b + {id};
    } else if id in b && id !in a {
      assert b == a + {id};
    } else {
      assert a == b;
    }
  }

  lemma CounterFollows(deflt: int, s: System, a: Act, key: string)
    requires Inv(s) && Enabled(s, a)
    ensures var t := Next(deflt, s, a); Count(t.inUse, key) == |Held(t.requests, key)|
  {
    var t := Next(deflt, s, a);
    if a.id in t.requests {
      HeldChange(s.requests, t.requests, a.id, key);
      if a.id in s.requests && s.requests[a.id].released == 0 {
        assert a.id in Held(s.requests, s.requests[a.id].key);
      }
    }
  }

  lemma NextKeepsInv(deflt: int, s: System, a: Act)
    requires Inv(s) && Enabled(s, a)
    ensures Inv(Next(deflt, s, a))
  {
    var t := Next(deflt, s, a);
    forall key ensures Count(t.inUse, key) == |Held(t.requests, key)| {
      CounterFollows(deflt, s, a, key);
    }
  }

  predicate Legal(deflt: int, s: System, acts: seq<Act>)
    decreases |acts|
  {
    acts == [] || (Enabled(s, acts[0]) && Legal(deflt, Next(deflt, s, acts[0]), acts[1..]))
  }

  function Exec(deflt: int, s: System, acts: seq<Act>): System
    requires Legal(deflt, s, acts)
    decreases |acts|
  {
    if acts == [] then s else Exec(deflt, Next(deflt, s, acts[0]), acts[1..])
  }

  lemma {:induction false} ExecKeepsInv(deflt: int, s: System, acts: seq<Act>)
    requires Inv(s) && Legal(deflt, s, acts)
    ensures Inv(Exec(deflt, s, acts))
    decreases |acts|
  {
    if acts != [] {
      NextKeepsInv(deflt, s, acts[0]);
      ExecKeepsInv(deflt, Next(deflt, s, acts[0]), acts[1..]);
    }
  }

  /** In every interleaving each key's counter is exactly its permits outstanding, absent
      when there are none, and a request is let in exactly when fewer than its limit are. */
  lemma CountersAreOutstandingPermits(deflt: int, acts: seq<Act>, key: string, limit: int, id: nat)
    requires Legal(deflt, System(map[], map[]), acts)
    requires id !in Exec(deflt, System(map[], map[]), acts).requests
    ensures var s := Exec(deflt, System(map[], map[]), acts);
            && Count(s.inUse, key) == |Held(s.requests, key)|
            && (key in s.inUse <==> Held(s.requests, key) != {})
            && (id in Next(deflt, s, Arrive(id, key, limit)).requests
                <==> |Held(s.requests, key)| < if limit < 1 then deflt else limit)
  {
    assert Held(map[], key) == {};
    ExecKeepsInv(deflt, System(map[], map[]), acts);
  }

  /** Whoever owned it, a permit has been given back once when its owner is finished, and
      not before. */
  lemma ReleasedOnceByItsOwner(deflt: int, acts: seq<Act>, id: nat)
    requires Legal(deflt, System(map[], map[]), acts)
    requires id in Exec(deflt, System(map[], map[]), acts).requests
    ensures var r := Exec(deflt, System(map[], map[]), acts).requests[id];
            r.released == if (if r.adopted then r.ended else r.returned) then 1 else 0
  {
    assert forall key :: Held(map[], key) == {};
    ExecKeepsInv(deflt, System(map[], map[]), acts);
  }
}
