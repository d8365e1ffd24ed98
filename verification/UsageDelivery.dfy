/**
 From a served request to a stored usage row.  The gateway queues records, one
 goroutine delivers them in order and retries until it hears; the analytics service
 checks for the request id, inserts under a unique constraint, and rechecks when the
 insert is refused.  Answers may be lost and an attempt that timed out may still land
 later, beside the retry.

 `Telemetry` and `UsageTable` are the two objects on their own; `System` is the
 protocol between them, one step per atomic action of either side.
 */
module UsageDelivery {
  import opened Wrappers

  datatype Record = Record(requestId: string, tenantId: string, recordedAt: Option<int>)

  predicate Blank(s: string) {
    forall c :: c in s ==> c == ' ' || c == '\t' || c == '\n' || c == '\r'
  }

  ghost predicate OnlySpace(s: string) {
    forall i :: 0 <= i < |s| ==> s[i] == ' ' || s[i] == '\t' || s[i] == '\n' || s[i] == '\r'
  }

  lemma BlankMeans(s: string)
    ensures Blank(s) <==> OnlySpace(s)
  {
    if OnlySpace(s) {
      forall c | c in s ensures c == ' ' || c == '\t' || c == '\n' || c == '\r' {
        var i :| 0 <= i < |s| && s[i] == c;
      }
    }
    if Blank(s) {
      forall i | 0 <= i < |s| ensures s[i] == ' ' || s[i] == '\t' || s[i] == '\n' || s[i] == '\r' {
        assert s[i] in s;
      }
    }
  }

  predicate WellFormed(r: Record) {
    !Blank(r.requestId) && !Blank(r.tenantId) && r.recordedAt.Some?
  }

  predicate Holds(rows: seq<Record>, id: string) {
    exists i :: 0 <= i < |rows| && rows[i].requestId == id
  }

  ghost predicate Unique(rows: seq<Record>) {
    forall i, j :: 0 <= i < j < |rows| ==> rows[i].requestId != rows[j].requestId
  }

  predicate Delivered(status: int) {
    status < 300
  }

  /** Retrying the same request could never succeed. */
  predicate Permanent(status: int) {
    400 <= status < 500 && status != 408 && status != 429
  }

  // ----- what each action does, wherever it is taken -----

  /** How far a request to the receiver has come. */
  datatype Pc = Arrived | Checked | Violated | Answered(status: int)

  function AfterCheck(rows: seq<Record>, r: Record): Pc {
    if !WellFormed(r) then Answered(400) else if Holds(rows, r.requestId) then Answered(200) else Checked
  }

  /** The unique constraint refuses a second row for an id; `broken` is any other refusal. */
  predicate Inserts(rows: seq<Record>, r: Record, broken: bool) {
    !broken && !Holds(rows, r.requestId)
  }

  function AfterInsert(rows: seq<Record>, r: Record, broken: bool): Pc {
    if Inserts(rows, r, broken) then Answered(201) else Violated
  }

  function RowsAfterInsert(rows: seq<Record>, r: Record, broken: bool): seq<Record> {
    if Inserts(rows, r, broken) then rows + [r] else rows
  }

  function AfterRecheck(rows: seq<Record>, r: Record): Pc {
    Answered(if Holds(rows, r.requestId) then 200 else 500)
  }

  /** A record offered to the queue, and the drop counter beside it. */
  function Queued(queue: seq<Record>, capacity: nat, r: Record): seq<Record> {
    if |queue| < capacity then queue + [r] else queue
  }

  function DroppedAfter(queue: seq<Record>, capacity: nat, dropped: nat): nat {
    if |queue| < capacity then dropped else dropped + 1
  }

  // ----- the receiver, one request at a time -----

  class UsageTable {
    var rows: seq<Record>

    constructor ()
      ensures rows == []
    {
      rows := [];
    }

    method ExistsByRequestId(id: string) returns (found: bool)
      ensures found == Holds(rows, id)
    {
      for i := 0 to |rows|
        invariant forall k :: 0 <= k < i ==> rows[k].requestId != id
      {
        if rows[i].requestId == id {
          return true;
        }
      }
      return false;
    }

    method Check(r: Record) returns (pc: Pc)
      ensures pc == AfterCheck(rows, r)
    {
      if Blank(r.requestId) || Blank(r.tenantId) || r.recordedAt.None? {
        return Answered(400);
      }
      var found := ExistsByRequestId(r.requestId);
      return if found then Answered(200) else Checked;
    }

    method Save(r: Record, broken: bool) returns (pc: Pc)
      modifies this
      ensures pc == AfterInsert(old(rows), r, broken) && rows == RowsAfterInsert(old(rows), r, broken)
    {
      var taken := ExistsByRequestId(r.requestId);
      if broken || taken {
        return Violated;
      }
      rows := rows + [r];
      return Answered(201);
    }

    method Recheck(r: Record) returns (pc: Pc)
      ensures pc == AfterRecheck(rows, r)
    {
      var found := ExistsByRequestId(r.requestId);
      return Answered(if found then 200 else 500);
    }

    /** Idempotent: 400 when malformed, 200 when already held, 201 exactly when this call
        stored the record, and then at the end; a refusal that is no duplicate stays an error. */
    method Record(r: Record, broken: bool) returns (status: int)
      requires Unique(rows)
      modifies this
      ensures Unique(rows)
      ensures status == (if !WellFormed(r) then 400
                         else if Holds(old(rows), r.requestId) then 200
                         else if broken then 500 else 201)
      ensures rows == if status == 201 then old(rows) + [r] else old(rows)
      ensures Delivered(status) ==> Holds(rows, r.requestId)
      ensures status == 400 <==> OnlySpace(r.requestId) || OnlySpace(r.tenantId) || r.recordedAt.None?
      ensures status == 201 ==> rows == old(rows) + [r]
      ensures status == 200 ==> rows == old(rows) && exists i :: 0 <= i < |rows| && rows[i].requestId == r.requestId
    {
      BlankMeans(r.requestId);
      BlankMeans(r.tenantId);
      var pc := Check(r);
      if pc.Answered? {
        return pc.status;
      }
      pc := Save(r, broken);
      if pc.Violated? {
        pc := Recheck(r);
      } else {
        assert rows[|rows| - 1] == r;
      }
      return pc.status;
    }
  }

  // ----- the sender, against an arbitrary sink -----

  datatype Reply = Status(code: int) | Unreachable

  /** No answer, a redirect, a server's error, a timeout or a rate limit may end better. */
  predicate WorthRetrying(r: Reply) {
    r.Unreachable? || 300 <= r.code < 400 || r.code >= 500 || r.code == 408 || r.code == 429
  }

  const RETRY_BASE: int := 500
  const RETRY_MAX: int := 30_000

  /** The wait after attempt `n`, in milliseconds: doubled each time up to the ceiling. */
  function Backoff(n: nat): int {
    if n == 0 then RETRY_BASE else if Backoff(n - 1) * 2 < RETRY_MAX then Backoff(n - 1) * 2 else RETRY_MAX
  }

  class Telemetry {
    const capacity: nat
    var ch: seq<Record>
    var dropped: nat

    constructor (buffer: int)
      ensures capacity == (if buffer < 1 then 1000 else buffer) && ch == [] && dropped == 0
    {
      capacity := if buffer < 1 then 1000 else buffer;
      ch, dropped := [], 0;
    }

    method Record(rec: Record)
      modifies this
      ensures ch == Queued(old(ch), capacity, rec) && dropped == DroppedAfter(old(ch), capacity, old(dropped))
    {
      if |ch| < capacity {
        ch := ch + [rec];
      } else {
        dropped := dropped + 1;
      }
    }

    /** `sink(i)` is the outcome of attempt `i`, and shutdown interrupts the wait after
        attempt `stopAfter`.  Every attempt before the last was retryable, waits follow the
        backoff, and the record counts as persisted exactly when the last attempt said so. */
    method Deliver(retry: bool, sink: nat -> Reply, stopAfter: nat) returns (ok: bool, attempts: nat, waits: seq<int>)
      ensures attempts >= 1 && (forall i :: 0 <= i < attempts - 1 ==> WorthRetrying(sink(i)))
      ensures ok <==> sink(attempts - 1).Status? && sink(attempts - 1).code < 300
      ensures !ok ==> !retry || !WorthRetrying(sink(attempts - 1)) || attempts == stopAfter + 1
      ensures |waits| == attempts - 1 && forall i :: 0 <= i < |waits| ==> waits[i] == Backoff(i)
      ensures !retry ==> attempts == 1
    {
      var backoff := RETRY_BASE;
      attempts, waits := 1, [];
      while true
        invariant 1 <= attempts <= stopAfter + 1 && (!retry ==> attempts == 1)
        invariant forall i :: 0 <= i < attempts - 1 ==> WorthRetrying(sink(i))
        invariant |waits| == attempts - 1 && backoff == Backoff(attempts - 1)
        invariant forall i :: 0 <= i < |waits| ==> waits[i] == Backoff(i)
        decreases stopAfter - attempts
      {
        var r := sink(attempts - 1);
        if r.Status? && Delivered(r.code) {
          return true, attempts, waits;
        }
        if !retry || (r.Status? && Permanent(r.code)) {
          return false, attempts, waits;
        }
        if attempts == stopAfter + 1 {
          return false, attempts, waits;
        }
        waits := waits + [backoff];
        backoff := if backoff * 2 < RETRY_MAX then backoff * 2 else RETRY_MAX;
        attempts := attempts + 1;
      }
    }

    /** One attempt per queued record; those that fail are counted once, at the end. */
    method Drain(sink: nat -> Reply)
      modifies this
      ensures ch == [] && dropped == old(dropped) + Failures(sink, |old(ch)|)
    {
      var lost, n := 0, 0;
      while |ch| > 0
        invariant n + |ch| == |old(ch)| && lost == Failures(sink, n) && dropped == old(dropped)
        decreases |ch|
      {
        ch := ch[1..];
        var attempt := n;
        var ok, _, _ := Deliver(false, (i: nat) => sink(attempt + i), 0);
        if !ok {
          lost := lost + 1;
        }
        n := n + 1;
      }
      dropped := dropped + lost;
    }
  }

  /** How many of the first `n` single attempts did not deliver. */
  function Failures(sink: nat -> Reply, n: nat): nat {
    if n == 0 then 0
    else Failures(sink, n - 1) + if sink(n - 1).Status? && Delivered(sink(n - 1).code) then 0 else 1
  }

  /** Waits never shrink and never exceed the ceiling. */
  lemma {:induction false} BackoffBounded(n: nat)
    ensures RETRY_BASE <= Backoff(n) <= Backoff(n + 1) <= RETRY_MAX
  {
    if n > 0 {
      BackoffBounded(n - 1);
    }
  }

  function Doubled(n: nat): int {
    if n == 0 then 500 else 2 * Doubled(n - 1)
  }

  /** Half a second, doubled for every attempt so far, and never more than half a minute. */
  lemma {:induction false} BackoffDoubles(n: nat)
    ensures Backoff(n) == if Doubled(n) < 30_000 then Doubled(n) else 30_000
    ensures Doubled(n) >= 500
  {
    if n > 0 {
      BackoffDoubles(n - 1);
    }
  }

  // ----- the protocol -----

  datatype Mode = Running | Draining | Closed

  /** What the delivery goroutine holds: a record to send (`tried` once an attempt failed),
      or one whose attempt it is waiting on. */
  datatype Hand = Empty | Waiting(rec: Record, tried: bool) | Calling(rec: Record, attempt: nat)

  datatype Handler = Handler(rec: Record, pc: Pc)

  datatype System = System(
    submitted: seq<Record>, queue: seq<Record>, hand: Hand, acked: seq<Record>,
    dropped: nat, pendingLost: nat, stop: bool, mode: Mode,
    handlers: map<nat, Handler>, rows: seq<Record>)

  const START: System := System([], [], Empty, [], 0, 0, false, Running, map[], [])

  datatype Act =
    | Submit(rec: Record)
    | Take | Attempt(a: nat) | Hear | Timeout | GiveUp | Stop | BeginDrain | EndDrain
    | Check(a: nat) | Insert(a: nat, broken: bool) | Recheck(a: nat) | Crash(a: nat, status: int)

  predicate At(s: System, a: nat, pc: Pc) {
    a in s.handlers && s.handlers[a].pc == pc
  }

  predicate Enabled(s: System, act: Act) {
    match act
    case Submit(rec) => !Holds(s.submitted, rec.requestId)
    case Take => s.hand.Empty? && s.queue != [] && s.mode != Closed
    case Attempt(a) => s.hand.Waiting? && a !in s.handlers
    case Hear => s.hand.Calling? && s.hand.attempt in s.handlers && s.handlers[s.hand.attempt].pc.Answered?
    case Timeout => s.hand.Calling?
    case GiveUp => s.hand.Waiting? && s.hand.tried && s.stop && s.mode == Running
    case Stop => true
    case BeginDrain => s.mode == Running && s.stop && s.hand.Empty?
    case EndDrain => s.mode == Draining && s.hand.Empty? && s.queue == []
    case Check(a) => At(s, a, Arrived)
    case Insert(a, _) => At(s, a, Checked)
    case Recheck(a) => At(s, a, Violated)
    case Crash(a, status) => a in s.handlers && !s.handlers[a].pc.Answered? && !Delivered(status)
  }

  /** The record in hand will not be sent again. */
  function Lose(s: System): System {
    if s.mode == Draining then s.(hand := Empty, pendingLost := s.pendingLost + 1)
    else s.(hand := Empty, dropped := s.dropped + 1)
  }

  /** An attempt failed in a way worth retrying; draining makes one attempt only. */
  function Retry(s: System, rec: Record): System {
    if s.mode == Draining then Lose(s) else s.(hand := Waiting(rec, true))
  }

  function Answer(s: System, a: nat, pc: Pc): System
    requires a in s.handlers
  {
    s.(handlers := s.handlers[a := s.handlers[a].(pc := pc)])
  }

  function Next(capacity: nat, s: System, act: Act): System
    requires Enabled(s, act)
  {
    match act
    case Submit(rec) =>
      s.(submitted := s.submitted + [rec], queue := Queued(s.queue, capacity, rec),
         dropped := DroppedAfter(s.queue, capacity, s.dropped))
    case Take => s.(hand := Waiting(s.queue[0], false), queue := s.queue[1..])
    case Attempt(a) =>
      s.(hand := Calling(s.hand.rec, a), handlers := s.handlers[a := Handler(s.hand.rec, Arrived)])
    case Hear =>
      var status := s.handlers[s.hand.attempt].pc.status;
      if Delivered(status) then s.(hand := Empty, acked := s.acked + [s.hand.rec])
      else if Permanent(status) then Lose(s)
      else Retry(s, s.hand.rec)
    case Timeout => Retry(s, s.hand.rec)
    case GiveUp => Lose(s)
    case Stop => s.(stop := true)
    case BeginDrain => s.(mode := Draining)
    case EndDrain => s.(mode := Closed, dropped := s.dropped + s.pendingLost, pendingLost := 0)
    case Check(a) => Answer(s, a, AfterCheck(s.rows, s.handlers[a].rec))
    case Insert(a, broken) =>
      var rec := s.handlers[a].rec;
      Answer(s.(rows := RowsAfterInsert(s.rows, rec, broken)), a, AfterInsert(s.rows, rec, broken))
    case Recheck(a) => Answer(s, a, AfterRecheck(s.rows, s.handlers[a].rec))
    case Crash(a, status) => Answer(s, a, Answered(status))
  }

  function InHand(h: Hand): seq<Record> {
    if h.Empty? then [] else [h.rec]
  }

  /** The records not lost, in the order the gateway deals with them. */
  function Line(s: System): seq<Record> {
    s.acked + InHand(s.hand) + s.queue
  }

  // ----- what every step keeps -----

  ghost predicate Conserved(s: System) {
    |s.submitted| == |s.acked| + s.dropped + s.pendingLost + |s.queue| + |InHand(s.hand)|
  }

  /** `line` lists submitted records in the order of submission. */
  ghost predicate InOrder(line: seq<Record>, submitted: seq<Record>) {
    && (forall i :: 0 <= i < |line| ==> line[i] in submitted)
    && (forall i, j, p, q ::
          (0 <= i < j < |line| && 0 <= p < |submitted| && 0 <= q < |submitted| && submitted[p] == line[i] && submitted[q] == line[j])
          ==> p < q)
  }

  /** Nothing downstream knows a record still queued. */
  ghost predicate Untouched(s: System) {
    forall q :: q in s.queue ==>
      && !Holds(s.rows, q.requestId)
      && forall a :: a in s.handlers ==> s.handlers[a].rec.requestId != q.requestId
  }

  /** Rows and handlers are submitted records; a handler that answered with success left
      the record's row behind; a call in hand is its own handler's. */
  ghost predicate Honest(s: System) {
    && (forall i :: 0 <= i < |s.rows| ==> s.rows[i] in s.submitted)
    && (forall a :: a in s.handlers ==> s.handlers[a].rec in s.submitted)
    && (forall a :: a in s.handlers && s.handlers[a].pc.Answered? && Delivered(s.handlers[a].pc.status) ==> s.handlers[a].rec in s.rows)
    && (s.hand.Calling? ==> s.hand.attempt in s.handlers && s.handlers[s.hand.attempt].rec == s.hand.rec)
    && (forall i :: 0 <= i < |s.acked| ==> s.acked[i] in s.rows)
  }

  /** Rows of acknowledged records come in the order of acknowledgement, and before any
      row of the record in hand. */
  ghost predicate RowsFollow(dealt: seq<Record>, rows: seq<Record>) {
    forall i, j, p, q ::
      (0 <= i < j < |dealt| && 0 <= p < |rows| && 0 <= q < |rows| && rows[p] == dealt[i] && rows[q] == dealt[j])
      ==> p < q
  }

  ghost predicate Inv(s: System) {
    && Conserved(s) && Unique(s.submitted) && Unique(s.rows)
    && InOrder(Line(s), s.submitted) && Untouched(s) && Honest(s)
    && RowsFollow(s.acked + InHand(s.hand), s.rows)
  }

  lemma SameIdSameRecord(s: seq<Record>, a: Record, b: Record)
    requires Unique(s) && a in s && b in s && a.requestId == b.requestId
    ensures a == b
  {
    var i :| 0 <= i < |s| && s[i] == a;
    var j :| 0 <= j < |s| && s[j] == b;
  }

  lemma DifferentRecordsDifferentIds(s: seq<Record>, a: Record, b: Record)
    requires Unique(s) && a in s && b in s && a != b
    ensures a.requestId != b.requestId
  {
    var i :| 0 <= i < |s| && s[i] == a;
    var j :| 0 <= j < |s| && s[j] == b;
  }

  lemma InOrderDistinct(line: seq<Record>, submitted: seq<Record>, i: nat, j: nat)
    requires InOrder(line, submitted) && i < j < |line|
    ensures line[i] != line[j]
  {
    assert line[i] in submitted;
    var p :| 0 <= p < |submitted| && submitted[p] == line[i];
  }

  lemma InOrderRemove(line: seq<Record>, submitted: seq<Record>, k: nat)
    requires InOrder(line, submitted) && k < |line|
    ensures InOrder(line[..k] + line[k + 1..], submitted)
  {
    var rest := line[..k] + line[k + 1..];
    assert forall i :: 0 <= i < |rest| ==> rest[i] == line[if i < k then i else i + 1];
  }

  lemma InOrderMore(line: seq<Record>, submitted: seq<Record>, rec: Record)
    requires InOrder(line, submitted) && rec !in submitted
    ensures InOrder(line, submitted + [rec])
  {
    var longer := submitted + [rec];
    assert forall i, p :: 0 <= i < |line| && 0 <= p < |longer| && longer[p] == line[i] ==> p < |submitted| && submitted[p] == line[i];
  }

  lemma InOrderPush(line: seq<Record>, submitted: seq<Record>, rec: Record)
    requires InOrder(line, submitted + [rec]) && rec !in submitted && rec !in line
    ensures InOrder(line + [rec], submitted + [rec])
  {
    var longer := submitted + [rec];
    assert forall i, p :: 0 <= i < |line| && 0 <= p < |longer| && longer[p] == line[i] ==> p < |submitted|;
    assert forall q :: 0 <= q < |longer| && longer[q] == rec ==> q == |submitted|;
  }

  lemma RowsAppend(dealt: seq<Record>, rows: seq<Record>, rec: Record)
    requires RowsFollow(dealt, rows) && forall i :: 0 <= i < |dealt| - 1 ==> dealt[i] != rec
    ensures RowsFollow(dealt, rows + [rec])
  {
  }

  lemma RowsNewest(dealt: seq<Record>, rows: seq<Record>, rec: Record)
    requires RowsFollow(dealt, rows) && rec !in rows
    ensures RowsFollow(dealt + [rec], rows)
  {
  }

  lemma RowsPrefix(dealt: seq<Record>, rows: seq<Record>, n: nat)
    requires RowsFollow(dealt, rows) && n <= |dealt|
    ensures RowsFollow(dealt[..n], rows)
  {
  }

  lemma InHandNotQueued(s: System, q: Record)
    requires Inv(s) && !s.hand.Empty? && q in s.queue
    ensures s.hand.rec.requestId != q.requestId && s.hand.rec in s.submitted
  {
    var n := |s.acked|;
    var k :| 0 <= k < |s.queue| && s.queue[k] == q;
    assert Line(s)[n] == s.hand.rec && Line(s)[n + 1 + k] == q;
    InOrderDistinct(Line(s), s.submitted, n, n + 1 + k);
    assert Line(s)[n] in s.submitted && Line(s)[n + 1 + k] in s.submitted;
    DifferentRecordsDifferentIds(s.submitted, s.hand.rec, q);
  }

  lemma HandSubmitted(s: System)
    requires Inv(s) && !s.hand.Empty?
    ensures s.hand.rec in s.submitted
  {
    assert Line(s)[|s.acked|] == s.hand.rec;
  }

  lemma SubmitKeeps(capacity: nat, s: System, rec: Record)
    requires Inv(s) && Enabled(s, Submit(rec))
    ensures Inv(Next(capacity, s, Submit(rec)))
  {
    var t := Next(capacity, s, Submit(rec));
    assert rec !in s.submitted;
    InOrderMore(Line(s), s.submitted, rec);
    if |s.queue| < capacity {
      InOrderPush(Line(s), s.submitted, rec);
      assert Line(t) == Line(s) + [rec];
      forall q | q in t.queue
        ensures !Holds(t.rows, q.requestId)
        ensures forall a :: a in t.handlers ==> t.handlers[a].rec.requestId != q.requestId
      {
        if q == rec {
          FreshEverywhere(s, rec);
        }
      }
    } else {
      assert Line(t) == Line(s);
    }
  }

  lemma FreshEverywhere(s: System, rec: Record)
    requires Honest(s) && !Holds(s.submitted, rec.requestId)
    ensures !Holds(s.rows, rec.requestId)
    ensures forall a :: a in s.handlers ==> s.handlers[a].rec.requestId != rec.requestId
  {
    forall i | 0 <= i < |s.rows| ensures s.rows[i].requestId != rec.requestId {
      assert s.rows[i] in s.submitted;
    }
    forall a | a in s.handlers ensures s.handlers[a].rec.requestId != rec.requestId {
      assert s.handlers[a].rec in s.submitted;
    }
  }

  lemma TakeKeeps(capacity: nat, s: System)
    requires Inv(s) && Enabled(s, Take)
    ensures Inv(Next(capacity, s, Take))
  {
    var t := Next(capacity, s, Take);
    assert Line(t) == Line(s);
    assert s.queue[0] in s.queue;
    assert !Holds(s.rows, s.queue[0].requestId);
    assert s.acked + InHand(s.hand) == s.acked;
    RowsNewest(s.acked, s.rows, s.queue[0]);
  }

  lemma AttemptKeeps(capacity: nat, s: System, a: nat)
    requires Inv(s) && Enabled(s, Attempt(a))
    ensures Inv(Next(capacity, s, Attempt(a)))
  {
    var t := Next(capacity, s, Attempt(a));
    HandSubmitted(s);
    assert Line(t) == Line(s);
    forall q | q in t.queue ensures forall b :: b in t.handlers ==> t.handlers[b].rec.requestId != q.requestId {
      InHandNotQueued(s, q);
    }
  }

  lemma AckKeeps(s: System, t: System)
    requires Inv(s) && !s.hand.Empty? && s.hand.rec in s.rows
    requires t == s.(hand := Empty, acked := s.acked + [s.hand.rec])
    ensures Inv(t)
  {
    assert Line(t) == Line(s);
    assert t.acked + InHand(t.hand) == s.acked + InHand(s.hand);
  }

  lemma LineWithoutHand(s: System)
    requires Inv(s) && !s.hand.Empty?
    ensures InOrder(s.acked + s.queue, s.submitted)
  {
    var n := |s.acked|;
    InOrderRemove(Line(s), s.submitted, n);
    assert Line(s)[..n] + Line(s)[n + 1..] == s.acked + s.queue;
  }

  lemma RowsWithoutHand(s: System)
    requires RowsFollow(s.acked + InHand(s.hand), s.rows)
    ensures RowsFollow(s.acked, s.rows)
  {
    RowsPrefix(s.acked + InHand(s.hand), s.rows, |s.acked|);
    assert (s.acked + InHand(s.hand))[..|s.acked|] == s.acked;
  }

  lemma LoseKeeps(s: System)
    requires Inv(s) && !s.hand.Empty?
    ensures Inv(Lose(s))
  {
    var t := Lose(s);
    LineWithoutHand(s);
    RowsWithoutHand(s);
    assert Line(t) == s.acked + s.queue && t.acked + InHand(t.hand) == s.acked;
  }

  lemma RetryKeeps(s: System)
    requires Inv(s) && !s.hand.Empty?
    ensures Inv(Retry(s, s.hand.rec))
  {
    if s.mode == Draining {
      LoseKeeps(s);
    } else {
      var t := Retry(s, s.hand.rec);
      assert Line(t) == Line(s) && InHand(t.hand) == InHand(s.hand);
    }
  }

  /** Changing how far a handler has come keeps everything, provided a success it now
      reports has its row. */
  lemma AnswerKeeps(s: System, a: nat, pc: Pc)
    requires Inv(s) && a in s.handlers
    requires pc.Answered? && Delivered(pc.status) ==> s.handlers[a].rec in s.rows
    ensures Inv(Answer(s, a, pc))
  {
    var t := Answer(s, a, pc);
    assert Line(t) == Line(s);
  }

  /** A row found under a submitted record's id is that record's own. */
  lemma HeldIsItsOwn(s: System, rec: Record)
    requires Inv(s) && rec in s.submitted && Holds(s.rows, rec.requestId)
    ensures rec in s.rows
  {
    var i :| 0 <= i < |s.rows| && s.rows[i].requestId == rec.requestId;
    SameIdSameRecord(s.submitted, s.rows[i], rec);
  }

  lemma StoreKeeps(s: System, a: nat)
    requires Inv(s) && a in s.handlers && !Holds(s.rows, s.handlers[a].rec.requestId)
    ensures Inv(s.(rows := s.rows + [s.handlers[a].rec]))
  {
    var rec := s.handlers[a].rec;
    var t := s.(rows := s.rows + [rec]);
    assert Line(t) == Line(s);
    forall i | 0 <= i < |s.acked| ensures s.acked[i] != rec {
      assert s.acked[i] in s.rows;
    }
    RowsAppend(s.acked + InHand(s.hand), s.rows, rec);
    forall q | q in t.queue ensures !Holds(t.rows, q.requestId) {
      assert !Holds(s.rows, q.requestId) && rec.requestId != q.requestId;
    }
  }

  lemma NextKeepsInv(capacity: nat, s: System, act: Act)
    requires Inv(s) && Enabled(s, act)
    ensures Inv(Next(capacity, s, act))
  {
    match act
    case Submit(rec) => SubmitKeeps(capacity, s, rec);
    case Take => TakeKeeps(capacity, s);
    case Attempt(a) => AttemptKeeps(capacity, s, a);
    case Hear =>
      if Delivered(s.handlers[s.hand.attempt].pc.status) {
        AckKeeps(s, Next(capacity, s, act));
      } else {
        LoseKeeps(s);
        RetryKeeps(s);
      }
    case Timeout => RetryKeeps(s);
    case GiveUp => LoseKeeps(s);
    case Stop => assert Line(Next(capacity, s, act)) == Line(s);
    case BeginDrain => assert Line(Next(capacity, s, act)) == Line(s);
    case EndDrain => assert Line(Next(capacity, s, act)) == Line(s);
    case Check(a) => CheckKeeps(capacity, s, a);
    case Insert(a, broken) => InsertKeeps(capacity, s, a, broken);
    case Recheck(a) => RecheckKeeps(capacity, s, a);
    case Crash(a, status) => AnswerKeeps(s, a, Answered(status));
  }

  lemma CheckKeeps(capacity: nat, s: System, a: nat)
    requires Inv(s) && Enabled(s, Check(a))
    ensures Inv(Next(capacity, s, Check(a)))
  {
    var rec := s.handlers[a].rec;
    if !WellFormed(rec) {
      AnswerKeeps(s, a, Answered(400));
    } else if Holds(s.rows, rec.requestId) {
      HeldIsItsOwn(s, rec);
      AnswerKeeps(s, a, Answered(200));
    } else {
      AnswerKeeps(s, a, Checked);
    }
  }

  lemma InsertKeeps(capacity: nat, s: System, a: nat, broken: bool)
    requires Inv(s) && Enabled(s, Insert(a, broken))
    ensures Inv(Next(capacity, s, Insert(a, broken)))
  {
    var rec := s.handlers[a].rec;
    if broken || Holds(s.rows, rec.requestId) {
      AnswerKeeps(s, a, Violated);
    } else {
      StoreKeeps(s, a);
      AnswerKeeps(s.(rows := s.rows + [rec]), a, Answered(201));
    }
  }

  lemma RecheckKeeps(capacity: nat, s: System, a: nat)
    requires Inv(s) && Enabled(s, Recheck(a))
    ensures Inv(Next(capacity, s, Recheck(a)))
  {
    var rec := s.handlers[a].rec;
    if Holds(s.rows, rec.requestId) {
      HeldIsItsOwn(s, rec);
      AnswerKeeps(s, a, Answered(200));
    } else {
      AnswerKeeps(s, a, Answered(500));
    }
  }

  predicate Legal(capacity: nat, s: System, acts: seq<Act>)
    decreases |acts|
  {
    acts == [] || (Enabled(s, acts[0]) && Legal(capacity, Next(capacity, s, acts[0]), acts[1..]))
  }

  function Exec(capacity: nat, s: System, acts: seq<Act>): System
    requires Legal(capacity, s, acts)
    decreases |acts|
  {
    if acts == [] then s else Exec(capacity, Next(capacity, s, acts[0]), acts[1..])
  }

  lemma {:induction false} ExecKeepsInv(capacity: nat, s: System, acts: seq<Act>)
    requires Inv(s) && Legal(capacity, s, acts)
    ensures Inv(Exec(capacity, s, acts))
    decreases |acts|
  {
    if acts != [] {
      NextKeepsInv(capacity, s, acts[0]);
      ExecKeepsInv(capacity, Next(capacity, s, acts[0]), acts[1..]);
    }
  }

  // ----- what becomes of a record, by the answer -----

  /** The answer to the record in hand decides: a success acknowledges it; while running, a
      server's error, a timeout, a rate limit or a redirect keeps it in hand for another
      attempt, and any other refusal drops and counts it; while draining, anything but a
      success loses it. */
  lemma AnswerDecides(capacity: nat, s: System)
    requires Enabled(s, Hear)
    ensures var t, status, rec := Next(capacity, s, Hear), s.handlers[s.hand.attempt].pc.status, s.hand.rec;
            && (status < 300 ==> t.acked == s.acked + [rec] && t.hand == Empty && t.dropped == s.dropped && t.pendingLost == s.pendingLost)
            && (s.mode != Draining && WorthRetrying(Status(status)) ==>
                  t.hand == Waiting(rec, true) && t.acked == s.acked && t.dropped == s.dropped && t.pendingLost == s.pendingLost)
            && (s.mode != Draining && status >= 300 && !WorthRetrying(Status(status)) ==>
                  t.hand == Empty && t.acked == s.acked && t.dropped == s.dropped + 1)
            && (s.mode == Draining && status >= 300 ==> t.hand == Empty && t.acked == s.acked && t.pendingLost == s.pendingLost + 1)
  {
  }

  /** Before shutdown a record is lost only to a full queue or to a refusal no retry can mend. */
  lemma NothingElseIsLost(capacity: nat, s: System, act: Act)
    requires Enabled(s, act) && s.mode == Running && !s.stop
    ensures var t := Next(capacity, s, act);
            t.dropped != s.dropped || t.pendingLost != s.pendingLost ==>
              || (act.Submit? && |s.queue| >= capacity)
              || (act.Hear? && var status := s.handlers[s.hand.attempt].pc.status; 400 <= status < 500 && status != 408 && status != 429)
  {
  }

  /** A record offered to a queue with room joins it at the end. */
  lemma RoomMeansQueued(capacity: nat, s: System, rec: Record)
    requires Enabled(s, Submit(rec)) && |s.queue| < capacity
    ensures var t := Next(capacity, s, Submit(rec)); t.queue == s.queue + [rec] && t.dropped == s.dropped
  {
  }

  // ----- over every run -----

  /** The queue never holds more than it has room for. */
  lemma {:induction false} QueueIsBounded(capacity: nat, s: System, acts: seq<Act>)
    requires |s.queue| <= capacity && Legal(capacity, s, acts)
    ensures |Exec(capacity, s, acts).queue| <= capacity
    decreases |acts|
  {
    if acts != [] {
      QueueIsBounded(capacity, Next(capacity, s, acts[0]), acts[1..]);
    }
  }

  /** Every record submitted is acknowledged, counted as dropped (or about to be, by the
      drain in progress), queued or in hand: nothing vanishes and nothing is counted twice. */
  lemma EveryRecordIsAccountedFor(capacity: nat, acts: seq<Act>)
    requires Legal(capacity, START, acts)
    ensures var s := Exec(capacity, START, acts);
            |s.submitted| == |s.acked| + s.dropped + s.pendingLost + |s.queue| + |InHand(s.hand)|
  {
    ExecKeepsInv(capacity, START, acts);
  }

  /** No request id ever has two rows, whatever lands late or twice. */
  lemma NoRequestHasTwoRows(capacity: nat, acts: seq<Act>, i: nat, j: nat)
    requires Legal(capacity, START, acts)
    requires i < j < |Exec(capacity, START, acts).rows|
    ensures var rows := Exec(capacity, START, acts).rows; rows[i].requestId != rows[j].requestId
  {
    ExecKeepsInv(capacity, START, acts);
  }

  /** An acknowledged record has exactly one row, and it is the record itself. */
  lemma AcknowledgedHasOneRow(capacity: nat, acts: seq<Act>, i: nat)
    requires Legal(capacity, START, acts) && i < |Exec(capacity, START, acts).acked|
    ensures var s := Exec(capacity, START, acts);
            exists p :: 0 <= p < |s.rows| && s.rows[p] == s.acked[i] &&
              forall q :: 0 <= q < |s.rows| && s.rows[q].requestId == s.acked[i].requestId ==> q == p
  {
    ExecKeepsInv(capacity, START, acts);
    var p := OneRow(Exec(capacity, START, acts), i);
  }

  lemma OneRow(s: System, i: nat) returns (p: nat)
    requires Honest(s) && Unique(s.rows) && i < |s.acked|
    ensures p < |s.rows| && s.rows[p] == s.acked[i]
    ensures forall q :: 0 <= q < |s.rows| && s.rows[q].requestId == s.acked[i].requestId ==> q == p
  {
    assert s.acked[i] in s.rows;
    p :| 0 <= p < |s.rows| && s.rows[p] == s.acked[i];
  }

  /** Of two acknowledged records, the one submitted first was acknowledged first and its
      row stored first. */
  lemma AcknowledgedInQueueOrder(capacity: nat, acts: seq<Act>, i: nat, j: nat, p: nat, q: nat, u: nat, v: nat)
    requires Legal(capacity, START, acts)
    requires var s := Exec(capacity, START, acts);
             && i < j < |s.acked| && p < |s.rows| && q < |s.rows| && u < |s.submitted| && v < |s.submitted|
             && s.rows[p] == s.acked[i] == s.submitted[u] && s.rows[q] == s.acked[j] == s.submitted[v]
    ensures p < q && u < v
  {
    ExecKeepsInv(capacity, START, acts);
    RowsInOrder(Exec(capacity, START, acts), i, j, p, q);
    SubmittedInOrder(Exec(capacity, START, acts), i, j, u, v);
  }

  lemma RowsInOrder(s: System, i: nat, j: nat, p: nat, q: nat)
    requires RowsFollow(s.acked + InHand(s.hand), s.rows)
    requires i < j < |s.acked| && p < |s.rows| && q < |s.rows| && s.rows[p] == s.acked[i] && s.rows[q] == s.acked[j]
    ensures p < q
  {
    var dealt := s.acked + InHand(s.hand);
    assert dealt[i] == s.acked[i] && dealt[j] == s.acked[j];
  }

  lemma SubmittedInOrder(s: System, i: nat, j: nat, u: nat, v: nat)
    requires InOrder(Line(s), s.submitted) && i < j < |s.acked|
    requires u < |s.submitted| && v < |s.submitted| && s.submitted[u] == s.acked[i] && s.submitted[v] == s.acked[j]
    ensures u < v
  {
    assert Line(s)[i] == s.acked[i] && Line(s)[j] == s.acked[j];
  }
}
