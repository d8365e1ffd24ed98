/**
 Spend quotas: every cap that applies to a caller becomes a slot, the worst slot
 decides, and each crossing is announced once per window.  Amounts are reals, window
 starts and resets integers.
 */
module Quota {
  import opened Wrappers
  import opened Names

  datatype Level = Fine | Soft | Hard

  function Gauge(s: Level): nat {
    match s
    case Fine => 0
    case Soft => 1
    case Hard => 2
  }

  function Worse(a: Level, b: Level): Level {
    if Gauge(a) >= Gauge(b) then a else b
  }

  datatype Limit = Limit(cap: real, softPct: int)

  datatype Slot = Slot(
    window: string, unit: string, level: Level, used: real, cap: real, softPct: int,
    since: int, resetsAt: int, keyLevel: bool)

  // ----- one slot -----

  function Position(used: real, cap: real, softPct: int): Level {
    if cap <= 0.0 then Fine
    else if used >= cap then Hard
    else if used >= cap * softPct as real / 100.0 then Soft
    else Fine
  }

  /** Using more never improves a slot. */
  lemma MoreUseIsNoBetter(less: real, more: real, cap: real, softPct: int)
    requires less <= more
    ensures Gauge(Position(less, cap, softPct)) <= Gauge(Position(more, cap, softPct))
  {
  }

  /** The soft threshold a limit means: its own when sensible, the deployment's otherwise. */
  function SoftPct(l: Limit, default_: int): int {
    if l.softPct < 1 || l.softPct > 100 then default_ else l.softPct
  }

  function SlotFor(window: string, unit: string, l: Limit, used: real, default_: int, since: int, resetsAt: int, keyLevel: bool): Slot {
    var soft := SoftPct(l, default_);
    Slot(window, unit, Position(used, l.cap, soft), used, l.cap, soft, since, resetsAt, keyLevel)
  }

  /** A slot whose level is that of its own figures. */
  predicate Measured(p: Slot) {
    p.level == Position(p.used, p.cap, p.softPct)
  }

  /** A cap that may be set, with what was used of it. */
  datatype Cap = Cap(window: string, unit: string, limit: Option<Limit>, used: real)

  datatype Span = Span(since: int, resetsAt: int)

  /** The slots of one quota: one for every cap that is set. */
  function SlotsFor(caps: seq<Cap>, default_: int, span: string -> Span, keyLevel: bool): seq<Slot> {
    if caps == [] then []
    else
      var c := caps[|caps| - 1];
      SlotsFor(caps[..|caps| - 1], default_, span, keyLevel) +
      if c.limit.None? then []
      else [SlotFor(c.window, c.unit, c.limit.value, c.used, default_, span(c.window).since, span(c.window).resetsAt, keyLevel)]
  }

  /** Every slot a caller is held to carries the level of its own figures, and its window's
      own start: those of one window, the tenant's or the key's, share it. */
  lemma {:induction false} SlotsAreMeasured(caps: seq<Cap>, default_: int, span: string -> Span, keyLevel: bool)
    requires 1 <= default_ <= 100
    ensures forall p :: p in SlotsFor(caps, default_, span, keyLevel) ==>
              Measured(p) && 1 <= p.softPct <= 100 && p.keyLevel == keyLevel && p.since == span(p.window).since
  {
    if caps != [] {
      SlotsAreMeasured(caps[..|caps| - 1], default_, span, keyLevel);
    }
  }

  /** A slot that mirrors a cap: its window, unit and figures, the cap's own soft threshold when
      it is a percentage and the deployment's otherwise, and the window's span. */
  ghost predicate Mirrors(p: Slot, c: Cap, default_: int, span: string -> Span, keyLevel: bool) {
    && c.limit.Some? && p.window == c.window && p.unit == c.unit && p.used == c.used && p.cap == c.limit.value.cap
    && p.softPct == (if 1 <= c.limit.value.softPct <= 100 then c.limit.value.softPct else default_)
    && p.since == span(c.window).since && p.resetsAt == span(c.window).resetsAt && p.keyLevel == keyLevel
  }

  /** The slots of a quota mirror the caps that are set, one each and in order. */
  lemma SlotsMirrorCaps(caps: seq<Cap>, c: Cap, default_: int, span: string -> Span, keyLevel: bool)
    ensures var before, slots := SlotsFor(caps, default_, span, keyLevel), SlotsFor(caps + [c], default_, span, keyLevel);
            if c.limit.None? then slots == before
            else
              && |slots| == |before| + 1 && slots[..|before|] == before
              && Mirrors(slots[|before|], c, default_, span, keyLevel) && Measured(slots[|before|])
  {
    assert (caps + [c])[..|caps|] == caps;
  }

  /** Used up: a cap that is one, and reached. */
  predicate OverCap(p: Slot) {
    p.cap > 0.0 && p.used >= p.cap
  }

  /** Past its soft threshold, a percentage of the cap. */
  predicate OverSoft(p: Slot) {
    p.cap > 0.0 && p.used >= p.cap * p.softPct as real / 100.0
  }

  // ----- the verdict -----

  /** The highest level among the slots. */
  function Worst(slots: seq<Slot>): Level {
    if slots == [] then Fine else Worse(Worst(slots[..|slots| - 1]), slots[|slots| - 1].level)
  }

  lemma {:induction false} WorstIsMaximum(slots: seq<Slot>)
    ensures forall p :: p in slots ==> Gauge(p.level) <= Gauge(Worst(slots))
    ensures Worst(slots) != Fine ==> exists p :: p in slots && p.level == Worst(slots)
  {
    if slots != [] {
      var rest, last := slots[..|slots| - 1], slots[|slots| - 1];
      WorstIsMaximum(rest);
      assert slots == rest + [last];
      if Worst(slots) != Fine {
        if Worst(slots) == last.level {
          assert last in slots;
        } else {
          var p :| p in rest && p.level == Worst(rest);
          assert p in slots;
        }
      }
    }
  }

  /** The slot a verdict is blamed on: the first of those at the worst level that hold the
      caller longest. */
  ghost predicate Binds(slots: seq<Slot>, at: nat) {
    && at < |slots| && slots[at].level == Worst(slots)
    && (forall i :: 0 <= i < |slots| && slots[i].level == Worst(slots) ==>
          slots[i].resetsAt <= slots[at].resetsAt && (i < at ==> slots[i].resetsAt < slots[at].resetsAt))
  }

  method Verdict(slots: seq<Slot>) returns (level: Level, binding: Option<Slot>)
    ensures level == Worst(slots)
    ensures level == Fine <==> binding.None?
    ensures binding.Some? ==> exists i: nat :: Binds(slots, i) && slots[i] == binding.value
  {
    level, binding := Fine, None;
    ghost var at := 0;
    for i := 0 to |slots|
      invariant level == Worst(slots[..i]) && (level == Fine <==> binding.None?)
      invariant binding.Some? ==> Binds(slots[..i], at) && slots[at] == binding.value
    {
      var p := slots[i];
      WorstIsMaximum(slots[..i]);
      assert slots[..i + 1][..i] == slots[..i] && slots[..i + 1] == slots[..i] + [p];
      if Gauge(p.level) > Gauge(level) {
        level, binding, at := p.level, Some(p), i;
      } else if p.level == level && Gauge(p.level) > 0 && p.resetsAt > binding.value.resetsAt {
        binding, at := Some(p), i;
      }
    }
    assert slots[..|slots|] == slots;
  }

  lemma LevelMeans(p: Slot)
    requires Measured(p)
    ensures p.level == Hard <==> OverCap(p)
    ensures p.level == Soft <==> !OverCap(p) && OverSoft(p)
  {
  }

  /** What the verdict means: blocked exactly when some cap is used up, warned exactly when none
      is and some soft threshold is passed. */
  lemma VerdictMeans(slots: seq<Slot>)
    requires forall p :: p in slots ==> Measured(p)
    ensures Worst(slots) == Hard <==> exists p :: p in slots && OverCap(p)
    ensures Worst(slots) == Soft <==> (forall p :: p in slots ==> !OverCap(p)) && exists p :: p in slots && OverSoft(p)
  {
    WorstIsMaximum(slots);
    forall p | p in slots
      ensures p.level == Hard <==> OverCap(p)
      ensures p.level == Soft <==> !OverCap(p) && OverSoft(p)
    {
      LevelMeans(p);
    }
    if Worst(slots) != Fine {
      var p :| p in slots && p.level == Worst(slots);
      assert p.level == Hard ==> OverCap(p);
      assert p.level == Soft ==> OverSoft(p);
    }
    if exists p :: p in slots && OverCap(p) {
      var p :| p in slots && OverCap(p);
      assert p.level == Hard;
    }
    if (forall p :: p in slots ==> !OverCap(p)) && exists p :: p in slots && OverSoft(p) {
      var p :| p in slots && OverSoft(p);
      assert p.level == Soft;
    }
  }

  /** A key's own slots can only make the verdict stricter. */
  lemma {:induction false} KeySlotsNeverImprove(tenant: seq<Slot>, key: seq<Slot>)
    ensures Gauge(Worst(tenant)) <= Gauge(Worst(tenant + key))
    ensures Worst(tenant + key) == Worse(Worst(tenant), Worst(key))
  {
    if key == [] {
      assert tenant + key == tenant;
    } else {
      KeySlotsNeverImprove(tenant, key[..|key| - 1]);
      assert (tenant + key)[..|tenant| + |key| - 1] == tenant + key[..|key| - 1];
    }
  }

  // ----- the usage page -----

  const COST: string := "cost"

  /** The rows shown, and the state above them.  Hiding cost removes rows and nothing else. */
  method UsagePage(slots: seq<Slot>, hidesCost: bool) returns (state: Level, rows: seq<Slot>)
    requires forall p :: p in slots ==> Measured(p)
    ensures state == Worst(slots)
    ensures rows == Shown(slots, hidesCost)
  {
    state, rows := Fine, [];
    for i := 0 to |slots|
      invariant state == Worst(slots[..i]) && rows == Shown(slots[..i], hidesCost)
    {
      var p := slots[i];
      assert slots[..i + 1][..i] == slots[..i] && p in slots;
      if !(p.cap > 0.0) {
        continue;
      }
      if p.unit == COST && hidesCost {
        state := Worse(state, p.level);
        continue;
      }
      rows := rows + [p];
      state := Worse(state, p.level);
    }
    assert slots[..|slots|] == slots;
  }

  function Shown(slots: seq<Slot>, hidesCost: bool): seq<Slot> {
    if slots == [] then []
    else
      var p := slots[|slots| - 1];
      Shown(slots[..|slots| - 1], hidesCost) + if p.cap > 0.0 && !(hidesCost && p.unit == COST) then [p] else []
  }

  /** A row is shown for every slot with a cap, but for a cost row where cost is hidden. */
  lemma {:induction false} ShownMeans(slots: seq<Slot>, hidesCost: bool)
    ensures forall p :: p in Shown(slots, hidesCost) <==> p in slots && p.cap > 0.0 && !(hidesCost && p.unit == "cost")
  {
    if slots != [] {
      var rest, last := slots[..|slots| - 1], slots[|slots| - 1];
      ShownMeans(rest, hidesCost);
      assert slots == rest + [last];
    }
  }

  // ----- announcements -----

  datatype Key = Key(scope: string, window: string, unit: string)

  datatype Announcement = Announcement(since: int, level: Level)

  predicate Announces(announced: map<Key, Announcement>, k: Key, since: int, level: Level) {
    && level != Fine
    && !(k in announced && announced[k].since == since && Gauge(level) <= Gauge(announced[k].level))
  }

  function Remember(announced: map<Key, Announcement>, k: Key, since: int, level: Level): map<Key, Announcement> {
    if Announces(announced, k, since, level) then announced[k := Announcement(since, level)] else announced
  }

  function KeyOf(scope: string, p: Slot): Key {
    Key(scope, p.window, p.unit)
  }

  function RememberAll(announced: map<Key, Announcement>, scope: string, slots: seq<Slot>): map<Key, Announcement> {
    if slots == [] then announced
    else
      var p := slots[|slots| - 1];
      Remember(RememberAll(announced, scope, slots[..|slots| - 1]), KeyOf(scope, p), p.since, p.level)
  }

  /** The slots that are announced, in turn, each against the memory the ones before left. */
  function Crossings(announced: map<Key, Announcement>, scope: string, slots: seq<Slot>): seq<Slot> {
    if slots == [] then []
    else
      var rest, p := slots[..|slots| - 1], slots[|slots| - 1];
      Crossings(announced, scope, rest) +
      if Announces(RememberAll(announced, scope, rest), KeyOf(scope, p), p.since, p.level) then [p] else []
  }

  datatype Entry = Entry(level: Level, binding: Option<Slot>)

  const NUL: char := '\0'

  /** The scope of a tenant's request, by one of its keys or by none. */
  function ScopeKey(tenant: string, keyId: string): string {
    tenant + [NUL] + keyId
  }

  predicate Prefixes(prefix: string, s: string) {
    |s| >= |prefix| && s[..|prefix|] == prefix
  }

  /** An admin change to a tenant concerns that tenant's scopes, all of them and no others. */
  lemma PrefixIsTheTenant(tenant: string, other: string, keyId: string)
    requires NUL !in tenant && NUL !in other
    ensures Prefixes(ScopeKey(tenant, ""), ScopeKey(other, keyId)) <==> tenant == other
  {
    var prefix, s := ScopeKey(tenant, ""), ScopeKey(other, keyId);
    if tenant == other {
      assert s[..|prefix|] == prefix;
    } else if Prefixes(prefix, s) {
      var rest := s[|prefix|..];
      assert s == tenant + [NUL] + rest;
      SplitUnique(tenant, other, rest, keyId, NUL);
    }
  }

  /** A scope is one tenant's one key. */
  lemma ScopeIsTenantAndKey(t1: string, k1: string, t2: string, k2: string)
    requires NUL !in t1 && NUL !in t2
    ensures ScopeKey(t1, k1) == ScopeKey(t2, k2) <==> t1 == t2 && k1 == k2
  {
    if ScopeKey(t1, k1) == ScopeKey(t2, k2) {
      SplitUnique(t1, t2, k1, k2, NUL);
    }
  }

  /** What is remembered together: one scope's one window and unit. */
  lemma MemoryIsPerScopeWindowAndUnit(s1: string, p: Slot, s2: string, q: Slot)
    ensures KeyOf(s1, p) == KeyOf(s2, q) <==> s1 == s2 && p.window == q.window && p.unit == q.unit
  {
  }

  class QuotaCache {
    var entries: map<string, Entry>            // cached verdicts, by scope
    var announced: map<Key, Announcement>

    constructor ()
      ensures entries == map[] && announced == map[]
    {
      entries, announced := map[], map[];
    }

    method ShouldAnnounce(scope: string, p: Slot) returns (yes: bool)
      modifies this`announced
      ensures yes == Announces(old(announced), KeyOf(scope, p), p.since, p.level)
      ensures announced == Remember(old(announced), KeyOf(scope, p), p.since, p.level)
    {
      if Gauge(p.level) == 0 {
        return false;
      }
      var k := Key(scope, p.window, p.unit);
      if k in announced && announced[k].since == p.since && Gauge(p.level) <= Gauge(announced[k].level) {
        return false;
      }
      announced := announced[k := Announcement(p.since, p.level)];
      return true;
    }

    /** One evaluation: the verdict is cached and every rise announced. */
    method Compute(scope: string, slots: seq<Slot>) returns (entry: Entry, crossings: seq<Slot>)
      modifies this
      ensures entry.level == Worst(slots) && (entry.level == Fine <==> entry.binding.None?)
      ensures entry.binding.Some? ==> exists i: nat :: Binds(slots, i) && slots[i] == entry.binding.value
      ensures entries == old(entries)[scope := entry]
      ensures crossings == Crossings(old(announced), scope, slots)
      ensures announced == RememberAll(old(announced), scope, slots)
    {
      var level, binding := Verdict(slots);
      entry := Entry(level, binding);
      crossings := [];
      for i := 0 to |slots|
        invariant entries == old(entries) && announced == RememberAll(old(announced), scope, slots[..i])
        invariant crossings == Crossings(old(announced), scope, slots[..i])
      {
        assert slots[..i + 1][..i] == slots[..i];
        var yes := ShouldAnnounce(scope, slots[i]);
        if yes {
          crossings := crossings + [slots[i]];
        }
      }
      assert slots[..|slots|] == slots;
      entries := entries[scope := entry];
    }

    /** An admin change forgets the tenant's verdicts and no announcement. */
    method Invalidate(tenant: string)
      modifies this
      ensures announced == old(announced)
      ensures entries == map k | k in old(entries) && !Prefixes(ScopeKey(tenant, ""), k) :: old(entries)[k]
    {
      var prefix := tenant + [NUL];
      var left := entries.Keys;
      while left != {}
        invariant left <= entries.Keys && announced == old(announced)
        invariant entries == map k | k in old(entries) && (k in left || !Prefixes(prefix, k)) :: old(entries)[k]
        decreases |left|
      {
        var k :| k in left;
        left := left - {k};
        if |k| >= |prefix| && k[..|prefix|] == prefix {
          entries := entries - {k};
        }
      }
      assert prefix == ScopeKey(tenant, "");
    }
  }

  /** One question put to the announcement memory, by any evaluation of any scope. */
  datatype Ask = Ask(k: Key, since: int, level: Level)

  function Memory(asks: seq<Ask>, n: nat): map<Key, Announcement>
    requires n <= |asks|
  {
    if n == 0 then map[] else Remember(Memory(asks, n - 1), asks[n - 1].k, asks[n - 1].since, asks[n - 1].level)
  }

  predicate AnnouncedAt(asks: seq<Ask>, i: nat)
    requires i < |asks|
  {
    Announces(Memory(asks, i), asks[i].k, asks[i].since, asks[i].level)
  }

  function AsksOf(scope: string, slots: seq<Slot>): seq<Ask> {
    if slots == [] then []
    else AsksOf(scope, slots[..|slots| - 1]) + [AskOf(scope, slots[|slots| - 1])]
  }

  function AskOf(scope: string, p: Slot): Ask {
    Ask(KeyOf(scope, p), p.since, p.level)
  }

  /** The questions that were announced, in order. */
  function Heard(asks: seq<Ask>, n: nat): seq<Ask>
    requires n <= |asks|
  {
    if n == 0 then [] else Heard(asks, n - 1) + if AnnouncedAt(asks, n - 1) then [asks[n - 1]] else []
  }

  lemma {:induction false} PrefixAlike(asks: seq<Ask>, more: seq<Ask>, n: nat)
    requires n <= |asks|
    ensures Memory(asks + more, n) == Memory(asks, n) && Heard(asks + more, n) == Heard(asks, n)
  {
    if n > 0 {
      PrefixAlike(asks, more, n - 1);
    }
  }

  lemma AskMore(asks: seq<Ask>, a: Ask)
    ensures var all, n := asks + [a], |asks|;
            && Memory(all, n + 1) == Remember(Memory(asks, n), a.k, a.since, a.level)
            && (AnnouncedAt(all, n) <==> Announces(Memory(asks, n), a.k, a.since, a.level))
            && Heard(all, n + 1) == Heard(asks, n) + if AnnouncedAt(all, n) then [a] else []
  {
    PrefixAlike(asks, [a], |asks|);
  }

  lemma AsksSnoc(scope: string, slots: seq<Slot>, p: Slot)
    ensures AsksOf(scope, slots + [p]) == AsksOf(scope, slots) + [AskOf(scope, p)]
  {
    assert (slots + [p])[..|slots|] == slots;
  }

  lemma {:induction false} EvaluationRemembers(asks: seq<Ask>, scope: string, slots: seq<Slot>)
    ensures var all := asks + AsksOf(scope, slots);
            Memory(all, |all|) == RememberAll(Memory(asks, |asks|), scope, slots)
    decreases |slots|
  {
    if slots == [] {
      assert asks + [] == asks;
    } else {
      var rest, p := slots[..|slots| - 1], slots[|slots| - 1];
      var all, a := asks + AsksOf(scope, rest), AskOf(scope, p);
      EvaluationRemembers(asks, scope, rest);
      AskMore(all, a);
      assert asks + AsksOf(scope, slots) == all + [a];
    }
  }

  lemma {:induction false} EvaluationEmits(asks: seq<Ask>, scope: string, slots: seq<Slot>)
    ensures var all := asks + AsksOf(scope, slots);
            Heard(all, |all|) == Heard(asks, |asks|) + AsksOf(scope, Crossings(Memory(asks, |asks|), scope, slots))
    decreases |slots|
  {
    if slots == [] {
      assert asks + [] == asks;
    } else {
      var rest, p := slots[..|slots| - 1], slots[|slots| - 1];
      var all, a := asks + AsksOf(scope, rest), AskOf(scope, p);
      EvaluationEmits(asks, scope, rest);
      EvaluationEmitsMore(asks, scope, slots, all, a);
      assert asks + AsksOf(scope, slots) == all + [a];
    }
  }

  lemma EvaluationEmitsMore(asks: seq<Ask>, scope: string, slots: seq<Slot>, all: seq<Ask>, a: Ask)
    requires slots != [] && all == asks + AsksOf(scope, slots[..|slots| - 1]) && a == AskOf(scope, slots[|slots| - 1])
    requires Heard(all, |all|) == Heard(asks, |asks|) + AsksOf(scope, Crossings(Memory(asks, |asks|), scope, slots[..|slots| - 1]))
    ensures Heard(all + [a], |all| + 1) == Heard(asks, |asks|) + AsksOf(scope, Crossings(Memory(asks, |asks|), scope, slots))
  {
    EvaluationRemembers(asks, scope, slots[..|slots| - 1]);
    AskMore(all, a);
    CrossingsSnoc(Memory(asks, |asks|), scope, slots);
  }

  /** An evaluation puts its slots' questions to the memory one after the other: it leaves
      the memory they leave, and the crossings it emits are exactly those announced. */
  lemma EvaluationIsARunOfAsks(asks: seq<Ask>, scope: string, slots: seq<Slot>)
    ensures var all, mem := asks + AsksOf(scope, slots), Memory(asks, |asks|);
            && Memory(all, |all|) == RememberAll(mem, scope, slots)
            && Heard(all, |all|) == Heard(asks, |asks|) + AsksOf(scope, Crossings(mem, scope, slots))
  {
    EvaluationRemembers(asks, scope, slots);
    EvaluationEmits(asks, scope, slots);
  }

  lemma CrossingsSnoc(mem: map<Key, Announcement>, scope: string, slots: seq<Slot>)
    requires slots != []
    ensures var rest, p := slots[..|slots| - 1], slots[|slots| - 1];
            AsksOf(scope, Crossings(mem, scope, slots)) == AsksOf(scope, Crossings(mem, scope, rest)) +
              if Announces(RememberAll(mem, scope, rest), KeyOf(scope, p), p.since, p.level) then [AskOf(scope, p)] else []
  {
    var rest, p := slots[..|slots| - 1], slots[|slots| - 1];
    AsksSnoc(scope, Crossings(mem, scope, rest), p);
    assert Crossings(mem, scope, rest) + [] == Crossings(mem, scope, rest);
  }

  lemma {:induction false} AsksAt(scope: string, slots: seq<Slot>, i: nat)
    requires i < |slots|
    ensures |AsksOf(scope, slots)| == |slots| && AsksOf(scope, slots)[i] == AskOf(scope, slots[i])
  {
    var n := |slots| - 1;
    if n > 0 {
      AsksAt(scope, slots[..n], if i < n then i else 0);
    }
  }

  lemma {:induction false} AsksPrefix(scope: string, slots: seq<Slot>, i: nat)
    requires i <= |slots|
    ensures AsksOf(scope, slots[..i]) <= AsksOf(scope, slots)
    decreases |slots|
  {
    if i == |slots| {
      assert slots[..i] == slots;
    } else {
      AsksPrefix(scope, slots[..|slots| - 1], i);
      assert slots[..|slots| - 1][..i] == slots[..i];
    }
  }

  /** Slot by slot: the `i`-th is among the crossings exactly when its question is announced. */
  lemma SlotCrossesIffAnnounced(asks: seq<Ask>, scope: string, slots: seq<Slot>, i: nat)
    requires i < |slots|
    ensures var all, mem, at := asks + AsksOf(scope, slots), Memory(asks, |asks|), |asks| + i;
            && at < |all| && all[at] == AskOf(scope, slots[i])
            && Crossings(mem, scope, slots[..i + 1]) ==
               Crossings(mem, scope, slots[..i]) + if AnnouncedAt(all, at) then [slots[i]] else []
  {
    var done, mem := slots[..i], Memory(asks, |asks|);
    AsksAt(scope, slots, i);
    AnnouncedInFull(asks, scope, slots, i);
    assert slots[..i + 1][..i] == done;
  }

  lemma AnnouncedInFull(asks: seq<Ask>, scope: string, slots: seq<Slot>, i: nat)
    requires i < |slots| && |asks| + i < |asks + AsksOf(scope, slots)|
    ensures Memory(asks + AsksOf(scope, slots), |asks| + i) == RememberAll(Memory(asks, |asks|), scope, slots[..i])
  {
    var done := slots[..i];
    var before, all := asks + AsksOf(scope, done), asks + AsksOf(scope, slots);
    AsksPrefix(scope, slots, i);
    if i > 0 {
      AsksAt(scope, done, 0);
    }
    EvaluationRemembers(asks, scope, done);
    PrefixAlike(before, all[|before|..], |before|);
    assert before + all[|before|..] == all;
  }

  // ----- runs of evaluations -----

  datatype Event = Evaluate(scope: string, slots: seq<Slot>) | Change(tenant: string)

  /** What every `QuotaCache` that starts empty remembers, and has announced, after these
      calls of `Compute` and `Invalidate`. */
  function MemoryOf(evs: seq<Event>): map<Key, Announcement> {
    if evs == [] then map[]
    else
      var before := MemoryOf(evs[..|evs| - 1]);
      match evs[|evs| - 1]
      case Evaluate(scope, slots) => RememberAll(before, scope, slots)
      case Change(_) => before
  }

  function Emitted(evs: seq<Event>): seq<Ask> {
    if evs == [] then []
    else
      var rest := evs[..|evs| - 1];
      match evs[|evs| - 1]
      case Evaluate(scope, slots) => Emitted(rest) + AsksOf(scope, Crossings(MemoryOf(rest), scope, slots))
      case Change(_) => Emitted(rest)
  }

  function AsksIn(evs: seq<Event>): seq<Ask> {
    if evs == [] then []
    else
      AsksIn(evs[..|evs| - 1]) +
      match evs[|evs| - 1]
      case Evaluate(scope, slots) => AsksOf(scope, slots)
      case Change(_) => []
  }

  /** What a run emits is what its questions announce. */
  lemma {:induction false} RunsAreAsks(evs: seq<Event>)
    ensures var asks := AsksIn(evs);
            MemoryOf(evs) == Memory(asks, |asks|) && Emitted(evs) == Heard(asks, |asks|)
  {
    if evs != [] {
      var rest, last := evs[..|evs| - 1], evs[|evs| - 1];
      RunsAreAsks(rest);
      if last.Evaluate? {
        EvaluationIsARunOfAsks(AsksIn(rest), last.scope, last.slots);
      } else {
        assert AsksIn(rest) + [] == AsksIn(rest);
      }
    }
  }

  lemma {:induction false} HeardWasAsked(asks: seq<Ask>, n: nat, i: nat) returns (p: nat)
    requires n <= |asks| && i < |Heard(asks, n)|
    ensures p < n && AnnouncedAt(asks, p) && Heard(asks, n)[i] == asks[p] && |Heard(asks, p)| == i
  {
    if i < |Heard(asks, n - 1)| {
      p := HeardWasAsked(asks, n - 1, i);
    } else {
      p := n - 1;
    }
  }

  lemma {:induction false} HeardGrows(asks: seq<Ask>, m: nat, n: nat)
    requires m <= n <= |asks|
    ensures |Heard(asks, m)| <= |Heard(asks, n)|
    decreases n
  {
    if m < n {
      HeardGrows(asks, m, n - 1);
    }
  }

  /** No window of a slot comes back once another of it was asked about. */
  ghost predicate NoReturn(asks: seq<Ask>) {
    forall i, m, j :: 0 <= i < m < j < |asks| && asks[i].k == asks[m].k == asks[j].k && asks[i].since == asks[j].since ==>
      asks[m].since == asks[i].since
  }

  ghost predicate RiseAt(asks: seq<Ask>, i: nat, j: nat)
    requires i < |asks| && j < |asks|
  {
    (AnnouncedAt(asks, i) && AnnouncedAt(asks, j) && asks[i].k == asks[j].k && asks[i].since == asks[j].since)
    ==> Gauge(asks[i].level) < Gauge(asks[j].level)
  }

  /** Announcements of one window of one slot rise strictly. */
  ghost predicate Rises(asks: seq<Ask>) {
    forall i, j :: 0 <= i < j < |asks| ==> RiseAt(asks, i, j)
  }

  /** After an announcement the memory holds at least its level for its window, while no
      other window of the slot is asked about. */
  lemma {:induction false} MemoryHolds(asks: seq<Ask>, i: nat, j: nat)
    requires i < j <= |asks| && AnnouncedAt(asks, i)
    requires forall m :: i < m < j && asks[m].k == asks[i].k ==> asks[m].since == asks[i].since
    ensures asks[i].k in Memory(asks, j)
    ensures var a := Memory(asks, j)[asks[i].k]; a.since == asks[i].since && Gauge(a.level) >= Gauge(asks[i].level)
    decreases j
  {
    if j > i + 1 {
      MemoryHolds(asks, i, j - 1);
    }
  }

  lemma NoReturnRises(asks: seq<Ask>)
    requires NoReturn(asks)
    ensures Rises(asks)
  {
    forall i, j | 0 <= i < j < |asks| ensures RiseAt(asks, i, j) {
      if AnnouncedAt(asks, i) && AnnouncedAt(asks, j) && asks[i].k == asks[j].k && asks[i].since == asks[j].since {
        MemoryHolds(asks, i, j);
      }
    }
  }

  /** Across any run of evaluations and admin changes in which no window returns, what is
      emitted for one scope, window, unit and period rises strictly. */
  lemma EmissionsRise(evs: seq<Event>, i: nat, j: nat)
    requires NoReturn(AsksIn(evs)) && i < j < |Emitted(evs)|
    requires Emitted(evs)[i].k == Emitted(evs)[j].k && Emitted(evs)[i].since == Emitted(evs)[j].since
    ensures Gauge(Emitted(evs)[i].level) < Gauge(Emitted(evs)[j].level)
  {
    var asks := AsksIn(evs);
    RunsAreAsks(evs);
    var p := HeardWasAsked(asks, |asks|, i);
    var q := HeardWasAsked(asks, |asks|, j);
    if q <= p {
      HeardGrows(asks, q, p);
      assert false;
    }
    NoReturnRises(asks);
    assert RiseAt(asks, p, q);
  }

  lemma {:induction false} EmittedIsNotFine(evs: seq<Event>, i: nat)
    requires i < |Emitted(evs)|
    ensures Emitted(evs)[i].level != Fine
  {
    RunsAreAsks(evs);
    var p := HeardWasAsked(AsksIn(evs), |AsksIn(evs)|, i);
  }

  /** So a scope, window, unit and period is heard of at most twice. */
  lemma AtMostTwoPerWindow(evs: seq<Event>, i: nat, j: nat, k: nat)
    requires NoReturn(AsksIn(evs)) && i < j < k < |Emitted(evs)|
    ensures var e := Emitted(evs);
            !(e[i].k == e[j].k == e[k].k && e[i].since == e[j].since == e[k].since)
  {
    var e := Emitted(evs);
    if e[i].k == e[j].k == e[k].k && e[i].since == e[j].since == e[k].since {
      EmissionsRise(evs, i, j);
      EmissionsRise(evs, j, k);
      EmittedIsNotFine(evs, i);
    }
  }

  // ----- the exact condition -----

  function WithLevels(asks: seq<Ask>, levels: seq<Level>): seq<Ask>
    requires |levels| == |asks|
  {
    seq(|asks|, i requires 0 <= i < |asks| => asks[i].(level := levels[i]))
  }

  /** Questions about slots below their thresholds leave the memory alone. */
  lemma {:induction false} QuietStretch(asks: seq<Ask>, from: nat, n: nat)
    requires from <= n <= |asks| && forall i :: from <= i < n ==> asks[i].level == Fine
    ensures Memory(asks, n) == Memory(asks, from)
    decreases n
  {
    if n > from {
      QuietStretch(asks, from, n - 1);
    }
  }

  /** A window that returns is announced again at the same level. */
  lemma ReturningWindowRepeats(asks: seq<Ask>, i: nat, m: nat, j: nat)
    requires i < m < j < |asks| && asks[i].k == asks[m].k == asks[j].k && asks[i].since == asks[j].since != asks[m].since
    requires forall n :: 0 <= n < |asks| ==> asks[n].level == if n == i || n == m || n == j then Soft else Fine
    ensures AnnouncedAt(asks, i) && AnnouncedAt(asks, j) && asks[i].level == asks[j].level
  {
    QuietStretch(asks, 0, i);
    QuietStretch(asks, i + 1, m);
    QuietStretch(asks, m + 1, j);
  }

  /** Whatever the levels turn out to be, announcements rise strictly, exactly when no window
      of a slot returns after another. */
  lemma AlwaysRiseIffNoReturn(asks: seq<Ask>)
    ensures (forall levels :: |levels| == |asks| ==> Rises(WithLevels(asks, levels))) <==> NoReturn(asks)
  {
    if NoReturn(asks) {
      forall levels | |levels| == |asks| ensures Rises(WithLevels(asks, levels)) {
        NoReturnRises(WithLevels(asks, levels));
      }
    } else {
      var levels := Unlucky(asks);
    }
  }

  lemma Unlucky(asks: seq<Ask>) returns (levels: seq<Level>)
    requires !NoReturn(asks)
    ensures |levels| == |asks| && !Rises(WithLevels(asks, levels))
  {
    var i, m, j :| 0 <= i < m < j < |asks| && asks[i].k == asks[m].k == asks[j].k && asks[i].since == asks[j].since != asks[m].since;
    levels := seq(|asks|, n => if n == i || n == m || n == j then Soft else Fine);
    ReturningWindowRepeats(WithLevels(asks, levels), i, m, j);
    assert !RiseAt(WithLevels(asks, levels), i, j);
  }

  // ----- one memory for two caps -----

  /** The tenant's cap and the key's own cap on the same window and unit share one memory:
      after any slots of the evaluation have been asked about, the key's is announced exactly
      when it would have been anyway and is strictly worse than each of those that share it. */
  lemma {:induction false} SharedMemorySwallows(announced: map<Key, Announcement>, scope: string, slots: seq<Slot>, k: Slot)
    requires forall p :: p in slots && KeyOf(scope, p) == KeyOf(scope, k) ==> p.since == k.since
    ensures Announces(RememberAll(announced, scope, slots), KeyOf(scope, k), k.since, k.level) <==>
            && Announces(announced, KeyOf(scope, k), k.since, k.level)
            && forall p :: p in slots && KeyOf(scope, p) == KeyOf(scope, k) ==> Gauge(p.level) < Gauge(k.level)
    decreases |slots|
  {
    if slots != [] {
      var rest, last := slots[..|slots| - 1], slots[|slots| - 1];
      assert slots == rest + [last] && last in slots;
      SharedMemorySwallows(announced, scope, rest, k);
      SharedStep(RememberAll(announced, scope, rest), scope, last, k);
    }
  }

  lemma SharedStep(announced: map<Key, Announcement>, scope: string, t: Slot, k: Slot)
    requires KeyOf(scope, t) == KeyOf(scope, k) ==> t.since == k.since
    ensures Announces(Remember(announced, KeyOf(scope, t), t.since, t.level), KeyOf(scope, k), k.since, k.level) <==>
            && Announces(announced, KeyOf(scope, k), k.since, k.level)
            && (KeyOf(scope, t) == KeyOf(scope, k) ==> Gauge(t.level) < Gauge(k.level))
  {
  }
}
