/**
 From a requested name to the candidates a request may be sent to, best first, and the
 report on the health of the same names.  The catalog snapshot, the aliases and the
 routes are given as values.
 */
module Resolve {
  import opened Wrappers
  import opened Names
  import opened Sorting
  import opened Catalog

  datatype Alias = Alias(
    name: string, pin: string, capabilities: seq<string>, minContextWindow: int,
    providerPreference: seq<string>, costTier: string)

  datatype Route = Route(wanted: string, chain: seq<string>)

  datatype Candidate = Candidate(tenant: string, provider: string, providerId: string, model: string, entry: Entry)

  datatype Resolution = CatalogUnavailable | StoreFailed | AliasUnresolvable | ModelNotFound | Found(candidates: seq<Candidate>)

  function ServedBy(c: Candidate): string {
    c.provider + "/" + c.model
  }

  /** Two candidates are served by the same thing exactly when provider and model agree. */
  lemma ServedByIsProviderAndModel(a: Candidate, b: Candidate)
    requires '/' !in a.provider && '/' !in b.provider
    ensures ServedBy(a) == ServedBy(b) <==> a.provider == b.provider && a.model == b.model
  {
    if ServedBy(a) == ServedBy(b) {
      SplitUnique(a.provider, b.provider, a.model, b.model, '/');
    }
  }

  // ----- one entry -----

  /** The model a reference names: what follows its provider, if it has one. */
  function ModelOf(id: string): string {
    var (found, provider, model) := Cut(id);
    if found && provider != "" then model else id
  }

  function EntryCandidate(tenant: string, e: Entry): Candidate {
    Candidate(tenant, e.provider, e.providerId, ModelOf(e.id), e)
  }

  /** A listed id without a slash is the model name sent upstream; a qualified id is cut back
      to it. */
  lemma ModelIsTheUpstreamName(provider: string, model: string)
    requires '/' !in provider && provider != ""
    ensures ModelOf(provider + "/" + model) == model
    ensures '/' !in model ==> ModelOf(model) == model
  {
    CutAtFirst(provider, model);
  }

  function Lower(s: string): string {
    seq(|s|, i requires 0 <= i < |s| => if 'A' <= s[i] <= 'Z' then s[i] - 'A' + 'a' else s[i])
  }

  predicate HasAll(have: seq<string>, required: seq<string>) {
    forall r :: r in required ==> exists h :: h in have && Lower(h) == Lower(r)
  }

  predicate Meets(a: Alias, e: Entry) {
    && HasAll(e.capabilities, a.capabilities)
    && !(a.minContextWindow > 0 && e.contextWindow > 0 && e.contextWindow < a.minContextWindow)
  }

  /** A provider's place in the preference list, its last one if named twice; after every
      listed one if not named. */
  function RankOf(preference: seq<string>, provider: string): nat {
    RankIn(preference, |preference|, provider)
  }

  function RankIn(preference: seq<string>, n: nat, provider: string): nat
    requires n <= |preference|
  {
    if n == 0 then |preference| else if preference[n - 1] == provider then n - 1 else RankIn(preference, n - 1, provider)
  }

  predicate PlainTier(tier: string) {
    tier == "cheapest" || tier == "balanced" || tier == ""
  }

  /** Provider preference first, then price by tier, then id. */
  predicate Before(a: Alias, x: Entry, y: Entry) {
    var rx, ry := RankOf(a.providerPreference, x.provider), RankOf(a.providerPreference, y.provider);
    if rx != ry then rx < ry
    else if a.costTier == "best" && x.inputCost != y.inputCost then x.inputCost > y.inputCost
    else if PlainTier(a.costTier) && x.inputCost != y.inputCost then x.inputCost < y.inputCost
    else StrLess(x.id, y.id)
  }

  function OrderOf(a: Alias): (Entry, Entry) -> bool {
    (x, y) => Before(a, x, y)
  }

  // ----- what the comparison means -----

  /** A provider's place in a preference list: the last one that names it. */
  ghost predicate PlaceIs(preference: seq<string>, provider: string, p: nat) {
    p < |preference| && preference[p] == provider && forall k :: p < k < |preference| ==> preference[k] != provider
  }

  lemma {:induction false} RankIsPlace(preference: seq<string>, n: nat, provider: string)
    requires n <= |preference|
    ensures var r := RankIn(preference, n, provider);
            if r == |preference| then forall k :: 0 <= k < n ==> preference[k] != provider
            else r < n && preference[r] == provider && forall k :: r < k < n ==> preference[k] != provider
  {
    if n > 0 && preference[n - 1] != provider {
      RankIsPlace(preference, n - 1, provider);
    }
  }

  /** Neither provider is preferred over the other. */
  ghost predicate EquallyPreferred(preference: seq<string>, x: string, y: string) {
    x == y || (x !in preference && y !in preference)
  }

  /** What it is for one entry to come before another: a provider named in the preference
      before any later named or not named at all; between equally preferred ones the dearer
      first for the best tier, the cheaper first for the cheapest, the balanced and no tier,
      and the price ignored for any other; then the smaller id. */
  ghost predicate Precedes(a: Alias, x: Entry, y: Entry) {
    && (forall q: nat :: PlaceIs(a.providerPreference, y.provider, q) ==>
          exists p: nat :: p <= q && PlaceIs(a.providerPreference, x.provider, p))
    && (EquallyPreferred(a.providerPreference, x.provider, y.provider) ==>
          && (a.costTier == "best" ==> x.inputCost >= y.inputCost)
          && (a.costTier == "cheapest" || a.costTier == "balanced" || a.costTier == "" ==> x.inputCost <= y.inputCost)
          && (x.inputCost == y.inputCost ==> StrLess(x.id, y.id))
          && (a.costTier != "best" && a.costTier != "cheapest" && a.costTier != "balanced" && a.costTier != "" ==> StrLess(x.id, y.id)))
  }

  lemma BeforeMeansPrecedes(a: Alias, x: Entry, y: Entry)
    requires Before(a, x, y)
    ensures Precedes(a, x, y)
  {
    var pref := a.providerPreference;
    RankIsPlace(pref, |pref|, x.provider);
    RankIsPlace(pref, |pref|, y.provider);
    var rx, ry := RankOf(pref, x.provider), RankOf(pref, y.provider);
    forall q: nat | PlaceIs(pref, y.provider, q) ensures exists p: nat :: p <= q && PlaceIs(pref, x.provider, p) {
      assert q == ry && PlaceIs(pref, x.provider, rx);
    }
  }

  /** Two strings alike but for the case of ASCII letters. */
  ghost predicate SameFold(a: string, b: string) {
    |a| == |b| && forall i :: 0 <= i < |a| ==> a[i] == b[i] || Cased(a[i], b[i]) || Cased(b[i], a[i])
  }

  predicate Cased(upper: char, lower: char) {
    'A' <= upper <= 'Z' && lower as int == upper as int + 32
  }

  lemma LowerIffFold(a: string, b: string)
    ensures Lower(a) == Lower(b) <==> SameFold(a, b)
  {
    if Lower(a) == Lower(b) {
      assert |a| == |Lower(a)| == |Lower(b)| == |b|;
      forall i | 0 <= i < |a| ensures a[i] == b[i] || Cased(a[i], b[i]) || Cased(b[i], a[i]) {
        assert Lower(a)[i] == Lower(b)[i];
      }
    }
  }

  /** An entry has every capability the alias asks for, and a context window that is large
      enough, or not known. */
  ghost predicate Suits(a: Alias, e: Entry) {
    && (forall r :: r in a.capabilities ==> exists h :: h in e.capabilities && SameFold(h, r))
    && (a.minContextWindow <= 0 || e.contextWindow <= 0 || e.contextWindow >= a.minContextWindow)
  }

  lemma MeetsIffSuits(a: Alias, e: Entry)
    ensures Meets(a, e) <==> Suits(a, e)
  {
    forall h, r ensures Lower(h) == Lower(r) <==> SameFold(h, r) {
      LowerIffFold(h, r);
    }
  }

  // ----- an alias -----

  function Matching(a: Alias, models: seq<Entry>): seq<Entry> {
    if models == [] then []
    else
      var last := models[|models| - 1];
      Matching(a, models[..|models| - 1]) + if Meets(a, last) then [last] else []
  }

  /** The entries an alias stands for, best first. */
  function AliasEntries(a: Alias, snap: Snapshot): seq<Entry> {
    if a.pin != "" && a.pin in snap.byId then [snap.byId[a.pin]]
    else Sort(OrderOf(a), Matching(a, snap.models))
  }

  lemma BeforeIsAnOrder(a: Alias, models: seq<Entry>)
    requires UniqueIds(models)
    ensures Orders(OrderOf(a), models)
  {
    var less := OrderOf(a);
    forall x, y | x in models && y in models
      ensures !(less(x, y) && less(y, x))
      ensures x != y ==> less(x, y) || less(y, x)
    {
      StrLessTotal(x.id, y.id);
    }
    forall x, y, z | x in models && y in models && z in models && less(x, y) && less(y, z) ensures less(x, z) {
      if StrLess(x.id, y.id) && StrLess(y.id, z.id) {
        StrLessTransitive(x.id, y.id, z.id);
      }
    }
  }

  lemma {:induction false} MatchingCounts(a: Alias, models: seq<Entry>, e: Entry)
    ensures multiset(Matching(a, models))[e] == if Meets(a, e) then multiset(models)[e] else 0
  {
    if models != [] {
      var rest, last := models[..|models| - 1], models[|models| - 1];
      MatchingCounts(a, rest, e);
      assert models == rest + [last];
    }
  }

  lemma UniqueHasNoRepeats(models: seq<Entry>)
    requires UniqueIds(models)
    ensures NoRepeats(models)
  {
  }

  lemma {:induction false} MatchingUnique(a: Alias, models: seq<Entry>)
    requires UniqueIds(models)
    ensures UniqueIds(Matching(a, models))
    ensures forall e :: e in Matching(a, models) <==> e in models && Meets(a, e)
  {
    if models != [] {
      var rest, last := models[..|models| - 1], models[|models| - 1];
      MatchingUnique(a, rest);
      assert models == rest + [last];
      forall e | e in rest ensures e.id != last.id {
        var i :| 0 <= i < |rest| && rest[i] == e;
        assert models[i] == e;
      }
    }
  }

  /** An unpinned alias stands for exactly the entries that meet it, each once, in the one
      order its preference, tier and the ids determine. */
  lemma AliasEntriesAreSorted(a: Alias, snap: Snapshot)
    requires UniqueIds(snap.models) && (a.pin == "" || a.pin !in snap.byId)
    ensures Sorted(OrderOf(a), AliasEntries(a, snap))
    ensures multiset(AliasEntries(a, snap)) == multiset(Matching(a, snap.models))
    ensures forall e :: e in AliasEntries(a, snap) <==> e in snap.models && Meets(a, e)
  {
    var m := Matching(a, snap.models);
    MatchingUnique(a, snap.models);
    BeforeIsAnOrder(a, m);
    UniqueHasNoRepeats(m);
    SortSorts(OrderOf(a), m, m);
    SameMembers(AliasEntries(a, snap), m);
  }

  /** What an unpinned alias stands for, in its own terms: exactly the listed entries that suit
      it, each once, the preferred and then the better priced first. */
  lemma AliasEntriesMeaning(a: Alias, snap: Snapshot)
    requires UniqueIds(snap.models) && (a.pin == "" || a.pin !in snap.byId)
    ensures forall e :: e in AliasEntries(a, snap) <==> e in snap.models && Suits(a, e)
    ensures forall i, j :: 0 <= i < j < |AliasEntries(a, snap)| ==>
              Precedes(a, AliasEntries(a, snap)[i], AliasEntries(a, snap)[j]) && AliasEntries(a, snap)[i] != AliasEntries(a, snap)[j]
  {
    AliasEntriesAreSorted(a, snap);
    var entries := AliasEntries(a, snap);
    forall e ensures e in entries <==> e in snap.models && Suits(a, e) {
      MeetsIffSuits(a, e);
    }
    forall i, j | 0 <= i < j < |entries| ensures Precedes(a, entries[i], entries[j]) && entries[i] != entries[j] {
      assert Before(a, entries[i], entries[j]);
      BeforeMeansPrecedes(a, entries[i], entries[j]);
      StrLessTotal(entries[i].id, entries[j].id);
    }
  }

  /** A listed pin stands for itself alone. */
  lemma PinWins(a: Alias, snap: Snapshot)
    requires a.pin != "" && a.pin in snap.byId
    ensures AliasEntries(a, snap) == [snap.byId[a.pin]]
  {
  }

  /** Alias expansion does not depend on the order the catalog lists its models in. */
  lemma AliasIgnoresCatalogOrder(a: Alias, s: Snapshot, t: Snapshot)
    requires UniqueIds(s.models) && multiset(s.models) == multiset(t.models) && s.byId == t.byId
    ensures AliasEntries(a, s) == AliasEntries(a, t)
  {
    var m, n := Matching(a, s.models), Matching(a, t.models);
    forall e ensures multiset(m)[e] == multiset(n)[e] {
      MatchingCounts(a, s.models, e);
      MatchingCounts(a, t.models, e);
    }
    assert multiset(m) == multiset(n);
    MatchingUnique(a, s.models);
    BeforeIsAnOrder(a, m);
    UniqueHasNoRepeats(m);
    SortIgnoresInputOrder(OrderOf(a), m, n);
  }

  /** Filters, ranks the preferred providers and sorts, as the source does in turn. */
  method ResolveAlias(a: Alias, snap: Snapshot) returns (out: seq<Candidate>)
    ensures out == Cands("", AliasEntries(a, snap))
  {
    if a.pin != "" && a.pin in snap.byId {
      return [EntryCandidate("", snap.byId[a.pin])];
    }
    var matches := FilterModels(a, snap.models);
    var rank := RankProviders(a.providerPreference);
    RankedAgrees(a, rank, matches);
    out := CandidatesFor(Sort((x, y) => BeforeRanked(a, rank, x, y), matches));
  }

  method FilterModels(a: Alias, models: seq<Entry>) returns (matches: seq<Entry>)
    ensures matches == Matching(a, models)
  {
    matches := [];
    for i := 0 to |models|
      invariant matches == Matching(a, models[..i])
    {
      assert models[..i + 1][..i] == models[..i];
      if Meets(a, models[i]) {
        matches := matches + [models[i]];
      }
    }
    assert models[..|models|] == models;
  }

  /** A rank table agrees with a preference list. */
  ghost predicate Ranks(preference: seq<string>, n: nat, rank: map<string, nat>)
    requires n <= |preference|
  {
    forall p :: (if p in rank then rank[p] else |preference|) == RankIn(preference, n, p)
  }

  method RankProviders(preference: seq<string>) returns (rank: map<string, nat>)
    ensures Ranks(preference, |preference|, rank)
  {
    rank := map[];
    for i := 0 to |preference|
      invariant Ranks(preference, i, rank)
    {
      rank := rank[preference[i] := i];
    }
  }

  /** The comparison the source makes, reading ranks from the table. */
  predicate BeforeRanked(a: Alias, rank: map<string, nat>, x: Entry, y: Entry) {
    var rx := if x.provider in rank then rank[x.provider] else |a.providerPreference|;
    var ry := if y.provider in rank then rank[y.provider] else |a.providerPreference|;
    if rx != ry then rx < ry
    else if a.costTier == "best" && x.inputCost != y.inputCost then x.inputCost > y.inputCost
    else if PlainTier(a.costTier) && x.inputCost != y.inputCost then x.inputCost < y.inputCost
    else StrLess(x.id, y.id)
  }

  lemma RankedAgrees(a: Alias, rank: map<string, nat>, matches: seq<Entry>)
    requires Ranks(a.providerPreference, |a.providerPreference|, rank)
    ensures Sort((x, y) => BeforeRanked(a, rank, x, y), matches) == Sort(OrderOf(a), matches)
  {
    SortByAgreeing((x, y) => BeforeRanked(a, rank, x, y), OrderOf(a), matches);
  }

  method CandidatesFor(entries: seq<Entry>) returns (out: seq<Candidate>)
    ensures out == Cands("", entries)
  {
    out := [];
    for i := 0 to |entries|
      invariant out == Cands("", entries[..i])
    {
      out := out + [EntryCandidate("", entries[i])];
    }
    assert entries[..|entries|] == entries;
  }

  // ----- a reference -----

  /** Later aliases of a name replace earlier ones. */
  function AliasMap(aliases: seq<Alias>): map<string, Alias> {
    if aliases == [] then map[]
    else AliasMap(aliases[..|aliases| - 1])[aliases[|aliases| - 1].name := aliases[|aliases| - 1]]
  }

  function RefEntries(ref: string, aliases: map<string, Alias>, snap: Snapshot): seq<Entry> {
    if ref in aliases then AliasEntries(aliases[ref], snap)
    else if ref in snap.byId then [snap.byId[ref]]
    else []
  }

  function Cands(tenant: string, entries: seq<Entry>): seq<Candidate> {
    seq(|entries|, i requires 0 <= i < |entries| => EntryCandidate(tenant, entries[i]))
  }

  function Expand(tenant: string, ref: string, aliases: map<string, Alias>, snap: Snapshot): seq<Candidate> {
    Cands(tenant, RefEntries(ref, aliases, snap))
  }

  /** A name that is both an alias and a model means the alias; one that is neither, nothing.
      A candidate carries its entry's provider and the tenant that asked. */
  lemma ReferenceMeans(tenant: string, ref: string, aliases: map<string, Alias>, snap: Snapshot)
    ensures ref in aliases ==> RefEntries(ref, aliases, snap) == AliasEntries(aliases[ref], snap)
    ensures ref !in aliases && ref in snap.byId ==> RefEntries(ref, aliases, snap) == [snap.byId[ref]]
    ensures ref !in aliases && ref !in snap.byId ==> RefEntries(ref, aliases, snap) == []
    ensures |Expand(tenant, ref, aliases, snap)| == |RefEntries(ref, aliases, snap)|
    ensures forall i :: 0 <= i < |Expand(tenant, ref, aliases, snap)| ==>
              var c, e := Expand(tenant, ref, aliases, snap)[i], RefEntries(ref, aliases, snap)[i];
              c.tenant == tenant && c.entry == e && c.provider == e.provider && c.providerId == e.providerId && c.model == ModelOf(e.id)
  {
  }

  // ----- a request -----

  function ChainFor(routes: seq<Route>, requested: string): seq<string> {
    if routes == [] then [requested]
    else if routes[0].wanted == requested && |routes[0].chain| > 0 then routes[0].chain
    else ChainFor(routes[1..], requested)
  }

  function ServedNames(out: seq<Candidate>): set<string> {
    set c | c in out :: ServedBy(c)
  }

  lemma ServedNamesSnoc(out: seq<Candidate>, c: Candidate)
    ensures ServedNames(out + [c]) == ServedNames(out) + {ServedBy(c)}
  {
    assert forall x :: x in out + [c] <==> x in out || x == c;
  }

  /** The first of `cands` not served already. */
  function FirstUnserved(cands: seq<Candidate>, out: seq<Candidate>): Option<Candidate> {
    if cands == [] then None
    else if ServedBy(cands[0]) !in ServedNames(out) then Some(cands[0])
    else FirstUnserved(cands[1..], out)
  }

  datatype Plan = Plan(out: seq<Candidate>, positions: seq<nat>)

  /** The candidates picked from a chain, and the position each came from. */
  function PlanFor(tenant: string, chain: seq<string>, aliases: map<string, Alias>, snap: Snapshot, maxDepth: int): Plan {
    if chain == [] then Plan([], [])
    else
      var n := |chain| - 1;
      var before := PlanFor(tenant, chain[..n], aliases, snap, maxDepth);
      if |before.out| >= maxDepth then before
      else
        var next := FirstUnserved(Expand(tenant, chain[n], aliases, snap), before.out);
        if next.None? then before else Plan(before.out + [next.value], before.positions + [n])
  }

  function Resolved(tenant: string, requested: string, aliases: seq<Alias>, routes: seq<Route>, snap: Snapshot, maxDepth: int): Resolution {
    var out := PlanFor(tenant, ChainFor(routes, requested), AliasMap(aliases), snap, maxDepth).out;
    if out != [] then Found(out) else if requested in AliasMap(aliases) then AliasUnresolvable else ModelNotFound
  }

  /** Builds the list as the source does, with a set of the names already served.  The
      catalog, the aliases and the routes are read in that order, and each read may fail. */
  method ResolveRequest(tenant: string, requested: string, catalog: Option<Snapshot>, aliases: Option<seq<Alias>>,
                        routes: Option<seq<Route>>, maxDepth: int)
    returns (r: Resolution)
    requires maxDepth >= 1
    ensures r == if catalog.None? then CatalogUnavailable
                 else if aliases.None? || routes.None? then StoreFailed
                 else Resolved(tenant, requested, aliases.value, routes.value, catalog.value, maxDepth)
  {
    if catalog.None? {
      return CatalogUnavailable;
    }
    if aliases.None? {
      return StoreFailed;
    }
    var byName := AliasesByName(aliases.value);
    if routes.None? {
      return StoreFailed;
    }
    var chain := FindChain(routes.value, requested);
    var out := Walk(tenant, chain, byName, catalog.value, maxDepth);
    if |out| == 0 {
      return if requested in byName then AliasUnresolvable else ModelNotFound;
    }
    return Found(out);
  }

  method AliasesByName(aliases: seq<Alias>) returns (byName: map<string, Alias>)
    ensures byName == AliasMap(aliases)
  {
    byName := map[];
    for i := 0 to |aliases|
      invariant byName == AliasMap(aliases[..i])
    {
      assert aliases[..i + 1][..i] == aliases[..i];
      byName := byName[aliases[i].name := aliases[i]];
    }
    assert aliases[..|aliases|] == aliases;
  }

  method FindChain(routes: seq<Route>, requested: string) returns (chain: seq<string>)
    ensures chain == ChainFor(routes, requested)
  {
    for i := 0 to |routes|
      invariant ChainFor(routes, requested) == ChainFor(routes[i..], requested)
    {
      assert routes[i..][1..] == routes[i + 1..];
      if routes[i].wanted == requested && |routes[i].chain| > 0 {
        return routes[i].chain;
      }
    }
    return [requested];
  }

  method Walk(tenant: string, chain: seq<string>, aliases: map<string, Alias>, snap: Snapshot, maxDepth: int) returns (out: seq<Candidate>)
    ensures out == PlanFor(tenant, chain, aliases, snap, maxDepth).out
  {
    out := [];
    var seen: set<string> := {};
    var i := 0;
    while i < |chain| && |out| < maxDepth
      invariant 0 <= i <= |chain|
      invariant out == PlanFor(tenant, chain[..i], aliases, snap, maxDepth).out
      invariant seen == ServedNames(out)
    {
      var next := Pick(Expand(tenant, chain[i], aliases, snap), seen, out);
      WalkStep(tenant, chain, aliases, snap, maxDepth, i, out, next);
      if next.Some? {
        ServedNamesSnoc(out, next.value);
        seen := seen + {ServedBy(next.value)};
        out := out + [next.value];
      }
      i := i + 1;
    }
    FullPlan(tenant, chain, aliases, snap, maxDepth, i);
  }

  lemma WalkStep(tenant: string, chain: seq<string>, aliases: map<string, Alias>, snap: Snapshot, maxDepth: int, i: nat,
                 out: seq<Candidate>, next: Option<Candidate>)
    requires i < |chain| && out == PlanFor(tenant, chain[..i], aliases, snap, maxDepth).out && |out| < maxDepth
    requires next == FirstUnserved(Expand(tenant, chain[i], aliases, snap), out)
    ensures PlanFor(tenant, chain[..i + 1], aliases, snap, maxDepth).out == if next.None? then out else out + [next.value]
  {
    assert chain[..i + 1][..i] == chain[..i];
  }

  method Pick(cands: seq<Candidate>, seen: set<string>, ghost out: seq<Candidate>) returns (r: Option<Candidate>)
    requires seen == ServedNames(out)
    ensures r == FirstUnserved(cands, out)
  {
    for j := 0 to |cands|
      invariant FirstUnserved(cands, out) == FirstUnserved(cands[j..], out)
    {
      assert cands[j..][1..] == cands[j + 1..];
      if ServedBy(cands[j]) !in seen {
        return Some(cands[j]);
      }
    }
    return None;
  }

  lemma {:induction false} FullPlan(tenant: string, chain: seq<string>, aliases: map<string, Alias>, snap: Snapshot, maxDepth: int, i: nat)
    requires i <= |chain|
    requires i < |chain| ==> |PlanFor(tenant, chain[..i], aliases, snap, maxDepth).out| >= maxDepth
    ensures PlanFor(tenant, chain, aliases, snap, maxDepth) == PlanFor(tenant, chain[..i], aliases, snap, maxDepth)
    decreases |chain|
  {
    if i == |chain| {
      assert chain[..i] == chain;
    } else {
      var n := |chain| - 1;
      assert chain[..n][..i] == chain[..i];
      FullPlan(tenant, chain[..n], aliases, snap, maxDepth, i);
      PlanStays(tenant, chain, aliases, snap, maxDepth);
    }
  }

  lemma PlanStays(tenant: string, chain: seq<string>, aliases: map<string, Alias>, snap: Snapshot, maxDepth: int)
    requires chain != [] && |PlanFor(tenant, chain[..|chain| - 1], aliases, snap, maxDepth).out| >= maxDepth
    ensures PlanFor(tenant, chain, aliases, snap, maxDepth) == PlanFor(tenant, chain[..|chain| - 1], aliases, snap, maxDepth)
  {
  }

  /** The first of its alternatives that nobody before it serves. */
  ghost predicate IsFirstFree(cands: seq<Candidate>, out: seq<Candidate>, c: Candidate) {
    exists k :: 0 <= k < |cands| && cands[k] == c && AllServed(cands, k, out)
  }

  ghost predicate AllServed(cands: seq<Candidate>, k: nat, out: seq<Candidate>)
    requires k <= |cands|
  {
    forall j :: 0 <= j < k ==> ServedBy(cands[j]) in ServedNames(out)
  }

  lemma {:induction false} UnservedIsNew(cands: seq<Candidate>, out: seq<Candidate>)
    ensures var r := FirstUnserved(cands, out);
            if r.Some? then r.value in cands && ServedBy(r.value) !in ServedNames(out) && IsFirstFree(cands, out, r.value)
            else forall c :: c in cands ==> ServedBy(c) in ServedNames(out)
  {
    if cands != [] {
      UnservedIsNew(cands[1..], out);
      assert cands == [cands[0]] + cands[1..];
      var r := FirstUnserved(cands, out);
      if r.Some? && ServedBy(cands[0]) !in ServedNames(out) {
        assert AllServed(cands, 0, out);
      } else if r.Some? {
        var k :| 0 <= k < |cands[1..]| && cands[1..][k] == r.value && AllServed(cands[1..], k, out);
        forall j | 0 <= j < k + 1 ensures ServedBy(cands[j]) in ServedNames(out) {
          assert j > 0 ==> cands[j] == cands[1..][j - 1];
        }
        assert cands[k + 1] == r.value && AllServed(cands, k + 1, out);
      }
    }
  }

  /** Each provider/model at most once, from strictly increasing chain positions. */
  ghost predicate Increasing(plan: Plan) {
    && |plan.out| == |plan.positions|
    && (forall i, j :: 0 <= i < j < |plan.out| ==> ServedBy(plan.out[i]) != ServedBy(plan.out[j]))
    && (forall i, j :: 0 <= i < j < |plan.out| ==> plan.positions[i] < plan.positions[j])
  }

  /** Each candidate is one its position expands to. */
  ghost predicate FromChain(tenant: string, chain: seq<string>, aliases: map<string, Alias>, snap: Snapshot, plan: Plan)
    requires |plan.out| == |plan.positions|
  {
    forall i :: 0 <= i < |plan.out| ==>
      plan.positions[i] < |chain| && plan.out[i] in Expand(tenant, chain[plan.positions[i]], aliases, snap)
  }

  /** Each candidate is the first its position expands to that those before it do not serve. */
  ghost predicate PicksFirst(tenant: string, chain: seq<string>, aliases: map<string, Alias>, snap: Snapshot, plan: Plan)
    requires |plan.out| == |plan.positions|
  {
    forall i :: 0 <= i < |plan.out| ==>
      plan.positions[i] < |chain| &&
      IsFirstFree(Expand(tenant, chain[plan.positions[i]], aliases, snap), plan.out[..i], plan.out[i])
  }

  /** A position is passed over only when everything it expands to is served already. */
  ghost predicate NothingMissed(tenant: string, chain: seq<string>, aliases: map<string, Alias>, snap: Snapshot, plan: Plan) {
    forall k :: 0 <= k < |chain| && k !in plan.positions ==>
      forall c :: c in Expand(tenant, chain[k], aliases, snap) ==> ServedBy(c) in ServedNames(plan.out)
  }

  /** What every plan satisfies; short of the depth, no position that could add was missed. */
  ghost predicate GoodPlan(tenant: string, chain: seq<string>, aliases: map<string, Alias>, snap: Snapshot, maxDepth: int, plan: Plan) {
    && Increasing(plan) && |plan.out| <= maxDepth
    && FromChain(tenant, chain, aliases, snap, plan) && PicksFirst(tenant, chain, aliases, snap, plan)
    && (|plan.out| < maxDepth ==> NothingMissed(tenant, chain, aliases, snap, plan))
  }

  lemma PlanKept(tenant: string, chain: seq<string>, aliases: map<string, Alias>, snap: Snapshot, maxDepth: int, plan: Plan, ref: string)
    requires GoodPlan(tenant, chain, aliases, snap, maxDepth, plan)
    requires |plan.out| < maxDepth ==> forall c :: c in Expand(tenant, ref, aliases, snap) ==> ServedBy(c) in ServedNames(plan.out)
    ensures GoodPlan(tenant, chain + [ref], aliases, snap, maxDepth, plan)
  {
    assert forall k :: 0 <= k < |chain| ==> (chain + [ref])[k] == chain[k];
  }

  lemma PlanExtended(tenant: string, chain: seq<string>, aliases: map<string, Alias>, snap: Snapshot, maxDepth: int,
                     plan: Plan, ref: string, c: Candidate)
    requires GoodPlan(tenant, chain, aliases, snap, maxDepth, plan) && |plan.out| < maxDepth
    requires c in Expand(tenant, ref, aliases, snap) && ServedBy(c) !in ServedNames(plan.out)
    requires IsFirstFree(Expand(tenant, ref, aliases, snap), plan.out, c)
    ensures GoodPlan(tenant, chain + [ref], aliases, snap, maxDepth, Plan(plan.out + [c], plan.positions + [|chain|]))
  {
    var next := Plan(plan.out + [c], plan.positions + [|chain|]);
    IncreasingExtended(chain, plan, c);
    FromChainExtended(tenant, chain, aliases, snap, plan, ref, c);
    PicksFirstExtended(tenant, chain, aliases, snap, plan, ref, c);
    NothingMissedExtended(tenant, chain, aliases, snap, plan, ref, c);
  }

  lemma IncreasingExtended(chain: seq<string>, plan: Plan, c: Candidate)
    requires Increasing(plan) && ServedBy(c) !in ServedNames(plan.out)
    requires forall i :: 0 <= i < |plan.out| ==> plan.positions[i] < |chain|
    ensures Increasing(Plan(plan.out + [c], plan.positions + [|chain|]))
  {
    assert forall i :: 0 <= i < |plan.out| ==> ServedBy(plan.out[i]) in ServedNames(plan.out);
  }

  lemma FromChainExtended(tenant: string, chain: seq<string>, aliases: map<string, Alias>, snap: Snapshot, plan: Plan, ref: string, c: Candidate)
    requires |plan.out| == |plan.positions| && FromChain(tenant, chain, aliases, snap, plan)
    requires c in Expand(tenant, ref, aliases, snap)
    ensures FromChain(tenant, chain + [ref], aliases, snap, Plan(plan.out + [c], plan.positions + [|chain|]))
  {
    assert forall k :: 0 <= k < |chain| ==> (chain + [ref])[k] == chain[k];
  }

  lemma PicksFirstExtended(tenant: string, chain: seq<string>, aliases: map<string, Alias>, snap: Snapshot, plan: Plan, ref: string, c: Candidate)
    requires |plan.out| == |plan.positions| && PicksFirst(tenant, chain, aliases, snap, plan)
    requires IsFirstFree(Expand(tenant, ref, aliases, snap), plan.out, c)
    ensures PicksFirst(tenant, chain + [ref], aliases, snap, Plan(plan.out + [c], plan.positions + [|chain|]))
  {
    var next := Plan(plan.out + [c], plan.positions + [|chain|]);
    forall i | 0 <= i < |next.out|
      ensures next.positions[i] < |chain + [ref]|
      ensures IsFirstFree(Expand(tenant, (chain + [ref])[next.positions[i]], aliases, snap), next.out[..i], next.out[i])
    {
      assert next.out[..i] == plan.out[..i];
      if i == |plan.out| {
        assert plan.out[..i] == plan.out;
      }
    }
  }

  lemma NothingMissedExtended(tenant: string, chain: seq<string>, aliases: map<string, Alias>, snap: Snapshot, plan: Plan, ref: string, c: Candidate)
    requires NothingMissed(tenant, chain, aliases, snap, plan)
    ensures NothingMissed(tenant, chain + [ref], aliases, snap, Plan(plan.out + [c], plan.positions + [|chain|]))
  {
    var longer, next := chain + [ref], Plan(plan.out + [c], plan.positions + [|chain|]);
    ServedNamesSnoc(plan.out, c);
    forall k | 0 <= k < |longer| && k !in next.positions
      ensures forall x :: x in Expand(tenant, longer[k], aliases, snap) ==> ServedBy(x) in ServedNames(next.out)
    {
      assert next.positions[|plan.positions|] == |chain|;
      assert k < |chain| && longer[k] == chain[k] && k !in plan.positions;
    }
  }

  /** What `Resolve` returns for a chain. */
  lemma {:induction false} PlansAreGood(tenant: string, chain: seq<string>, aliases: map<string, Alias>, snap: Snapshot, maxDepth: int)
    requires maxDepth >= 1
    ensures GoodPlan(tenant, chain, aliases, snap, maxDepth, PlanFor(tenant, chain, aliases, snap, maxDepth))
  {
    if chain != [] {
      var n := |chain| - 1;
      var rest := chain[..n];
      PlansAreGood(tenant, rest, aliases, snap, maxDepth);
      var before := PlanFor(tenant, rest, aliases, snap, maxDepth);
      var next := FirstUnserved(Expand(tenant, chain[n], aliases, snap), before.out);
      UnservedIsNew(Expand(tenant, chain[n], aliases, snap), before.out);
      assert rest + [chain[n]] == chain;
      if |before.out| < maxDepth && next.Some? {
        PlanExtended(tenant, rest, aliases, snap, maxDepth, before, chain[n], next.value);
      } else {
        PlanKept(tenant, rest, aliases, snap, maxDepth, before, chain[n]);
      }
    }
  }

  lemma {:induction false} AliasNames(aliases: seq<Alias>, name: string)
    ensures name in AliasMap(aliases) <==> exists i :: 0 <= i < |aliases| && aliases[i].name == name
  {
    if aliases != [] {
      var n := |aliases| - 1;
      AliasNames(aliases[..n], name);
      if exists i :: 0 <= i < n && aliases[..n][i].name == name {
        var i :| 0 <= i < n && aliases[..n][i].name == name;
        assert aliases[i].name == name;
      }
      if aliases[n].name != name && exists i :: 0 <= i < |aliases| && aliases[i].name == name {
        var i :| 0 <= i < |aliases| && aliases[i].name == name;
        assert aliases[..n][i].name == name;
      }
    }
  }

  /** Which error a request gets when nothing resolves: its own for the name of an alias. */
  lemma WhichNotFound(tenant: string, requested: string, aliases: seq<Alias>, routes: seq<Route>, snap: Snapshot, maxDepth: int)
    ensures var r := Resolved(tenant, requested, aliases, routes, snap, maxDepth);
            && (r.Found? <==> PlanFor(tenant, ChainFor(routes, requested), AliasMap(aliases), snap, maxDepth).out != [])
            && (!r.Found? ==> r == if exists i :: 0 <= i < |aliases| && aliases[i].name == requested then AliasUnresolvable else ModelNotFound)
  {
    AliasNames(aliases, requested);
  }

  // ----- the health report -----

  datatype Reason = Serving | AliasUnresolved | PinUnresolved | RuleUnresolved | FallbackDuplicate

  datatype NameState = NameState(name: string, resolvesTo: Option<string>, reason: Reason)

  /** The first choice of every chain position that resolves, in order. */
  function Live(chain: seq<string>, aliases: map<string, Alias>, snap: Snapshot): seq<string> {
    if chain == [] then []
    else
      var n := |chain| - 1;
      var cands := Expand("", chain[n], aliases, snap);
      Live(chain[..n], aliases, snap) + if cands == [] then [] else [ServedBy(cands[0])]
  }

  /** Position by position: what resolves is listed by its first choice, in order. */
  lemma LiveOfOne(ref: string, aliases: map<string, Alias>, snap: Snapshot)
    ensures var cands := Expand("", ref, aliases, snap);
            Live([ref], aliases, snap) == if cands == [] then [] else [ServedBy(cands[0])]
  {
    assert [ref][..0] == [];
  }

  lemma LiveLast(chain: seq<string>, ref: string, aliases: map<string, Alias>, snap: Snapshot)
    ensures Live(chain + [ref], aliases, snap) == Live(chain, aliases, snap) + Live([ref], aliases, snap)
  {
    var longer := chain + [ref];
    assert longer[..|longer| - 1] == chain && longer[|longer| - 1] == ref;
    LiveOfOne(ref, aliases, snap);
  }

  method DiagnoseRoute(rt: Route, aliases: map<string, Alias>, snap: Snapshot) returns (st: NameState)
    ensures var live := Live(rt.chain, aliases, snap);
            && st.name == rt.wanted
            && st.resolvesTo == (if live == [] then None else Some(live[0]))
            && st.reason == if live == [] then RuleUnresolved
                            else if exists i :: 1 <= i < |live| && live[i] == live[i - 1] then FallbackDuplicate else Serving
  {
    var live := LivePositions(rt.chain, aliases, snap);
    if |live| == 0 {
      return NameState(rt.wanted, None, RuleUnresolved);
    }
    st := NameState(rt.wanted, Some(live[0]), Serving);
    for i := 1 to |live|
      invariant forall k :: 1 <= k < i ==> live[k] != live[k - 1]
    {
      if live[i] == live[i - 1] {
        return st.(reason := FallbackDuplicate);
      }
    }
  }

  lemma LiveStep(chain: seq<string>, aliases: map<string, Alias>, snap: Snapshot, i: nat)
    requires i < |chain|
    ensures var cands := Expand("", chain[i], aliases, snap);
            Live(chain[..i + 1], aliases, snap) == Live(chain[..i], aliases, snap) + if cands == [] then [] else [ServedBy(cands[0])]
  {
    assert chain[..i + 1][..i] == chain[..i];
  }

  method LivePositions(chain: seq<string>, aliases: map<string, Alias>, snap: Snapshot) returns (live: seq<string>)
    ensures live == Live(chain, aliases, snap)
  {
    live := [];
    for i := 0 to |chain|
      invariant live == Live(chain[..i], aliases, snap)
    {
      LiveStep(chain, aliases, snap, i);
      var cands := Expand("", chain[i], aliases, snap);
      if |cands| > 0 {
        live := live + [ServedBy(cands[0])];
      }
    }
    assert chain[..|chain|] == chain;
  }

  method DiagnoseAlias(a: Alias, snap: Snapshot) returns (st: NameState)
    ensures var entries := AliasEntries(a, snap);
            && st.name == a.name
            && st.resolvesTo == (if entries == [] then None else Some(ServedBy(EntryCandidate("", entries[0]))))
            && st.reason == if entries == [] then AliasUnresolved
                            else if a.pin != "" && a.pin !in snap.byId then PinUnresolved else Serving
  {
    var cands := ResolveAlias(a, snap);
    if |cands| == 0 {
      return NameState(a.name, None, AliasUnresolved);
    }
    st := NameState(a.name, Some(ServedBy(cands[0])), Serving);
    if a.pin != "" && a.pin !in snap.byId {
      st := st.(reason := PinUnresolved);
    }
  }

  lemma {:induction false} LiveHeadIsPrimary(tenant: string, chain: seq<string>, aliases: map<string, Alias>, snap: Snapshot, maxDepth: int)
    requires maxDepth >= 1
    ensures var out, live := PlanFor(tenant, chain, aliases, snap, maxDepth).out, Live(chain, aliases, snap);
            && (out == [] <==> live == [])
            && (out != [] ==> ServedBy(out[0]) == live[0])
  {
    if chain != [] {
      var n := |chain| - 1;
      LiveHeadIsPrimary(tenant, chain[..n], aliases, snap, maxDepth);
      FirstChoice(tenant, chain[n], aliases, snap);
    }
  }

  /** With nothing served yet, a position gives its first choice, whoever asks. */
  lemma FirstChoice(tenant: string, ref: string, aliases: map<string, Alias>, snap: Snapshot)
    ensures var cands, any := Expand(tenant, ref, aliases, snap), Expand("", ref, aliases, snap);
            && |cands| == |any| && (cands != [] ==> ServedBy(cands[0]) == ServedBy(any[0]))
            && FirstUnserved(cands, []) == if cands == [] then None else Some(cands[0])
  {
    assert ServedNames([]) == {};
  }

  // ----- what the store holds -----

  /** One rule per match, and none without a chain. */
  ghost predicate StoredRoutes(routes: seq<Route>) {
    && (forall i, j :: 0 <= i < j < |routes| ==> routes[i].wanted != routes[j].wanted)
    && (forall i :: 0 <= i < |routes| ==> routes[i].chain != [])
  }

  /** One alias per name. */
  ghost predicate StoredAliases(aliases: seq<Alias>) {
    forall i, j :: 0 <= i < j < |aliases| ==> aliases[i].name != aliases[j].name
  }

  ghost predicate NamesOnce(chain: seq<string>) {
    forall i, j :: 0 <= i < j < |chain| ==> chain[i] != chain[j]
  }

  method ValidateChain(chain: seq<string>) returns (ok: bool)
    ensures ok <==> NamesOnce(chain)
  {
    var seen: set<string> := {};
    for i := 0 to |chain|
      invariant seen == set k | 0 <= k < i :: chain[k]
      invariant NamesOnce(chain[..i])
    {
      if chain[i] in seen {
        var k :| 0 <= k < i && chain[k] == chain[i];
        return false;
      }
      seen := seen + {chain[i]};
    }
    assert chain[..|chain|] == chain;
    return true;
  }

  /** The admin plane refuses a rule with no match, no chain, a chain too long or one that
      names a model twice, and otherwise the rule replaces that of the same match: so what is
      stored keeps one rule per match and a chain in each. */
  method PutRoute(routes: seq<Route>, rt: Route, maxDepth: int) returns (stored: seq<Route>, ok: bool)
    requires StoredRoutes(routes)
    ensures StoredRoutes(stored) && ok == (rt.wanted != "" && 1 <= |rt.chain| <= maxDepth && NamesOnce(rt.chain))
    ensures !ok ==> stored == routes
    ensures ok ==> rt in stored && forall other: Route :: other.wanted != rt.wanted ==> (other in stored <==> other in routes)
  {
    var once := ValidateChain(rt.chain);
    if rt.wanted == "" || |rt.chain| == 0 || |rt.chain| > maxDepth || !once {
      return routes, false;
    }
    stored := UpsertRoute(routes, rt);
    return stored, true;
  }

  method UpsertRoute(routes: seq<Route>, rt: Route) returns (stored: seq<Route>)
    requires StoredRoutes(routes) && rt.chain != []
    ensures StoredRoutes(stored) && rt in stored
    ensures forall other: Route :: other.wanted != rt.wanted ==> (other in stored <==> other in routes)
  {
    for i := 0 to |routes|
      invariant forall k :: 0 <= k < i ==> routes[k].wanted != rt.wanted
    {
      if routes[i].wanted == rt.wanted {
        stored := routes[i := rt];
        assert stored[i] == rt;
        assert forall k :: 0 <= k < |routes| && k != i ==> stored[k] == routes[k];
        return;
      }
    }
    stored := routes + [rt];
    assert stored[|routes|] == rt;
  }

  lemma {:induction false} StoredRuleIsTheOnePicked(routes: seq<Route>, rt: Route)
    requires StoredRoutes(routes) && rt in routes
    ensures ChainFor(routes, rt.wanted) == rt.chain
  {
    if routes[0] != rt {
      assert routes == [routes[0]] + routes[1..];
      var i :| 0 <= i < |routes| && routes[i] == rt;
      StoredRuleIsTheOnePicked(routes[1..], rt);
    }
  }

  lemma {:induction false} NoRuleNoRedirect(routes: seq<Route>, name: string)
    requires forall rt :: rt in routes && rt.chain != [] ==> rt.wanted != name
    ensures ChainFor(routes, name) == [name]
  {
    if routes != [] {
      assert routes[0] in routes;
      NoRuleNoRedirect(routes[1..], name);
    }
  }

  lemma {:induction false} StoredAliasIsTheOneUsed(aliases: seq<Alias>, a: Alias)
    requires StoredAliases(aliases) && a in aliases
    ensures a.name in AliasMap(aliases) && AliasMap(aliases)[a.name] == a
  {
    var n := |aliases| - 1;
    var i :| 0 <= i < |aliases| && aliases[i] == a;
    if i < n {
      assert aliases[..n][i] == a;
      StoredAliasIsTheOneUsed(aliases[..n], a);
    }
  }

  // ----- the report and routing agree -----

  /** The report on every stored rule is what a request for it would get: unresolvable
      exactly when resolution fails, and otherwise naming the very primary resolution picks. */
  lemma RuleReportAgreesWithRouting(tenant: string, rt: Route, aliases: seq<Alias>, routes: seq<Route>, snap: Snapshot, maxDepth: int)
    requires maxDepth >= 1 && StoredRoutes(routes) && rt in routes
    ensures var live, r := Live(rt.chain, AliasMap(aliases), snap), Resolved(tenant, rt.wanted, aliases, routes, snap, maxDepth);
            && (live == [] <==> !r.Found?)
            && (r.Found? ==> r.candidates != [] && live[0] == ServedBy(r.candidates[0]))
  {
    StoredRuleIsTheOnePicked(routes, rt);
    LiveHeadIsPrimary(tenant, rt.chain, AliasMap(aliases), snap, maxDepth);
  }

  /** The refusal of empty chains is needed: beside any rules for other names, a rule without
      a chain would be reported unresolvable and passed over by routing, so the two would
      disagree exactly when the name resolves on its own. */
  lemma EmptyRuleWouldDisagree(tenant: string, rt: Route, aliases: seq<Alias>, routes: seq<Route>, snap: Snapshot, maxDepth: int)
    requires maxDepth >= 1 && rt.chain == [] && rt in routes
    requires forall other :: other in routes && other.wanted == rt.wanted ==> other == rt
    ensures Live(rt.chain, AliasMap(aliases), snap) == []
    ensures Resolved(tenant, rt.wanted, aliases, routes, snap, maxDepth).Found? <==> RefEntries(rt.wanted, AliasMap(aliases), snap) != []
  {
    NoRuleNoRedirect(routes, rt.wanted);
    LiveHeadIsPrimary(tenant, [rt.wanted], AliasMap(aliases), snap, maxDepth);
    assert [rt.wanted][..0] == [];
  }

  /** The report on every stored alias that no rule redirects is what a request for it would
      get. */
  lemma AliasReportAgreesWithRouting(tenant: string, a: Alias, aliases: seq<Alias>, routes: seq<Route>, snap: Snapshot, maxDepth: int)
    requires maxDepth >= 1 && StoredAliases(aliases) && a in aliases
    requires forall rt :: rt in routes && rt.chain != [] ==> rt.wanted != a.name
    ensures var entries, r := AliasEntries(a, snap), Resolved(tenant, a.name, aliases, routes, snap, maxDepth);
            && (entries == [] <==> r == AliasUnresolvable)
            && (entries != [] ==> r.Found? && r.candidates != [] && ServedBy(EntryCandidate("", entries[0])) == ServedBy(r.candidates[0]))
  {
    NoRuleNoRedirect(routes, a.name);
    StoredAliasIsTheOneUsed(aliases, a);
    LiveHeadIsPrimary(tenant, [a.name], AliasMap(aliases), snap, maxDepth);
    assert [a.name][..0] == [];
  }
}
