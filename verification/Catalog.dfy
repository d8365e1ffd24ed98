/**
 A tenant's live catalog: every provider's model list merged into one snapshot, kept
 past a failed poll, with an event for each change.  A poll of one provider is an
 arbitrary `Listing`.
 */
module Catalog {
  import opened Wrappers
  import opened Sorting

  datatype Entry = Entry(
    id: string, provider: string, providerId: string, contextWindow: int, capabilities: seq<string>, inputCost: real)

  datatype Listing = NoAdapter | PollFailed | Listed(models: seq<Entry>)

  datatype Provider = Provider(name: string, id: string, kind: string, enabled: bool, hasKeys: bool, listing: Listing)

  datatype Snapshot = Snapshot(models: seq<Entry>, byId: map<string, Entry>, fetchedAt: int, stale: bool)

  // ----- merging -----

  /** A provider's bid for an id.  Only the plain id is listed; the qualified one is there
      to be looked up. */
  datatype Claim = Claim(entry: Entry, listed: bool)

  /** The operator's own rate for a kind of provider and a model, where there is one. */
  type Prices = (string, string) -> Option<real>

  function Owned(prices: Prices, p: Provider, m: Entry): Entry {
    var price := prices(p.kind, m.id);
    m.(provider := p.name, providerId := p.id, inputCost := if price.Some? then price.value else m.inputCost)
  }

  function ModelClaims(prices: Prices, p: Provider, m: Entry): seq<Claim> {
    [Claim(Owned(prices, p, m), true), Claim(Owned(prices, p, m).(id := p.name + "/" + m.id), false)]
  }

  function Claims(prices: Prices, p: Provider, models: seq<Entry>): seq<Claim> {
    if models == [] then [] else Claims(prices, p, models[..|models| - 1]) + ModelClaims(prices, p, models[|models| - 1])
  }

  predicate Polled(p: Provider) {
    p.enabled && p.hasKeys
  }

  function AllClaims(prices: Prices, ps: seq<Provider>): seq<Claim> {
    if ps == [] then []
    else
      AllClaims(prices, ps[..|ps| - 1]) + ClaimsOf(prices, ps[|ps| - 1])
  }

  predicate AnyFailed(ps: seq<Provider>) {
    exists i :: 0 <= i < |ps| && Polled(ps[i]) && !ps[i].listing.Listed?
  }

  /** The entry an id looks up to: the first claim made for it. */
  function First(claims: seq<Claim>, id: string): Option<Claim> {
    if claims == [] then None
    else if claims[0].entry.id == id then Some(claims[0]) else First(claims[1..], id)
  }

  ghost predicate UniqueIds(models: seq<Entry>) {
    forall i, j :: 0 <= i < j < |models| ==> models[i].id != models[j].id
  }

  /** What merging promises of the first claims seen so far. */
  ghost predicate Merged(claims: seq<Claim>, models: seq<Entry>, byId: map<string, Entry>) {
    && (forall id :: id in byId <==> First(claims, id).Some?)
    && (forall id :: id in byId ==> byId[id] == First(claims, id).value.entry)
    && UniqueIds(models)
    && (forall e :: e in models <==> First(claims, e.id) == Some(Claim(e, true)))
  }

  lemma {:induction false} FirstOfLonger(claims: seq<Claim>, c: Claim, id: string)
    ensures First(claims + [c], id) ==
            if First(claims, id).Some? then First(claims, id) else if c.entry.id == id then Some(c) else None
  {
    if claims == [] {
      assert claims + [c] == [c] && [c][1..] == [];
    } else {
      FirstOfLonger(claims[1..], c, id);
      assert (claims + [c])[1..] == claims[1..] + [c];
    }
  }

  lemma {:induction false} FirstHasId(claims: seq<Claim>, id: string)
    ensures First(claims, id).Some? ==> First(claims, id).value.entry.id == id
  {
    if claims != [] {
      FirstHasId(claims[1..], id);
    }
  }

  /** One more claim: without effect when its id is taken, and otherwise honoured. */
  lemma ClaimTaken(claims: seq<Claim>, models: seq<Entry>, byId: map<string, Entry>, c: Claim)
    requires Merged(claims, models, byId) && c.entry.id in byId
    ensures Merged(claims + [c], models, byId)
  {
    forall id ensures First(claims + [c], id) == First(claims, id) {
      FirstOfLonger(claims, c, id);
    }
  }

  lemma ClaimFree(claims: seq<Claim>, models: seq<Entry>, byId: map<string, Entry>, c: Claim)
    requires Merged(claims, models, byId) && c.entry.id !in byId
    ensures Merged(claims + [c], if c.listed then models + [c.entry] else models, byId[c.entry.id := c.entry])
  {
    forall id ensures First(claims + [c], id) == if id == c.entry.id then Some(c) else First(claims, id) {
      FirstOfLonger(claims, c, id);
    }
    assert forall e :: e in models ==> e.id in byId;
    assert forall i :: 0 <= i < |models| ==> models[i] in models;
  }

  predicate ByProviderThenId(a: Entry, b: Entry) {
    if a.provider != b.provider then StrLess(a.provider, b.provider) else StrLess(a.id, b.id)
  }

  method MergeModel(prices: Prices, p: Provider, m: Entry, models: seq<Entry>, byId: map<string, Entry>, ghost claims: seq<Claim>)
    returns (models': seq<Entry>, byId': map<string, Entry>)
    requires Merged(claims, models, byId)
    ensures Merged(claims + ModelClaims(prices, p, m), models', byId')
  {
    models', byId' := models, byId;
    var entry := m.(provider := p.name, providerId := p.id);
    var price := prices(p.kind, m.id);
    if price.Some? {
      entry := entry.(inputCost := price.value);
    }
    if entry.id !in byId' {
      ClaimFree(claims, models', byId', Claim(entry, true));
      byId' := byId'[entry.id := entry];
      models' := models' + [entry];
    } else {
      ClaimTaken(claims, models', byId', Claim(entry, true));
    }
    ghost var once := claims + [Claim(entry, true)];
    var qualified := p.name + "/" + m.id;
    var q := entry.(id := qualified);
    if qualified !in byId' {
      ClaimFree(once, models', byId', Claim(q, false));
      byId' := byId'[qualified := q];
    } else {
      ClaimTaken(once, models', byId', Claim(q, false));
    }
    assert once + [Claim(q, false)] == claims + ModelClaims(prices, p, m);
  }

  method MergeProvider(prices: Prices, p: Provider, listed: seq<Entry>, models: seq<Entry>, byId: map<string, Entry>, ghost claims: seq<Claim>)
    returns (models': seq<Entry>, byId': map<string, Entry>)
    requires Merged(claims, models, byId)
    ensures Merged(claims + Claims(prices, p, listed), models', byId')
  {
    models', byId' := models, byId;
    assert claims + [] == claims;
    for i := 0 to |listed|
      invariant Merged(claims + Claims(prices, p, listed[..i]), models', byId')
    {
      models', byId' := MergeModel(prices, p, listed[i], models', byId', claims + Claims(prices, p, listed[..i]));
      assert listed[..i + 1][..i] == listed[..i];
      assert claims + Claims(prices, p, listed[..i]) + ModelClaims(prices, p, listed[i]) == claims + Claims(prices, p, listed[..i + 1]);
    }
    assert listed[..|listed|] == listed;
  }

  function ClaimsOf(prices: Prices, p: Provider): seq<Claim> {
    if Polled(p) && p.listing.Listed? then Claims(prices, p, p.listing.models) else []
  }

  method PollOne(prices: Prices, p: Provider, models: seq<Entry>, byId: map<string, Entry>, ghost claims: seq<Claim>)
    returns (models': seq<Entry>, byId': map<string, Entry>, failed: bool)
    requires Merged(claims, models, byId)
    ensures Merged(claims + ClaimsOf(prices, p), models', byId')
    ensures failed == (Polled(p) && !p.listing.Listed?)
  {
    models', byId', failed := models, byId, false;
    assert claims + [] == claims;
    if !p.enabled || !p.hasKeys {
      return;
    }
    match p.listing {
      case NoAdapter => failed := true;
      case PollFailed => failed := true;
      case Listed(listed) => models', byId' := MergeProvider(prices, p, listed, models, byId, claims);
    }
  }

  /** Polls every provider.  The listed entries are in order; ids look up to the first
      provider that claimed them, each listed one to itself; and only a poll in which nothing
      was listed and something failed is a failure. */
  method Poll(prices: Prices, ps: seq<Provider>, now: int) returns (r: Option<Snapshot>)
    ensures r.None? ==> AnyFailed(ps) && forall id :: First(AllClaims(prices, ps), id).Some? ==> !First(AllClaims(prices, ps), id).value.listed
    ensures r.Some? ==>
              && Merged(AllClaims(prices, ps), r.value.models, r.value.byId)
              && Sorted(ByProviderThenId, r.value.models)
              && (forall i, j :: 0 <= i < j < |r.value.models| ==>
                    var x, y := r.value.models[i], r.value.models[j];
                    StrLess(x.provider, y.provider) || (x.provider == y.provider && StrLess(x.id, y.id)))
              && r.value.fetchedAt == now && !r.value.stale
              && (r.value.models == [] ==> !AnyFailed(ps))
    ensures r.None? ==> exists i :: 0 <= i < |ps| && ps[i].enabled && ps[i].hasKeys && !ps[i].listing.Listed?
    ensures r.Some? && r.value.models == [] ==> forall i :: 0 <= i < |ps| && ps[i].enabled && ps[i].hasKeys ==> ps[i].listing.Listed?
  {
    var models, byId, failed := PollAll(prices, ps);
    if |models| == 0 && failed {
      NothingListed(AllClaims(prices, ps), byId);
      return None;
    }
    SortMerged(AllClaims(prices, ps), models, byId);
    return Some(Snapshot(Sort(ByProviderThenId, models), byId, now, false));
  }

  method PollAll(prices: Prices, ps: seq<Provider>) returns (models: seq<Entry>, byId: map<string, Entry>, failed: bool)
    ensures Merged(AllClaims(prices, ps), models, byId) && failed == AnyFailed(ps)
  {
    models, byId, failed := [], map[], false;
    for i := 0 to |ps|
      invariant Merged(AllClaims(prices, ps[..i]), models, byId)
      invariant failed == AnyFailed(ps[..i])
    {
      OneMorePolled(prices, ps, i);
      var bad;
      models, byId, bad := PollOne(prices, ps[i], models, byId, AllClaims(prices, ps[..i]));
      failed := failed || bad;
    }
    assert ps[..|ps|] == ps;
  }

  lemma NothingListed(claims: seq<Claim>, byId: map<string, Entry>)
    requires Merged(claims, [], byId)
    ensures forall id :: First(claims, id).Some? ==> !First(claims, id).value.listed
  {
    forall id | First(claims, id).Some? ensures !First(claims, id).value.listed {
      FirstHasId(claims, id);
      var e := First(claims, id).value.entry;
      assert e !in [] && First(claims, e.id) != Some(Claim(e, true));
    }
  }

  lemma OneMorePolled(prices: Prices, ps: seq<Provider>, i: nat)
    requires i < |ps|
    ensures AllClaims(prices, ps[..i + 1]) == AllClaims(prices, ps[..i]) + ClaimsOf(prices, ps[i])
    ensures AnyFailed(ps[..i + 1]) <==> AnyFailed(ps[..i]) || (Polled(ps[i]) && !ps[i].listing.Listed?)
  {
    assert ps[..i + 1][..i] == ps[..i] && ps[..i + 1] == ps[..i] + [ps[i]];
    FailedSnoc(ps[..i], ps[i]);
  }

  lemma FailedSnoc(ps: seq<Provider>, p: Provider)
    ensures AnyFailed(ps + [p]) <==> AnyFailed(ps) || (Polled(p) && !p.listing.Listed?)
  {
    if AnyFailed(ps) {
      var i :| 0 <= i < |ps| && Polled(ps[i]) && !ps[i].listing.Listed?;
      assert (ps + [p])[i] == ps[i];
    }
    assert (ps + [p])[|ps|] == p;
  }

  lemma IdOrder(models: seq<Entry>)
    requires UniqueIds(models)
    ensures Orders(ByProviderThenId, models)
  {
    forall x, y | x in models && y in models
      ensures !(ByProviderThenId(x, y) && ByProviderThenId(y, x))
      ensures x != y ==> ByProviderThenId(x, y) || ByProviderThenId(y, x)
    {
      StrLessTotal(x.provider, y.provider);
      StrLessTotal(x.id, y.id);
    }
    forall x, y, z | x in models && y in models && z in models && ByProviderThenId(x, y) && ByProviderThenId(y, z)
      ensures ByProviderThenId(x, z)
    {
      if x.provider == y.provider && y.provider == z.provider {
        StrLessTransitive(x.id, y.id, z.id);
      } else if x.provider != y.provider && y.provider != z.provider {
        StrLessTransitive(x.provider, y.provider, z.provider);
        StrLessTotal(x.provider, z.provider);
      }
    }
  }

  lemma SortMerged(claims: seq<Claim>, models: seq<Entry>, byId: map<string, Entry>)
    requires Merged(claims, models, byId)
    ensures Merged(claims, Sort(ByProviderThenId, models), byId)
    ensures Sorted(ByProviderThenId, Sort(ByProviderThenId, models))
  {
    var sorted := Sort(ByProviderThenId, models);
    IdOrder(models);
    SortSorts(ByProviderThenId, models, models);
    SameMembers(sorted, models);
    RepeatsAreCounted(models, sorted);
    forall i, j | 0 <= i < j < |sorted| ensures sorted[i].id != sorted[j].id {
      assert sorted[i] in models && sorted[j] in models && sorted[i] != sorted[j];
    }
  }

  /** Listed ids are unique, and each looks up to its own entry. */
  lemma ListedLooksUpToItself(claims: seq<Claim>, snap: Snapshot, e: Entry)
    requires Merged(claims, snap.models, snap.byId) && e in snap.models
    ensures e.id in snap.byId && snap.byId[e.id] == e
    ensures forall x :: x in snap.models && x.id == e.id ==> x == e
  {
  }

  lemma {:induction false} FirstOfBoth(a: seq<Claim>, b: seq<Claim>, id: string)
    ensures First(a + b, id) == if First(a, id).Some? then First(a, id) else First(b, id)
  {
    if a == [] {
      assert a + b == b;
    } else {
      FirstOfBoth(a[1..], b, id);
      assert (a + b)[1..] == a[1..] + b;
    }
  }

  lemma {:induction false} NoFirstNoClaim(claims: seq<Claim>, id: string)
    ensures First(claims, id).None? <==> forall c :: c in claims ==> c.entry.id != id
    ensures First(claims, id).Some? ==> First(claims, id).value in claims && First(claims, id).value.entry.id == id
  {
    if claims != [] {
      NoFirstNoClaim(claims[1..], id);
      assert claims == [claims[0]] + claims[1..];
    }
  }

  /** A provider that was polled offers a model under this id, its own or qualified. */
  ghost predicate OffersAs(p: Provider, j: nat, id: string) {
    && p.enabled && p.hasKeys && p.listing.Listed? && j < |p.listing.models|
    && (p.listing.models[j].id == id || p.name + "/" + p.listing.models[j].id == id)
  }

  /** The entry a provider's model goes by: its own figures, at the operator's price where
      there is one, under the provider's name. */
  ghost predicate IsOffer(prices: Prices, p: Provider, j: nat, c: Claim, id: string)
    requires OffersAs(p, j, id)
  {
    var m := p.listing.models[j];
    && c.entry.id == id && c.entry.provider == p.name && c.entry.providerId == p.id
    && c.entry.contextWindow == m.contextWindow && c.entry.capabilities == m.capabilities
    && c.entry.inputCost == (if prices(p.kind, m.id).Some? then prices(p.kind, m.id).value else m.inputCost)
    && (if c.listed then m.id == id else p.name + "/" + m.id == id)
  }

  lemma {:induction false} ClaimsAreOffers(prices: Prices, p: Provider, models: seq<Entry>, c: Claim) returns (j: nat)
    requires c in Claims(prices, p, models) && p.enabled && p.hasKeys && p.listing.Listed? && models <= p.listing.models
    ensures OffersAs(p, j, c.entry.id) && IsOffer(prices, p, j, c, c.entry.id)
  {
    var n := |models| - 1;
    if c in Claims(prices, p, models[..n]) {
      j := ClaimsAreOffers(prices, p, models[..n], c);
    } else {
      j := n;
      assert c in ModelClaims(prices, p, models[n]);
    }
  }

  lemma {:induction false} OffersAreClaims(prices: Prices, p: Provider, models: seq<Entry>, j: nat)
    requires j < |models|
    ensures Claim(Owned(prices, p, models[j]), true) in Claims(prices, p, models)
    ensures Claim(Owned(prices, p, models[j]).(id := p.name + "/" + models[j].id), false) in Claims(prices, p, models)
  {
    var n := |models| - 1;
    if j < n {
      OffersAreClaims(prices, p, models[..n], j);
    } else {
      assert ModelClaims(prices, p, models[n])[0] in ModelClaims(prices, p, models[n]);
      assert ModelClaims(prices, p, models[n])[1] in ModelClaims(prices, p, models[n]);
    }
  }

  ghost predicate Offers(p: Provider, id: string) {
    exists j: nat :: OffersAs(p, j, id)
  }

  lemma FirstOfLast(prices: Prices, ps: seq<Provider>, id: string)
    requires ps != []
    ensures var rest := First(AllClaims(prices, ps[..|ps| - 1]), id);
            First(AllClaims(prices, ps), id) == if rest.Some? then rest else First(ClaimsOf(prices, ps[|ps| - 1]), id)
  {
    FirstOfBoth(AllClaims(prices, ps[..|ps| - 1]), ClaimsOf(prices, ps[|ps| - 1]), id);
  }

  ghost predicate SomeoneOffers(ps: seq<Provider>, id: string) {
    exists k :: 0 <= k < |ps| && Offers(ps[k], id)
  }

  lemma OneMoreOffers(ps: seq<Provider>, id: string)
    requires ps != []
    ensures SomeoneOffers(ps, id) <==> SomeoneOffers(ps[..|ps| - 1], id) || Offers(ps[|ps| - 1], id)
  {
    var rest := ps[..|ps| - 1];
    if SomeoneOffers(rest, id) {
      var k :| 0 <= k < |rest| && Offers(rest[k], id);
      assert ps[k] == rest[k];
    }
    if SomeoneOffers(ps, id) {
      var k :| 0 <= k < |ps| && Offers(ps[k], id);
      assert k < |rest| ==> rest[k] == ps[k];
    }
  }

  ghost predicate LooksUp(prices: Prices, ps: seq<Provider>, id: string) {
    First(AllClaims(prices, ps), id).Some?
  }

  /** An id looks up to something exactly when a polled provider offers it. */
  lemma {:induction false} LooksUpIffOffered(prices: Prices, ps: seq<Provider>, id: string)
    ensures LooksUp(prices, ps, id) == SomeoneOffers(ps, id)
  {
    if ps != [] {
      LooksUpIffOffered(prices, ps[..|ps| - 1], id);
      OneMoreLooksUp(prices, ps, id);
      OneMoreOffers(ps, id);
    }
  }

  lemma OneMoreLooksUp(prices: Prices, ps: seq<Provider>, id: string)
    requires ps != []
    ensures LooksUp(prices, ps, id) <==> LooksUp(prices, ps[..|ps| - 1], id) || Offers(ps[|ps| - 1], id)
  {
    FirstOfLast(prices, ps, id);
    OffersIffClaims(prices, ps[|ps| - 1], id);
  }

  lemma OffersIffClaims(prices: Prices, p: Provider, id: string)
    ensures First(ClaimsOf(prices, p), id).Some? <==> Offers(p, id)
  {
    var j := OfferOf(prices, p, id);
  }

  /** Each id looks up to the first polled provider, in the tenant's order, that offers it. */
  lemma {:induction false} LooksUpToTheFirstOffer(prices: Prices, ps: seq<Provider>, id: string) returns (i: nat, j: nat)
    requires First(AllClaims(prices, ps), id).Some?
    ensures i < |ps| && OffersAs(ps[i], j, id) && IsOffer(prices, ps[i], j, First(AllClaims(prices, ps), id).value, id)
    ensures forall k :: 0 <= k < i ==> !Offers(ps[k], id)
  {
    var m := |ps| - 1;
    FirstOfLast(prices, ps, id);
    if First(AllClaims(prices, ps[..m]), id).Some? {
      i, j := LooksUpToTheFirstOffer(prices, ps[..m], id);
      assert forall k :: 0 <= k < m ==> ps[..m][k] == ps[k];
    } else {
      i := m;
      j := OfferOf(prices, ps[m], id);
      LooksUpIffOffered(prices, ps[..m], id);
      assert forall k :: 0 <= k < m ==> ps[..m][k] == ps[k];
    }
  }

  lemma OfferOf(prices: Prices, p: Provider, id: string) returns (j: nat)
    ensures var first := First(ClaimsOf(prices, p), id);
            if first.Some? then OffersAs(p, j, id) && IsOffer(prices, p, j, first.value, id)
            else !Offers(p, id)
  {
    var claims := ClaimsOf(prices, p);
    NoFirstNoClaim(claims, id);
    j := 0;
    if First(claims, id).Some? {
      j := ClaimsAreOffers(prices, p, p.listing.models, First(claims, id).value);
    } else {
      if Offers(p, id) {
        var n: nat :| OffersAs(p, n, id);
        OffersAreClaims(prices, p, p.listing.models, n);
      }
    }
  }

  // ----- change events -----

  datatype Change = Change(added: seq<string>, removed: seq<string>)

  function Ids(models: seq<Entry>): set<string> {
    set e | e in models :: e.id
  }

  function Elements(s: seq<string>): set<string> {
    set x | x in s
  }

  lemma ElementsSnoc(s: seq<string>, x: string)
    ensures Elements(s + [x]) == Elements(s) + {x}
  {
  }

  lemma SortIds(s: seq<string>)
    requires NoRepeats(s)
    ensures Elements(Sort(StrLess, s)) == Elements(s) && Sorted(StrLess, Sort(StrLess, s))
  {
    forall x, y, z | StrLess(x, y) && StrLess(y, z) ensures StrLess(x, z) {
      StrLessTransitive(x, y, z);
    }
    forall x, y ensures StrLess(x, y) || StrLess(y, x) || x == y
                ensures !(StrLess(x, y) && StrLess(y, x)) {
      StrLessTotal(x, y);
    }
    SortSorts(StrLess, s, s);
    SameMembers(Sort(StrLess, s), s);
  }

  method IdSet(models: seq<Entry>) returns (ids: set<string>)
    ensures ids == Ids(models)
  {
    ids := {};
    for i := 0 to |models|
      invariant ids == Ids(models[..i])
    {
      assert models[..i + 1] == models[..i] + [models[i]];
      ids := ids + {models[i].id};
    }
    assert models[..|models|] == models;
  }

  method Diff(before: seq<Entry>, latest: seq<Entry>) returns (added: seq<string>, removed: seq<string>)
    ensures Elements(added) == Ids(latest) - Ids(before) && Elements(removed) == Ids(before) - Ids(latest)
    ensures Sorted(StrLess, added) && Sorted(StrLess, removed)
  {
    var oldIds := IdSet(before);
    var latestIds := IdSet(latest);
    added := Pick(latestIds, oldIds);
    removed := Pick(oldIds, latestIds);
  }

  /** The ids of one set that the other lacks, sorted. */
  method Pick(ids: set<string>, others: set<string>) returns (r: seq<string>)
    ensures Elements(r) == ids - others && Sorted(StrLess, r)
  {
    r := [];
    var left := ids;
    while left != {}
      invariant left <= ids && Elements(r) == ids - left - others && NoRepeats(r)
      decreases |left|
    {
      var id :| id in left;
      left := left - {id};
      if id !in others {
        ElementsSnoc(r, id);
        assert id !in Elements(r);
        r := r + [id];
      }
    }
    SortIds(r);
    r := Sort(StrLess, r);
  }

  /** A tenant's catalog and every change it announced. */
  datatype State = State(snapshot: Option<Snapshot>, changes: seq<Change>)

  /** Serving the held snapshot, or reloading; `poll` is what a poll would bring now. */
  datatype Op = Get(now: int, poll: Option<Snapshot>) | Refresh(poll: Option<Snapshot>)

  predicate Current(s: Snapshot, now: int, ttl: int) {
    now - s.fetchedAt < ttl && !s.stale
  }

  /** The effect of one call, up to how an announced change lists its ids. */
  ghost predicate Step(ttl: int, s: State, op: Op, t: State) {
    if op.Get? && s.snapshot.Some? && Current(s.snapshot.value, op.now, ttl) then t == s
    else if op.poll.None? then
      && t.changes == s.changes
      && t.snapshot == if s.snapshot.Some? then Some(s.snapshot.value.(stale := true)) else None
    else
      && t.snapshot == op.poll
      && if s.snapshot.None? then t.changes == s.changes
         else
           var gone, came := Ids(s.snapshot.value.models) - Ids(op.poll.value.models), Ids(op.poll.value.models) - Ids(s.snapshot.value.models);
           if gone == {} && came == {} then t.changes == s.changes
           else
             && |t.changes| == |s.changes| + 1 && t.changes[..|s.changes|] == s.changes
             && Elements(t.changes[|s.changes|].added) == came && Elements(t.changes[|s.changes|].removed) == gone
  }

  class TenantCatalog {
    const ttl: int
    var snapshot: Option<Snapshot>
    var changes: seq<Change>

    constructor (ttl: int)
      ensures snapshot == None && changes == [] && this.ttl == if ttl <= 0 then 3_600_000_000_000 else ttl
    {
      this.ttl := if ttl <= 0 then 3_600_000_000_000 else ttl;
      snapshot, changes := None, [];
    }

    ghost function Here(): State
      reads this
    {
      State(snapshot, changes)
    }

    /** A snapshot younger than the time to live and not stale is served as it is; otherwise a
        poll replaces it, or marks it stale.  The call fails only on a cold tenant whose poll
        failed. */
    method GetNow(now: int, poll: Option<Snapshot>) returns (r: Option<Snapshot>)
      modifies this
      ensures Step(ttl, old(Here()), Get(now, poll), Here())
      ensures old(snapshot).Some? && now - old(snapshot).value.fetchedAt < ttl && !old(snapshot).value.stale ==>
                snapshot == old(snapshot) && changes == old(changes)
      ensures old(snapshot).None? || now - old(snapshot).value.fetchedAt >= ttl || old(snapshot).value.stale ==>
                snapshot == if poll.Some? then poll
                            else if old(snapshot).Some? then Some(old(snapshot).value.(stale := true)) else None
      ensures r == snapshot && (r.None? <==> old(snapshot).None? && poll.None?)
    {
      if snapshot.Some? && now - snapshot.value.fetchedAt < ttl && !snapshot.value.stale {
        return snapshot;
      }
      r := Reload(poll);
    }

    method Reload(poll: Option<Snapshot>) returns (r: Option<Snapshot>)
      modifies this
      ensures Step(ttl, old(Here()), Refresh(poll), Here())
      ensures changes != old(changes) <==>
                old(snapshot).Some? && poll.Some? && Ids(old(snapshot).value.models) != Ids(poll.value.models)
      ensures r == snapshot && (r.None? <==> old(snapshot).None? && poll.None?)
    {
      if poll.None? {
        if snapshot.Some? {
          snapshot := Some(snapshot.value.(stale := true));
          return snapshot;
        }
        return None;
      }
      if snapshot.Some? {
        var added, removed := Diff(snapshot.value.models, poll.value.models);
        assert added != [] <==> Elements(added) != {} by { assert added != [] ==> added[0] in Elements(added); }
        assert removed != [] <==> Elements(removed) != {} by { assert removed != [] ==> removed[0] in Elements(removed); }
        if |added| > 0 || |removed| > 0 {
          changes := changes + [Change(added, removed)];
        }
      }
      snapshot := poll;
      return snapshot;
    }

    method Invalidate()
      modifies this
      ensures snapshot == None && changes == old(changes)
    {
      snapshot := None;
    }
  }

  // ----- runs between invalidations -----

  ghost predicate IsRun(ttl: int, states: seq<State>, ops: seq<Op>) {
    |states| == |ops| + 1 && forall i :: 0 <= i < |ops| ==> Step(ttl, states[i], ops[i], states[i + 1])
  }

  function Replay(ids: set<string>, changes: seq<Change>): set<string> {
    if changes == [] then ids
    else
      var c := changes[|changes| - 1];
      Replay(ids, changes[..|changes| - 1]) - Elements(c.removed) + Elements(c.added)
  }

  /** Once a snapshot exists there is one after every call; and replaying every change
      announced since over the ids it had gives the ids there are now. */
  lemma {:induction false} ChangesReplayToTheCatalog(ttl: int, states: seq<State>, ops: seq<Op>, n: nat)
    requires IsRun(ttl, states, ops) && n <= |ops| && states[0].snapshot.Some?
    ensures states[n].snapshot.Some? && |states[0].changes| <= |states[n].changes|
    ensures Replay(Ids(states[0].snapshot.value.models), states[n].changes[|states[0].changes|..]) == Ids(states[n].snapshot.value.models)
  {
    var k := |states[0].changes|;
    if n == 0 {
      assert states[0].changes[k..] == [];
    } else {
      ChangesReplayToTheCatalog(ttl, states, ops, n - 1);
      var s, t := states[n - 1], states[n];
      assert Step(ttl, s, ops[n - 1], t);
      if |t.changes| > |s.changes| {
        assert t.changes[k..][..|t.changes| - k - 1] == s.changes[k..];
        assert t.changes[k..][|t.changes| - k - 1] == t.changes[|s.changes|];
      } else {
        assert t.changes == s.changes;
      }
    }
  }

  /** The last poll before call `n` that brought something, if any call polled at all. */
  ghost predicate LastGood(ttl: int, states: seq<State>, ops: seq<Op>, n: nat, models: seq<Entry>)
    requires IsRun(ttl, states, ops) && n <= |ops| && states[0].snapshot.Some?
  {
    if n == 0 then models == states[0].snapshot.value.models
    else
      var s, op := states[n - 1], ops[n - 1];
      if (op.Get? && s.snapshot.Some? && Current(s.snapshot.value, op.now, ttl)) || op.poll.None?
      then LastGood(ttl, states, ops, n - 1, models)
      else models == op.poll.value.models
  }

  /** Whatever failed since, what is served are the models of the last good poll. */
  lemma {:induction false} StaleServesLastGood(ttl: int, states: seq<State>, ops: seq<Op>, n: nat)
    requires IsRun(ttl, states, ops) && n <= |ops| && states[0].snapshot.Some?
    ensures states[n].snapshot.Some? && LastGood(ttl, states, ops, n, states[n].snapshot.value.models)
  {
    if n > 0 {
      StaleServesLastGood(ttl, states, ops, n - 1);
      assert Step(ttl, states[n - 1], ops[n - 1], states[n]);
    }
  }
}
