/**
 How completions use the response cache.  A request first derives a key from its
 tenant, the provider/model resolution now names as primary, and its canonical body;
 it looks the key up; on a miss it dispatches and, much later, stores the answer if
 the candidate that served is the one the key names.  Other requests, flushes,
 expiries and evictions interleave freely between the lookup and the store.

 SHA-256 and the JSON encoder are parameters assumed injective.
 */
module CompletionCache {
  import opened Wrappers
  import opened LruCache
  import opened Names

  /** A parsed request body: field name to raw value. */
  type Doc = map<string, string>

  datatype Candidate = Candidate(provider: string, model: string)

  /** What a dispatch came back with: the candidates that cascaded, the one that served, and
      its body.  The dispatch resolved its candidates itself, after the lookup had resolved
      its own. */
  datatype Answer = Answer(tried: seq<Candidate>, winner: Candidate, body: string)

  function Depth(a: Answer): nat {
    |a.tried|
  }

  /** The candidate the dispatch's own resolution named first. */
  function Primary(a: Answer): Candidate {
    if a.tried == [] then a.winner else a.tried[0]
  }

  datatype Codec = Codec(digest: string -> string, encode: Doc -> string)

  ghost predicate Injective(c: Codec) {
    && (forall a, b :: c.digest(a) == c.digest(b) ==> a == b)
    && (forall a, b :: c.encode(a) == c.encode(b) ==> a == b)
  }

  const NUL: char := '\0'

  const VOLATILE: set<string> := {"user", "metadata", "stream_options"}

  function Canonical(doc: Doc): Doc {
    doc - VOLATILE
  }

  function ServedBy(c: Candidate): string {
    c.provider + "/" + c.model
  }

  function Preimage(tenant: string, servedBy: string, body: string): string {
    tenant + [NUL] + (servedBy + [NUL] + body)
  }

  function CacheKey(c: Codec, tenant: string, servedBy: string, doc: Doc): string {
    c.digest(Preimage(tenant, servedBy, c.encode(Canonical(doc))))
  }

  /** Two request bodies ask for the same thing: they agree in every field but the three that
      only label a request. */
  ghost predicate Alike(d1: Doc, d2: Doc) {
    forall f :: f != "user" && f != "metadata" && f != "stream_options" ==>
      (f in d1 <==> f in d2) && (f in d1 && f in d2 ==> d1[f] == d2[f])
  }

  lemma CanonicalIffAlike(d1: Doc, d2: Doc)
    ensures Canonical(d1) == Canonical(d2) <==> Alike(d1, d2)
  {
    if Canonical(d1) == Canonical(d2) {
      forall f | f != "user" && f != "metadata" && f != "stream_options"
        ensures (f in d1 <==> f in d2) && (f in d1 && f in d2 ==> d1[f] == d2[f])
      {
        assert f in d1 <==> f in Canonical(d1);
        assert f in d2 <==> f in Canonical(d2);
        assert f in d1 ==> Canonical(d1)[f] == d1[f];
        assert f in d2 ==> Canonical(d2)[f] == d2[f];
      }
    }
    if Alike(d1, d2) {
      assert Canonical(d1).Keys == Canonical(d2).Keys;
    }
  }

  // ----- keys and headers determine what they were made from -----

  /** Equal cache keys come from the same tenant, the same provider/model and requests
      that differ at most in volatile fields. */
  lemma KeyDeterminesRequest(c: Codec, t1: string, s1: string, d1: Doc, t2: string, s2: string, d2: Doc)
    requires Injective(c) && NUL !in t1 && NUL !in t2 && NUL !in s1 && NUL !in s2
    requires CacheKey(c, t1, s1, d1) == CacheKey(c, t2, s2, d2)
    ensures t1 == t2 && s1 == s2 && Canonical(d1) == Canonical(d2) && Alike(d1, d2)
  {
    var e1, e2 := c.encode(Canonical(d1)), c.encode(Canonical(d2));
    SplitUnique(t1, t2, s1 + [NUL] + e1, s2 + [NUL] + e2, NUL);
    SplitUnique(s1, s2, e1, e2, NUL);
    CanonicalIffAlike(d1, d2);
  }

  /** Two requests share a cache key exactly when they are of one tenant, go to one
      provider/model and ask for the same thing. */
  lemma SameKeyIffSameRequest(c: Codec, t1: string, s1: string, d1: Doc, t2: string, s2: string, d2: Doc)
    requires Injective(c) && NUL !in t1 && NUL !in t2 && NUL !in s1 && NUL !in s2
    ensures CacheKey(c, t1, s1, d1) == CacheKey(c, t2, s2, d2) <==> t1 == t2 && s1 == s2 && Alike(d1, d2)
  {
    CanonicalIffAlike(d1, d2);
    if CacheKey(c, t1, s1, d1) == CacheKey(c, t2, s2, d2) {
      KeyDeterminesRequest(c, t1, s1, d1, t2, s2, d2);
    }
  }

  lemma ServedByDeterminesCandidate(a: Candidate, b: Candidate)
    requires '/' !in a.provider && '/' !in b.provider && ServedBy(a) == ServedBy(b)
    ensures a == b
  {
    SplitUnique(a.provider, b.provider, a.model, b.model, '/');
  }

  // ----- runs -----

  /** What a request carries from its lookup to its store; no key means not cacheable. */
  datatype Pending = Pending(tenant: string, doc: Doc, key: string, servedBy: string)

  /** `Ask` is the lookup: `doc` is none when the body does not parse, `primary` none when
      resolution failed or caching does not apply.  `Finish` is the dispatch coming back,
      none when it failed. */
  datatype Act =
    | Ask(id: nat, tenant: string, doc: Option<Doc>, primary: Option<Candidate>, at: int)
    | Finish(id: nat, served: Option<Answer>, ttl: int, at: int)
    | Flush(tenant: string, at: int)

  datatype World = World(cache: seq<Item>, pending: map<nat, Pending>)

  datatype Limits = Limits(maxBytes: int, maxEntryBytes: int)

  predicate Cacheable(a: Act)
    requires a.Ask?
  {
    a.doc.Some? && a.primary.Some?
  }

  function KeyOf(c: Codec, a: Act): string
    requires a.Ask? && Cacheable(a)
  {
    CacheKey(c, a.tenant, ServedBy(a.primary.value), a.doc.value)
  }

  /** Whether a finished dispatch is stored: something was looked up, and the candidate
      that served is the one the key was computed for. */
  predicate Stores(w: World, a: Act)
    requires a.Finish?
  {
    a.id in w.pending && a.served.Some? && ServedBy(a.served.value.winner) == w.pending[a.id].servedBy
  }

  function EntryOf(served: Answer): Entry {
    Entry(served.body, served.winner.provider, served.winner.model)
  }

  function Next(c: Codec, l: Limits, w: World, a: Act): World {
    match a
    case Ask(id, tenant, doc, primary, at) =>
      if !Cacheable(a) then w.(pending := w.pending - {id})
      else
        var key := KeyOf(c, a);
        World(AfterGet(w.cache, key, at),
              if GetAnswer(w.cache, key, at).Some? then w.pending - {id}
              else w.pending[id := Pending(tenant, doc.value, key, ServedBy(primary.value))])
    case Finish(id, served, ttl, at) =>
      World(if Stores(w, a)
            then AfterPut(w.cache, w.pending[id].tenant, w.pending[id].key, EntryOf(served.value), ttl, at, l.maxBytes, l.maxEntryBytes)
            else w.cache,
            w.pending - {id})
    case Flush(tenant, _) => w.(cache := AfterFlush(w.cache, tenant))
  }

  function After(c: Codec, l: Limits, acts: seq<Act>, n: nat): World
    requires n <= |acts|
  {
    if n == 0 then World([], map[]) else Next(c, l, After(c, l, acts, n - 1), acts[n - 1])
  }

  /** Act `i` is a lookup answered from the cache, by `e`. */
  predicate HitAt(c: Codec, l: Limits, acts: seq<Act>, i: nat, e: Entry)
    requires i < |acts|
  {
    && acts[i].Ask? && Cacheable(acts[i])
    && GetAnswer(After(c, l, acts, i).cache, KeyOf(c, acts[i]), acts[i].at) == Some(e)
  }

  /** The two halves of a completion, around a dispatch of any length: each does to the
      cache what the corresponding act does. */
  class Completions {
    const cache: Cache
    const codec: Codec

    constructor (cache: Cache, codec: Codec)
      ensures this.cache == cache && this.codec == codec
    {
      this.cache, this.codec := cache, codec;
    }

    method Begin(tenant: string, doc: Option<Doc>, primary: Option<Candidate>, now: int)
      returns (hit: Option<Entry>, waiting: Option<Pending>)
      requires cache.Valid()
      modifies cache
      ensures cache.Valid()
      ensures var ask := Ask(0, tenant, doc, primary, now);
              var w := World(old(cache.order), map[]);
              var next := Next(codec, Limits(cache.maxBytes, cache.maxEntryBytes), w, ask);
              && cache.order == next.cache
              && hit == (if Cacheable(ask) then GetAnswer(w.cache, KeyOf(codec, ask), now) else None)
              && waiting == (if 0 in next.pending then Some(next.pending[0]) else None)
    {
      if doc.None? || primary.None? {
        return None, None;
      }
      var servedBy := ServedBy(primary.value);
      var key := CacheKey(codec, tenant, servedBy, doc.value);
      hit := cache.Get(key, now);
      waiting := if hit.Some? then None else Some(Pending(tenant, doc.value, key, servedBy));
    }

    method Conclude(waiting: Option<Pending>, served: Option<Answer>, ttl: int, now: int)
      requires cache.Valid()
      modifies cache
      ensures cache.Valid()
      ensures var w := World(old(cache.order), if waiting.Some? then map[0 := waiting.value] else map[]);
              cache.order == Next(codec, Limits(cache.maxBytes, cache.maxEntryBytes), w, Finish(0, served, ttl, now)).cache
    {
      if waiting.Some? && served.Some? && ServedBy(served.value.winner) == waiting.value.servedBy {
        var p, cand := waiting.value, served.value.winner;
        cache.Put(p.tenant, p.key, Entry(served.value.body, cand.provider, cand.model), ttl, now);
      }
    }
  }

  // ----- where a cached item comes from -----

  /** Act `i` is a lookup that left request `id` waiting as `p`. */
  ghost predicate AskedAt(c: Codec, acts: seq<Act>, i: nat, id: nat, p: Pending)
    requires i < |acts|
  {
    && acts[i].Ask? && acts[i].id == id && Cacheable(acts[i])
    && p == Pending(acts[i].tenant, acts[i].doc.value, KeyOf(c, acts[i]), ServedBy(acts[i].primary.value))
  }

  /** Act `j` stored `it`: a dispatch for `p` came back from the very candidate `p` names. */
  ghost predicate StoredAt(c: Codec, l: Limits, acts: seq<Act>, j: nat, p: Pending, it: Item)
    requires j < |acts|
  {
    && acts[j].Finish? && acts[j].ttl > 0
    && Stores(After(c, l, acts, j), acts[j]) && After(c, l, acts, j).pending[acts[j].id] == p
    && it.key == p.key && it.tenant == p.tenant
    && it.entry == EntryOf(acts[j].served.value) && it.expires == acts[j].at + acts[j].ttl
  }

  ghost predicate Origin(c: Codec, l: Limits, acts: seq<Act>, n: nat, i: nat, j: nat, p: Pending, it: Item)
    requires n <= |acts|
  {
    && i < j < n && StoredAt(c, l, acts, j, p, it) && AskedAt(c, acts, i, acts[j].id, p)
    && forall k :: j < k < n ==> !(acts[k].Flush? && acts[k].tenant == it.tenant)
  }

  lemma {:induction false} PendingWasAsked(c: Codec, l: Limits, acts: seq<Act>, n: nat, id: nat) returns (i: nat)
    requires n <= |acts| && id in After(c, l, acts, n).pending
    ensures i < n && AskedAt(c, acts, i, id, After(c, l, acts, n).pending[id])
  {
    var w, a := After(c, l, acts, n - 1), acts[n - 1];
    if a.Ask? && a.id == id {
      i := n - 1;
    } else {
      i := PendingWasAsked(c, l, acts, n - 1, id);
    }
  }

  lemma GetMembers(s: seq<Item>, key: string, now: int)
    ensures forall it :: it in AfterGet(s, key, now) ==> it in s
  {
    LookupFinds(s, key);
    DropMembers(s, {key});
  }

  lemma PutMembers(s: seq<Item>, tenant: string, key: string, e: Entry, ttl: int, now: int, l: Limits)
    ensures forall it :: it in AfterPut(s, tenant, key, e, ttl, now, l.maxBytes, l.maxEntryBytes) ==>
              it in s || (ttl > 0 && it == Item(key, tenant, e, now + ttl, SizeOf(key, e)))
  {
    if ttl > 0 && SizeOf(key, e) <= l.maxEntryBytes {
      var full := [Item(key, tenant, e, now + ttl, SizeOf(key, e))] + Drop(s, {key});
      DropMembers(s, {key});
      FitIsPrefix(full, l.maxBytes);
      assert forall it :: it in Fit(full, l.maxBytes) ==> it in full;
    }
  }

  lemma FlushMembers(s: seq<Item>, tenant: string)
    ensures forall it :: it in AfterFlush(s, tenant) ==> it in s && it.tenant != tenant
  {
    DropMembers(s, KeysOf(s, tenant));
  }

  /** Every cached item was stored by some dispatch, and its tenant not flushed since. */
  lemma {:induction false} CachedHasOrigin(c: Codec, l: Limits, acts: seq<Act>, n: nat, it: Item) returns (i: nat, j: nat, p: Pending)
    requires n <= |acts| && it in After(c, l, acts, n).cache
    ensures Origin(c, l, acts, n, i, j, p, it)
  {
    var w, a := After(c, l, acts, n - 1), acts[n - 1];
    match a {
      case Ask(id, _, _, _, at) =>
        if Cacheable(a) {
          GetMembers(w.cache, KeyOf(c, a), at);
        }
        i, j, p := CachedHasOrigin(c, l, acts, n - 1, it);
      case Flush(tenant, _) =>
        FlushMembers(w.cache, tenant);
        i, j, p := CachedHasOrigin(c, l, acts, n - 1, it);
      case Finish(id, served, ttl, at) =>
        if it in w.cache {
          i, j, p := CachedHasOrigin(c, l, acts, n - 1, it);
        } else {
          p := w.pending[id];
          PutMembers(w.cache, p.tenant, p.key, EntryOf(served.value), ttl, at, l);
          i := PendingWasAsked(c, l, acts, n - 1, id);
          j := n - 1;
        }
    }
  }

  ghost predicate Monotone(acts: seq<Act>) {
    forall i, j :: 0 <= i < j < |acts| ==> acts[i].at <= acts[j].at
  }

  /** Tenant ids and provider/model names carry no NUL, provider names no slash, and a
      dispatch does not try a provider/model twice. */
  ghost predicate WellNamed(acts: seq<Act>) {
    && (forall i :: 0 <= i < |acts| && acts[i].Ask? && acts[i].primary.Some? ==>
          NUL !in acts[i].tenant && NUL !in ServedBy(acts[i].primary.value) && '/' !in acts[i].primary.value.provider)
    && (forall i :: 0 <= i < |acts| && acts[i].Finish? && acts[i].served.Some? ==>
          '/' !in acts[i].served.value.winner.provider && acts[i].served.value.winner !in acts[i].served.value.tried)
  }

  /** What a hit may return.  Over every run, the entry answered to lookup `h` is the body
      a dispatch returned for an earlier lookup `i` of the same tenant that asked for the
      same thing; the candidate that produced it was that lookup's primary and is the
      one resolution names now; it was stored less than its TTL ago, and the tenant was not
      flushed since.  It was not a fallback's exactly when the dispatch's own resolution
      named the same primary as the lookup's. */
  lemma HitIsThePrimarysOwnRecentAnswer(c: Codec, l: Limits, acts: seq<Act>, h: nat, e: Entry) returns (i: nat, j: nat)
    requires Injective(c) && h < |acts| && Monotone(acts) && WellNamed(acts) && HitAt(c, l, acts, h, e)
    ensures i < j < h && acts[i].Ask? && acts[j].Finish? && acts[i].id == acts[j].id
    ensures Cacheable(acts[i]) && acts[i].tenant == acts[h].tenant
    ensures Alike(acts[i].doc.value, acts[h].doc.value)
    ensures acts[j].served.Some? && acts[j].served.value.body == e.body
    ensures acts[j].served.value.winner == Candidate(e.provider, e.model) == acts[i].primary.value == acts[h].primary.value
    ensures Depth(acts[j].served.value) == 0 <==> Primary(acts[j].served.value) == acts[i].primary.value
    ensures acts[j].at <= acts[h].at < acts[j].at + acts[j].ttl
    ensures forall k :: j < k < h ==> !(acts[k].Flush? && acts[k].tenant == acts[h].tenant)
  {
    var key, s := KeyOf(c, acts[h]), After(c, l, acts, h).cache;
    LookupFinds(s, key);
    var it := Lookup(s, key).value;
    var p;
    i, j, p := CachedHasOrigin(c, l, acts, h, it);
    KeyDeterminesRequest(c, acts[i].tenant, ServedBy(acts[i].primary.value), acts[i].doc.value,
                         acts[h].tenant, ServedBy(acts[h].primary.value), acts[h].doc.value);
    ServedByDeterminesCandidate(acts[j].served.value.winner, acts[i].primary.value);
    ServedByDeterminesCandidate(acts[i].primary.value, acts[h].primary.value);
    DepthZeroIffSamePrimary(acts[j].served.value);
  }

  lemma DepthZeroIffSamePrimary(a: Answer)
    requires a.winner !in a.tried
    ensures Depth(a) == 0 <==> Primary(a) == a.winner
  {
    assert a.tried != [] ==> a.tried[0] in a.tried;
  }

  // ----- a fallback's answer replayed -----

  /** The route changes between the two resolutions of one request: its lookup names `a`, its
      dispatch tries `b` first, and `a` serves as the fallback. */
  function RouteChanges(tenant: string, doc: Doc, a: Candidate, b: Candidate, body: string, ttl: int): seq<Act> {
    [Ask(0, tenant, Some(doc), Some(a), 0),
     Finish(0, Some(Answer([b], a, body)), ttl, 0),
     Ask(1, tenant, Some(doc), Some(a), 0)]
  }

  /** Then the fallback's answer is stored, and replayed to the next request as the primary's. */
  lemma FallbackReplayed(c: Codec, l: Limits, tenant: string, doc: Doc, a: Candidate, b: Candidate, body: string, ttl: int)
    requires ttl > 0 && SizeOf(CacheKey(c, tenant, ServedBy(a), doc), Entry(body, a.provider, a.model)) <= l.maxEntryBytes <= l.maxBytes
    ensures var acts := RouteChanges(tenant, doc, a, b, body, ttl);
            HitAt(c, l, acts, 2, Entry(body, a.provider, a.model)) && Depth(acts[1].served.value) == 1
  {
    var acts := RouteChanges(tenant, doc, a, b, body, ttl);
    var key, e := CacheKey(c, tenant, ServedBy(a), doc), Entry(body, a.provider, a.model);
    var w := World([], map[0 := Pending(tenant, doc, key, ServedBy(a))]);
    assert After(c, l, acts, 0) == World([], map[]);
    assert After(c, l, acts, 1) == w by {
      assert acts[0].Ask? && Cacheable(acts[0]) && KeyOf(c, acts[0]) == key;
      assert AfterGet([], key, 0) == [];
    }
    assert After(c, l, acts, 2) == Next(c, l, w, acts[1]);
    PutKeepsTheNewEntry([], tenant, key, e, ttl, 0, l.maxBytes, l.maxEntryBytes);
  }
}
