/** The tiered repository: a cache store in front of a persistent store, behind the
    same three operations. Writes and reads go to the persistent store first (or, for
    reads, the cache first); every cache write is launched in the background and its
    outcome is discarded. Background writes are an explicit queue, `pending`, that
    `Flush` applies to the cache in launch order. The goroutines of the running
    system carry no order; `ShadowedInAnyOrder` and `ReorderedRepairLeavesStale` say
    which guarantee survives that and which does not. */
module Cached {
  import opened Domain
  import opened Ports
  import opened Memory
  import Tier

  /** A cache write launched in the background and not yet run. */
  datatype CacheWrite = Put(record: URL) | Bump(code: string) {
    /** The short code the write touches. */
    function Code(): string {
      match this
      case Put(u) => u.shortCode
      case Bump(c) => c
    }
  }

  /** The cache table after one background write, given what the transport did to it. */
  function Apply(c: Table, w: CacheWrite, fault: Fault): (r: Table)
    ensures r.Keys <= c.Keys + {w.Code()}
    ensures fault.Some? ==> r == c
  {
    if fault.Some? then c
    else match w
      case Put(u) => Upsert(c, u)
      case Bump(code) => Incremented(c, code)
  }

  /** The cache table after the writes `ws`, in order, the i-th meeting `faults[i]`. */
  function ApplyAll(c: Table, ws: seq<CacheWrite>, faults: seq<Fault>): (r: Table)
    requires |ws| == |faults|
    ensures (forall i :: 0 <= i < |faults| ==> faults[i].Some?) ==> r == c
    decreases |ws|
  {
    if ws == [] then c
    else Apply(ApplyAll(c, ws[..|ws| - 1], faults[..|ws| - 1]), ws[|ws| - 1], faults[|ws| - 1])
  }

  /** A healthy transport for `n` calls. */
  function NoFaults(n: nat): seq<Fault> {
    seq(n, _ => None)
  }

  /** `c` is a part of `p`: each of its entries is in `p` with the same record. */
  ghost predicate SubTable(c: Table, p: Table) {
    forall code :: code in c ==> code in p && c[code] == p[code]
  }

  /** Appending one write to the queue applies it after the others. */
  lemma ApplyAllSnoc(c: Table, ws: seq<CacheWrite>, faults: seq<Fault>, w: CacheWrite, f: Fault)
    requires |ws| == |faults|
    ensures ApplyAll(c, ws + [w], faults + [f]) == Apply(ApplyAll(c, ws, faults), w, f)
  {
    assert (ws + [w])[..|ws|] == ws;
    assert (faults + [f])[..|ws|] == faults;
  }

  /** Background writes never bring a code into the cache other than the codes they
      carry: if the cache and every queued code lie within `keys`, so does the cache
      after the writes run, whatever the transport does to them. */
  lemma {:induction false} ApplyAllWithin(c: Table, ws: seq<CacheWrite>, faults: seq<Fault>, keys: set<string>)
    requires |ws| == |faults|
    requires c.Keys <= keys
    requires forall i :: 0 <= i < |ws| ==> ws[i].Code() in keys
    ensures ApplyAll(c, ws, faults).Keys <= keys
    decreases |ws|
  {
    if ws != [] {
      var n := |ws| - 1;
      ApplyAllWithin(c, ws[..n], faults[..n], keys);
      assert ws[n].Code() in keys;
    }
  }

  /** The goroutines may run in any order. Whatever order the queued writes run in,
      and whatever the transport does to them, the cache stays within `keys`. */
  lemma ShadowedInAnyOrder(c: Table, ws: seq<CacheWrite>, run: seq<CacheWrite>, faults: seq<Fault>, keys: set<string>)
    requires multiset(run) == multiset(ws) && |run| == |faults|
    requires c.Keys <= keys
    requires forall i :: 0 <= i < |ws| ==> ws[i].Code() in keys
    ensures ApplyAll(c, run, faults).Keys <= keys
  {
    forall i | 0 <= i < |run|
      ensures run[i].Code() in keys
    {
      assert run[i] in multiset(ws);
      var j :| 0 <= j < |ws| && ws[j] == run[i];
    }
    ApplyAllWithin(c, run, faults, keys);
  }

  /** Coherence needs the launch order. A `Get` that misses queues a repair `Put(u)`;
      an increment of the same code then counts the persistent record once more and
      queues a `Bump`. Run in launch order the cache ends equal to the persistent
      table; with the `Bump` first it misses and the `Put` leaves the cache one
      access behind. */
  lemma ReorderedRepairLeavesStale(u: URL)
    ensures SubTable(ApplyAll(map[], [Put(u), Bump(u.shortCode)], NoFaults(2)),
                     Incremented(map[u.shortCode := u], u.shortCode))
    ensures !SubTable(ApplyAll(map[], [Bump(u.shortCode), Put(u)], NoFaults(2)),
                      Incremented(map[u.shortCode := u], u.shortCode))
  {
  }

  /** Once a queued `Put` has run with a healthy transport, and no later queued write
      touches its code, the cache holds exactly that record under the code. */
  lemma {:induction false} PutVisibleAfterFlush(c: Table, ws: seq<CacheWrite>, faults: seq<Fault>, k: nat)
    requires |ws| == |faults|
    requires k < |ws| && ws[k].Put? && faults[k] == None
    requires forall j :: k < j < |ws| ==> ws[j].Code() != ws[k].Code()
    ensures ws[k].record.shortCode in ApplyAll(c, ws, faults)
    ensures ApplyAll(c, ws, faults)[ws[k].record.shortCode] == ws[k].record
    decreases |ws|
  {
    var n := |ws| - 1;
    if k < n {
      PutVisibleAfterFlush(c, ws[..n], faults[..n], k);
      assert ws[n].Code() != ws[k].Code();
    }
  }

  /** Healthy background writes that mirror writes already made to the persistent
      table keep the flushed cache a part of it. */
  lemma MirroredPutKeepsPart(c: Table, p: Table, u: URL)
    requires SubTable(c, p)
    ensures SubTable(Upsert(c, u), Upsert(p, u))
  {
  }

  lemma MirroredBumpKeepsPart(c: Table, p: Table, code: string)
    requires SubTable(c, p)
    ensures SubTable(Incremented(c, code), Incremented(p, code))
  {
  }

  /** One background goroutine: the cache write `w` across a transport meeting
      `fault`, its answer discarded. */
  method RunWrite(cache: MemoryRepository, w: CacheWrite, fault: Fault)
    requires cache.Valid()
    modifies cache
    ensures cache.Valid()
    ensures cache.urls == Apply(old(cache.urls), w, fault)
  {
    match w {
      case Put(u) =>
        var _ := Tier.Save(cache, u, fault);
      case Bump(code) =>
        var _ := Tier.IncrementAccessCount(cache, code, fault);
    }
  }

  class CachedRepository {
    const cache: MemoryRepository
    const persistent: MemoryRepository
    /** Background cache writes launched and not yet run. */
    var pending: seq<CacheWrite>

    ghost predicate Valid()
      reads this, cache, persistent
    {
      cache != persistent && cache.Valid() && persistent.Valid()
    }

    /** The cache never holds, nor is about to receive, a code the persistent store
        lacks. Kept by every operation whatever the transport does. */
    ghost predicate Shadowed()
      reads this, cache, persistent
    {
      && cache.urls.Keys <= persistent.urls.Keys
      && forall i :: 0 <= i < |pending| ==> pending[i].Code() in persistent.urls
    }

    /** Once the queued writes run on a healthy transport, the cache is a part of the
        persistent table: every cached record equals the authoritative one. */
    ghost predicate Coherent()
      reads this, cache, persistent
    {
      SubTable(ApplyAll(cache.urls, pending, NoFaults(|pending|)), persistent.urls)
    }

    constructor (cache: MemoryRepository, persistent: MemoryRepository)
      requires cache != persistent && cache.Valid() && persistent.Valid()
      ensures Valid()
      ensures this.cache == cache && this.persistent == persistent && pending == []
    {
      this.cache := cache;
      this.persistent := persistent;
      pending := [];
    }

    /** Persistent store first; only on success is a cache write launched. The
        answer is the persistent store's. */
    method Save(u: URL, persistentFault: Fault) returns (err: Option<Error>)
      requires Valid()
      modifies persistent, this`pending
      ensures Valid()
      ensures err == persistentFault
      ensures cache.urls == old(cache.urls)
      ensures persistent.urls == if err.None? then Upsert(old(persistent.urls), u) else old(persistent.urls)
      ensures pending == if err.None? then old(pending) + [Put(u)] else old(pending)
      ensures old(Shadowed()) ==> Shadowed()
      ensures old(Coherent()) ==> Coherent()
    {
      ghost var flushed := ApplyAll(cache.urls, pending, NoFaults(|pending|));
      err := Tier.Save(persistent, u, persistentFault);
      if err.Some? {
        return;
      }
      pending := pending + [Put(u)];
      assert NoFaults(|pending|) == NoFaults(|old(pending)|) + [None];
      ApplyAllSnoc(cache.urls, old(pending), NoFaults(|old(pending)|), Put(u), None);
      if old(Coherent()) {
        MirroredPutKeepsPart(flushed, old(persistent.urls), u);
      }
    }

    /** Cache first; on a miss or a cache error, the persistent store, whose record
        is then written back to the cache in the background. */
    method Get(code: string, cacheFault: Fault, persistentFault: Fault) returns (r: Result<URL>)
      requires Valid()
      modifies this`pending
      ensures Valid()
      ensures r.Ok? ==> r.value.shortCode == code
      ensures cacheFault.None? && code in cache.urls ==>
        r == Ok(cache.urls[code]) && pending == old(pending)
      ensures !(cacheFault.None? && code in cache.urls) ==>
        && r == Probe(persistent.urls, code, persistentFault)
        && pending == old(pending) + (if r.Ok? then [Put(r.value)] else [])
      ensures old(Shadowed()) ==> Shadowed()
      ensures old(Coherent()) ==> Coherent()
      ensures old(Shadowed()) && persistentFault.None? ==> (r.Ok? <==> code in persistent.urls)
      ensures old(Coherent()) && old(pending) == [] && persistentFault.None? ==>
        r == Lookup(persistent.urls, code)
    {
      ghost var flushed := ApplyAll(cache.urls, pending, NoFaults(|pending|));
      r := Tier.Get(cache, code, cacheFault);
      if r.Ok? {
        return;
      }
      r := Tier.Get(persistent, code, persistentFault);
      if r.Err? {
        return;
      }
      pending := pending + [Put(r.value)];
      assert NoFaults(|pending|) == NoFaults(|old(pending)|) + [None];
      ApplyAllSnoc(cache.urls, old(pending), NoFaults(|old(pending)|), Put(r.value), None);
    }

    /** Persistent store first; only on success is the same increment launched on the
        cache. The answer is the persistent store's. */
    method IncrementAccessCount(code: string, persistentFault: Fault) returns (err: Option<Error>)
      requires Valid()
      modifies persistent, this`pending
      ensures Valid()
      ensures err == if persistentFault.Some? then persistentFault else IncrementError(old(persistent.urls), code)
      ensures cache.urls == old(cache.urls)
      ensures persistent.urls == if err.None? then Incremented(old(persistent.urls), code) else old(persistent.urls)
      ensures pending == if err.None? then old(pending) + [Bump(code)] else old(pending)
      ensures old(Shadowed()) ==> Shadowed()
      ensures old(Coherent()) ==> Coherent()
    {
      ghost var flushed := ApplyAll(cache.urls, pending, NoFaults(|pending|));
      err := Tier.IncrementAccessCount(persistent, code, persistentFault);
      if err.Some? {
        return;
      }
      pending := pending + [Bump(code)];
      assert NoFaults(|pending|) == NoFaults(|old(pending)|) + [None];
      ApplyAllSnoc(cache.urls, old(pending), NoFaults(|old(pending)|), Bump(code), None);
      if old(Coherent()) {
        MirroredBumpKeepsPart(flushed, old(persistent.urls), code);
      }
    }

    /** Runs the queued background writes on the cache, the i-th meeting `faults[i]`;
        each write's own answer is discarded. */
    method Flush(faults: seq<Fault>)
      requires Valid() && |faults| == |pending|
      modifies cache, this`pending
      ensures Valid()
      ensures pending == []
      ensures cache.urls == ApplyAll(old(cache.urls), old(pending), faults)
      ensures persistent.urls == old(persistent.urls)
      ensures old(Shadowed()) ==> Shadowed()
      ensures old(Coherent()) && faults == NoFaults(|faults|) ==> Coherent()
    {
      ghost var c0 := cache.urls;
      var i := 0;
      while i < |pending|
        invariant 0 <= i <= |pending| && pending == old(pending)
        invariant Valid() && persistent.urls == old(persistent.urls)
        invariant cache.urls == ApplyAll(c0, pending[..i], faults[..i])
      {
        var w := pending[i];
        RunWrite(cache, w, faults[i]);
        assert pending[..i + 1] == pending[..i] + [w];
        assert faults[..i + 1] == faults[..i] + [faults[i]];
        ApplyAllSnoc(c0, pending[..i], faults[..i], w, faults[i]);
        i := i + 1;
      }
      assert pending[..i] == pending && faults[..i] == faults;
      if old(Shadowed()) {
        ApplyAllWithin(c0, pending, faults, persistent.urls.Keys);
      }
      pending := [];
    }
  }
}
