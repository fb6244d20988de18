/** A call on a store through the repository port. The store's data is a
    `MemoryRepository`; the `fault` argument is what the transport does to the call,
    so that a store which can be unreachable (a remote tier) is modelled too. A
    failed call answers the fault's error and leaves the store untouched. */
module Tier {
  import opened Domain
  import opened Ports
  import opened Memory

  method Save(store: MemoryRepository, u: URL, fault: Fault) returns (err: Option<Error>)
    requires store.Valid()
    modifies store
    ensures store.Valid()
    ensures err == fault
    ensures store.urls == if fault.None? then Upsert(old(store.urls), u) else old(store.urls)
  {
    if fault.Some? {
      return fault;
    }
    err := store.Save(u);
  }

  method Get(store: MemoryRepository, code: string, fault: Fault) returns (r: Result<URL>)
    requires store.Valid()
    ensures r == Probe(store.urls, code, fault)
    ensures r.Ok? ==> r.value.shortCode == code
  {
    if fault.Some? {
      return Err(fault.value);
    }
    r := store.Get(code);
  }

  method IncrementAccessCount(store: MemoryRepository, code: string, fault: Fault)
    returns (err: Option<Error>)
    requires store.Valid()
    modifies store
    ensures store.Valid()
    ensures err == if fault.Some? then fault else IncrementError(old(store.urls), code)
    ensures store.urls == if fault.None? then Incremented(old(store.urls), code) else old(store.urls)
  {
    if fault.Some? {
      return fault;
    }
    err := store.IncrementAccessCount(code);
  }
}
