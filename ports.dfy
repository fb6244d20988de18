/** The repository port: the three operations every store offers, stated over the
    table from short code to record that the store holds. */
module Ports {
  import opened Domain

  type Table = map<string, URL>

  /** Every record is filed under its own short code. */
  ghost predicate WellKeyed(m: Table) {
    forall code :: code in m ==> m[code].shortCode == code
  }

  /** Get: the record filed under `code`, or NotFound. */
  function Lookup(m: Table, code: string): (r: Result<URL>)
    ensures r.Ok? <==> code in m
    ensures r.Err? ==> r.error == NotFound
    ensures r.Ok? ==> r.value == m[code]
    ensures WellKeyed(m) && r.Ok? ==> r.value.shortCode == code
  {
    if code in m then Ok(m[code]) else Err(NotFound)
  }

  /** Save: an upsert keyed by the record's short code. */
  function Upsert(m: Table, u: URL): (r: Table)
    ensures r.Keys == m.Keys + {u.shortCode} && r[u.shortCode] == u
  {
    m[u.shortCode := u]
  }

  /** IncrementAccessCount: one more access for a present code; an absent code
      leaves the table as it is. */
  function Incremented(m: Table, code: string): (r: Table)
    ensures r.Keys == m.Keys
  {
    if code in m then m[code := m[code].(accessCount := m[code].accessCount + 1)] else m
  }

  /** IncrementAccessCount's answer: the increment fails exactly where Get does, and
      with Get's error. */
  function IncrementError(m: Table, code: string): (r: Option<Error>)
    ensures r.None? <==> Lookup(m, code).Ok?
    ensures r.Some? ==> r.value == Lookup(m, code).error
  {
    if code in m then None else Some(NotFound)
  }

  /** Get as a caller sees it across a transport that may fail. */
  function Probe(m: Table, code: string, fault: Fault): (r: Result<URL>)
    ensures fault.None? ==> r == Lookup(m, code)
    ensures fault.Some? ==> r == Err(fault.value)
    ensures r.Ok? ==> code in m && r.value == m[code]
  {
    if fault.Some? then Err(fault.value) else Lookup(m, code)
  }

  /** After Save(u), Get(u.shortCode) answers exactly u. */
  lemma GetAfterSave(m: Table, u: URL)
    ensures Lookup(Upsert(m, u), u.shortCode) == Ok(u)
  {
  }

  /** Saving twice under one code leaves a single entry holding the later record. */
  lemma SaveIsUpsert(m: Table, u: URL, v: URL)
    requires u.shortCode == v.shortCode
    ensures Upsert(Upsert(m, u), v) == Upsert(m, v)
    ensures |Upsert(Upsert(m, u), v)| == |Upsert(m, u)|
    ensures |Upsert(m, v)| == if v.shortCode in m then |m| else |m| + 1
  {
    var once := Upsert(m, u);
    assert Upsert(once, v).Keys == once.Keys;
    if v.shortCode in m {
      assert Upsert(m, v).Keys == m.Keys;
    } else {
      assert Upsert(m, v).Keys == m.Keys + {v.shortCode};
    }
  }

  /** Save leaves every other short code as it was. */
  lemma SaveLeavesOthers(m: Table, u: URL, code: string)
    requires code != u.shortCode
    ensures Lookup(Upsert(m, u), code) == Lookup(m, code)
  {
  }

  /** Save keeps every record filed under its own code. */
  lemma SaveKeepsKeying(m: Table, u: URL)
    requires WellKeyed(m)
    ensures WellKeyed(Upsert(m, u))
  {
  }

  /** Get on an absent code answers NotFound. */
  lemma GetAbsent(m: Table, code: string)
    requires code !in m
    ensures Lookup(m, code) == Err(NotFound)
  {
  }

  /** On a present code the increment adds exactly one access to that record and
      changes nothing else, in that record or in any other. */
  lemma IncrementPresent(m: Table, code: string)
    requires code in m
    ensures IncrementError(m, code) == None
    ensures Incremented(m, code).Keys == m.Keys
    ensures Incremented(m, code)[code].accessCount == m[code].accessCount + 1
    ensures Incremented(m, code)[code].(accessCount := 0) == m[code].(accessCount := 0)
    ensures forall k :: k in m && k != code ==> Incremented(m, code)[k] == m[k]
  {
  }

  /** On an absent code the increment answers NotFound and changes nothing. */
  lemma IncrementAbsent(m: Table, code: string)
    requires code !in m
    ensures IncrementError(m, code) == Some(NotFound)
    ensures Incremented(m, code) == m
  {
  }

  /** The increment keeps every record filed under its own code. */
  lemma IncrementKeepsKeying(m: Table, code: string)
    requires WellKeyed(m)
    ensures WellKeyed(Incremented(m, code))
  {
  }
}
