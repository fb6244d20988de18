/** The in-memory store: a table from short code to record, each method atomic. */
module Memory {
  import opened Domain
  import opened Ports

  class MemoryRepository {
    var urls: Table

    /** Every record is filed under its own short code. */
    ghost predicate Valid()
      reads this
    {
      WellKeyed(urls)
    }

    constructor ()
      ensures Valid()
      ensures urls == map[]
    {
      urls := map[];
    }

    /** Upsert by short code; never fails. */
    method Save(u: URL) returns (err: Option<Error>)
      requires Valid()
      modifies this
      ensures Valid()
      ensures err == None
      ensures urls == Upsert(old(urls), u)
    {
      urls := urls[u.shortCode := u];
      err := None;
    }

    /** The record under `code`, or NotFound; the table is only read. */
    method Get(code: string) returns (r: Result<URL>)
      requires Valid()
      ensures r.Ok? <==> code in urls
      ensures r.Ok? ==> r.value == urls[code] && r.value.shortCode == code
      ensures r.Err? ==> r.error == NotFound
    {
      if code in urls {
        r := Ok(urls[code]);
      } else {
        r := Err(NotFound);
      }
    }

    /** Read-modify-write of one record's access count. */
    method IncrementAccessCount(code: string) returns (err: Option<Error>)
      requires Valid()
      modifies this
      ensures Valid()
      ensures err == IncrementError(old(urls), code)
      ensures urls == Incremented(old(urls), code)
    {
      if code in urls {
        var u := urls[code];
        u := u.(accessCount := u.accessCount + 1);
        urls := urls[code := u];
        err := None;
      } else {
        err := Some(NotFound);
      }
    }
  }
}
