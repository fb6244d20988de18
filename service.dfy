/** The URL service: shortening with a bounded search over salt indices, and
    resolution of a short code with an access count kept on the side. */
module Service {
  import opened Domain
  import opened Ports
  import opened Memory
  import opened ShortCode
  import Tier

  /** How Shorten's search over salt indices ends. */
  datatype Search =
    | Chosen(index: nat, code: string)  // the first candidate whose probe failed
    | GenerationError(index: nat)       // the encoder failed at this index
    | Exhausted                         // every candidate was found in the store

  /** Candidate `j` was generated and the store answered its probe with a record. */
  predicate Collides(codec: Codec, m: Table, url: string, probeFaults: seq<Fault>, j: nat)
    requires |probeFaults| == MaxRetries && j < MaxRetries
  {
    var c := Generate(codec, url, j);
    c.Ok? && Probe(m, c.value, probeFaults[j]).Ok?
  }

  /** The search from index `i` on, against table `m`, the probe of candidate `j`
      meeting `probeFaults[j]`. */
  function SearchFrom(codec: Codec, m: Table, url: string, probeFaults: seq<Fault>, i: nat): (r: Search)
    requires |probeFaults| == MaxRetries
    ensures r.Chosen? ==> i <= r.index < MaxRetries && Generate(codec, url, r.index) == Ok(r.code)
    ensures r.GenerationError? ==> i <= r.index < MaxRetries && Generate(codec, url, r.index).Err?
    decreases MaxRetries - i
  {
    if i >= MaxRetries then Exhausted
    else match Generate(codec, url, i)
      case Err(_) => GenerationError(i)
      case Ok(code) =>
        if Probe(m, code, probeFaults[i]).Err? then Chosen(i, code)
        else SearchFrom(codec, m, url, probeFaults, i + 1)
  }

  /** The record Shorten creates for `code`. */
  function NewRecord(url: string, code: string, id: string, now: int): URL {
    URL(id, url, code, now, 0)
  }

  /** A chosen index is the first one, from `i` on, whose candidate does not collide:
      every earlier candidate collided, and the chosen one's probe failed. */
  lemma {:induction false} SearchChosen(codec: Codec, m: Table, url: string, probeFaults: seq<Fault>, i: nat, k: nat, code: string)
    requires |probeFaults| == MaxRetries
    requires SearchFrom(codec, m, url, probeFaults, i) == Chosen(k, code)
    ensures i <= k < MaxRetries
    ensures Generate(codec, url, k) == Ok(code) && Probe(m, code, probeFaults[k]).Err?
    ensures forall j :: i <= j < k ==> Collides(codec, m, url, probeFaults, j)
    decreases MaxRetries - i
  {
    var c := Generate(codec, url, i);
    if i < MaxRetries && c.Ok? && Probe(m, c.value, probeFaults[i]).Ok? {
      SearchChosen(codec, m, url, probeFaults, i + 1, k, code);
      forall j | i <= j < k
        ensures Collides(codec, m, url, probeFaults, j)
      {
        if j == i {
          assert Collides(codec, m, url, probeFaults, i);
        }
      }
    }
  }

  /** The search stops at the first index whose encoding fails, after collisions only. */
  lemma {:induction false} SearchGenerationError(codec: Codec, m: Table, url: string, probeFaults: seq<Fault>, i: nat, k: nat)
    requires |probeFaults| == MaxRetries
    requires SearchFrom(codec, m, url, probeFaults, i) == GenerationError(k)
    ensures i <= k < MaxRetries
    ensures Generate(codec, url, k).Err?
    ensures forall j :: i <= j < k ==> Collides(codec, m, url, probeFaults, j)
    decreases MaxRetries - i
  {
    var c := Generate(codec, url, i);
    if i < MaxRetries && c.Ok? && Probe(m, c.value, probeFaults[i]).Ok? {
      SearchGenerationError(codec, m, url, probeFaults, i + 1, k);
      forall j | i <= j < k
        ensures Collides(codec, m, url, probeFaults, j)
      {
        if j == i {
          assert Collides(codec, m, url, probeFaults, i);
        }
      }
    }
  }

  /** An exhausted search met a collision at every index from `i` on. */
  lemma {:induction false} ExhaustedOnlyIfAllCollide(codec: Codec, m: Table, url: string, probeFaults: seq<Fault>, i: nat)
    requires |probeFaults| == MaxRetries
    requires SearchFrom(codec, m, url, probeFaults, i) == Exhausted
    ensures forall j :: i <= j < MaxRetries ==> Collides(codec, m, url, probeFaults, j)
    decreases MaxRetries - i
  {
    if i < MaxRetries {
      var c := Generate(codec, url, i);
      assert c.Ok? && Probe(m, c.value, probeFaults[i]).Ok?;
      ExhaustedOnlyIfAllCollide(codec, m, url, probeFaults, i + 1);
      forall j | i <= j < MaxRetries
        ensures Collides(codec, m, url, probeFaults, j)
      {
        if j == i {
          assert Collides(codec, m, url, probeFaults, i);
        }
      }
    }
  }

  /** When every candidate from `i` on collides, the search is exhausted. */
  lemma {:induction false} AllCollideExhausts(codec: Codec, m: Table, url: string, probeFaults: seq<Fault>, i: nat)
    requires |probeFaults| == MaxRetries
    requires forall j :: i <= j < MaxRetries ==> Collides(codec, m, url, probeFaults, j)
    ensures SearchFrom(codec, m, url, probeFaults, i) == Exhausted
    decreases MaxRetries - i
  {
    if i < MaxRetries {
      assert Collides(codec, m, url, probeFaults, i);
      AllCollideExhausts(codec, m, url, probeFaults, i + 1);
    }
  }

  /** On a healthy transport the chosen code is absent from the store, so Shorten adds
      a record and never overwrites one. */
  lemma FreshCodeWhenHealthy(codec: Codec, m: Table, url: string, k: nat, code: string, id: string, now: int)
    requires SearchFrom(codec, m, url, NoProbeFaults(), 0) == Chosen(k, code)
    ensures code !in m
    ensures |Upsert(m, NewRecord(url, code, id, now))| == |m| + 1
  {
    SearchChosen(codec, m, url, NoProbeFaults(), 0, k, code);
    assert Upsert(m, NewRecord(url, code, id, now)).Keys == m.Keys + {code};
  }

  /** Any probe error is taken for a free code: when every candidate before `k`
      collides and the probe of candidate `k`, a code already in the store, fails,
      Shorten picks that code and its Save replaces the record. */
  lemma {:induction false} ProbeErrorChoosesTakenCode(codec: Codec, m: Table, url: string, probeFaults: seq<Fault>, i: nat, k: nat, code: string)
    requires |probeFaults| == MaxRetries && i <= k < MaxRetries
    requires forall j :: i <= j < k ==> Collides(codec, m, url, probeFaults, j)
    requires Generate(codec, url, k) == Ok(code) && code in m && probeFaults[k].Some?
    ensures SearchFrom(codec, m, url, probeFaults, i) == Chosen(k, code)
    decreases k - i
  {
    if i < k {
      assert Collides(codec, m, url, probeFaults, i);
      ProbeErrorChoosesTakenCode(codec, m, url, probeFaults, i + 1, k, code);
    }
  }

  function NoProbeFaults(): seq<Fault> {
    seq(MaxRetries, _ => None)
  }

  /** The table after `n` serialized successful resolutions of `code`. */
  function Resolved(m: Table, code: string, n: nat): Table {
    if n == 0 then m else Incremented(Resolved(m, code, n - 1), code)
  }

  /** After n resolutions of a stored code its access count is n higher; nothing else
      in it or in the table changes. */
  lemma {:induction false} ResolvedAddsN(m: Table, code: string, n: nat)
    requires code in m
    ensures Resolved(m, code, n).Keys == m.Keys
    ensures Resolved(m, code, n)[code] == m[code].(accessCount := m[code].accessCount + n)
    ensures forall k :: k in m && k != code ==> Resolved(m, code, n)[k] == m[k]
  {
    if n > 0 {
      ResolvedAddsN(m, code, n - 1);
    }
  }

  class URLService {
    const repo: MemoryRepository
    const codec: Codec

    constructor (repo: MemoryRepository, codec: Codec)
      ensures this.repo == repo && this.codec == codec
    {
      this.repo := repo;
      this.codec := codec;
    }

    /** Tries salt indices 0, 1, ... up to MaxRetries - 1. The first candidate whose
        probe fails is saved as a fresh record and returned. The probe of candidate
        `i` meets `probeFaults[i]`, the save meets `saveFault`; `id` and `now` are the
        fresh identifier and the current time. */
    method Shorten(url: string, id: string, now: int, probeFaults: seq<Fault>, saveFault: Fault)
      returns (r: Result<URL>)
      requires repo.Valid() && |probeFaults| == MaxRetries
      modifies repo
      ensures repo.Valid()
      ensures match SearchFrom(codec, old(repo.urls), url, probeFaults, 0)
        case Chosen(_, code) =>
          && r == (if saveFault.None? then Ok(NewRecord(url, code, id, now)) else Err(saveFault.value))
          && repo.urls == if saveFault.None? then Upsert(old(repo.urls), NewRecord(url, code, id, now))
                          else old(repo.urls)
        case GenerationError(_) => r == Err(GenerationFailed) && repo.urls == old(repo.urls)
        case Exhausted => r == Err(RetriesExhausted) && repo.urls == old(repo.urls)
    {
      ghost var m := repo.urls;
      var i := 0;
      while i < MaxRetries
        invariant 0 <= i <= MaxRetries
        invariant repo.Valid() && repo.urls == m
        invariant SearchFrom(codec, m, url, probeFaults, 0) == SearchFrom(codec, m, url, probeFaults, i)
      {
        var code := Generate(codec, url, i);
        if code.Err? {
          return Err(GenerationFailed);
        }
        var probe := Tier.Get(repo, code.value, probeFaults[i]);
        if probe.Err? {
          var u := NewRecord(url, code.value, id, now);
          var err := Tier.Save(repo, u, saveFault);
          if err.Some? {
            return Err(err.value);
          }
          return Ok(u);
        }
        i := i + 1;
      }
      r := Err(RetriesExhausted);
    }

    /** Looks the code up; on success launches the access-count increment, whose own
        answer is discarded, and answers the original URL. */
    method GetOriginalURL(code: string, getFault: Fault, incrementFault: Fault) returns (r: Result<string>)
      requires repo.Valid()
      modifies repo
      ensures repo.Valid()
      ensures match Probe(old(repo.urls), code, getFault)
        case Ok(u) => r == Ok(u.originalURL)
        case Err(e) => r == Err(e)
      ensures repo.urls == if r.Ok? && incrementFault.None? then Incremented(old(repo.urls), code)
                           else old(repo.urls)
    {
      var found := Tier.Get(repo, code, getFault);
      if found.Err? {
        return Err(found.error);
      }
      var _ := Tier.IncrementAccessCount(repo, code, incrementFault);
      r := Ok(found.value.originalURL);
    }
  }

  /** On a healthy transport, shortening a URL and then resolving the code it gave
      answers that URL, and the new record has been counted once. */
  method ShortenThenResolve(service: URLService, url: string, id: string, now: int)
    returns (shortened: Result<URL>, resolved: Result<string>)
    requires service.repo.Valid()
    modifies service.repo
    ensures shortened.Ok? ==> |shortened.value.shortCode| == ShortCodeLength
    ensures shortened.Ok? ==> resolved == Ok(url)
    ensures shortened.Ok? ==> shortened.value.shortCode in service.repo.urls
    ensures shortened.Ok? ==> service.repo.urls[shortened.value.shortCode].accessCount == 1
    ensures shortened.Err? ==> shortened.error in {GenerationFailed, RetriesExhausted}
  {
    shortened := service.Shorten(url, id, now, NoProbeFaults(), None);
    if shortened.Err? {
      resolved := Err(shortened.error);
      return;
    }
    resolved := service.GetOriginalURL(shortened.value.shortCode, None, None);
  }
}
