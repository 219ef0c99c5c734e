/**
 * The local-storage backend: one saved dictionary from short code to URL.
 * The stored blob is modelled already parsed; `saved == None` is "nothing stored yet".
 * Storage exceptions are two flags: reading or parsing throws, writing throws.
 */
module LocalBackend {
  import opened Options
  import opened Replies
  import opened ShortCode
  import opened Allocation

  type Mappings = map<string, string>

  /** The dictionary the code works on: the saved one, or `{}` when nothing is saved. */
  function Parsed(saved: Option<Mappings>): Mappings
  {
    if saved.Some? then saved.value else map[]
  }

  /** `urlMappings[code]` is truthy: the key is present and its URL is not the empty string. */
  predicate Occupied(m: Mappings, code: string)
  {
    code in m && m[code] != ""
  }

  /**
   * The property names a plain object inherits from Object.prototype. A lookup of one of them
   * in the parsed dictionary finds an inherited member; the model looks up own keys only.
   */
  const InheritedNames: set<string> :=
    {"constructor", "__defineGetter__", "__defineSetter__", "hasOwnProperty", "__lookupGetter__",
     "__lookupSetter__", "isPrototypeOf", "propertyIsEnumerable", "toString", "valueOf",
     "__proto__", "toLocaleString"}

  /** No candidate is an inherited name, so the retry loop's lookups only ever meet own keys. */
  lemma CandidateIsNotInherited(draws: seq<Draw>, k: nat)
    requires EnoughDraws(draws) && k <= MaxAttempts
    ensures Candidate(draws, k) !in InheritedNames
  {
    assert |Candidate(draws, k)| == CodeLength;
  }

  /** The answers of the uniqueness checks for the eleven candidates; they never throw. */
  function LocalProbes(m: Mappings, draws: seq<Draw>): (ps: seq<Probe>)
    requires EnoughDraws(draws)
    ensures |ps| == MaxAttempts + 1
    ensures forall k :: 0 <= k <= MaxAttempts ==>
      ps[k] == if Occupied(m, Candidate(draws, k)) then InUse else Free
  {
    seq(MaxAttempts + 1, k requires 0 <= k <= MaxAttempts =>
      if Occupied(m, Candidate(draws, k)) then InUse else Free)
  }

  /** The reply of a create call together with the saved dictionary afterwards. */
  datatype LocalOutcome = LocalOutcome(reply: Created, saved: Option<Mappings>)

  /** createShortUrlLocal as a function of the saved dictionary, the draws and the storage faults. */
  function CreateLocal(saved: Option<Mappings>, originalUrl: string, draws: seq<Draw>,
                       readFails: bool, writeFails: bool): LocalOutcome
    requires EnoughDraws(draws)
  {
    if readFails then LocalOutcome(Rejected(LocalSaveFailed), saved)
    else
      var m := Parsed(saved);
      match Allocate(LocalProbes(m, draws))
      case Picked(k) =>
        if writeFails then LocalOutcome(Rejected(LocalSaveFailed), saved)
        else
          var code := Candidate(draws, k);
          LocalOutcome(Created(code, None), Some(m[code := originalUrl]))
      case Exhausted => LocalOutcome(Rejected(CodesExhausted), saved)
      case Aborted =>
        NoThrowNoAbort(LocalProbes(m, draws));
        assert false;
        LocalOutcome(Rejected(CodesExhausted), saved)
  }

  /** Where the retry loop stops fixes the outcome of a creation. */
  lemma CreateLocalStopsAt(saved: Option<Mappings>, originalUrl: string, draws: seq<Draw>,
                           readFails: bool, writeFails: bool, k: nat)
    requires EnoughDraws(draws) && !readFails
    requires k == Scan(LocalProbes(Parsed(saved), draws), 0)
    ensures CreateLocal(saved, originalUrl, draws, readFails, writeFails) ==
      if k == MaxAttempts then LocalOutcome(Rejected(CodesExhausted), saved)
      else if writeFails then LocalOutcome(Rejected(LocalSaveFailed), saved)
      else LocalOutcome(Created(Candidate(draws, k), None),
                        Some(Parsed(saved)[Candidate(draws, k) := originalUrl]))
  {
  }

  /** getOriginalUrlLocal: look the code up in the saved dictionary. */
  function ResolveLocal(saved: Option<Mappings>, code: string, readFails: bool): (r: Lookup)
    ensures r.Found? <==> !readFails && saved.Some? && Occupied(saved.value, code)
    ensures r.Found? ==> r.url == saved.value[code] && r.url != ""
    ensures r.Missing? ==> r.error == (if readFails then RetrieveFailed else NotFound)
  {
    if readFails then Missing(RetrieveFailed)
    else if saved.None? then Missing(NotFound)
    else if code !in saved.value || saved.value[code] == "" then Missing(NotFound)
    else Found(saved.value[code])
  }

  /** Creation gives up exactly when storage reads fine and the first ten candidates are all occupied. */
  lemma CreateLocalExhaustedIff(saved: Option<Mappings>, originalUrl: string, draws: seq<Draw>,
                                readFails: bool, writeFails: bool)
    requires EnoughDraws(draws)
    ensures CreateLocal(saved, originalUrl, draws, readFails, writeFails).reply.error == Some(CodesExhausted)
      <==> !readFails && forall j :: 0 <= j < MaxAttempts ==> Occupied(Parsed(saved), Candidate(draws, j))
  {
    ExhaustedIff(LocalProbes(Parsed(saved), draws));
  }

  /**
   * A successful creation stores the URL under one of the first ten candidates, the first one
   * that was absent or mapped to "", and changes no other entry.
   */
  lemma CreateLocalSuccess(saved: Option<Mappings>, originalUrl: string, draws: seq<Draw>,
                           readFails: bool, writeFails: bool)
    requires EnoughDraws(draws)
    requires CreateLocal(saved, originalUrl, draws, readFails, writeFails).reply.error.None?
    ensures var out := CreateLocal(saved, originalUrl, draws, readFails, writeFails);
      var code := out.reply.shortCode;
      && !readFails && !writeFails
      && IsShortCode(code)
      && !Occupied(Parsed(saved), code)
      && (exists k :: 0 <= k < MaxAttempts && code == Candidate(draws, k)
            && forall j :: 0 <= j < k ==> Occupied(Parsed(saved), Candidate(draws, j)))
      && out.saved == Some(Parsed(saved)[code := originalUrl])
      && (forall c :: c != code ==> (c in Parsed(saved) <==> c in out.saved.value))
      && (forall c :: c != code && c in Parsed(saved) ==> out.saved.value[c] == Parsed(saved)[c])
  {
    var probes := LocalProbes(Parsed(saved), draws);
    match Allocate(probes)
    case Picked(k) =>
      CandidateIsShortCode(draws, k);
      assert Candidate(draws, k) == CreateLocal(saved, originalUrl, draws, readFails, writeFails).reply.shortCode;
    case Exhausted =>
    case Aborted =>
  }

  /** Creation succeeds exactly when storage works and some one of the first ten candidates is free. */
  lemma CreateLocalSucceedsIff(saved: Option<Mappings>, originalUrl: string, draws: seq<Draw>,
                               readFails: bool, writeFails: bool)
    requires EnoughDraws(draws)
    ensures CreateLocal(saved, originalUrl, draws, readFails, writeFails).reply.error.None? <==>
      !readFails && !writeFails &&
      exists k :: 0 <= k < MaxAttempts && !Occupied(Parsed(saved), Candidate(draws, k))
  {
    var probes := LocalProbes(Parsed(saved), draws);
    if !readFails && !writeFails && exists k :: 0 <= k < MaxAttempts && !Occupied(Parsed(saved), Candidate(draws, k)) {
      ExhaustedIff(probes);
      NoThrowNoAbort(probes);
    }
  }

  /** A failed creation answers with an empty code and one of its two errors, and saves nothing. */
  lemma CreateLocalFailure(saved: Option<Mappings>, originalUrl: string, draws: seq<Draw>,
                           readFails: bool, writeFails: bool)
    requires EnoughDraws(draws)
    requires CreateLocal(saved, originalUrl, draws, readFails, writeFails).reply.error.Some?
    ensures var out := CreateLocal(saved, originalUrl, draws, readFails, writeFails);
      && out.reply.shortCode == ""
      && out.reply.error.value in {LocalSaveFailed, CodesExhausted}
      && out.saved == saved
  {
  }

  /** Round trip: a non-empty URL stored by a successful creation resolves back to itself. */
  lemma LocalRoundTrip(saved: Option<Mappings>, originalUrl: string, draws: seq<Draw>,
                       readFails: bool, writeFails: bool)
    requires EnoughDraws(draws)
    requires originalUrl != ""
    requires CreateLocal(saved, originalUrl, draws, readFails, writeFails).reply.error.None?
    ensures var out := CreateLocal(saved, originalUrl, draws, readFails, writeFails);
      ResolveLocal(out.saved, out.reply.shortCode, false) == Found(originalUrl)
  {
    CreateLocalSuccess(saved, originalUrl, draws, readFails, writeFails);
  }

  /** A creation leaves the resolution of every other code as it was. */
  lemma LocalOtherCodesUnaffected(saved: Option<Mappings>, originalUrl: string, draws: seq<Draw>,
                                  readFails: bool, writeFails: bool, other: string, lookupFails: bool)
    requires EnoughDraws(draws)
    requires other != CreateLocal(saved, originalUrl, draws, readFails, writeFails).reply.shortCode
    ensures var out := CreateLocal(saved, originalUrl, draws, readFails, writeFails);
      ResolveLocal(out.saved, other, lookupFails) == ResolveLocal(saved, other, lookupFails)
  {
    var out := CreateLocal(saved, originalUrl, draws, readFails, writeFails);
    if out.reply.error.None? {
      CreateLocalSuccess(saved, originalUrl, draws, readFails, writeFails);
    } else {
      CreateLocalFailure(saved, originalUrl, draws, readFails, writeFails);
    }
  }

  /** Two successive successful creations, the first of a non-empty URL, hand out different codes. */
  lemma LocalCodesDistinct(saved: Option<Mappings>, url1: string, url2: string,
                           draws1: seq<Draw>, draws2: seq<Draw>)
    requires EnoughDraws(draws1) && EnoughDraws(draws2)
    requires url1 != ""
    requires CreateLocal(saved, url1, draws1, false, false).reply.error.None?
    requires var mid := CreateLocal(saved, url1, draws1, false, false).saved;
      CreateLocal(mid, url2, draws2, false, false).reply.error.None?
    ensures var first := CreateLocal(saved, url1, draws1, false, false);
      CreateLocal(first.saved, url2, draws2, false, false).reply.shortCode != first.reply.shortCode
  {
    var first := CreateLocal(saved, url1, draws1, false, false);
    CreateLocalSuccess(saved, url1, draws1, false, false);
    CreateLocalSuccess(first.saved, url2, draws2, false, false);
  }

  /**
   * Storing the empty URL leaves its code reusable: the entry is falsy, so a following creation
   * with the same draws hands out the same code again and overwrites the entry.
   */
  lemma LocalEmptyUrlCodeReused(saved: Option<Mappings>, url: string, draws: seq<Draw>)
    requires EnoughDraws(draws)
    requires CreateLocal(saved, "", draws, false, false).reply.error.None?
    ensures var first := CreateLocal(saved, "", draws, false, false);
      var second := CreateLocal(first.saved, url, draws, false, false);
      second.reply.error.None? && second.reply.shortCode == first.reply.shortCode
  {
    var m := Parsed(saved);
    var probes := LocalProbes(m, draws);
    assert Allocate(probes).Picked?;
    var code := Candidate(draws, Allocate(probes).index);
    assert CreateLocal(saved, "", draws, false, false).saved == Some(m[code := ""]);
    forall k | 0 <= k <= MaxAttempts
      ensures Occupied(m[code := ""], Candidate(draws, k)) == Occupied(m, Candidate(draws, k))
    {
    }
    assert LocalProbes(m[code := ""], draws) == probes;
  }

  /** A creation depends on the first 66 draws only: no more than eleven codes are ever drawn. */
  lemma CreateLocalUsesElevenCodes(saved: Option<Mappings>, originalUrl: string, d1: seq<Draw>, d2: seq<Draw>,
                                   readFails: bool, writeFails: bool)
    requires EnoughDraws(d1) && EnoughDraws(d2)
    requires d1[..6 * (MaxAttempts + 1)] == d2[..6 * (MaxAttempts + 1)]
    ensures CreateLocal(saved, originalUrl, d1, readFails, writeFails)
         == CreateLocal(saved, originalUrl, d2, readFails, writeFails)
  {
    forall k | 0 <= k <= MaxAttempts
      ensures Candidate(d1, k) == Candidate(d2, k)
    {
      CandidatesUseElevenCodes(d1, d2, k);
    }
    assert LocalProbes(Parsed(saved), d1) == LocalProbes(Parsed(saved), d2);
  }

  /**
   * The retry loop of createShortUrlLocal: draw, and re-draw while the code is occupied
   * and fewer than ten retries have been made. `attempts` is where the loop stopped.
   */
  method DrawFreeCode(urlMappings: Mappings, draws: seq<Draw>) returns (shortCode: string, attempts: nat)
    requires EnoughDraws(draws)
    ensures attempts == Scan(LocalProbes(urlMappings, draws), 0)
    ensures shortCode == Candidate(draws, attempts)
  {
    ghost var probes := LocalProbes(urlMappings, draws);
    shortCode := DrawCandidate(draws, 0);
    attempts := 0;
    while Occupied(urlMappings, shortCode) && attempts < MaxAttempts
      invariant 0 <= attempts <= MaxAttempts
      invariant shortCode == Candidate(draws, attempts)
      invariant forall j :: 0 <= j < attempts ==> probes[j] == InUse
      decreases MaxAttempts - attempts
    {
      shortCode := DrawCandidate(draws, attempts + 1);
      attempts := attempts + 1;
    }
    ScanUnique(probes, 0, attempts);
  }

  /** The local store: the field stands for the saved "shorty-mappings" entry. */
  class LocalStore {
    var saved: Option<Mappings>

    constructor ()
      ensures saved == None
    {
      saved := None;
    }

    /** createShortUrlLocal: the retry loop over the parsed dictionary, then one in-place insert. */
    method CreateShortUrl(originalUrl: string, draws: seq<Draw>, readFails: bool, writeFails: bool)
      returns (r: Created)
      requires EnoughDraws(draws)
      modifies this
      ensures LocalOutcome(r, saved) == CreateLocal(old(saved), originalUrl, draws, readFails, writeFails)
    {
      if readFails {
        return Rejected(LocalSaveFailed);
      }
      var urlMappings := Parsed(saved);
      var shortCode, attempts := DrawFreeCode(urlMappings, draws);
      CreateLocalStopsAt(saved, originalUrl, draws, readFails, writeFails, attempts);
      if attempts >= MaxAttempts {
        return Rejected(CodesExhausted);
      }
      urlMappings := urlMappings[shortCode := originalUrl];
      if writeFails {
        // setItem threw: the updated dictionary is dropped, nothing is saved
        return Rejected(LocalSaveFailed);
      }
      saved := Some(urlMappings);
      r := Created(shortCode, None);
    }
  }
}
