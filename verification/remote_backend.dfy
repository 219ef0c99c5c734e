/**
 * The remote (Supabase) backend, seen as one table keyed by its unique short_code column.
 * The query builder is replaced by the outcome each call has (answered, answered with an
 * error object, or threw), supplied as parameters; `now` stands for the clock.
 */
module RemoteBackend {
  import opened Options
  import opened Replies
  import opened ShortCode
  import opened Allocation

  /** A row of the `urls` table; the generated `id` column is not modelled, timestamps are integers. */
  datatype UrlRecord = UrlRecord(shortCode: string, originalUrl: string, createdAt: int,
                                 clickCount: nat, lastAccessed: Option<int>)

  /** The table, indexed by short code. */
  type Table = map<string, UrlRecord>

  /** Each row sits under its own short code: the uniqueness index. */
  predicate WellKeyed(t: Table)
  {
    forall c :: c in t ==> t[c].shortCode == c
  }

  /**
   * checkShortCodeExists: a "taken" answer is always right, a thrown call propagates, and an
   * error object reads as "free" even when the code is in the table.
   */
  function CheckShortCodeExists(t: Table, configured: bool, code: string, reply: DbOutcome): (p: Probe)
    ensures p == InUse ==> configured && code in t
    ensures p == Threw <==> configured && reply == DbThrows
    ensures configured && reply == DbOk ==> (p == InUse <==> code in t)
    ensures !configured || reply == DbError ==> p == Free
  {
    if !configured then Free
    else match reply
      case DbThrows => Threw
      case DbError => Free
      case DbOk => if code in t then InUse else Free
  }

  /** The answers of the checks on the eleven candidates; `replies[k]` is how the k-th query goes. */
  function RemoteProbes(t: Table, draws: seq<Draw>, replies: seq<DbOutcome>): (ps: seq<Probe>)
    requires EnoughDraws(draws) && |replies| > MaxAttempts
    ensures |ps| == MaxAttempts + 1
    ensures forall k :: 0 <= k <= MaxAttempts ==>
      ps[k] == CheckShortCodeExists(t, true, Candidate(draws, k), replies[k])
  {
    seq(MaxAttempts + 1, k requires 0 <= k <= MaxAttempts =>
      CheckShortCodeExists(t, true, Candidate(draws, k), replies[k]))
  }

  /** The row an insert creates: the column defaults give zero clicks and no last access. */
  function NewRecord(code: string, originalUrl: string, now: int): UrlRecord
  {
    UrlRecord(code, originalUrl, now, 0, None)
  }

  /** The reply of a create call together with the table afterwards. */
  datatype RemoteOutcome = RemoteOutcome(reply: Created, table: Table)

  /**
   * createShortUrlSupabase as a function of the table and of how each remote call goes.
   * The insert is refused by the unique index when the code is already in the table.
   */
  function CreateRemote(t: Table, configured: bool, originalUrl: string, draws: seq<Draw>,
                        replies: seq<DbOutcome>, insert: DbOutcome, now: int): RemoteOutcome
    requires EnoughDraws(draws) && |replies| > MaxAttempts
  {
    if !configured then RemoteOutcome(Rejected(NotConfigured), t)
    else
      match Allocate(RemoteProbes(t, draws, replies))
      case Aborted => RemoteOutcome(Rejected(Unexpected), t)
      case Exhausted => RemoteOutcome(Rejected(CodesExhausted), t)
      case Picked(k) =>
        var code := Candidate(draws, k);
        if insert == DbThrows then RemoteOutcome(Rejected(Unexpected), t)
        else if insert == DbError || code in t then RemoteOutcome(Rejected(DatabaseSaveFailed), t)
        else RemoteOutcome(Created(code, None), t[code := NewRecord(code, originalUrl, now)])
  }

  /** Where the retry loop stops fixes the outcome of a creation. */
  lemma CreateRemoteStopsAt(t: Table, originalUrl: string, draws: seq<Draw>,
                            replies: seq<DbOutcome>, insert: DbOutcome, now: int, k: nat)
    requires EnoughDraws(draws) && |replies| > MaxAttempts
    requires k == Scan(RemoteProbes(t, draws, replies), 0)
    ensures var probe := RemoteProbes(t, draws, replies)[k];
      CreateRemote(t, true, originalUrl, draws, replies, insert, now) ==
        if probe == Threw then RemoteOutcome(Rejected(Unexpected), t)
        else if k == MaxAttempts then RemoteOutcome(Rejected(CodesExhausted), t)
        else if insert == DbThrows then RemoteOutcome(Rejected(Unexpected), t)
        else if insert == DbError || Candidate(draws, k) in t then RemoteOutcome(Rejected(DatabaseSaveFailed), t)
        else RemoteOutcome(Created(Candidate(draws, k), None),
                           t[Candidate(draws, k) := NewRecord(Candidate(draws, k), originalUrl, now)])
  {
  }

  /** getOriginalUrlSupabase: a row found by its code answers with its URL, whatever that URL is. */
  function ResolveRemote(t: Table, configured: bool, code: string, reply: DbOutcome): (r: Lookup)
    ensures r.Found? <==> configured && reply == DbOk && code in t
    ensures r.Found? ==> r.url == t[code].originalUrl
    ensures r.Missing? ==>
      r.error == (if !configured then NotConfigured else if reply == DbThrows then RetrieveFailed else NotFound)
  {
    if !configured then Missing(NotConfigured)
    else match reply
      case DbThrows => Missing(RetrieveFailed)
      case DbError => Missing(NotFound)
      case DbOk => if code in t then Found(t[code].originalUrl) else Missing(NotFound)
  }

  /** One recorded visit: the atomic `click_count + 1` and the new last-access time. */
  function Clicked(rec: UrlRecord, now: int): UrlRecord
  {
    rec.(clickCount := rec.clickCount + 1, lastAccessed := Some(now))
  }

  /** trackClickSupabase on the table: the update applies only when the call succeeds. */
  function Track(t: Table, configured: bool, code: string, reply: DbOutcome, now: int): (t': Table)
    ensures t'.Keys == t.Keys
    ensures forall c :: c in t && c != code ==> t'[c] == t[c]
    ensures code in t && configured && reply == DbOk ==>
      && t'[code].clickCount == t[code].clickCount + 1
      && t'[code].lastAccessed == Some(now)
      && t'[code].shortCode == t[code].shortCode
      && t'[code].originalUrl == t[code].originalUrl
      && t'[code].createdAt == t[code].createdAt
    ensures !configured || reply != DbOk ==> t' == t
  {
    if configured && reply == DbOk && code in t then t[code := Clicked(t[code], now)] else t
  }

  /** Recording a visit, whether it succeeds or fails, never changes what any code resolves to. */
  lemma TrackKeepsResolution(t: Table, configured: bool, code: string, reply: DbOutcome, now: int,
                             configured': bool, other: string, query: DbOutcome)
    ensures ResolveRemote(Track(t, configured, code, reply, now), configured', other, query)
         == ResolveRemote(t, configured', other, query)
  {
  }

  lemma TrackKeepsWellKeyed(t: Table, configured: bool, code: string, reply: DbOutcome, now: int)
    requires WellKeyed(t)
    ensures WellKeyed(Track(t, configured, code, reply, now))
  {
  }

  /**
   * Creation gives up exactly when the store is configured, the first ten candidates are all
   * reported taken, and the eleventh check, whose answer is otherwise unused, does not throw.
   */
  lemma CreateRemoteExhaustedIff(t: Table, configured: bool, originalUrl: string, draws: seq<Draw>,
                                 replies: seq<DbOutcome>, insert: DbOutcome, now: int)
    requires EnoughDraws(draws) && |replies| > MaxAttempts
    ensures CreateRemote(t, configured, originalUrl, draws, replies, insert, now).reply.error == Some(CodesExhausted)
      <==> (&& configured
            && (forall j :: 0 <= j < MaxAttempts ==> replies[j] == DbOk && Candidate(draws, j) in t)
            && replies[MaxAttempts] != DbThrows)
  {
    ExhaustedIff(RemoteProbes(t, draws, replies));
  }

  /** Ten collisions followed by an eleventh check that throws end in the generic error instead. */
  lemma EleventhCheckCanThrow(t: Table, originalUrl: string, draws: seq<Draw>,
                              replies: seq<DbOutcome>, insert: DbOutcome, now: int)
    requires EnoughDraws(draws) && |replies| > MaxAttempts
    requires forall j :: 0 <= j < MaxAttempts ==> replies[j] == DbOk && Candidate(draws, j) in t
    requires replies[MaxAttempts] == DbThrows
    ensures CreateRemote(t, true, originalUrl, draws, replies, insert, now).reply == Rejected(Unexpected)
  {
    AbortsOnThrow(RemoteProbes(t, draws, replies), MaxAttempts);
  }

  /**
   * A check that answers with an error lets a taken code through; the unique index then
   * refuses the insert and the call fails instead of overwriting the row.
   */
  lemma DuplicateInsertRefused(t: Table, originalUrl: string, draws: seq<Draw>,
                               replies: seq<DbOutcome>, now: int)
    requires EnoughDraws(draws) && |replies| > MaxAttempts
    requires replies[0] == DbError && Candidate(draws, 0) in t
    ensures CreateRemote(t, true, originalUrl, draws, replies, DbOk, now).reply == Rejected(DatabaseSaveFailed)
  {
    PickedIff(RemoteProbes(t, draws, replies), 0);
  }

  /** What the k-th check of a configured creation reports, in terms of its query and the table. */
  lemma RemoteProbeMeaning(t: Table, draws: seq<Draw>, replies: seq<DbOutcome>, k: nat)
    requires EnoughDraws(draws) && |replies| > MaxAttempts && k <= MaxAttempts
    ensures RemoteProbes(t, draws, replies)[k] == InUse <==> replies[k] == DbOk && Candidate(draws, k) in t
    ensures RemoteProbes(t, draws, replies)[k] == Threw <==> replies[k] == DbThrows
  {
  }

  /**
   * A successful creation inserts one fresh row under the first of the first ten candidates
   * not reported taken, with zero clicks and no last access, and changes no other row.
   */
  lemma CreateRemoteSuccess(t: Table, configured: bool, originalUrl: string, draws: seq<Draw>,
                            replies: seq<DbOutcome>, insert: DbOutcome, now: int)
    requires EnoughDraws(draws) && |replies| > MaxAttempts
    requires CreateRemote(t, configured, originalUrl, draws, replies, insert, now).reply.error.None?
    ensures var out := CreateRemote(t, configured, originalUrl, draws, replies, insert, now);
      var code := out.reply.shortCode;
      && configured && insert == DbOk
      && IsShortCode(code)
      && code !in t
      && (exists k :: 0 <= k < MaxAttempts && code == Candidate(draws, k)
            && forall j :: 0 <= j < k ==> replies[j] == DbOk && Candidate(draws, j) in t)
      && out.table == t[code := NewRecord(code, originalUrl, now)]
      && out.table.Keys == t.Keys + {code}
      && (forall c :: c in t ==> out.table[c] == t[c])
  {
    var probes := RemoteProbes(t, draws, replies);
    match Allocate(probes)
    case Picked(k) =>
      CandidateIsShortCode(draws, k);
      forall j | 0 <= j < k
        ensures replies[j] == DbOk && Candidate(draws, j) in t
      {
        RemoteProbeMeaning(t, draws, replies, j);
      }
    case Exhausted =>
    case Aborted =>
  }

  /**
   * Candidate k is the one a successful creation uses: one of the first ten, absent from the
   * table, its check answered without throwing, and every earlier candidate reported taken.
   */
  predicate FirstUntaken(t: Table, draws: seq<Draw>, replies: seq<DbOutcome>, k: nat)
    requires EnoughDraws(draws) && |replies| > MaxAttempts
  {
    && k < MaxAttempts && replies[k] != DbThrows && Candidate(draws, k) !in t
    && forall j :: 0 <= j < k ==> replies[j] == DbOk && Candidate(draws, j) in t
  }

  /** A successful creation used a candidate that FirstUntaken describes. */
  lemma CreateRemoteUsedFirstUntaken(t: Table, configured: bool, originalUrl: string, draws: seq<Draw>,
                                     replies: seq<DbOutcome>, insert: DbOutcome, now: int)
    requires EnoughDraws(draws) && |replies| > MaxAttempts
    requires CreateRemote(t, configured, originalUrl, draws, replies, insert, now).reply.error.None?
    ensures configured && insert == DbOk
    ensures var k := Scan(RemoteProbes(t, draws, replies), 0); FirstUntaken(t, draws, replies, k)
  {
    var probes := RemoteProbes(t, draws, replies);
    var k := Allocate(probes).index;
    assert k == Scan(probes, 0);
    forall j | 0 <= j < k
      ensures replies[j] == DbOk && Candidate(draws, j) in t
    {
      RemoteProbeMeaning(t, draws, replies, j);
    }
    RemoteProbeMeaning(t, draws, replies, k);
  }

  /** A configured creation whose insert answers succeeds when some candidate is FirstUntaken. */
  lemma CreateRemoteSucceedsAt(t: Table, originalUrl: string, draws: seq<Draw>,
                               replies: seq<DbOutcome>, now: int, k: nat)
    requires EnoughDraws(draws) && |replies| > MaxAttempts
    requires FirstUntaken(t, draws, replies, k)
    ensures CreateRemote(t, true, originalUrl, draws, replies, DbOk, now).reply == Created(Candidate(draws, k), None)
  {
    var probes := RemoteProbes(t, draws, replies);
    forall j | 0 <= j < k
      ensures probes[j] == InUse
    {
      RemoteProbeMeaning(t, draws, replies, j);
    }
    RemoteProbeMeaning(t, draws, replies, k);
    PickedIff(probes, k);
  }

  /**
   * Creation succeeds exactly when the store is configured, the insert answers, and some one of
   * the first ten candidates is FirstUntaken.
   */
  lemma CreateRemoteSucceedsIff(t: Table, configured: bool, originalUrl: string, draws: seq<Draw>,
                                replies: seq<DbOutcome>, insert: DbOutcome, now: int)
    requires EnoughDraws(draws) && |replies| > MaxAttempts
    ensures CreateRemote(t, configured, originalUrl, draws, replies, insert, now).reply.error.None? <==>
      configured && insert == DbOk && exists k :: FirstUntaken(t, draws, replies, k)
  {
    if CreateRemote(t, configured, originalUrl, draws, replies, insert, now).reply.error.None? {
      CreateRemoteUsedFirstUntaken(t, configured, originalUrl, draws, replies, insert, now);
    } else if configured && insert == DbOk && exists k :: FirstUntaken(t, draws, replies, k) {
      var k :| FirstUntaken(t, draws, replies, k);
      CreateRemoteSucceedsAt(t, originalUrl, draws, replies, now, k);
    }
  }

  /** A failed creation answers with an empty code and leaves the table as it was. */
  lemma CreateRemoteFailure(t: Table, configured: bool, originalUrl: string, draws: seq<Draw>,
                            replies: seq<DbOutcome>, insert: DbOutcome, now: int)
    requires EnoughDraws(draws) && |replies| > MaxAttempts
    requires CreateRemote(t, configured, originalUrl, draws, replies, insert, now).reply.error.Some?
    ensures var out := CreateRemote(t, configured, originalUrl, draws, replies, insert, now);
      && out.reply.shortCode == ""
      && out.reply.error.value in {NotConfigured, CodesExhausted, DatabaseSaveFailed, Unexpected}
      && out.table == t
      && (out.reply.error.value == NotConfigured <==> !configured)
  {
  }

  lemma CreateRemoteKeepsWellKeyed(t: Table, configured: bool, originalUrl: string, draws: seq<Draw>,
                                   replies: seq<DbOutcome>, insert: DbOutcome, now: int)
    requires EnoughDraws(draws) && |replies| > MaxAttempts
    requires WellKeyed(t)
    ensures WellKeyed(CreateRemote(t, configured, originalUrl, draws, replies, insert, now).table)
  {
    if CreateRemote(t, configured, originalUrl, draws, replies, insert, now).reply.error.None? {
      CreateRemoteSuccess(t, configured, originalUrl, draws, replies, insert, now);
    }
  }

  /** Round trip: the code of a successful creation resolves to the URL it was created for. */
  lemma RemoteRoundTrip(t: Table, configured: bool, originalUrl: string, draws: seq<Draw>,
                        replies: seq<DbOutcome>, insert: DbOutcome, now: int)
    requires EnoughDraws(draws) && |replies| > MaxAttempts
    requires CreateRemote(t, configured, originalUrl, draws, replies, insert, now).reply.error.None?
    ensures var out := CreateRemote(t, configured, originalUrl, draws, replies, insert, now);
      ResolveRemote(out.table, true, out.reply.shortCode, DbOk) == Found(originalUrl)
  {
    CreateRemoteSuccess(t, configured, originalUrl, draws, replies, insert, now);
  }

  /** Two successive successful creations hand out different codes. */
  lemma RemoteCodesDistinct(t: Table, url1: string, url2: string, draws1: seq<Draw>, draws2: seq<Draw>,
                            replies1: seq<DbOutcome>, replies2: seq<DbOutcome>, now1: int, now2: int)
    requires EnoughDraws(draws1) && EnoughDraws(draws2)
    requires |replies1| > MaxAttempts && |replies2| > MaxAttempts
    requires CreateRemote(t, true, url1, draws1, replies1, DbOk, now1).reply.error.None?
    requires var mid := CreateRemote(t, true, url1, draws1, replies1, DbOk, now1).table;
      CreateRemote(mid, true, url2, draws2, replies2, DbOk, now2).reply.error.None?
    ensures var first := CreateRemote(t, true, url1, draws1, replies1, DbOk, now1);
      CreateRemote(first.table, true, url2, draws2, replies2, DbOk, now2).reply.shortCode != first.reply.shortCode
  {
    var first := CreateRemote(t, true, url1, draws1, replies1, DbOk, now1);
    CreateRemoteSuccess(t, true, url1, draws1, replies1, DbOk, now1);
    CreateRemoteSuccess(first.table, true, url2, draws2, replies2, DbOk, now2);
  }

  /** The eleven checks see only the first 66 draws and the first eleven query outcomes. */
  lemma RemoteProbesUseElevenCodes(t: Table, d1: seq<Draw>, d2: seq<Draw>, r1: seq<DbOutcome>, r2: seq<DbOutcome>)
    requires EnoughDraws(d1) && EnoughDraws(d2) && |r1| > MaxAttempts && |r2| > MaxAttempts
    requires d1[..6 * (MaxAttempts + 1)] == d2[..6 * (MaxAttempts + 1)]
    requires r1[..MaxAttempts + 1] == r2[..MaxAttempts + 1]
    ensures RemoteProbes(t, d1, r1) == RemoteProbes(t, d2, r2)
  {
    forall k | 0 <= k <= MaxAttempts
      ensures Candidate(d1, k) == Candidate(d2, k) && r1[k] == r2[k]
    {
      CandidatesUseElevenCodes(d1, d2, k);
      assert r1[k] == r1[..MaxAttempts + 1][k];
    }
  }

  /**
   * A creation depends on the first 66 draws and the first eleven existence queries only:
   * no more than eleven codes are ever drawn and checked.
   */
  lemma CreateRemoteUsesElevenCodes(t: Table, configured: bool, originalUrl: string,
                                    d1: seq<Draw>, d2: seq<Draw>, r1: seq<DbOutcome>, r2: seq<DbOutcome>,
                                    insert: DbOutcome, now: int)
    requires EnoughDraws(d1) && EnoughDraws(d2) && |r1| > MaxAttempts && |r2| > MaxAttempts
    requires d1[..6 * (MaxAttempts + 1)] == d2[..6 * (MaxAttempts + 1)]
    requires r1[..MaxAttempts + 1] == r2[..MaxAttempts + 1]
    ensures CreateRemote(t, configured, originalUrl, d1, r1, insert, now)
         == CreateRemote(t, configured, originalUrl, d2, r2, insert, now)
  {
    RemoteProbesUseElevenCodes(t, d1, d2, r1, r2);
    var v := Allocate(RemoteProbes(t, d1, r1));
    if v.Picked? {
      CandidatesUseElevenCodes(d1, d2, v.index);
    }
  }

  /**
   * In a well-keyed table, looking a code up by key is the `short_code = code` query: a row
   * matches exactly when the code is a key, and the matching row is the one under that key.
   */
  lemma KeyedLookupIsColumnQuery(t: Table, code: string)
    requires WellKeyed(t)
    ensures code in t <==> exists c :: c in t && t[c].shortCode == code
    ensures forall c :: c in t && t[c].shortCode == code ==> c == code
  {
    if code in t {
      assert t[code].shortCode == code;
    }
  }

  /**
   * The retry loop of createShortUrlSupabase: draw, query, and re-draw while the query says
   * "taken" and fewer than ten retries have been made. The query is made again in the test
   * that ends the loop after the tenth retry; `probe` is the answer of the last query.
   */
  method DrawFreeCode(t: Table, draws: seq<Draw>, replies: seq<DbOutcome>)
    returns (shortCode: string, attempts: nat, probe: Probe)
    requires EnoughDraws(draws) && |replies| > MaxAttempts
    ensures attempts == Scan(RemoteProbes(t, draws, replies), 0)
    ensures shortCode == Candidate(draws, attempts)
    ensures probe == RemoteProbes(t, draws, replies)[attempts]
  {
    ghost var probes := RemoteProbes(t, draws, replies);
    shortCode := DrawCandidate(draws, 0);
    attempts := 0;
    probe := CheckShortCodeExists(t, true, shortCode, replies[0]);
    while probe == InUse && attempts < MaxAttempts
      invariant 0 <= attempts <= MaxAttempts
      invariant shortCode == Candidate(draws, attempts)
      invariant probe == probes[attempts]
      invariant forall j :: 0 <= j < attempts ==> probes[j] == InUse
      decreases MaxAttempts - attempts
    {
      shortCode := DrawCandidate(draws, attempts + 1);
      attempts := attempts + 1;
      probe := CheckShortCodeExists(t, true, shortCode, replies[attempts]);
    }
    ScanUnique(probes, 0, attempts);
  }

  /** The remote store: the field stands for the contents of the `urls` table. */
  class RemoteTable {
    var rows: Table

    ghost predicate Valid()
      reads this
    {
      WellKeyed(rows)
    }

    constructor ()
      ensures Valid() && rows == map[]
    {
      rows := map[];
    }

    /** createShortUrlSupabase: the retry loop over existence queries, then one insert. */
    method CreateShortUrl(configured: bool, originalUrl: string, draws: seq<Draw>,
                          replies: seq<DbOutcome>, insert: DbOutcome, now: int) returns (r: Created)
      requires Valid() && EnoughDraws(draws) && |replies| > MaxAttempts
      modifies this
      ensures Valid()
      ensures RemoteOutcome(r, rows) == CreateRemote(old(rows), configured, originalUrl, draws, replies, insert, now)
    {
      CreateRemoteKeepsWellKeyed(rows, configured, originalUrl, draws, replies, insert, now);
      if !configured {
        return Rejected(NotConfigured);
      }
      var shortCode, attempts, probe := DrawFreeCode(rows, draws, replies);
      CreateRemoteStopsAt(rows, originalUrl, draws, replies, insert, now, attempts);
      if probe == Threw {
        // the awaited check in the loop test threw; the catch block answers
        return Rejected(Unexpected);
      }
      if attempts >= MaxAttempts {
        return Rejected(CodesExhausted);
      }
      if insert == DbThrows {
        return Rejected(Unexpected);
      }
      if insert == DbError || shortCode in rows {
        return Rejected(DatabaseSaveFailed);
      }
      rows := rows[shortCode := NewRecord(shortCode, originalUrl, now)];
      r := Created(shortCode, None);
    }

    /** trackClickSupabase: bump the click count and the last-access time of one row; errors are swallowed. */
    method TrackClick(configured: bool, code: string, reply: DbOutcome, now: int)
      requires Valid()
      modifies this
      ensures Valid()
      ensures rows == Track(old(rows), configured, code, reply, now)
    {
      TrackKeepsWellKeyed(rows, configured, code, reply, now);
      if !configured {
        return;
      }
      if reply != DbOk {
        // an error object is ignored and a throw is caught: nothing reaches the caller
        return;
      }
      if code in rows {
        rows := rows[code := Clicked(rows[code], now)];
      }
    }
  }
}
