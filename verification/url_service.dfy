/**
 * The unified operations the pages call. Each picks a backend on the static
 * configuration flag (true when the remote endpoint and key are both set) and tags the
 * reply with `isLocal`. The two stores are separate objects: whichever backend is not
 * selected is left untouched.
 */
module UrlService {
  import opened Replies
  import opened ShortCode
  import opened Allocation
  import opened LocalBackend
  import opened RemoteBackend

  /** createShortUrl */
  method CreateShortUrl(configured: bool, local: LocalStore, remote: RemoteTable, originalUrl: string,
                        draws: seq<Draw>, readFails: bool, writeFails: bool,
                        replies: seq<DbOutcome>, insert: DbOutcome, now: int)
    returns (r: Tagged<Created>)
    requires remote.Valid() && EnoughDraws(draws) && |replies| > MaxAttempts
    modifies local, remote
    ensures remote.Valid()
    ensures r.isLocal == !configured
    ensures configured ==> unchanged(local)
    ensures configured ==>
      RemoteOutcome(r.result, remote.rows) == CreateRemote(old(remote.rows), true, originalUrl, draws, replies, insert, now)
    ensures !configured ==> unchanged(remote)
    ensures !configured ==>
      LocalOutcome(r.result, local.saved) == CreateLocal(old(local.saved), originalUrl, draws, readFails, writeFails)
  {
    if configured {
      var result := remote.CreateShortUrl(configured, originalUrl, draws, replies, insert, now);
      r := Tagged(result, false);
    } else {
      var result := local.CreateShortUrl(originalUrl, draws, readFails, writeFails);
      r := Tagged(result, true);
    }
  }

  /** getOriginalUrl */
  function GetOriginalUrl(configured: bool, local: LocalStore, remote: RemoteTable, code: string,
                          readFails: bool, reply: DbOutcome): (r: Tagged<Lookup>)
    reads local, remote
    ensures r.isLocal == !configured
    ensures r.result.Found? <==>
      if configured then reply == DbOk && code in remote.rows
      else !readFails && local.saved.Some? && Occupied(local.saved.value, code)
    ensures r.result.Found? ==>
      r.result.url == if configured then remote.rows[code].originalUrl else local.saved.value[code]
    ensures r.result.Missing? ==>
      r.result.error == if (configured && reply == DbThrows) || (!configured && readFails) then RetrieveFailed
                        else NotFound
  {
    if configured then Tagged(ResolveRemote(remote.rows, configured, code, reply), false)
    else Tagged(ResolveLocal(local.saved, code, readFails), true)
  }

  /** trackClick: only the remote backend records visits. */
  method TrackClick(configured: bool, remote: RemoteTable, code: string, reply: DbOutcome, now: int)
    requires remote.Valid()
    modifies remote
    ensures remote.Valid()
    ensures configured ==> remote.rows == Track(old(remote.rows), true, code, reply, now)
    ensures !configured ==> unchanged(remote)
  {
    if configured {
      remote.TrackClick(configured, code, reply, now);
    }
  }

  /**
   * Shorten a URL, then visit it as the redirect page does (resolve the code and record the
   * visit, however that call goes), then resolve it again as a later visit would. When creation
   * succeeds, both resolutions give back the URL, for any non-empty URL locally and any URL remotely.
   */
  method ShortenThenVisit(configured: bool, local: LocalStore, remote: RemoteTable, originalUrl: string,
                          draws: seq<Draw>, replies: seq<DbOutcome>, trackReply: DbOutcome,
                          created: int, visited: int)
    returns (r: Tagged<Created>, first: Tagged<Lookup>, second: Tagged<Lookup>)
    requires remote.Valid() && EnoughDraws(draws) && |replies| > MaxAttempts
    modifies local, remote
    ensures r.result.error.None? && (configured || originalUrl != "") ==>
      first.result == Found(originalUrl) && second.result == Found(originalUrl)
  {
    r := CreateShortUrl(configured, local, remote, originalUrl, draws, false, false, replies, DbOk, created);
    var code := r.result.shortCode;
    if r.result.error.None? {
      if configured {
        RemoteRoundTrip(old(remote.rows), true, originalUrl, draws, replies, DbOk, created);
      } else if originalUrl != "" {
        LocalRoundTrip(old(local.saved), originalUrl, draws, false, false);
      }
    }
    first := GetOriginalUrl(configured, local, remote, code, false, DbOk);
    ghost var before := remote.rows;
    TrackClick(configured, remote, code, trackReply, visited);
    if configured {
      TrackKeepsResolution(before, true, code, trackReply, visited, true, code, DbOk);
    }
    second := GetOriginalUrl(configured, local, remote, code, false, DbOk);
  }
}
