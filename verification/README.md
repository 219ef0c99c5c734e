# Shorty URL service: a Dafny model of code allocation, lookup and click tracking

This project models the core of the URL shortener in `lib/url-service.ts`. That core does four things:

- It generates 6-character short codes from a 62-symbol alphabet.
- It gates URLs on their scheme prefix.
- It allocates codes with a bounded retry-with-rejection loop.
- It stores and resolves codes in one of two backends: a remote table (Supabase) or a local dictionary saved in the browser's storage.

Both backends sit behind unified dispatch functions. These choose a backend on a static configuration flag and tag each reply with `isLocal`.

Modules, one per part of the source file:

- `Replies` (`replies.dfy`): the reply shapes `{ shortCode, error? }` and `{ url } | { error }`, the error texts, and the three outcomes of a remote call (answered, answered with an error object, threw).
- `ShortCode` (`short_code.dfy`): the alphabet, the generator `GenerateShortCode` (a `for` loop over six draws), and `IsValidUrl`.
- `Allocation` (`allocation.dfy`): the semantics of the retry loop. Each uniqueness check is a `Probe` (free, taken, threw). `Scan` and `Allocate` say where the loop stops.
- `LocalBackend` (`local_backend.dfy`): the local dictionary, as a `LocalStore` class with one `saved` field. `CreateLocal` and `ResolveLocal` are pure specifications, and lemmas are proved about them.
- `RemoteBackend` (`remote_backend.dfy`): the `urls` table, as a `RemoteTable` class holding a map keyed by short code. `CreateRemote`, `ResolveRemote` and `Track` are its specifications.
- `UrlService` (`url_service.dfy`): the dispatchers, plus `ShortenThenVisit`: shorten a URL, visit it as the redirect page does (resolve, then record the visit), then resolve it again as a later visit would.

## How the outside world is represented

- `Math.random()` is replaced by a sequence of draws. Each draw is an integer in `[0, 62)`, the index `Math.floor(Math.random() * 62)` yields. Candidate `k` uses draws `6k` to `6k+5`.
- The retry loop can draw eleven candidates, so the methods need 66 draws.
- Each remote call's outcome is a parameter: `DbOk`, `DbError` (the client returned an error object) or `DbThrows` (the awaited call threw). The existence checks take one outcome per candidate. The insert, the lookup and the tracking update take one each.
- The clock (`new Date()`, the insert-time default of `created_at`) is an integer parameter `now`.
- Local storage is modelled by its parsed content. `saved == None` means no blob is stored.
- Local storage exceptions are two flags. `readFails` covers `getItem` or `JSON.parse` throwing. `writeFails` covers `setItem` throwing.
- The model assumes a unique index on `short_code`; the type in lib/supabase.ts:12-19 does not show one. The table is a map keyed by code, and an insert of a code already present is refused. `DuplicateInsertRefused` and `RemoteCodesDistinct` rest on this assumption.
- The model assumes the column defaults of the `urls` table: a new row gets `click_count` 0, `last_accessed` null and `created_at` equal to the insert time `now`. The insert at lib/url-service.ts:50-57 sends only `short_code` and `original_url`, and lib/supabase.ts:12-19 is only a type. `NewRecord` and `CreateRemoteSuccess` rest on this assumption.
- The configuration flag `isSupabaseConfigured` (lib/supabase.ts:7) is a `configured: bool` parameter.

## Behaviour the model pins down

- **The loop's exact bound.** The existence check runs in every loop test, including the test after the tenth retry. So eleven candidates are drawn and checked, but only the first ten can ever be used.
  - Locally, allocation gives up exactly when the first ten candidates are all occupied (`CreateLocalExhaustedIff`).
  - Remotely, the eleventh check still matters: if it throws, the reply is "An unexpected error occurred" instead of "Failed to generate unique short code" (`CreateRemoteExhaustedIff`, `EleventhCheckCanThrow`).
- **Truthiness in the local backend.** A key mapped to `""` counts as absent, both in the retry loop and in the lookup. Storing the empty URL therefore leaves its code free to be handed out again (`LocalEmptyUrlCodeReused`). The page only passes URLs accepted by `IsValidUrl`, and those are never empty (`ValidUrlNeedsHttp`).
- **The remote existence check fails open.** An error object reads as "free". A taken code can then reach the insert, which the unique index refuses: the reply is "Failed to save URL to database", and the row is not overwritten (`DuplicateInsertRefused`).
- **Remote lookups do not test the URL's truthiness.** A row whose URL is `""` resolves to `{ url: "" }`.

## Model

| member | source | states |
|---|---|---|
| Replies.MessagesDistinct | lib/url-service.ts:31-165 | the seven error texts are pairwise different, so each failure is told apart by its text |
| ShortCode.AlphabetIsAlphanumeric | lib/url-service.ts:5 | the alphabet has 62 symbols, each in A-Z, a-z or 0-9 |
| ShortCode.Spell | lib/url-service.ts:6-9 | the string built from a sequence of draws has one character per draw, the alphabet symbol at that index |
| ShortCode.GenerateShortCode | lib/url-service.ts:4-11 | the loop builds exactly the characters the six draws select; the code has length 6 and only A-Z, a-z, 0-9 |
| ShortCode.IsValidUrl | lib/url-service.ts:14-16 | the scheme test; its contract is carried by ValidUrlAcceptsAnyRest, ValidUrlHasScheme and ValidUrlNeedsHttp |
| ShortCode.ValidUrlAcceptsAnyRest | lib/url-service.ts:14-16 | every string beginning with "http://" or "https://" is accepted, whatever follows |
| ShortCode.ValidUrlHasScheme | lib/url-service.ts:14-16 | every accepted string is "http://" or "https://" followed by the rest of it |
| ShortCode.ValidUrlNeedsHttp | lib/url-service.ts:14-16 | an accepted URL is at least 7 characters long and starts with "http", so "" and "ftp://..." are rejected |
| ShortCode.ValidUrlExamples | lib/url-service.ts:14-16 | "" and "ftp://x" are rejected; "http://x" and "https://x" are accepted |
| Allocation.DrawCandidate | lib/url-service.ts:36-41 | one generateShortCode call inside the loop (lines 36 and 41, likewise 123 and 128) yields exactly the k-th candidate |
| Allocation.CandidateIsShortCode | lib/url-service.ts:36-41 | every candidate the loop can draw is a well-formed 6-character alphanumeric code |
| Allocation.CandidatesUseElevenCodes | lib/url-service.ts:36-43 | each of the eleven candidates is determined by the first 66 draws alone |
| Allocation.Scan | lib/url-service.ts:40-43 | the loop stops at the first attempt whose check is not "taken", or at 10; every earlier check said "taken" |
| Allocation.ScanUnique | lib/url-service.ts:40-43 | the stopping point is determined by those two conditions |
| Allocation.Allocate | lib/url-service.ts:40-47 | a picked candidate is one of the first ten, its check said "free" and all earlier ones said "taken"; exhaustion means ten collisions; abortion means some check threw |
| Allocation.ExhaustedIff | lib/url-service.ts:40-47 | the loop gives up iff the first ten checks say "taken" and the eleventh does not throw |
| Allocation.PickedIff | lib/url-service.ts:40-47 | candidate k is used iff k < 10, its check says "free" and all earlier checks say "taken" |
| Allocation.AbortsOnThrow | lib/url-service.ts:40 | a check that throws before any free candidate ends the loop with the exception |
| Allocation.NoThrowNoAbort | lib/url-service.ts:127 | with checks that cannot throw, the loop either picks a candidate or gives up |
| LocalBackend.CreateLocal | lib/url-service.ts:117-145 | createShortUrlLocal as a function; its contract is carried by CreateLocalSucceedsIff, CreateLocalSuccess, CreateLocalFailure and CreateLocalExhaustedIff |
| LocalBackend.CandidateIsNotInherited | lib/url-service.ts:127 | no candidate code is a name inherited from Object.prototype, so the loop's `urlMappings[shortCode]` only meets own keys |
| LocalBackend.DrawFreeCode | lib/url-service.ts:123-130 | the while loop ends on the attempt Scan predicts, holding that attempt's candidate |
| LocalBackend.ResolveLocal | lib/url-service.ts:148-167 | found iff storage reads, a blob exists and the key maps to a non-empty URL, which is returned; otherwise "Short URL not found", or "Failed to retrieve URL" when storage throws |
| LocalBackend.CreateLocalExhaustedIff | lib/url-service.ts:123-134 | "Failed to generate unique short code" iff storage reads and the first ten candidates are all occupied |
| LocalBackend.CreateLocalSuccess | lib/url-service.ts:127-140 | on success: storage worked; the code is well formed, one of the first ten candidates, previously absent or "", every earlier candidate occupied; the map now sends it to the URL; every other entry is unchanged |
| LocalBackend.CreateLocalSucceedsIff | lib/url-service.ts:117-145 | success iff reading and writing work and some one of the first ten candidates is free |
| LocalBackend.CreateLocalFailure | lib/url-service.ts:132-134 | on failure: the code is "", the error is the exhaustion or the local-save error, and the saved mapping is unchanged |
| LocalBackend.LocalRoundTrip | lib/url-service.ts:137-162 | after a successful creation of a non-empty URL, looking the code up returns that URL |
| LocalBackend.LocalOtherCodesUnaffected | lib/url-service.ts:137 | a creation leaves the lookup of every other code as it was |
| LocalBackend.LocalCodesDistinct | lib/url-service.ts:127-137 | two successive successful creations, the first of a non-empty URL, return different codes |
| LocalBackend.LocalEmptyUrlCodeReused | lib/url-service.ts:127-137 | for any store and draws: after "" is stored successfully, a creation of any URL with the same draws succeeds and hands out the same code again |
| LocalBackend.CreateLocalUsesElevenCodes | lib/url-service.ts:122-130 | two draw sequences that agree on their first 66 draws give the same reply and the same saved mapping: at most eleven codes are drawn |
| LocalBackend.LocalStore.constructor | lib/url-service.ts:119-120 | a new store holds no saved mapping |
| LocalBackend.LocalStore.CreateShortUrl | lib/url-service.ts:117-145 | the reply and the new saved mapping are exactly those CreateLocal gives for the old mapping |
| RemoteBackend.CheckShortCodeExists | lib/url-service.ts:21-26 | "taken" only when configured and the row exists; throws iff configured and the query throws; an error object or a missing configuration reads as "free" |
| RemoteBackend.NewRecord | lib/url-service.ts:50-57 | the inserted row: the code and the URL, with the assumed column defaults (created now, zero clicks, no last access); used by CreateRemoteSuccess |
| RemoteBackend.CreateRemote | lib/url-service.ts:29-71 | createShortUrlSupabase as a function; its contract is carried by CreateRemoteSucceedsIff, CreateRemoteSuccess, CreateRemoteFailure, CreateRemoteExhaustedIff and EleventhCheckCanThrow |
| RemoteBackend.DrawFreeCode | lib/url-service.ts:36-43 | the while loop, with the query in its test, ends on the attempt Scan predicts, holding that candidate and that query's answer |
| RemoteBackend.ResolveRemote | lib/url-service.ts:74-91 | found iff configured, the query answers and the row exists, and then the row's URL is returned; otherwise the not-configured, not-found or retrieve error |
| RemoteBackend.Clicked | lib/url-service.ts:100-103 | the update of one row: one more click and last access now; its contract is carried by Track |
| RemoteBackend.Track | lib/url-service.ts:94-108 | on a successful update of an existing row, its click count rises by exactly 1 and its last access becomes now, other fields and rows unchanged; otherwise nothing changes |
| RemoteBackend.TrackKeepsResolution | lib/url-service.ts:94-108 | recording a visit, whether or not it succeeds, changes no code's resolution |
| RemoteBackend.TrackKeepsWellKeyed | lib/url-service.ts:98-104 | recording a visit keeps each row under its own code |
| RemoteBackend.CreateRemoteExhaustedIff | lib/url-service.ts:36-47 | "Failed to generate unique short code" iff configured, the first ten candidates are all reported taken, and the eleventh check does not throw |
| RemoteBackend.EleventhCheckCanThrow | lib/url-service.ts:40-47 | after ten collisions, a throwing eleventh check yields "An unexpected error occurred" |
| RemoteBackend.DuplicateInsertRefused | lib/url-service.ts:24-25 | a check that errors lets a taken code through, and the insert is then refused with "Failed to save URL to database" |
| RemoteBackend.CreateRemoteSuccess | lib/url-service.ts:36-66 | on success: configured, insert answered, the code is well formed and is the first of the first ten candidates not reported taken (every earlier check answered "taken"), not previously in the table; exactly one row is added, with the URL and the assumed column defaults; every other row is unchanged |
| RemoteBackend.RemoteProbeMeaning | lib/url-service.ts:21-26 | a configured check on candidate k reports "taken" iff its query answers and the row exists, and throws iff its query throws |
| RemoteBackend.CreateRemoteUsedFirstUntaken | lib/url-service.ts:36-66 | a successful creation was configured, its insert answered, and the candidate where the loop stopped is one of the first ten, absent, answered without throwing, and every earlier candidate was reported taken |
| RemoteBackend.CreateRemoteSucceedsAt | lib/url-service.ts:36-66 | a configured creation whose insert answers succeeds with candidate k when k is one of the first ten, absent, answered without throwing, and every earlier candidate was reported taken |
| RemoteBackend.CreateRemoteSucceedsIff | lib/url-service.ts:29-71 | success iff configured, the insert answers, and some one of the first ten candidates is absent and answered without throwing after every earlier one was reported taken |
| RemoteBackend.CreateRemoteFailure | lib/url-service.ts:29-70 | on failure: the code is "", the table is unchanged, the error is one of the four remote errors, and it is "Supabase not configured" iff unconfigured |
| RemoteBackend.CreateRemoteKeepsWellKeyed | lib/url-service.ts:50-59 | creation keeps each row under its own code |
| RemoteBackend.RemoteRoundTrip | lib/url-service.ts:66-86 | after a successful creation, looking the code up returns the URL it was created for |
| RemoteBackend.CreateRemoteUsesElevenCodes | lib/url-service.ts:36-43 | draws agreeing on their first 66 entries and query outcomes agreeing on their first eleven give the same reply and table: at most eleven codes are drawn and checked |
| RemoteBackend.KeyedLookupIsColumnQuery | lib/url-service.ts:80 | in a well-keyed table, a row has short_code equal to the code exactly when the code is a key, and only the row under that key matches |
| RemoteBackend.RemoteCodesDistinct | lib/url-service.ts:36-59 | two successive successful creations return different codes |
| RemoteBackend.RemoteTable.constructor | lib/supabase.ts:12-19 | a new table is empty and well keyed |
| RemoteBackend.RemoteTable.CreateShortUrl | lib/url-service.ts:29-71 | the reply and the new table are exactly those CreateRemote gives for the old table; the table stays well keyed |
| RemoteBackend.RemoteTable.TrackClick | lib/url-service.ts:94-108 | the new table is Track of the old one; no error reaches the caller |
| UrlService.CreateShortUrl | lib/url-service.ts:172-182 | configured: the remote reply tagged isLocal false, local store untouched; otherwise the local reply tagged isLocal true, remote table untouched |
| UrlService.GetOriginalUrl | lib/url-service.ts:185-195 | found iff the selected backend has a usable mapping, which is returned; otherwise "Failed to retrieve URL" when the selected backend's read throws and "Short URL not found" in every other case; tagged isLocal exactly when unconfigured |
| UrlService.TrackClick | lib/url-service.ts:198-203 | configured: the remote tracking update; unconfigured: nothing changes |
| UrlService.ShortenThenVisit | lib/url-service.ts:172-203 | after a successful creation, resolving the code returns the URL both before and after the visit is tracked (locally for any non-empty URL) |

## Left out

- The Supabase client and query builder are replaced by a map and the outcome of each call. The `supabase.raw("click_count + 1")` update is taken to be an atomic increment.
- The generated `id` column and the ISO text form of timestamps are not modelled. Timestamps are integers supplied by the caller.
- `localStorage` and JSON parsing are replaced by the parsed dictionary. Values that are not strings, and a corrupt blob other than a read that throws, are not modelled.
- `Math.random` and its floating-point scaling are replaced by the supplied draws. Uniformity is not modelled.
- async/await is not modelled: every awaited call is treated as a plain call that completes before the next one starts. Races between concurrent callers (check-then-insert, lost click updates) are not modelled.
- `console.error` logging is not modelled.
- The UI pages, `lib/utils.ts` and `getUrlStats` are not part of this model. `getUrlStats` is imported at components/debug-panel.tsx:9 but is not defined in lib/url-service.ts.
- Namespace isolation in its strong form (a locally created code is never found remotely) is not stated, because a code can exist in both stores. What is proved is that an operation on one backend leaves the other store untouched.
- ResolveLocal: keys inherited from `Object.prototype` are not modelled. The parsed blob is a plain object, so `urlMappings["constructor"]` (likewise `toString`, `valueOf`, `__proto__` and the other names in `InheritedNames`) finds a truthy inherited member, and the source answers with it as the URL. The model looks up own keys only and answers "Short URL not found". Creation is unaffected, because no candidate code is such a name (`CandidateIsNotInherited`).
- GetOriginalUrl: its local half inherits the own-key lookup of ResolveLocal, so a code such as "constructor" is found by the source and missing in the model.
