# Verified model of the OpenAI proxy's accounting

The proxy issues API keys, checks each request against a rate limit and a quota,
forwards it with the real upstream key, and books what the response reports.
Postgres is authoritative and Redis is a hot copy, so what matters is what holds when
requests, cache fills, admin writes and replicas interleave. This project models those
parts in Dafny and proves it, for every input and every interleaving.

`dafny verify dfyconfig.toml` checks the whole project.

## How the program is modelled

- **Protocols** (quota ledger, verify cache, upstream rotation, migrations) are state
  machines. One Postgres statement or one Redis command is one atomic step; a
  transaction is split where the property is about overlapping transactions. A run is
  any sequence of enabled steps of any number of requests or replicas, and the main
  theorems speak of the final state of every run.
- **Sequential code that updates state** is a class or a method with a loop
  (`KeyService.Service`, `RateLimiter.Limiter`, `TailBuffer.Tail`, `UpstreamStore.Store`,
  `Migrations.Database`, `Pricing.Lookup`, `SseUsage.ParseSSEUsage`,
  `RequestBody.PrepareBody`), proved against a function or a property.
- **Inputs from outside** are parameters: the clock, randomness, the upstream's
  response, Redis and Postgres failures (as steps), Argon2id, AES-GCM, HMAC, JSON
  decoding and encoding (as function values with only the law a proof needs).
- **Numbers**: tokens are integers; a NUMERIC(14,8) column is a whole number of 10^-8
  dollars, any other dollar amount an exact real; times are integers in nanoseconds.
- **History variables** (`errTok`, `errCost`, `commits`, `filled`, `mark`, `commitNo`,
  `tokIn`, `costIn`, `recorded`, `seen`, `rowsSeen`, `log`) are written by steps and never
  guard one.

## Findings

- A cache fill that overlaps `AddUsage` leaves a permanent error in the Redis counter.
  `QuotaGap` gives its exact value. The counter is not behind the database, usages about to
  reach it apart, if and only if no `Set` writes a total to which more has been added than is
  on its way, no `IncrBy` meets a lost counter and no `IncrBy` that the counter needs fails
  (`QuotaGap.SoundExactlyWhenNothingIsLost`); then Q - 1 + C*M holds from a cold start, losses
  and failures included (`QuotaBound.OvershootBoundUnlessLost`). `ColdStart` builds a run, free
  of backend errors, in which a fill does wipe out usages and the bound is passed; without
  losses and failures (C + 1) * (Q - 1 + C*M) holds all the same (`ColdBound`), unless the
  upstream reports negative counts, with which no such bound holds (`NegativeCounts`).
- When Redis drops `qt:tok:*` while a usage waits for its `IncrBy`, the counter restarts
  from that usage alone. A loss that is refilled first does no harm; repeated losses before
  `IncrBy` take a fresh key to any total at all, one request and one token at a time
  (`LostCounter.LostCountersUnbounded`).
- `AddUsage` ignores the error of its `IncrBy`. While they keep failing and the counter is
  not refilled, the key is served without bound (`LostCounter.FailedIncrementsUnbounded`).
- `Delete` looks up the prefix to invalidate after the row is gone, so it invalidates
  nothing: cached `Verify` agrees with the database exactly when it does not hit a
  deleted key's entry (`KeyService.CachedVerifyAgrees`), and a key verified just before
  its deletion is accepted after it (`KeyService.DeletedKeyStillAccepted`).
- After the `DEL` that follows an Update or a deactivation the key is never again accepted
  with an outdated row exactly when no `Verify` still holds one that it read before
  (`VerifyRevocation.WriteTakesHold`, `VerifyRevocation.RevocationTakesHold`); such a `Verify`
  can write the old row back after the `DEL`, and later calls accept it until the entry
  expires (`VerifyRevocation.RaceHappens`, `VerifyRevocation.RaceRevivesKey`).
- When no line after it sets the same attribute, the truncated first line of the
  capture window can be read as a usage line that the stream does not contain
  (`SseUsage.TruncatedLineCanForgeUsage`); `SseUsage.WindowAgreesExactly` says
  exactly when window and stream agree.
- The rate limiter is exact if and only if no counter lapses inside its minute or the
  calls stay within the limit (`RateLimiter.ExactUnlessLapsed`). The 70 s expiry tolerates a
  spread of clock skew plus delay of 10 s, and of no more than a nanosecond above it
  (`RateLimiter.TenSecondsIsSharp`).
- The ledger skips a response with no positive count. If its counts are negative it is
  recorded all the same: with its tokens, and with the cost that a negative cached count has
  unless the model bills cached and uncached input alike (`Pricing.NoTokensNoCost`). Records
  and totals then differ for good (`LedgerConservation.UnaccountedUsageUnbalances`).
  Conservation asks exactly for the responses for which that cannot happen, and
  `LedgerConservation.ExactLedger` says what holds without that.

## Model

| member | source | states |
|---|---|---|
| QuotaGap.ExactCacheGap | internal/keys/keys.go:319-371 | from a fresh key, after any interleaving of any number of requests, fills, counter losses and failed increments, Redis tokens + usages committed but not yet IncrBy'd = database tokens + errTok |
| QuotaGap.OnlyFillsChangeTheGap | internal/keys/keys.go:355-371 | only a fill's Set and a loss change the gap; a Set makes it (usages committed before its SELECT and not yet IncrBy'd) minus (usages committed after its SELECT and already IncrBy'd), a loss minus all that were IncrBy'd |
| QuotaGap.GapStep | internal/keys/keys.go:319-336 | every step of every request keeps the gap equation and what each pending fill has read |
| QuotaGap.SoundReads | internal/keys/keys.go:300-317 | a counter is sound exactly when, for every quota, a read below it bounds the database total by that quota and what is about to be IncrBy'd |
| QuotaGap.SoundStep | internal/keys/keys.go:333-370 | a step keeps the counter sound exactly when it is none of: a Set of a total to which more has been added than is on its way, an IncrBy that meets a lost counter, a failed IncrBy that the counter needs; the loss itself does no harm |
| QuotaGap.SoundExactlyWhenNothingIsLost | internal/keys/keys.go:319-371 | over every run, with any losses and failed increments, the counter is sound at every point if and only if no Set, no IncrBy and no failing IncrBy of the run meets its guard |
| LostCounter.LostCountersUnbounded | internal/keys/keys.go:333-362 | from a fresh key with any quota of at least 2, one request at a time and one token each, counters dropped before their IncrBy let the database total reach every number; any total above the quota needs a guard to fire |
| LostCounter.FailedIncrementsUnbounded | internal/keys/keys.go:333 | the same for every quota when nothing is dropped and the IncrBys fail |
| QuotaBound.OvershootBound | internal/keys/keys.go:300-336 | from a fresh key or any state within the bound, with at most C requests between quota read and token increment, each of at most M tokens, and no failing SELECT, the database total never exceeds Q - 1 + C*M + D; Q is the largest quota of any request, D bounds how far the counter, when it is there, is behind |
| QuotaBound.OvershootBoundUnlessLost | internal/keys/keys.go:300-371 | from a fresh key with cold counters, with fills, losses and failed increments, the bound is Q - 1 + C*M when no Set, IncrBy or failing IncrBy meets its guard |
| ColdBound.ColdOvershootBound | internal/keys/keys.go:300-371 | without counter loss, failed IncrBys and failed SELECTs, and with token counts that are not negative, whatever fills overlap AddUsage and however Redis reads fail, the total never exceeds (C + 1) * (Q - 1 + C*M) |
| NegativeCounts.NegativeCountsUnbounded | internal/keys/keys.go:355-371 | with negative counts no such bound holds: two requests in the window, at most one token each and no failure reach every total |
| ColdBound.LevelsStep | internal/keys/keys.go:355-371 | under the same hypotheses every step keeps the total, and how far the counter is behind, under ceilings that rise by Q - 1 + C*M for each Set of a fill that read below the quota |
| DollarBound.DollarOvershootBound | internal/keys/keys.go:300-336 | over every interleaving from a fresh key, losses and failed increments included, the database cost never exceeds the largest dollar quota plus C*(M + 5e-9) plus the drift bound when no SELECT fails and no Set, IncrByFloat or failing IncrByFloat meets its guard |
| DollarBound.CostSoundStep | internal/keys/keys.go:334-370 | a step keeps the database cost within the counter, what is about to be added and the drift, exactly when no Set, IncrByFloat or failing IncrByFloat meets its guard |
| QuotaBound.WarmOvershootBound | internal/proxy/proxy.go:75-115 | from any warmed state within the bound, with a working Redis, the bound is Q - 1 + C*M, and Q - 1 + M one request at a time, over any run |
| Schedule.QuietFillWarms | internal/keys/keys.go:355-371 | one undisturbed fill of a fresh key reaches such a warmed state |
| QuotaBound.BoundStep | internal/keys/keys.go:300-336 | every step keeps the database total plus M for every admitted, uncommitted request within the bound |
| ColdStart.ColdStartExceedsWarmBound | internal/keys/keys.go:355-371 | a run without any error from a fresh key with cold counters that exceeds Q - 1 + C*M |
| CostDrift.CostDriftBound | internal/keys/keys.go:319-371 | over every interleaving, losses and failed increments included, Redis cost + cost not yet added differs from database cost + errCost by at most 5e-7 once filled plus 5e-9 per usage |
| CostDrift.SequentialCostDrift | internal/keys/keys.go:300-336 | in non-overlapping runs the Redis cost is within that bound of the database cost, and whether the next request is let through by the counters differs from what the database cost says only when that cost is that close to the dollar quota |
| CostDrift.FillDrift | internal/keys/keys.go:363-370 | a fill leaves, besides errCost, one six-decimal rounding and one eight-decimal rounding per usage |
| CostDrift.UpsertDrift | internal/keys/keys.go:323-330 | a commit adds at most one eight-decimal rounding to the drift |
| RequestFlow.PathExactly | internal/proxy/proxy.go:64-116 | what a request can do next at each point of ServeHTTP, checkLimits, AllowQuota and AddUsage, failures included, and nothing else |
| RequestFlow.OtherActions | internal/store/migrations/001_init.up.sql:18-43 | Redis may drop a counter at any time; a deletion empties both tables with the key |
| RequestFlow.DecisionFromCounters | internal/keys/keys.go:300-317 | a request that finds both counters is forwarded if and only if the tokens are below its token quota, or it has none, and the cost below its dollar quota, or it has none; else it is refused |
| RequestFlow.DecisionFromDatabase | internal/keys/keys.go:355-371 | a request that misses a counter is decided the same way by the totals in the database, and sets both counters to them |
| RequestFlow.HowRequestsBegin | internal/proxy/proxy.go:127-148 | a request refused by the rate limiter goes to its record, one without quotas is forwarded unseen, any other asks for the totals, and a failed SELECT lets it through |
| RequestFlow.RefusalIsRecorded | internal/proxy/proxy.go:131-145 | a refused request leaves one record without charge and changes nothing else |
| RequestFlow.ChargeIsPriced | internal/proxy/proxy.go:101-110 | a response is charged its input plus output tokens and, per million, input not from the cache at the input rate, cached input at the cached rate if there is one, output at the output rate; nothing for an unknown model |
| RequestFlow.OneRequestIsBooked | internal/proxy/proxy.go:106-115 | one request from a fresh key leaves exactly its tokens and its price, rounded to the column, in quota_totals and in one usage record, and unrounded in the counters |
| RequestFlow.OtherEffects | internal/proxy/proxy.go:75-115 | an unreachable upstream, an aborted request and every failed statement move their request on and change nothing else |
| Money.ToUnitsIsNearest | internal/store/migrations/002_widen_money_precision.up.sql:1-3 | the stored money value is within half a unit of 10^-8 dollars |
| Money.ToUnitsExactly | internal/store/migrations/002_widen_money_precision.up.sql:1-3 | a whole number of units is stored as it is and halves go away from zero |
| Money.Round6IsNearest | internal/keys/keys.go:369 | the text of a filled cost is within half of 10^-6 dollars |
| Money.Round6Exactly | internal/keys/keys.go:369 | six decimals are printed as they are and halves go to the even one |
| LedgerConservation.ExactLedger | internal/proxy/proxy.go:91-145 | at every reachable state of a key that exists, whatever fails and whatever counts are reported, the totals are the sums over the records plus what was added and not recorded minus what was recorded and not added |
| LedgerConservation.LedgerIsConserved | internal/proxy/proxy.go:91-145 | without database errors and with accounted responses, at every reachable state quota_totals tokens and cost equal the sums over usage_records plus requests between AddUsage and record; after a deletion both sides are empty |
| LedgerConservation.QuietLedgerBalances | internal/keys/keys.go:319-353 | when every request is done the totals are exactly the sums over the records |
| LedgerConservation.SkippedUsageIsFree | internal/proxy/proxy.go:106-115 | a response is added to the totals or worth nothing if and only if it is accounted: some count is positive, or it has no tokens and its cost rounds to nothing; counts that are not negative always are |
| LedgerConservation.DeletedStep | internal/store/migrations/001_init.up.sql:18-43 | once the key is deleted no later step of a pending request leaves anything in either table |
| LedgerConservation.UnaccountedUsageUnbalances | internal/proxy/proxy.go:101-115 | a skipped response leaves the records ahead of the totals by exactly its tokens and rounded cost, and they agree if and only if it is accounted |
| Pricing.Lookup | internal/pricing/pricing.go:69-81 | the loop returns the entry of the longest configured candidate among the full id and its non-empty prefixes ending before a dash, and none exactly when no candidate is configured |
| Pricing.LongestMatchUnique | internal/pricing/pricing.go:69-81 | the longest match is unique |
| Pricing.CostBillsEveryInputToken | internal/pricing/pricing.go:48-67 | every input token is billed once, min(cached, input) of them at the cached rate |
| Pricing.NoTokensNoCost | internal/pricing/pricing.go:51-67 | no input and output tokens cost nothing if and only if the cached count is not negative or the cached rate is absent or equals the input rate |
| KeyHash.HashRoundTrip | internal/keys/hash.go:22-46 | a stored hash accepts its own plaintext, and another exactly when Argon2id collides on it |
| KeyHash.HashForm | internal/keys/hash.go:22-29 | what is stored is the scheme, the salt and a sum of 32 bytes, in hex between dollar signs |
| KeyHash.VerifyHashExactly | internal/keys/hash.go:32-46 | a plaintext matches a stored text if and only if that is the scheme, a salt and a sum in hex between dollar signs and the sum is Argon2id's of plaintext and salt |
| KeyHash.HexDecodeExactly | internal/keys/hash.go:37-44 | hex decodes exactly pairs of digits, the first of each pair the higher half |
| KeyModel.LookupMeans | internal/keys/keys.go:159-177 | the lookup returns the key of the row whose prefix column is the start of the plaintext and whose hash it matches; not found if and only if there is no row with that start |
| KeyModel.ValidateJudges | internal/keys/keys.go:406-416 | no error if and only if the key is active and not past its expiry, inactive if and only if it is not active, expired if and only if it is active and past |
| KeyService.CachedVerifyAgrees | internal/keys/keys.go:145-178 | on a coherent cache, Verify gives the outcome and key of the database lookup, last use apart, exactly when it does not hit the entry of a deleted key |
| KeyService.CachedVerifyRefinesUncached | internal/keys/keys.go:108-182 | after any non-overlapping run of Issue, Verify, Update, SetActive and TouchLastUsed, Verify agrees with the database lookup for every plaintext |
| KeyService.CoherentStep | internal/keys/keys.go:225-263 | every call keeps the cache coherent with the rows |
| KeyService.WritesTakeEffectAtOnce | internal/keys/keys.go:225-263 | after Update or SetActive the next Verify answers with the new row, whatever was cached |
| KeyService.DeletedKeyStillAccepted | internal/keys/keys.go:237-247 | a key verified just before its deletion is still accepted after it, while the database answers not found |
| KeyService.IssuedKeyIsFound | internal/keys/keys.go:108-143 | a key just issued is found by its own plaintext with the parameters it was issued with, and by another of its prefix exactly when Argon2id collides |
| KeyService.IssuedKeyVerifies | internal/keys/keys.go:108-178 | through the cache too a key just issued verifies, exactly when the cache does not hold its plaintext for a deleted key |
| KeyService.Service.VerifyKey | internal/keys/keys.go:145-178 | the answer agrees with the database exactly when no deleted key's entry is hit; a key comes with no error if and only if it is active and unexpired, and is then answered from the cache for the ttl |
| KeyService.Service.IssueKey | internal/keys/keys.go:108-143 | a key is issued exactly when the owner is not blank and id and prefix are new; its row is active, has the parameters given and a hash that the plaintext matches, and no other row changes; the cache stays coherent when the id is not that of a cached deleted key |
| KeyService.Service.UpdateKey | internal/keys/keys.go:249-263 | the parameters of that key alone change; not found exactly when the id is absent; the cache stays coherent |
| KeyService.Service.SetKeyActive | internal/keys/keys.go:225-235 | the active flag of that key alone changes; not found exactly when the id is absent; the cache stays coherent |
| KeyService.Service.DeleteKey | internal/keys/keys.go:237-247 | exactly that row goes, the cache stays as it was; not found exactly when the id is absent |
| KeyService.Service.Touch | internal/keys/keys.go:180-182 | only last_used_at changes, and the cache stays coherent |
| KeyService.Service.InvalidateCache | internal/keys/keys.go:394-399 | exactly the entries under the prefix that the id has now go, every other stays as it was, and the next Verify of any plaintext of that key is answered by the database |
| VerifyStaleness.StalenessBound | internal/keys/keys.go:145-178 | over all interleavings every key accepted equals a row that was in the database, with a matching hash, less than ttl + d before (plus what Redis's clock adds to an expiry), was active in it and was not past its expiry |
| VerifyStaleness.RevokedKeyStopsBeingAccepted | internal/keys/keys.go:225-263 | a key deactivated or deleted and left so is not accepted from ttl + d later on |
| VerifyStaleness.InvStep | internal/keys/keys.go:394-416 | every step of a Verify, an admin write or an invalidation keeps the staleness invariant |
| VerifyStaleness.SelectAnswers | internal/keys/keys.go:159-177 | a Verify past its cache lookup accepts exactly the key of the row that the plaintext matches, if it is active and unexpired, and stores what it read |
| VerifyStaleness.GoodKeyIsAccepted | internal/keys/keys.go:145-178 | an undisturbed Verify of an active, unexpired row's plaintext accepts that key |
| VerifyStaleness.UpdatesByRow | internal/keys/keys.go:225-263 | Update and SetActive change of that key's row what they say and no other row |
| VerifyStaleness.TouchAndDeleteByRow | internal/keys/keys.go:180-247 | TouchLastUsed changes only the last use of that key, Delete removes exactly that row |
| VerifyStaleness.StartsAndWrites | internal/keys/keys.go:145-263 | a plaintext without the key prefix is refused, and every write of a key that exists is followed by its invalidation |
| VerifyStaleness.OtherSteps | internal/keys/keys.go:150-177 | a failed lookup in Redis goes to the database, a failed Set does not keep Verify from answering, and the invalidation of a key that is gone deletes nothing |
| VerifyRevocation.WriteTakesHold | internal/keys/keys.go:225-263 | over every interleaving and for every notion of up-to-date contents, once the DEL for the key has run, the key is never again accepted with outdated contents while the database has none, if and only if no Verify holds an outdated acceptable row still to be written back |
| VerifyRevocation.LaterAcceptsAreRecent | internal/keys/keys.go:225-263 | once the DEL of a write has run and no Verify holds an older row, every later accept of the key is of a row stored since that write |
| VerifyRevocation.RevocationTakesHold | internal/keys/keys.go:225-235 | once the DEL for a revoked key has run, no Verify accepts the key over any run in which it stays revoked, if and only if no Verify holds an acceptable row of it |
| VerifyRevocation.FindsHome | internal/keys/keys.go:394-399 | the invalidation of a key that has a row deletes the one prefix under which its entries are |
| VerifyRevocation.QuietStep | internal/keys/keys.go:145-178 | while the database has only up-to-date contents no step caches, comes to hold or accepts outdated ones |
| VerifyRevocation.RaceHappens | internal/keys/keys.go:157-177 | a Verify can read an active row before a whole SetActive(false) with its DEL and be left to write it back |
| VerifyRevocation.RaceRevivesKey | internal/keys/keys.go:157-177 | from there a Verify that starts after the DEL accepts the deactivated key |
| RateLimiter.ExactUnlessLapsed | internal/keys/keys.go:283-296 | for every sequence of calls with a fixed limit, min(n, limit) of the n calls of a bucket are allowed if and only if the counter never lapses between two of them or n is at most the limit |
| RateLimiter.ExactlyTheLimit | internal/keys/keys.go:283-296 | of n calls of a key in one minute bucket exactly min(n, limit) are allowed when skew plus delay spread by at most 10 s (and a nanosecond) |
| RateLimiter.CounterCounts | internal/keys/keys.go:287-295 | the live count of a bucket is the number of calls made in it exactly when it never lapsed, and how many calls are allowed follows in either case |
| RateLimiter.AnyMinuteAtMostTwice | internal/keys/keys.go:283-296 | any 60 seconds of replica time admit at most twice the limit |
| RateLimiter.TenSecondsIsSharp | internal/keys/keys.go:287-291 | a bound on the spread makes the limiter exact for all calls and limits if and only if it is at most 10 s and a nanosecond |
| RateLimiter.Limiter.AllowRate | internal/keys/keys.go:283-296 | the expiring counters implement the log of all calls: a call is allowed exactly when it has no limit or the calls of its minute since the counter last lapsed, itself included, are at most the limit |
| TailBuffer.Tail.Write | internal/proxy/proxy.go:454-460 | the buffer is the last cap bytes of what it held and what is written |
| TailBuffer.StreamResponse | internal/proxy/proxy.go:281-298 | after copying any list of chunks the window is the last CAPTURE_MAX bytes of the whole body |
| TailBuffer.WindowIsTheEnd | internal/proxy/proxy.go:444-462 | for every capacity and chunking the buffer is the last min(cap, total) bytes of the concatenation |
| SseUsage.ParseSSEUsage | internal/proxy/proxy.go:310-342 | returns the tokens of the last usage line, the cached tokens of the last usage line with details and the last non-empty model, over what the data lines say; found exactly when a usage line exists |
| SseUsage.DataLineSays | internal/proxy/proxy.go:316-327 | "data:", white space, a payload, white space contributes exactly the decoded payload |
| SseUsage.OtherLinesSayNothing | internal/proxy/proxy.go:316-323 | a line without "data:", a blank data line and the end marker contribute nothing |
| SseUsage.CrLfLineIs | internal/proxy/proxy.go:313-316 | the carriage return before a newline is not part of the line |
| SseUsage.TooLongLineStops | internal/proxy/proxy.go:313-315 | a line that does not fit the buffer ends the scan |
| SseUsage.ParseLine | internal/proxy/proxy.go:316-339 | given what the lines before report, the loop body finds what they and this line report, by the last line that sets each attribute |
| SseUsage.WindowSoundness | internal/proxy/proxy.go:281-342 | if lines setting usage, details and model lie wholly in the window (or nothing sets the attribute), parsing the window gives what all lines of the whole stream give, for every chunking |
| SseUsage.WindowAgreesExactly | internal/proxy/proxy.go:281-342 | window and stream agree on the last line with a property if and only if such a line lies wholly in the window or the window's first line settles it the same way |
| SseUsage.CommonLines | internal/proxy/proxy.go:28-28 | the window's lines are at most one fragment followed by exactly the stream's lines that lie wholly in the window |
| SseUsage.ScannerNeverStops | internal/proxy/proxy.go:313-315 | a buffer shorter than the scanner's limit is scanned to its end |
| SseUsage.TruncatedLineCanForgeUsage | internal/proxy/proxy.go:310-342 | for every one-line payload that decodes to a usage there is a stream without usage whose window reports it |
| SseUsage.SmallBodyParsedWhole | internal/proxy/proxy.go:281-307 | a body of at most CAPTURE_MAX bytes is parsed whole, as a stream and as a document |
| SseUsage.DocumentIsOneEvent | internal/proxy/proxy.go:345-362 | a JSON document reports what a stream of that one event reports |
| SseUsage.ExtractUsage | internal/proxy/proxy.go:300-307 | streams are parsed line by line, other responses as one document |
| RequestBody.PrepareBody | internal/proxy/proxy.go:209-252 | the decoded output is the decoded input except that a streaming request includes usage, all other members and options kept; an unmodified body is byte-identical; non-JSON and empty bodies pass through |
| RequestBody.PreparedMeans | internal/proxy/proxy.go:222-242 | member by member: the model if it is a text, a stream exactly if it is asked for, JSON exactly if an object or null, modified exactly if a stream does not ask for usage yet |
| RequestBody.RewriteKeepsMeaning | internal/proxy/proxy.go:228-242 | the rewritten document streams, includes usage and names the same model |
| RequestBody.PrepareIsIdempotent | internal/proxy/proxy.go:209-252 | preparing a prepared body again changes nothing |
| RequestBody.LawfulCodecExists | internal/proxy/proxy.go:245-250 | the law asked of the codec can be met, by one that has a text for every value |
| UpstreamRotation.RotationSafety | internal/keys/upstream.go:126-159 | over every interleaving of Set transactions at most one row is active, exactly one once a Set has committed, every other row has a retirement time, and no row or blob is lost |
| UpstreamRotation.SecondInsertRollsBack | internal/store/migrations/003_upstream_keys.up.sql:11-13 | of two Sets past their UPDATE, once one has committed the other's INSERT rolls back without effect |
| UpstreamRotation.SnapshotSafety | internal/keys/upstream.go:184-200 | a published key is the plaintext of the row that was newest at the publishing refresh's SELECT, starts with sk-, and a replica never goes back to none |
| UpstreamRotation.RefreshCatchesUp | internal/keys/upstream.go:87-104 | after the last commit, if no refresh with an earlier SELECT is pending, a completed refresh gives the newest key and it stays |
| UpstreamRotation.RotationStep | internal/keys/upstream.go:140-157 | every step of every transaction keeps the table and lock invariant |
| UpstreamRotation.SetAloneIsPublished | internal/keys/upstream.go:126-159 | from any state with no transaction under way, a Set and a refresh end with the whole key offered as the only active row and published, and the row that was active retired at the time of the Set |
| UpstreamRotation.FailuresChangeNothing | internal/keys/upstream.go:136-200 | a transaction that has not committed and a refresh may fail at any time and then have changed nothing; a refresh without an active row publishes nothing |
| UpstreamModel.DecryptEncrypt | internal/keys/upstream.go:202-222 | decrypting the nonce-prefixed blob gives the plaintext back |
| UpstreamModel.AcceptTakesTheOffer | internal/keys/upstream.go:127-133 | what is accepted is exactly the text without the white space around it, if it starts with sk- |
| UpstreamModel.RotateKeepsTable | internal/keys/upstream.go:146-152 | retiring every active row and inserting one keeps exactly the newest row active |
| UpstreamStore.Store.Refresh | internal/keys/upstream.go:184-200 | publishes the plaintext of the active row, or reports no rows and changes nothing |
| UpstreamStore.Store.Set | internal/keys/upstream.go:126-159 | succeeds exactly when the text, white space around it apart, starts with sk-; then that whole key is the newest row, the only active one, and current; every other blob is kept |
| UpstreamStore.Store.Bootstrap | internal/keys/upstream.go:68-82 | succeeds exactly when a stored key or an acceptable fallback exists, prefers the stored one, and makes the whole fallback key the current one otherwise |
| Migrations.RestartSafety | internal/store/store.go:59-107 | for any number of overlapping, failing runs the committed versions are a prefix of the list, in order and each once, and a run that succeeded leaves all applied |
| Migrations.LaterRunsHaveNoEffect | internal/store/store.go:77-85 | once all is applied no run changes the database or opens a transaction again |
| Migrations.InvStep | internal/store/store.go:77-105 | every step of every run keeps the prefix invariant |
| Migrations.RunAloneSucceeds | internal/store/store.go:77-106 | from any reachable state with no pending insert an undisturbed run succeeds with the whole list applied |
| Migrations.Database.Migrate | internal/store/store.go:77-106 | one run extends the applied prefix and succeeds exactly when no statement fails, with the whole list applied |
| Migrations.UpNames | internal/store/store.go:68-75 | exactly the .up.sql names, sorted |
| Migrations.NamesAndVersions | internal/store/store.go:68-78 | the up-migrations are exactly the names made of a version and .up.sql |
| Migrations.FailsAnywhere | internal/store/store.go:86-105 | until a run has reported success any error ends it and leaves the database as it was; a commit whose reply is lost counts |
| Migrations.VersionsDistinct | internal/store/store.go:78 | distinct names give distinct versions |
| AdminToken.FormatIntRoundTrip | internal/admin/auth.go:38-55 | a 64-bit integer printed in decimal parses back and contains no dot |
| AdminToken.ParseIntForms | internal/admin/auth.go:50-55 | what is read: digits with or without a sign, leading zeros or not, of a value that fits 64 bits, and nothing else |
| AdminToken.AcceptedExactlyWhenSigned | internal/admin/auth.go:46-69 | a header is accepted exactly when it is a readable, unexpired expiry with its signature under the secret |
| AdminToken.TokenAcceptedExactly | internal/admin/auth.go:37-69 | an issued token is accepted exactly up to t + ttl floored to whole seconds, by a validator that signs the expiry alike |
| AdminToken.TokenLifetime | internal/admin/auth.go:37-69 | the life of a token lies in (ttl - 1 s, ttl] |

## Left out

- HTTP transport, header copying, CORS, flushing, logging, shutdown: plumbing over libraries.
- Admin JSON handlers, reporting queries, List, Get, Stats, History, maskPrefix: thin wrappers with nothing hard to state.
- Environment and YAML loading: library parsing.
- Internals of Argon2id, AES-GCM, HMAC, base64, UUIDs: abstract functions with the round-trip law that is used.
- JSON text: decoding and encoding are function values; numbers are compared as decoded values.
- Floating point and Redis's own float formatting: costs are exact reals, so the drift bounds count column and %f rounding only.
- Column overflow (NUMERIC(14,8), BIGINT, INTEGER): falls under a failing database statement.
- Text.TrimSpace: trims ASCII white space; Go also trims other Unicode spaces.
- Postgres locking in UpstreamRotation: row locks, the re-check after waiting and the unique index are modelled for these statements; deadlock detection is a rollback that may happen at any time.
- DDL locks between overlapping migrations: a statement that fails because of them is the Fail step.
- VerifyStaleness.StalenessBound: the age includes `linger`, how long past its expiry Redis may still serve an entry (its clock counts milliseconds); with 0 the bound is ttl + d.
- VerifyRevocation.WriteTakesHold: assumes that a UUID is not issued again under another prefix.
- VerifyStaleness: the local computation between a Redis or Postgres reply and the return of Verify takes no time of its own; on a miss it is part of d, together with the Set.
- KeyService.Service.IssueKey: promises a coherent cache only when the drawn UUID is not that of a deleted key still in the cache.
- Fail-open behaviour of checkLimits on backend errors: present as steps (SelectFail) and excluded by the hypotheses of the limit theorems.
- TouchLastUsed inside ServeHTTP, request ids, durations and error texts of usage records: not part of the ledger.
- ServeHTTP's call of AllowRate: its answer is an input of the ledger model; the limiter itself is RateLimiter.
