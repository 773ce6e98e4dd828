# SmsInsights rate limiter, modelled in Dafny

SmsInsights is an SMS gateway that admits or refuses messages against two
per-second limits: one per sender phone number and one for the whole system.
Its state lives in Redis as one counter per (scope, second) bucket.

- `RedisService` increments a bucket and gives it a one-second TTL on first use.
- `RateLimiterService` derives the bucket key from the sender and the current second.
- `MessageService` combines the global and sender checks into a send decision and a `MessageResponse`.
- `MessageValidator` checks the three request fields.
- `MetricsService` sums the buckets over a time range and reports an average usage percentage.

The model follows the C# code.

- `Store.RedisService` is a class. Its fields are the key table, the TTL deadlines, and a clock. Each method is proved to perform exactly the transition of a pure function over `Store.Table`: `Increment`, `Put`, `Remove`, `Expire`.
- `RateLimiting.RateLimiterService` and `Messaging.MessageService` are classes over one shared store. Their methods are proved equal to `Increment` on the limiter's key, and to `Messaging.Admission`, the short-circuit `CanSendGlobal() && CanSend(sender)`.
- `Metrics.GetKeysInRange` keeps the source's `while` loop over a mutable `current`. It is proved to return `Metrics.RangeKeys` or the `DateTime` overflow error.
- `LoadScenarios` replays the repository's load tests as sequential interleavings on the real classes.

Modelling choices:

- **Time.** An instant is a `DateTime` tick count (100 ns units, 0 up to `DateTime.MaxValue`). The store's `clock` stands for `DateTime.UtcNow` and for Redis's own time. Time passes only through `RedisService.Advance`, which evicts every key whose TTL has run out.
- **Bucket timestamp.** The suffix `yyyyMMddHHmmss` of a whole second is abstracted as the 14-digit zero-padded decimal of the second count. Like the real format, it is fixed-width, made only of digits, and injective over every second a `DateTime` can hold. That injectivity is proved by parsing it back (`Keys.StampRoundTrip`).
- **Redis errors.**
  - `INCR` on a key that holds text fails, as does `SET` with a non-positive expiration. These are `Failure` results that the limiter and the service pass on unchanged, as the C# exceptions propagate.
  - A JSON `null` request field is `None`. `MessageService` passes a null sender on to `CanSend` unchanged. The string interpolation inside `CanSend` (RateLimiterService.cs:34) renders it as the empty string. The model's `Messaging.Interpolated` performs that rendering at the same point in the key.

Points of the code worth stating:

- The per-sender key prefix is `rate_limit:` and the global one is `global_rate_limit` (RateLimiterService.cs:34,44).
- The average is guarded by `maxPossible > 0` (MetricsService.cs:30,46). So a non-positive limit or duration gives 0.
- `MetricsService` calls `GetMaxMessagesPerSender` and `GetMaxMessagesGlobal` (MetricsService.cs:25,42). Neither of the two `IRateLimiterService` declarations, nor `RateLimiterService`, declares them. The model reads the two constructor limits of `RateLimiterService` in their place.

Range enumeration starts at `from` itself, not at the start of its second. With a sub-second `from`, the last step can pass `to` before reaching `to`'s own bucket. `Metrics.RangeKeys` captures this exactly: it holds one key per enumerated instant, counted by `RangeSize`. Ranges sent by the dashboard are whole minutes, so the effect does not arise there.

## Model

| member | source | states |
|---|---|---|
| Keys.SecondOf | src/SmsInsights/Services/RateLimiterService.cs:34 | the bucket of an instant is the whole second containing it, and it is a second a `DateTime` can hold |
| Keys.StampRoundTrip | src/SmsInsights/Services/RateLimiterService.cs:34 | the timestamp of any representable second parses back to that second |
| Keys.StampInjective | src/SmsInsights/Services/RateLimiterService.cs:34 | two representable seconds have the same timestamp iff they are equal |
| Keys.BucketKeyInjective | src/SmsInsights/Services/MetricsService.cs:58 | `prefix:stamp` keys are equal iff their prefixes and seconds are equal |
| Keys.SenderKeyInjective | src/SmsInsights/Services/RateLimiterService.cs:34 | two sender keys are equal iff sender and second are equal |
| Keys.GlobalKeyInjective | src/SmsInsights/Services/RateLimiterService.cs:44 | two global keys are equal iff their seconds are equal |
| Keys.SenderKeyIsNotGlobal | src/SmsInsights/Services/RateLimiterService.cs:34-44 | no sender key, for any sender string and second, equals any global key |
| Keys.NextSecondFreshKey | src/SmsInsights/Services/RateLimiterService.cs:34 | a sender in the next second writes a different key than in the current one |
| Store.Count | src/SmsInsights/Data/RedisService.cs:57-61 | `GetCount` as intended (see Findings): the count is the stored integer, and 0 for a missing key or one holding text; the class query `RedisService.GetCount` is `Count` of `Snapshot()` |
| Store.StringGet | src/SmsInsights/Data/RedisService.cs:59 | the GET reply is nil iff the key is missing. It is never the client's integer kind, and its text is what `Get` returns |
| Store.CountAsWrittenMissesCounters | src/SmsInsights/Data/RedisService.cs:59-60 | `GetCount` as written reads 0 from a key that one increment has set to 1 |
| Store.CountReadsBackGet | src/SmsInsights/Data/RedisService.cs:59-60 | the GET reply of a non-negative counter is all digits, and parses back to that counter's count |
| Store.Lookup | src/SmsInsights/Data/RedisService.cs:41-44 | `null` iff the key is missing; text reads back as stored; the class query `RedisService.Get` is `Lookup` of `Snapshot()` |
| Store.Increment | src/SmsInsights/Data/RedisService.cs:23-32 | fails iff the key holds text, leaving the table unchanged. Otherwise the count goes up by exactly 1, from 0 when absent. The one-second TTL is set iff the new count is 1, and the deadlines are otherwise unchanged. The answer is `newCount <= maxLimit`. Every other key and TTL is unchanged, and table consistency is preserved |
| Store.Put | src/SmsInsights/Data/RedisService.cs:35-38 | fails iff the expiration is not positive; otherwise stores the text with deadline now + expiration |
| Store.Remove | src/SmsInsights/Data/RedisService.cs:47-50 | drops the key's value and TTL; its count reads 0 and `Get` gives `null` |
| Store.TimeToLive | src/SmsInsights/Data/RedisService.cs:71 | present iff the key has a TTL, and non-negative in a consistent table |
| Store.LastAccess | src/SmsInsights/Data/RedisService.cs:69-73 | now plus the remaining TTL: the expiry deadline when there is one, else now, and never before now in a consistent table; the class query `RedisService.GetLastAccessTime` is `LastAccess` of `Snapshot()` at the store's clock |
| Store.Expire | src/SmsInsights/Data/RedisService.cs:26-29 | exactly the keys whose deadline the clock is strictly past disappear, with their TTLs, as Redis expires a key only after its deadline; all other entries stay as they were |
| Store.GetAfterSet | src/SmsInsights/Data/RedisService.cs:35-44 | a value written by `Set` reads back at every instant up to and including its deadline |
| Store.CounterExpiresAfterOneSecond | src/SmsInsights/Data/RedisService.cs:26-29 | a bucket created by an increment reads 0 once the clock is past now + 1 s |
| Store.CounterLivesThroughItsSecond | src/SmsInsights/Data/RedisService.cs:26-29 | a bucket created by an increment still reads 1 at every instant up to and including now + 1 s |
| Store.IncrementRun | src/SmsInsights/Data/RedisService.cs:23-32 | n increments of one key: the i-th answer is `start + i + 1 <= maxLimit`, and the count rises by n |
| Store.IncrementRunAdmitsMin | src/SmsInsights/Data/RedisService.cs:25-31 | on an absent key with limit L >= 0, exactly min(n, L) answers are true, and no true follows a false |
| Store.RedisService.constructor | src/SmsInsights/Data/RedisService.cs:17-20 | an empty, consistent store |
| Store.RedisService.IncrementWithExpiration | src/SmsInsights/Data/RedisService.cs:23-32 | the new table and the answer are exactly `Increment` of the old table; the clock does not move |
| Store.RedisService.Set | src/SmsInsights/Data/RedisService.cs:35-38 | the new table is `Put` of the old one, or it is unchanged and the error is returned |
| Store.RedisService.Delete | src/SmsInsights/Data/RedisService.cs:47-50 | the new table is `Remove` of the old one, and `GetCount` of the key is 0 |
| Store.RedisService.DeleteKey | src/SmsInsights/Data/RedisService.cs:75-78 | the same transition as `Delete` |
| Store.RedisService.Advance | src/SmsInsights/Data/RedisService.cs:28 | time moves forward and the table becomes `Expire` of the old one at the new time |
| RateLimiting.RateLimiterService.constructor | src/SmsInsights/Services/RateLimiterService.cs:20-25 | the limiter keeps the store and both limits it was given |
| RateLimiting.RateLimiterService.CanSend | src/SmsInsights/Services/RateLimiterService.cs:32-36 | the answer and the new table are `Increment` of the sender's current-second key with the per-sender limit |
| RateLimiting.RateLimiterService.CanSendGlobal | src/SmsInsights/Services/RateLimiterService.cs:42-46 | the answer and the new table are `Increment` of the current-second global key with the global limit |
| RateLimiting.SenderCheckTouchesOnlyItsKey | src/SmsInsights/Services/RateLimiterService.cs:32-36 | a sender check leaves the global count and every other sender's count unchanged |
| RateLimiting.GlobalCheckTouchesNoSender | src/SmsInsights/Services/RateLimiterService.cs:42-46 | a global check leaves every sender's count unchanged |
| Messaging.SuccessResponse | src/SmsInsights/Models/MessageResponse.cs:17-18 | a successful response carrying the given message |
| Messaging.FailureResponse | src/SmsInsights/Models/MessageResponse.cs:20-21 | a failed response carrying the given message |
| Messaging.AdmissionIffBothAdmit | src/SmsInsights/Services/MessageService.cs:18 | the send decision is true iff neither key holds text and both incremented counts stay within their limits |
| Messaging.GlobalDenialSkipsSender | src/SmsInsights/Services/MessageService.cs:18 | when the global check does not say true, the decision is not true and only the global key has changed |
| Messaging.SenderDenialStillCountsGlobal | src/SmsInsights/Services/MessageService.cs:18 | when the global check admits and the sender check denies, both counters have gone up by 1 |
| Messaging.ResponseFor | src/SmsInsights/Services/MessageService.cs:23-28 | success iff allowed, with `MessageSentSuccess` or `RateLimitExceeded` |
| Messaging.MessageService.constructor | src/SmsInsights/Services/MessageService.cs:11-14 | the service keeps the limiter it was given |
| Messaging.MessageService.CanSendMessage | src/SmsInsights/Services/MessageService.cs:16-19 | the answer and the new table are exactly `Admission`: global first, then the sender only when the global check said true |
| Messaging.MessageService.SendMessage | src/SmsInsights/Services/MessageService.cs:21-29 | the store makes the `Admission` transition; the response is `ResponseFor` the decision, or the store error |
| Validation.ValidateRequest | src/SmsInsights/Validators/MessageValidator.cs:7-19 | valid iff none of the three fields is null or whitespace; valid iff no error; the first blank field, in the order sender, receiver, message, picks the error text |
| Validation.BlanknessDecides | src/SmsInsights/Validators/MessageValidator.cs:9-16 | requests with the same blank fields get the same verdict |
| Validation.WhiteSpaceIsBlank | src/SmsInsights.Tests/UnitTests/MessageValidatorTests.cs:28-34 | a whitespace-only field is refused with that field's error, as an empty one is |
| Metrics.RangeKeys | src/SmsInsights/Services/MetricsService.cs:53-61 | one key per enumerated instant, `RangeSize` of them |
| Metrics.GetKeysInRange | src/SmsInsights/Services/MetricsService.cs:53-61 | the loop yields exactly `RangeKeys`, or fails with `ArgumentOutOfRange` when stepping past the last instant would leave the `DateTime` range |
| Metrics.RangeKeysDistinct | src/SmsInsights/Services/MetricsService.cs:55-60 | the enumerated keys are pairwise distinct |
| Metrics.RangeSecondsInBounds | src/SmsInsights/Services/MetricsService.cs:55-60 | every enumerated second is representable |
| Metrics.BucketInRange | src/SmsInsights/Services/MetricsService.cs:55-60 | a second's bucket key is enumerated iff the range covers that second |
| Metrics.SenderRangeKeysAreLimiterKeys | src/SmsInsights/Services/MetricsService.cs:22 | the i-th sender range key is the key `CanSend` writes in the i-th second |
| Metrics.GlobalRangeKeysAreLimiterKeys | src/SmsInsights/Services/MetricsService.cs:39 | the i-th global range key is the key `CanSendGlobal` writes in the i-th second |
| Metrics.NoTrafficTotalIsZero | src/SmsInsights/Services/MetricsService.cs:23-24 | with no counts under the keys, the total is 0 |
| Metrics.TotalCountNonNegative | src/SmsInsights/Services/MetricsService.cs:23-24 | the total over any keys of a consistent table is non-negative |
| Metrics.TotalCountAfterBump | src/SmsInsights/Services/MetricsService.cs:23-24 | raising one key by 1 raises the total by the number of times the key is listed |
| Metrics.UsagePercentage | src/SmsInsights/Services/MetricsService.cs:25-30 | 0 when the capacity `limit * seconds` is not positive, else the p with p * capacity = total * 100 (not clamped) |
| Metrics.SingleInstantAverageIsZero | src/SmsInsights/Services/MetricsService.cs:30 | a `from == to` range reports 0 whatever its traffic |
| Metrics.NoTrafficAverageIsZero | src/SmsInsights/Services/MetricsService.cs:30 | no traffic reports 0 |
| Metrics.SenderAdmissionIsCounted | src/SmsInsights/Services/MetricsService.cs:20-24 | one sender admission raises that sender's range total by 1 iff the range covers the current second |
| Metrics.GlobalAdmissionIsCounted | src/SmsInsights/Services/MetricsService.cs:37-41 | one global admission raises the global range total by 1 iff the range covers the current second |
| Metrics.MetricsService.constructor | src/SmsInsights/Services/MetricsService.cs:14-18 | the service keeps the store and limiter it was given |
| Metrics.MetricsService.GetAggregatedSenderMetrics | src/SmsInsights/Services/MetricsService.cs:20-35 | fails iff the range overflows; otherwise echoes sender, from and to, the total over the sender's range keys, and its `UsagePercentage` for the per-sender limit; only reads the store |
| Metrics.MetricsService.GetAggregatedGlobalMetrics | src/SmsInsights/Services/MetricsService.cs:37-51 | the same for the global keys and limit; the other record fields keep their defaults |
| LoadScenarios.SenderBurst | src/SmsInsights.Tests/LoadTests/RateLimiterLoadTests.cs:25-55 | n sender checks make the `IncrementRun` transition; on a fresh bucket exactly min(n, L) are admitted |
| LoadScenarios.GlobalBurst | src/SmsInsights.Tests/LoadTests/RateLimiterLoadTests.cs:58-87 | n global checks make the `IncrementRun` transition; on a fresh bucket exactly min(n, G) are admitted |
| LoadScenarios.EachSenderGetsItsLimit | src/SmsInsights.Tests/LoadTests/RateLimiterLoadTests.cs:90-140 | in any interleaving of fresh senders, each sender gets exactly min(its calls, L) trues |
| LoadScenarios.InterleavedSenders | src/SmsInsights.Tests/LoadTests/RateLimiterLoadTests.cs:90-140 | the answers of an interleaving of sender checks on fresh buckets are `InterleavedAdmissions`, hence min(calls, L) per sender |
| LoadScenarios.AdmissionStep | src/SmsInsights/Services/MessageService.cs:18 | one send decision raises the global count by 1 and the sender's by at most 1. An admission leaves both within their limits. Other senders are unchanged |
| LoadScenarios.SendAll | src/SmsInsights/Services/MessageService.cs:16-19 | for any requests sent through `MessageService` within one second, at most G succeed, and at most L of any one sender's |
| LoadScenarios.SenderFirstStep | src/SmsInsights.Tests/LoadTests/RateLimiterLoadTests.cs:176-177 | the test's sender-then-global check raises the sender's count by 1, and the global count only on an admission, which leaves both within their limits |
| LoadScenarios.MixedLimits | src/SmsInsights.Tests/LoadTests/RateLimiterLoadTests.cs:143-195 | for sender-then-global checks within one second, at most G pass, and at most L of any one sender's |

## Left out

- `GetKeys` (glob enumeration of the Redis key space) is Redis server behaviour, not modelled.
- The HTTP endpoints, hosting, Swagger, logging and the React dashboard are plumbing and UI, outside the rate-limiting logic.
- Concurrency: the load tests' parallel tasks are modelled as one sequential interleaving, each store command being atomic, as Redis guarantees.
- Redis's own connection and the client's millisecond rounding of `Set` expirations are not modelled.
- Store.StringGet: a GET reply is taken to be held as raw bulk-string bytes, never as the integer kind of `RedisValue`. This is how StackExchange.Redis stores bulk-string replies, but the library is not part of this model.
- Store.Count: the metrics use the intended reading of `GetCount` (parse the counter), not the as-written one (see Findings).
- Store.Increment: a text value that spells an integer, which real `INCR` would accept, is treated as text and refused.
- Store.Count: the `(int)` conversion of a counter beyond 32 bits is not modelled. Integers are unbounded throughout, so the checked LINQ `Sum` never overflows.
- Store.Increment: Redis answers INCR past 2^63 - 1 with an overflow error, and `Increment` never produces it; counts are unbounded.
- Store.LastAccess: the `DateTime` overflow of `UtcNow.Add(ttl)` near `DateTime.MaxValue` is not modelled.
- Metrics.UsagePercentage: real arithmetic stands in for `double`, so rounding is not modelled.
- `GetSenderUsagePercentage` and `GetGlobalUsagePercentage` are declared in Interfaces/IRateLimiterService.cs:5-6, and `RateLimiterService` does not implement them, so there is no body to model.
- `GetMaxMessagesPerSender` and `GetMaxMessagesGlobal` are called at MetricsService.cs:25,42. `RateLimiterService` does not implement them, and neither `IRateLimiterService` declaration (Interfaces/IRateLimiter.cs:3, Interfaces/IRateLimiterService.cs:1) declares them. The model reads the limiter's two constructor limits instead.
- The duplicate limiter interfaces (`IRateLimiter` and two `IRateLimiterService` declarations) are collapsed into the one `RateLimiterService` class.
- The fields `From`, `To`, `TotalMessages`, `AverageMessagesPerSecond`, `MaxMessagesInOneSecond`, `UsagePercentage` and `Timestamp` of the global metrics record are never assigned by the aggregator and keep their defaults.
- Natural TTL expiry happens only at the explicit `Advance` step, not continuously.
- Store.Expire: Redis compares deadlines with its millisecond clock, and the model compares tick counts; the strict "past the deadline" rule is the same.
- Messaging.Admission: both checks use one `now`. In the source, `CanSendGlobal` and `CanSend` each read `DateTime.UtcNow`. A decision that straddles a second boundary can therefore count the global key of second T and the sender key of second T + 1, and the model does not capture that.

## Findings

| source | as written | input that shows it | evidently intended | confidence | as-written member | corrected member |
|---|---|---|---|---|---|---|
| src/SmsInsights/Data/RedisService.cs:59-60 | `GetCount` returns the number only when the GET reply `IsInteger`, and a GET reply is a bulk string, never the integer kind | one `CanSend` on an empty bucket: the key holds 1 and `GetCount` gives 0, so every metrics total is 0 | parse the reply as an integer and return the counter's value | not executed; medium, as it rests on how StackExchange.Redis stores bulk-string replies | Store.CountAsWrittenMissesCounters | Store.CountReadsBackGet |
