/**
 * Range aggregation (`MetricsService`): one bucket key per second from `from`
 * up to `to`, the sum of their counts and an average usage percentage.
 */
module Metrics {
  import opened Wrappers
  import opened Keys
  import opened Store
  import opened RateLimiting
  import Counting

  datatype AggregatedSenderMetrics = AggregatedSenderMetrics(
    senderNumber: string,
    averageUsagePercentage: real,
    totalMessageCount: int,
    fromTime: Instant,
    toTime: Instant)

  /**
   * The global metrics record. Only the last four fields are filled in by the
   * aggregator; the others keep their C# defaults (0, 0.0, `default(DateTime)`).
   */
  datatype AggregatedGlobalMetrics = AggregatedGlobalMetrics(
    from: Instant,
    to: Instant,
    totalMessages: int,
    averageMessagesPerSecond: real,
    maxMessagesInOneSecond: int,
    usagePercentage: int,
    timestamp: Instant,
    averageUsagePercentage: real,
    totalMessageCount: int,
    fromTime: Instant,
    toTime: Instant)

  /** `DateTime.AddSeconds` past `DateTime.MaxValue`. */
  datatype MetricsError = ArgumentOutOfRange

  /** How many instants `from, from + 1s, ...` are at most `to`. */
  function RangeSize(from: Instant, to: Instant): nat {
    if from > to then 0 else (to - from) / TicksPerSecond + 1
  }

  /** The keys of the consecutive seconds starting at the second of `from`, one per enumerated instant. */
  function RangeKeys(prefix: string, from: Instant, to: Instant): (keys: seq<string>)
    ensures |keys| == RangeSize(from, to)
  {
    seq(RangeSize(from, to), i requires 0 <= i => BucketKey(prefix, SecondOf(from) + i))
  }

  /** The enumeration throws when stepping past the last instant would leave the `DateTime` range. */
  predicate RangeOverflows(from: Instant, to: Instant) {
    from <= to && from + RangeSize(from, to) * TicksPerSecond > MaxTicks
  }

  lemma SecondAfterSteps(from: Instant, i: nat)
    requires from + i * TicksPerSecond <= MaxTicks
    ensures SecondOf(from + i * TicksPerSecond) == SecondOf(from) + i
  {
  }

  lemma StepsWithin(from: Instant, to: Instant, i: nat)
    requires from <= to
    requires i * TicksPerSecond <= to - from < (i + 1) * TicksPerSecond
    ensures RangeSize(from, to) == i + 1
  {
  }

  /** `GetKeysInRange`: the loop that yields a key and then steps `current` by one second. */
  method GetKeysInRange(prefix: string, from: Instant, to: Instant) returns (r: Result<seq<string>, MetricsError>)
    ensures r == if RangeOverflows(from, to) then Failure(ArgumentOutOfRange) else Success(RangeKeys(prefix, from, to))
  {
    var keys: seq<string> := [];
    var current: int := from;
    assert keys == seq(0, i requires 0 <= i => BucketKey(prefix, SecondOf(from) + i));
    while current <= to
      invariant current == from + |keys| * TicksPerSecond
      invariant current <= MaxTicks
      invariant |keys| > 0 ==> current - TicksPerSecond <= to
      invariant keys == seq(|keys|, i requires 0 <= i => BucketKey(prefix, SecondOf(from) + i))
    {
      SecondAfterSteps(from, |keys|);
      keys := keys + [BucketKey(prefix, SecondOf(current))];
      if current + TicksPerSecond > MaxTicks {
        StepsWithin(from, to, |keys| - 1);
        return Failure(ArgumentOutOfRange);
      }
      current := current + TicksPerSecond;
    }
    if |keys| > 0 {
      StepsWithin(from, to, |keys| - 1);
    }
    return Success(keys);
  }

  /** `keys.Select(GetCount).Sum()`. */
  function TotalCount(t: Table, keys: seq<string>): int {
    if |keys| == 0 then 0
    else TotalCount(t, keys[..|keys| - 1]) + Count(t, keys[|keys| - 1])
  }

  /** `limit * (to - from).TotalSeconds`. */
  function MaxPossible(limit: int, from: Instant, to: Instant): real {
    (limit as real) * ((to - from) as real / TicksPerSecond as real)
  }

  /**
   * The average usage percentage: total * 100 / maxPossible when that
   * capacity is positive, and 0 otherwise. It is not clamped to 100.
   */
  function UsagePercentage(total: int, limit: int, from: Instant, to: Instant): (p: real)
    ensures MaxPossible(limit, from, to) <= 0.0 ==> p == 0.0
    ensures MaxPossible(limit, from, to) > 0.0 ==> p * MaxPossible(limit, from, to) == total as real * 100.0
  {
    var maxPossible := MaxPossible(limit, from, to);
    if maxPossible > 0.0 then (total as real * 100.0) / maxPossible else 0.0
  }

  /** A one-instant range has no capacity, so its average is 0 even when its bucket has traffic. */
  lemma SingleInstantAverageIsZero(total: int, limit: int, t: Instant)
    ensures UsagePercentage(total, limit, t, t) == 0.0
  {
    assert MaxPossible(limit, t, t) == 0.0;
  }

  lemma NoTrafficAverageIsZero(limit: int, from: Instant, to: Instant)
    ensures UsagePercentage(0, limit, from, to) == 0.0
  {
    if MaxPossible(limit, from, to) > 0.0 {
      assert UsagePercentage(0, limit, from, to) * MaxPossible(limit, from, to) == 0.0;
    }
  }

  /** With no counter stored under any of the keys, the total is 0. */
  lemma {:induction false} NoTrafficTotalIsZero(t: Table, keys: seq<string>)
    requires forall i :: 0 <= i < |keys| ==> Count(t, keys[i]) == 0
    ensures TotalCount(t, keys) == 0
  {
    if |keys| > 0 {
      NoTrafficTotalIsZero(t, keys[..|keys| - 1]);
    }
  }

  lemma {:induction false} TotalCountNonNegative(t: Table, now: int, keys: seq<string>)
    requires Consistent(t, now)
    ensures TotalCount(t, keys) >= 0
  {
    if |keys| > 0 {
      TotalCountNonNegative(t, now, keys[..|keys| - 1]);
    }
  }

  /** Raising one key's count by 1 raises the sum by the number of times the key is listed. */
  lemma {:induction false} TotalCountAfterBump(t: Table, u: Table, key: string, keys: seq<string>)
    requires u.values - {key} == t.values - {key}
    requires Count(u, key) == Count(t, key) + 1
    ensures TotalCount(u, keys) == TotalCount(t, keys) + Counting.Occurrences(keys, key)
  {
    if |keys| > 0 {
      TotalCountAfterBump(t, u, key, keys[..|keys| - 1]);
      var k := keys[|keys| - 1];
      if k != key {
        assert k in u.values - {key} <==> k in t.values - {key};
      }
    }
  }

  /** Every second in a range is a second a `DateTime` can hold. */
  lemma RangeSecondsInBounds(from: Instant, to: Instant)
    ensures SecondOf(from) + RangeSize(from, to) <= MaxSecond + 1
  {
    if from <= to {
      var q := (to - from) / TicksPerSecond;
      assert from + q * TicksPerSecond <= to;
      SecondAfterSteps(from, q);
    }
  }

  /** The range holds each second once: its keys are pairwise distinct. */
  lemma RangeKeysDistinct(prefix: string, from: Instant, to: Instant)
    ensures var keys := RangeKeys(prefix, from, to);
      forall i, j :: 0 <= i < j < |keys| ==> keys[i] != keys[j]
  {
    RangeSecondsInBounds(from, to);
    var keys := RangeKeys(prefix, from, to);
    forall i, j | 0 <= i < j < |keys| ensures keys[i] != keys[j] {
      BucketKeyInjective(prefix, SecondOf(from) + i, prefix, SecondOf(from) + j);
    }
  }

  /** The per-sender range enumerates exactly the keys `CanSend` writes, second by second. */
  lemma SenderRangeKeysAreLimiterKeys(sender: string, from: Instant, to: Instant)
    ensures var keys := RangeKeys("rate_limit:" + sender, from, to);
      forall i :: 0 <= i < |keys| ==> keys[i] == SenderKey(sender, SecondOf(from) + i)
  {
    var keys := RangeKeys("rate_limit:" + sender, from, to);
    forall i | 0 <= i < |keys| ensures keys[i] == SenderKey(sender, SecondOf(from) + i) {
      assert keys[i] == BucketKey("rate_limit:" + sender, SecondOf(from) + i);
    }
  }

  /** The global range enumerates exactly the keys `CanSendGlobal` writes, second by second. */
  lemma GlobalRangeKeysAreLimiterKeys(from: Instant, to: Instant)
    ensures var keys := RangeKeys("global_rate_limit", from, to);
      forall i :: 0 <= i < |keys| ==> keys[i] == GlobalKey(SecondOf(from) + i)
  {
    var keys := RangeKeys("global_rate_limit", from, to);
    forall i | 0 <= i < |keys| ensures keys[i] == GlobalKey(SecondOf(from) + i) {
      assert keys[i] == BucketKey("global_rate_limit", SecondOf(from) + i);
      assert "global_rate_limit" + ":" == "global_rate_limit:";
    }
  }

  predicate Covers(from: Instant, to: Instant, second: nat) {
    SecondOf(from) <= second < SecondOf(from) + RangeSize(from, to)
  }

  lemma {:induction false} BucketInRange(prefix: string, from: Instant, to: Instant, second: nat)
    requires second <= MaxSecond
    ensures BucketKey(prefix, second) in RangeKeys(prefix, from, to) <==> Covers(from, to, second)
  {
    var keys := RangeKeys(prefix, from, to);
    RangeSecondsInBounds(from, to);
    if Covers(from, to, second) {
      assert keys[second - SecondOf(from)] == BucketKey(prefix, second);
    }
    if BucketKey(prefix, second) in keys {
      var i :| 0 <= i < |keys| && keys[i] == BucketKey(prefix, second);
      BucketKeyInjective(prefix, SecondOf(from) + i, prefix, second);
    }
  }

  /**
   * A sender check recorded by the store raises that sender's total over a
   * range by exactly 1 when the range covers the current second, and leaves
   * it alone otherwise.
   */
  lemma SenderAdmissionIsCounted(t: Table, now: Instant, sender: string, limit: int, from: Instant, to: Instant)
    requires !HoldsText(t, SenderKey(sender, SecondOf(now)))
    ensures var after := Increment(t, now, SenderKey(sender, SecondOf(now)), limit).table;
      var keys := RangeKeys("rate_limit:" + sender, from, to);
      TotalCount(after, keys) == TotalCount(t, keys) + (if Covers(from, to, SecondOf(now)) then 1 else 0)
  {
    var key := SenderKey(sender, SecondOf(now));
    var keys := RangeKeys("rate_limit:" + sender, from, to);
    assert key == BucketKey("rate_limit:" + sender, SecondOf(now));
    TotalCountAfterBump(t, Increment(t, now, key, limit).table, key, keys);
    RangeKeysDistinct("rate_limit:" + sender, from, to);
    Counting.OccurrencesOfDistinct(keys, key);
    BucketInRange("rate_limit:" + sender, from, to, SecondOf(now));
  }

  /** The same for the global check and the global range. */
  lemma GlobalAdmissionIsCounted(t: Table, now: Instant, limit: int, from: Instant, to: Instant)
    requires !HoldsText(t, GlobalKey(SecondOf(now)))
    ensures var after := Increment(t, now, GlobalKey(SecondOf(now)), limit).table;
      var keys := RangeKeys("global_rate_limit", from, to);
      TotalCount(after, keys) == TotalCount(t, keys) + (if Covers(from, to, SecondOf(now)) then 1 else 0)
  {
    var key := GlobalKey(SecondOf(now));
    var keys := RangeKeys("global_rate_limit", from, to);
    assert key == BucketKey("global_rate_limit", SecondOf(now));
    TotalCountAfterBump(t, Increment(t, now, key, limit).table, key, keys);
    RangeKeysDistinct("global_rate_limit", from, to);
    Counting.OccurrencesOfDistinct(keys, key);
    BucketInRange("global_rate_limit", from, to, SecondOf(now));
  }

  class MetricsService {
    const redisService: RedisService
    const rateLimiterService: RateLimiterService

    constructor (redisService: RedisService, rateLimiterService: RateLimiterService)
      ensures this.redisService == redisService && this.rateLimiterService == rateLimiterService
    {
      this.redisService := redisService;
      this.rateLimiterService := rateLimiterService;
    }

    method GetAggregatedSenderMetrics(senderNumber: string, from: Instant, to: Instant)
      returns (r: Result<AggregatedSenderMetrics, MetricsError>)
      ensures r.Failure? <==> RangeOverflows(from, to)
      ensures r.Success? ==>
        var total := TotalCount(redisService.Snapshot(), RangeKeys("rate_limit:" + senderNumber, from, to));
        r.value == AggregatedSenderMetrics(
          senderNumber,
          UsagePercentage(total, rateLimiterService.maxMessagesPerSenderPerSec, from, to),
          total, from, to)
    {
      var keys := GetKeysInRange("rate_limit:" + senderNumber, from, to);
      if keys.Failure? {
        return Failure(keys.error);
      }
      var totalCount := TotalCount(redisService.Snapshot(), keys.value);
      var maxPossible := MaxPossible(rateLimiterService.maxMessagesPerSenderPerSec, from, to);
      var average := if maxPossible > 0.0 then (totalCount as real * 100.0) / maxPossible else 0.0;
      return Success(AggregatedSenderMetrics(senderNumber, average, totalCount, from, to));
    }

    method GetAggregatedGlobalMetrics(from: Instant, to: Instant)
      returns (r: Result<AggregatedGlobalMetrics, MetricsError>)
      ensures r.Failure? <==> RangeOverflows(from, to)
      ensures r.Success? ==>
        var total := TotalCount(redisService.Snapshot(), RangeKeys("global_rate_limit", from, to));
        r.value == AggregatedGlobalMetrics(
          0, 0, 0, 0.0, 0, 0, 0,
          UsagePercentage(total, rateLimiterService.maxMessagesGlobalPerSec, from, to),
          total, from, to)
    {
      var keys := GetKeysInRange("global_rate_limit", from, to);
      if keys.Failure? {
        return Failure(keys.error);
      }
      var totalCount := TotalCount(redisService.Snapshot(), keys.value);
      var maxPossible := MaxPossible(rateLimiterService.maxMessagesGlobalPerSec, from, to);
      var average := if maxPossible > 0.0 then (totalCount as real * 100.0) / maxPossible else 0.0;
      return Success(AggregatedGlobalMetrics(0, 0, 0, 0.0, 0, 0, 0, average, totalCount, from, to));
    }
  }
}
