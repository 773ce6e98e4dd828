/**
 * The counter store (`RedisService`): a key table with per-key expiry.
 *
 * The pure functions over `Table` state what each store command does; the
 * class `RedisService` holds the table in mutable fields and its methods are
 * proved to perform exactly those transitions. The store's clock stands for
 * both Redis's time and `DateTime.UtcNow`; time passes only through `Advance`,
 * which also evicts every key whose expiry deadline has been reached.
 */
module Store {
  import opened Wrappers
  import opened Keys
  import Counting

  /** A stored value: an integer written by INCR, or text written by SET. */
  datatype Value = Counter(count: int) | Text(text: string)

  /** Redis errors that the client turns into exceptions. */
  datatype StoreError =
    | NotAnInteger        // INCR on a key that holds text
    | InvalidExpireTime   // SET with a non-positive expiration

  /** The key table: values, and the absolute expiry instant of the keys that have a TTL. */
  datatype Table = Table(values: map<string, Value>, deadlines: map<string, int>)

  /** The table after an admission increment, and its answer (or the error). */
  datatype Reply = Reply(table: Table, answer: Result<bool, StoreError>)

  predicate HoldsText(t: Table, key: string) {
    key in t.values && t.values[key].Text?
  }

  /** Every stored value is a counter: nothing was written by `Set`. */
  predicate OnlyCounters(t: Table) {
    forall k :: k in t.values ==> t.values[k].Counter?
  }

  /**
   * What a table can look like at time `now`: no TTL has passed yet,
   * only stored keys have one, and every counter has been incremented at least once.
   */
  ghost predicate Consistent(t: Table, now: int) {
    && t.deadlines.Keys <= t.values.Keys
    && (forall k :: k in t.deadlines ==> t.deadlines[k] >= now)
    && (forall k :: k in t.values && t.values[k].Counter? ==> t.values[k].count >= 1)
  }

  /** `GetCount`: the integer at `key`, and 0 for a missing or non-integer value. */
  function Count(t: Table, key: string): (n: int)
    ensures key !in t.values ==> n == 0
    ensures HoldsText(t, key) ==> n == 0
    ensures key in t.values && t.values[key].Counter? ==> n == t.values[key].count
  {
    if key in t.values && t.values[key].Counter? then t.values[key].count else 0
  }

  /** `Get`: `null` for a missing key; a counter reads back as its decimal text. */
  function Lookup(t: Table, key: string): (r: Option<string>)
    ensures r.None? <==> key !in t.values
    ensures HoldsText(t, key) ==> r == Some(t.values[key].text)
  {
    if key !in t.values then None
    else match t.values[key]
      case Text(s) => Some(s)
      case Counter(n) => Some(if n < 0 then "-" + Decimal(-n) else Decimal(n))
  }

  /**
   * The client's view of a GET reply (`RedisValue`): nil, raw bulk-string
   * bytes, or the client's integer kind. A GET reply is a bulk string, so it
   * is held raw, even when its text is a number.
   */
  datatype RedisValue = Nil | Raw(text: string) | Integer(number: int)

  /** `StringGet`: nil for a missing key, otherwise the stored value as a bulk string. */
  function StringGet(t: Table, key: string): (v: RedisValue)
    ensures v.Nil? <==> key !in t.values
    ensures !v.Integer?
    ensures v.Raw? ==> Lookup(t, key) == Some(v.text)
  {
    match Lookup(t, key)
    case None => Nil
    case Some(s) => Raw(s)
  }

  /** `GetCount` as written: the number when the GET reply `IsInteger`, and 0 otherwise. */
  function CountAsWritten(t: Table, key: string): int {
    match StringGet(t, key)
    case Integer(number) => number
    case _ => 0
  }

  /**
   * The as-written read misses every counter: a key that one increment set
   * to 1 reads 0, so every range total built from it is 0.
   */
  lemma CountAsWrittenMissesCounters(t: Table, now: int, key: string, maxLimit: int)
    requires key !in t.values
    ensures var after := Increment(t, now, key, maxLimit).table;
      Count(after, key) == 1 && CountAsWritten(after, key) == 0
  {
  }

  /**
   * `GetCount` as intended (`Count`): the GET reply of a counter is its decimal
   * text, and parsing that text gives back the count.
   */
  lemma CountReadsBackGet(t: Table, key: string)
    requires key in t.values && t.values[key].Counter? && t.values[key].count >= 0
    ensures var v := StringGet(t, key);
      && v.Raw?
      && (forall i :: 0 <= i < |v.text| ==> IsDigit(v.text[i]))
      && ParseDigits(v.text) == Count(t, key)
  {
    DecimalRoundTrip(t.values[key].count);
  }

  /**
   * `IncrementWithExpiration`: INCR the key (absent counts as 0), give it a
   * one-second TTL when the new count is 1, and answer `newCount <= maxLimit`.
   */
  function Increment(t: Table, now: int, key: string, maxLimit: int): (r: Reply)
    ensures r.answer.Failure? <==> HoldsText(t, key)
    ensures r.answer.Failure? ==> r.table == t && r.answer.error == NotAnInteger
    ensures r.answer.Success? ==>
      && key in r.table.values && r.table.values[key].Counter?
      && Count(r.table, key) == Count(t, key) + 1
      && r.answer.value == (Count(r.table, key) <= maxLimit)
      && (Count(r.table, key) == 1 ==> r.table.deadlines == t.deadlines[key := now + TicksPerSecond])
      && (Count(r.table, key) != 1 ==> r.table.deadlines == t.deadlines)
    ensures r.table.values - {key} == t.values - {key}
    ensures r.table.deadlines - {key} == t.deadlines - {key}
    ensures Consistent(t, now) ==> Consistent(r.table, now)
    ensures OnlyCounters(t) ==> OnlyCounters(r.table) && r.answer.Success?
    ensures Consistent(t, now) && r.answer.Success? ==> (Count(r.table, key) == 1 <==> key !in t.values)
  {
    if HoldsText(t, key) then Reply(t, Failure(NotAnInteger))
    else
      var count := Count(t, key) + 1;
      var values := t.values[key := Counter(count)];
      var deadlines := if count == 1 then t.deadlines[key := now + TicksPerSecond] else t.deadlines;
      Reply(Table(values, deadlines), Success(count <= maxLimit))
  }

  /** `Set`: store text with a TTL of `expiration` ticks; Redis refuses a non-positive TTL. */
  function Put(t: Table, now: int, key: string, value: string, expiration: int): (r: Result<Table, StoreError>)
    ensures r.Failure? <==> expiration <= 0
    ensures r.Failure? ==> r.error == InvalidExpireTime
    ensures r.Success? ==>
      && r.value.values == t.values[key := Text(value)]
      && r.value.deadlines == t.deadlines[key := now + expiration]
    ensures Consistent(t, now) && r.Success? ==> Consistent(r.value, now)
  {
    if expiration <= 0 then Failure(InvalidExpireTime)
    else Success(Table(t.values[key := Text(value)], t.deadlines[key := now + expiration]))
  }

  /** `Delete`: drop the key and its TTL. */
  function Remove(t: Table, key: string): (r: Table)
    ensures r.values == t.values - {key} && r.deadlines == t.deadlines - {key}
    ensures Count(r, key) == 0 && Lookup(r, key) == None
    ensures forall now :: Consistent(t, now) ==> Consistent(r, now)
  {
    Table(t.values - {key}, t.deadlines - {key})
  }

  /** `KeyTimeToLive`: the remaining TTL in ticks, `null` for a missing key or one without TTL. */
  function TimeToLive(t: Table, now: int, key: string): (r: Option<int>)
    ensures r.Some? <==> key in t.deadlines
    ensures Consistent(t, now) && r.Some? ==> r.value >= 0
  {
    if key in t.deadlines then Some(t.deadlines[key] - now) else None
  }

  /**
   * `GetLastAccessTime`: now plus the remaining TTL. It is the key's expiry
   * deadline when it has one, and now otherwise; nothing records real accesses.
   */
  function LastAccess(t: Table, now: int, key: string): (r: int)
    ensures key in t.deadlines ==> r == t.deadlines[key]
    ensures key !in t.deadlines ==> r == now
    ensures Consistent(t, now) ==> r >= now
    ensures r > now ==> key in t.deadlines
  {
    now + TimeToLive(t, now, key).GetOr(0)
  }

  /** Redis treats a key as expired only once the clock is strictly past its deadline. */
  predicate Expired(t: Table, now: int, key: string) {
    key in t.deadlines && t.deadlines[key] < now
  }

  /** Natural expiry at time `now`: every key whose deadline has passed disappears. */
  function Expire(t: Table, now: int): (r: Table)
    ensures forall k :: k in r.values <==> k in t.values && !Expired(t, now, k)
    ensures forall k :: k in r.values ==> r.values[k] == t.values[k]
    ensures forall k :: k in r.deadlines <==> k in t.deadlines && !Expired(t, now, k)
    ensures forall k :: k in r.deadlines ==> r.deadlines[k] == t.deadlines[k]
    ensures forall before :: before <= now && Consistent(t, before) ==> Consistent(r, now)
  {
    Table(map k | k in t.values && !Expired(t, now, k) :: t.values[k],
          map k | k in t.deadlines && !Expired(t, now, k) :: t.deadlines[k])
  }

  /** A value written by `Set` reads back up to and including its deadline. */
  lemma GetAfterSet(t: Table, now: int, key: string, value: string, expiration: int, later: int)
    requires expiration > 0 && now <= later <= now + expiration
    ensures Put(t, now, key, value, expiration).Success?
    ensures Lookup(Expire(Put(t, now, key, value, expiration).value, later), key) == Some(value)
  {
  }

  /**
   * An admission counter lives for one second: once the clock is past the
   * deadline set by its first increment, every read of it gives 0.
   */
  lemma CounterExpiresAfterOneSecond(t: Table, now: int, key: string, maxLimit: int, later: int)
    requires Consistent(t, now) && key !in t.values
    requires later > now + TicksPerSecond
    ensures Count(Expire(Increment(t, now, key, maxLimit).table, later), key) == 0
  {
  }

  /** Up to and including its deadline, a new counter still reads its count. */
  lemma CounterLivesThroughItsSecond(t: Table, now: int, key: string, maxLimit: int, later: int)
    requires Consistent(t, now) && key !in t.values
    requires now <= later <= now + TicksPerSecond
    ensures Count(Expire(Increment(t, now, key, maxLimit).table, later), key) == 1
  {
  }

  /**
   * N successive increments of one key at a fixed time: the i-th answer is
   * `count + i + 1 <= maxLimit` where `count` is the count before the first one.
   */
  function IncrementRun(t: Table, now: int, key: string, maxLimit: int, n: nat): (r: (Table, seq<bool>))
    requires !HoldsText(t, key)
    ensures |r.1| == n && !HoldsText(r.0, key)
    ensures Count(r.0, key) == Count(t, key) + n
    ensures r.0.values - {key} == t.values - {key}
    ensures forall i :: 0 <= i < n ==> r.1[i] == (Count(t, key) + i + 1 <= maxLimit)
  {
    if n == 0 then (t, [])
    else
      var (mid, answers) := IncrementRun(t, now, key, maxLimit, n - 1);
      var step := Increment(mid, now, key, maxLimit);
      (step.table, answers + [step.answer.value])
  }

  /**
   * On a key that starts the bucket absent, a run of N increments with limit
   * L >= 0 says `true` exactly min(N, L) times, and the trues come first.
   */
  lemma {:induction false} IncrementRunAdmitsMin(t: Table, now: int, key: string, maxLimit: int, n: nat)
    requires key !in t.values && maxLimit >= 0
    ensures var answers := IncrementRun(t, now, key, maxLimit, n).1;
      && Counting.TrueCount(answers) == Counting.Min(n, maxLimit)
      && forall i, j :: 0 <= i < j < n && answers[j] ==> answers[i]
  {
    var answers := IncrementRun(t, now, key, maxLimit, n).1;
    if n > 0 {
      IncrementRunAdmitsMin(t, now, key, maxLimit, n - 1);
      assert answers[..n - 1] == IncrementRun(t, now, key, maxLimit, n - 1).1;
    }
  }

  /** The counter store. Its clock is the current instant of the modelled system. */
  class RedisService {
    var values: map<string, Value>
    var deadlines: map<string, int>
    var clock: Instant

    function Snapshot(): Table
      reads this
    {
      Table(values, deadlines)
    }

    ghost predicate Valid()
      reads this
    {
      Consistent(Snapshot(), clock)
    }

    /** An empty store whose clock reads `now`. */
    constructor (now: Instant)
      ensures Valid() && values == map[] && deadlines == map[] && clock == now
    {
      values, deadlines, clock := map[], map[], now;
    }

    method IncrementWithExpiration(key: string, maxLimit: int) returns (r: Result<bool, StoreError>)
      requires Valid()
      modifies this
      ensures Valid() && clock == old(clock)
      ensures Reply(Snapshot(), r) == Increment(old(Snapshot()), clock, key, maxLimit)
    {
      if HoldsText(Snapshot(), key) {
        return Failure(NotAnInteger);
      }
      var count := GetCount(key) + 1;
      values := values[key := Counter(count)];
      if count == 1 {
        deadlines := deadlines[key := clock + TicksPerSecond];
      }
      return Success(count <= maxLimit);
    }

    method Set(key: string, value: string, expiration: int) returns (error: Option<StoreError>)
      requires Valid()
      modifies this
      ensures Valid() && clock == old(clock)
      ensures match Put(old(Snapshot()), clock, key, value, expiration)
        case Success(t) => error == None && Snapshot() == t
        case Failure(e) => error == Some(e) && Snapshot() == old(Snapshot())
    {
      if expiration <= 0 {
        return Some(InvalidExpireTime);
      }
      values := values[key := Text(value)];
      deadlines := deadlines[key := clock + expiration];
      return None;
    }

    function Get(key: string): Option<string>
      reads this
    {
      Lookup(Snapshot(), key)
    }

    method Delete(key: string)
      requires Valid()
      modifies this
      ensures Valid() && clock == old(clock)
      ensures Snapshot() == Remove(old(Snapshot()), key)
      ensures GetCount(key) == 0
    {
      values := values - {key};
      deadlines := deadlines - {key};
    }

    function GetCount(key: string): int
      reads this
    {
      Count(Snapshot(), key)
    }

    function GetLastAccessTime(key: string): int
      reads this
    {
      LastAccess(Snapshot(), clock, key)
    }

    /** Forwards to `Delete`, so the two have the same effect. */
    method DeleteKey(key: string)
      requires Valid()
      modifies this
      ensures Valid() && clock == old(clock)
      ensures Snapshot() == Remove(old(Snapshot()), key)
      ensures GetCount(key) == 0
    {
      Delete(key);
    }

    /** Time passes to `now`; Redis evicts the keys whose TTL ran out. */
    method Advance(now: Instant)
      requires Valid() && clock <= now
      modifies this
      ensures Valid() && clock == now
      ensures Snapshot() == Expire(old(Snapshot()), now)
    {
      var t := Expire(Snapshot(), now);
      values, deadlines, clock := t.values, t.deadlines, now;
    }
  }
}
