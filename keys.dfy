/**
 * Window keying: the instant type, the per-second bucket and the bucket keys
 * the rate limiter writes and the metrics reader enumerates.
 *
 * An instant is a .NET `DateTime` tick count (100 ns units, 0 up to
 * `DateTime.MaxValue`). The `yyyyMMddHHmmss` formatting of a whole second is
 * abstracted as the 14-digit zero-padded decimal of the second count: like the
 * real format it is fixed-width, made of digits only and injective over all
 * seconds a `DateTime` can hold.
 */
module Keys {

  const TicksPerSecond: int := 10_000_000
  /** `DateTime.MaxValue.Ticks`. */
  const MaxTicks: int := 3_155_378_975_999_999_999
  /** The last whole second a `DateTime` can hold. */
  const MaxSecond: int := 315_537_897_599
  /** Width of the timestamp suffix (`yyyyMMddHHmmss` has 14 characters). */
  const StampWidth: nat := 14

  type Instant = t: int | 0 <= t <= MaxTicks

  /** The whole second an instant falls in: the bucket. */
  function SecondOf(t: Instant): (s: nat)
    ensures s <= MaxSecond
    ensures s * TicksPerSecond <= t < (s + 1) * TicksPerSecond
  {
    t / TicksPerSecond
  }

  function Pow10(n: nat): nat {
    if n == 0 then 1 else 10 * Pow10(n - 1)
  }

  predicate IsDigit(c: char) { '0' <= c <= '9' }

  function DigitChar(d: nat): (c: char)
    requires d < 10
    ensures IsDigit(c)
  {
    "0123456789"[d]
  }

  function DigitValue(c: char): (d: nat)
    requires IsDigit(c)
    ensures d < 10
  {
    (c as int) - ('0' as int)
  }

  /** The last `width` decimal digits of `n`, zero-padded on the left. */
  function Padded(n: nat, width: nat): (s: string)
    ensures |s| == width
    ensures forall i :: 0 <= i < |s| ==> IsDigit(s[i])
  {
    if width == 0 then "" else Padded(n / 10, width - 1) + [DigitChar(n % 10)]
  }

  /** The shortest decimal rendering of `n`. */
  function Decimal(n: nat): (s: string)
    ensures |s| >= 1
    ensures forall i :: 0 <= i < |s| ==> IsDigit(s[i])
  {
    if n < 10 then [DigitChar(n)] else Decimal(n / 10) + [DigitChar(n % 10)]
  }

  /** Reads a string of digits back as a number. */
  function ParseDigits(s: string): nat
    requires forall i :: 0 <= i < |s| ==> IsDigit(s[i])
  {
    if |s| == 0 then 0 else ParseDigits(s[..|s| - 1]) * 10 + DigitValue(s[|s| - 1])
  }

  lemma DigitRoundTrip(d: nat)
    requires d < 10
    ensures DigitValue(DigitChar(d)) == d
  {
  }

  lemma {:induction false} PaddedRoundTrip(n: nat, width: nat)
    requires n < Pow10(width)
    ensures ParseDigits(Padded(n, width)) == n
  {
    if width > 0 {
      PaddedRoundTrip(n / 10, width - 1);
      var s := Padded(n, width);
      assert s[..|s| - 1] == Padded(n / 10, width - 1);
      DigitRoundTrip(n % 10);
    }
  }

  lemma {:induction false} DecimalRoundTrip(n: nat)
    ensures ParseDigits(Decimal(n)) == n
  {
    if n < 10 {
      DigitRoundTrip(n);
    } else {
      DecimalRoundTrip(n / 10);
      var s := Decimal(n);
      assert s[..|s| - 1] == Decimal(n / 10);
      DigitRoundTrip(n % 10);
    }
  }

  /** The fixed-width timestamp of a whole second. */
  function Stamp(second: nat): (s: string)
    ensures |s| == StampWidth
    ensures forall i :: 0 <= i < |s| ==> IsDigit(s[i])
  {
    Padded(second, StampWidth)
  }

  /** Every second a `DateTime` can hold is recovered from its timestamp. */
  lemma StampRoundTrip(second: nat)
    requires second <= MaxSecond
    ensures ParseDigits(Stamp(second)) == second
  {
    assert Pow10(StampWidth) == 100_000_000_000_000;
    PaddedRoundTrip(second, StampWidth);
  }

  lemma StampInjective(a: nat, b: nat)
    requires a <= MaxSecond && b <= MaxSecond
    ensures Stamp(a) == Stamp(b) <==> a == b
  {
    if Stamp(a) == Stamp(b) {
      StampRoundTrip(a);
      StampRoundTrip(b);
    }
  }

  /** `$"{prefix}:{second:yyyyMMddHHmmss}"`, the key shape the metrics reader enumerates. */
  function BucketKey(prefix: string, second: nat): string {
    prefix + ":" + Stamp(second)
  }

  /** `$"rate_limit:{sender}:{now:yyyyMMddHHmmss}"`, the per-sender admission key. */
  function SenderKey(sender: string, second: nat): string {
    "rate_limit:" + sender + ":" + Stamp(second)
  }

  /** `$"global_rate_limit:{now:yyyyMMddHHmmss}"`, the global admission key. */
  function GlobalKey(second: nat): string {
    "global_rate_limit:" + Stamp(second)
  }

  /** The suffix of a bucket key is its timestamp, whatever the prefix. */
  lemma {:induction false} BucketKeyInjective(p: string, a: nat, q: string, b: nat)
    requires a <= MaxSecond && b <= MaxSecond
    ensures BucketKey(p, a) == BucketKey(q, b) <==> p == q && a == b
  {
    var k, l := BucketKey(p, a), BucketKey(q, b);
    if k == l {
      assert |p| == |q|;
      assert k[|k| - StampWidth..] == Stamp(a);
      assert l[|l| - StampWidth..] == Stamp(b);
      StampInjective(a, b);
      assert k[..|p|] == p;
      assert l[..|q|] == q;
    }
  }

  /** Distinct (sender, second) pairs get distinct keys, and equal pairs the same key. */
  lemma SenderKeyInjective(s: string, a: nat, t: string, b: nat)
    requires a <= MaxSecond && b <= MaxSecond
    ensures SenderKey(s, a) == SenderKey(t, b) <==> s == t && a == b
  {
    assert SenderKey(s, a) == BucketKey("rate_limit:" + s, a);
    assert SenderKey(t, b) == BucketKey("rate_limit:" + t, b);
    BucketKeyInjective("rate_limit:" + s, a, "rate_limit:" + t, b);
    if "rate_limit:" + s == "rate_limit:" + t {
      assert s == ("rate_limit:" + s)[11..];
    }
  }

  lemma GlobalKeyInjective(a: nat, b: nat)
    requires a <= MaxSecond && b <= MaxSecond
    ensures GlobalKey(a) == GlobalKey(b) <==> a == b
  {
    assert GlobalKey(a) == BucketKey("global_rate_limit", a);
    assert GlobalKey(b) == BucketKey("global_rate_limit", b);
    BucketKeyInjective("global_rate_limit", a, "global_rate_limit", b);
  }

  /** A sender key never collides with a global key, whatever the sender string. */
  lemma SenderKeyIsNotGlobal(s: string, a: nat, b: nat)
    ensures SenderKey(s, a) != GlobalKey(b)
  {
    assert SenderKey(s, a)[0] == 'r';
    assert GlobalKey(b)[0] == 'g';
  }

  /** A sender that ends one second starts the next one on a fresh key. */
  lemma NextSecondFreshKey(s: string, t: Instant, u: Instant)
    requires SecondOf(u) == SecondOf(t) + 1
    ensures SenderKey(s, SecondOf(u)) != SenderKey(s, SecondOf(t))
  {
    SenderKeyInjective(s, SecondOf(u), s, SecondOf(t));
  }
}
