/**
 * The admission limiter (`RateLimiterService`). It keeps no state of its own:
 * its three fields never change, and each check is one increment of one
 * store key derived from the sender and the current whole second.
 */
module RateLimiting {
  import opened Wrappers
  import opened Keys
  import opened Store

  class RateLimiterService {
    const redisService: RedisService
    const maxMessagesPerSenderPerSec: int
    const maxMessagesGlobalPerSec: int

    constructor (redisService: RedisService, maxMessagesPerSenderPerSec: int, maxMessagesGlobalPerSec: int)
      ensures this.redisService == redisService
      ensures this.maxMessagesPerSenderPerSec == maxMessagesPerSenderPerSec
      ensures this.maxMessagesGlobalPerSec == maxMessagesGlobalPerSec
    {
      this.redisService := redisService;
      this.maxMessagesPerSenderPerSec := maxMessagesPerSenderPerSec;
      this.maxMessagesGlobalPerSec := maxMessagesGlobalPerSec;
    }

    /** The store's answer for this second's key of the sender, with the per-sender limit. */
    method CanSend(senderPhoneNumber: string) returns (r: Result<bool, StoreError>)
      requires redisService.Valid()
      modifies redisService
      ensures redisService.Valid() && redisService.clock == old(redisService.clock)
      ensures Reply(redisService.Snapshot(), r) ==
        Increment(old(redisService.Snapshot()), redisService.clock,
                  SenderKey(senderPhoneNumber, SecondOf(redisService.clock)), maxMessagesPerSenderPerSec)
    {
      var senderKey := SenderKey(senderPhoneNumber, SecondOf(redisService.clock));
      r := redisService.IncrementWithExpiration(senderKey, maxMessagesPerSenderPerSec);
    }

    /** The store's answer for this second's global key, with the global limit. */
    method CanSendGlobal() returns (r: Result<bool, StoreError>)
      requires redisService.Valid()
      modifies redisService
      ensures redisService.Valid() && redisService.clock == old(redisService.clock)
      ensures Reply(redisService.Snapshot(), r) ==
        Increment(old(redisService.Snapshot()), redisService.clock,
                  GlobalKey(SecondOf(redisService.clock)), maxMessagesGlobalPerSec)
    {
      var globalKey := GlobalKey(SecondOf(redisService.clock));
      r := redisService.IncrementWithExpiration(globalKey, maxMessagesGlobalPerSec);
    }
  }

  /** A sender check leaves the global counter and every other sender's counter as they were. */
  lemma SenderCheckTouchesOnlyItsKey(t: Table, now: Instant, sender: string, limit: int)
    ensures var r := Increment(t, now, SenderKey(sender, SecondOf(now)), limit).table;
      && Count(r, GlobalKey(SecondOf(now))) == Count(t, GlobalKey(SecondOf(now)))
      && forall other :: other != sender ==>
           Count(r, SenderKey(other, SecondOf(now))) == Count(t, SenderKey(other, SecondOf(now)))
  {
    var sec := SecondOf(now);
    var sk := SenderKey(sender, sec);
    var r := Increment(t, now, sk, limit).table;
    SenderKeyIsNotGlobal(sender, sec, sec);
    assert GlobalKey(sec) in r.values - {sk} <==> GlobalKey(sec) in t.values - {sk};
    forall other | other != sender
      ensures Count(r, SenderKey(other, sec)) == Count(t, SenderKey(other, sec))
    {
      SenderKeyInjective(sender, sec, other, sec);
      assert SenderKey(other, sec) in r.values - {sk} <==> SenderKey(other, sec) in t.values - {sk};
    }
  }

  /** A global check leaves every sender's counter as it was. */
  lemma GlobalCheckTouchesNoSender(t: Table, now: Instant, limit: int, sender: string)
    ensures var r := Increment(t, now, GlobalKey(SecondOf(now)), limit).table;
      Count(r, SenderKey(sender, SecondOf(now))) == Count(t, SenderKey(sender, SecondOf(now)))
  {
    var sec := SecondOf(now);
    SenderKeyIsNotGlobal(sender, sec, sec);
    var r := Increment(t, now, GlobalKey(sec), limit).table;
    assert SenderKey(sender, sec) in r.values - {GlobalKey(sec)} <==> SenderKey(sender, sec) in t.values - {GlobalKey(sec)};
  }
}
