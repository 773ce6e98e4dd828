/**
 * The send decision (`MessageService`) and its request and response types.
 */
module Messaging {
  import opened Wrappers
  import opened Keys
  import opened Store
  import opened RateLimiting

  /** A send request; `None` is a JSON `null` field. */
  datatype SmsRequest = SmsRequest(
    senderPhoneNumber: Option<string>,
    receiverPhoneNumber: Option<string>,
    message: Option<string>)

  datatype MessageResponse = MessageResponse(success: bool, message: string)

  const MessageSentSuccess: string := "Message sent successfully."
  const RateLimitExceeded: string := "Message sending restricted due to rate limits."

  function SuccessResponse(message: string): (r: MessageResponse)
    ensures r.success && r.message == message
  {
    MessageResponse(true, message)
  }

  function FailureResponse(message: string): (r: MessageResponse)
    ensures !r.success && r.message == message
  {
    MessageResponse(false, message)
  }

  /** How C# string interpolation renders a possibly-null string. */
  function Interpolated(s: Option<string>): string {
    s.GetOr("")
  }

  /**
   * `CanSendGlobal() && CanSend(sender)` on the table: the global counter is
   * incremented first, and the sender's only when the global check said true.
   * An exception from either check is the answer.
   */
  function Admission(t: Table, now: Instant, sender: string, maxPerSender: int, maxGlobal: int): Reply {
    var global := Increment(t, now, GlobalKey(SecondOf(now)), maxGlobal);
    if global.answer != Success(true) then global
    else Increment(global.table, now, SenderKey(sender, SecondOf(now)), maxPerSender)
  }

  /**
   * The decision is true exactly when both counts, after their increments,
   * stay within their limits (and neither key holds text).
   */
  lemma AdmissionIffBothAdmit(t: Table, now: Instant, sender: string, maxPerSender: int, maxGlobal: int)
    ensures var gk, sk := GlobalKey(SecondOf(now)), SenderKey(sender, SecondOf(now));
      Admission(t, now, sender, maxPerSender, maxGlobal).answer == Success(true) <==>
        && !HoldsText(t, gk) && Count(t, gk) + 1 <= maxGlobal
        && !HoldsText(t, sk) && Count(t, sk) + 1 <= maxPerSender
  {
    var sec := SecondOf(now);
    var gk, sk := GlobalKey(sec), SenderKey(sender, sec);
    SenderKeyIsNotGlobal(sender, sec, sec);
    var g := Increment(t, now, gk, maxGlobal);
    assert HoldsText(g.table, sk) == HoldsText(t, sk) by {
      assert sk in g.table.values - {gk} <==> sk in t.values - {gk};
    }
    GlobalCheckTouchesNoSender(t, now, maxGlobal, sender);
  }

  /** When the global check denies (or fails), the sender counter is not touched. */
  lemma GlobalDenialSkipsSender(t: Table, now: Instant, sender: string, maxPerSender: int, maxGlobal: int)
    requires Increment(t, now, GlobalKey(SecondOf(now)), maxGlobal).answer != Success(true)
    ensures var r := Admission(t, now, sender, maxPerSender, maxGlobal);
      && r.answer != Success(true)
      && Count(r.table, SenderKey(sender, SecondOf(now))) == Count(t, SenderKey(sender, SecondOf(now)))
      && r.table.values - {GlobalKey(SecondOf(now))} == t.values - {GlobalKey(SecondOf(now))}
  {
    GlobalCheckTouchesNoSender(t, now, maxGlobal, sender);
  }

  /** When the global check admits but the sender check denies, the global count has still gone up. */
  lemma SenderDenialStillCountsGlobal(t: Table, now: Instant, sender: string, maxPerSender: int, maxGlobal: int)
    requires Increment(t, now, GlobalKey(SecondOf(now)), maxGlobal).answer == Success(true)
    requires Admission(t, now, sender, maxPerSender, maxGlobal).answer == Success(false)
    ensures var r := Admission(t, now, sender, maxPerSender, maxGlobal).table;
      && Count(r, GlobalKey(SecondOf(now))) == Count(t, GlobalKey(SecondOf(now))) + 1
      && Count(r, SenderKey(sender, SecondOf(now))) == Count(t, SenderKey(sender, SecondOf(now))) + 1
  {
    var g := Increment(t, now, GlobalKey(SecondOf(now)), maxGlobal);
    SenderCheckTouchesOnlyItsKey(g.table, now, sender, maxPerSender);
    GlobalCheckTouchesNoSender(t, now, maxGlobal, sender);
  }

  /** The response for a decision: success with the sent message, or the rate-limit failure. */
  function ResponseFor(allowed: bool): (r: MessageResponse)
    ensures r.success == allowed
    ensures r.message == if allowed then MessageSentSuccess else RateLimitExceeded
  {
    if !allowed then FailureResponse(RateLimitExceeded) else SuccessResponse(MessageSentSuccess)
  }

  class MessageService {
    const rateLimiter: RateLimiterService

    constructor (rateLimiter: RateLimiterService)
      ensures this.rateLimiter == rateLimiter
    {
      this.rateLimiter := rateLimiter;
    }

    method CanSendMessage(request: SmsRequest) returns (r: Result<bool, StoreError>)
      requires rateLimiter.redisService.Valid()
      modifies rateLimiter.redisService
      ensures rateLimiter.redisService.Valid()
      ensures rateLimiter.redisService.clock == old(rateLimiter.redisService.clock)
      ensures Reply(rateLimiter.redisService.Snapshot(), r) ==
        Admission(old(rateLimiter.redisService.Snapshot()), rateLimiter.redisService.clock,
                  Interpolated(request.senderPhoneNumber),
                  rateLimiter.maxMessagesPerSenderPerSec, rateLimiter.maxMessagesGlobalPerSec)
    {
      r := rateLimiter.CanSendGlobal();
      if r != Success(true) {
        return;
      }
      r := rateLimiter.CanSend(Interpolated(request.senderPhoneNumber));
    }

    method SendMessage(request: SmsRequest) returns (r: Result<MessageResponse, StoreError>)
      requires rateLimiter.redisService.Valid()
      modifies rateLimiter.redisService
      ensures rateLimiter.redisService.Valid()
      ensures rateLimiter.redisService.clock == old(rateLimiter.redisService.clock)
      ensures var a := Admission(old(rateLimiter.redisService.Snapshot()), rateLimiter.redisService.clock,
                                 Interpolated(request.senderPhoneNumber),
                                 rateLimiter.maxMessagesPerSenderPerSec, rateLimiter.maxMessagesGlobalPerSec);
        && rateLimiter.redisService.Snapshot() == a.table
        && r == match a.answer
                case Success(allowed) => Success(ResponseFor(allowed))
                case Failure(e) => Failure(e)
    {
      var allowed := CanSendMessage(request);
      if allowed.Failure? {
        return Failure(allowed.error);
      }
      if !allowed.value {
        return Success(FailureResponse(RateLimitExceeded));
      }
      return Success(SuccessResponse(MessageSentSuccess));
    }
  }
}
