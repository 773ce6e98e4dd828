/**
 * The rate limiter's load tests, with their concurrent calls taken as one
 * sequential interleaving (each store key being updated atomically) and the
 * clock held inside one second. The methods drive the real classes; the
 * lemmas say what their answers add up to.
 */
module LoadScenarios {
  import opened Wrappers
  import opened Keys
  import opened Store
  import opened RateLimiting
  import opened Messaging
  import opened Counting

  /** How many of `calls` from sender `s` were admitted. */
  function AdmittedFor(calls: seq<string>, answers: seq<bool>, s: string): (n: nat)
    requires |answers| == |calls|
    ensures n <= Occurrences(calls, s)
  {
    if |calls| == 0 then 0
    else AdmittedFor(calls[..|calls| - 1], answers[..|calls| - 1], s)
         + (if calls[|calls| - 1] == s && answers[|calls| - 1] then 1 else 0)
  }

  /**
   * The answers of `CanSend` for the senders of `calls`, in order, when every
   * sender's bucket starts empty: a call is admitted when it is among the
   * first `limit` of its own sender.
   */
  function InterleavedAdmissions(calls: seq<string>, limit: int): (answers: seq<bool>)
    ensures |answers| == |calls|
  {
    if |calls| == 0 then []
    else
      var init := calls[..|calls| - 1];
      InterleavedAdmissions(init, limit) + [Occurrences(init, calls[|calls| - 1]) + 1 <= limit]
  }

  /** Senders are independent: whatever the interleaving, each gets min(its calls, limit). */
  lemma {:induction false} EachSenderGetsItsLimit(calls: seq<string>, limit: int, s: string)
    ensures AdmittedFor(calls, InterleavedAdmissions(calls, limit), s) == Min(Occurrences(calls, s), Max(limit, 0))
  {
    if |calls| > 0 {
      var init := calls[..|calls| - 1];
      var answers := InterleavedAdmissions(calls, limit);
      assert answers[..|calls| - 1] == InterleavedAdmissions(init, limit);
      EachSenderGetsItsLimit(init, limit, s);
    }
  }

  /** `MultipleSimultaneousRequests_RespectSenderRateLimit`: `n` checks of one sender. */
  method SenderBurst(limiter: RateLimiterService, sender: string, n: nat) returns (answers: seq<bool>)
    requires limiter.redisService.Valid()
    requires !HoldsText(limiter.redisService.Snapshot(), SenderKey(sender, SecondOf(limiter.redisService.clock)))
    modifies limiter.redisService
    ensures limiter.redisService.Valid() && limiter.redisService.clock == old(limiter.redisService.clock)
    ensures (limiter.redisService.Snapshot(), answers) ==
      IncrementRun(old(limiter.redisService.Snapshot()), limiter.redisService.clock,
                   SenderKey(sender, SecondOf(limiter.redisService.clock)), limiter.maxMessagesPerSenderPerSec, n)
    ensures SenderKey(sender, SecondOf(limiter.redisService.clock)) !in old(limiter.redisService.values)
            && limiter.maxMessagesPerSenderPerSec >= 0
      ==> TrueCount(answers) == Min(n, limiter.maxMessagesPerSenderPerSec)
  {
    var store := limiter.redisService;
    ghost var start := store.Snapshot();
    var key := SenderKey(sender, SecondOf(store.clock));
    answers := [];
    var i := 0;
    while i < n
      invariant 0 <= i <= n
      invariant store.Valid() && store.clock == old(store.clock)
      invariant (store.Snapshot(), answers) == IncrementRun(start, store.clock, key, limiter.maxMessagesPerSenderPerSec, i)
    {
      var r := limiter.CanSend(sender);
      answers := answers + [r.value];
      i := i + 1;
    }
    if key !in start.values && limiter.maxMessagesPerSenderPerSec >= 0 {
      IncrementRunAdmitsMin(start, store.clock, key, limiter.maxMessagesPerSenderPerSec, n);
    }
  }

  /** `MultipleSimultaneousRequests_RespectGlobalRateLimit`: `n` global checks. */
  method GlobalBurst(limiter: RateLimiterService, n: nat) returns (answers: seq<bool>)
    requires limiter.redisService.Valid()
    requires !HoldsText(limiter.redisService.Snapshot(), GlobalKey(SecondOf(limiter.redisService.clock)))
    modifies limiter.redisService
    ensures limiter.redisService.Valid() && limiter.redisService.clock == old(limiter.redisService.clock)
    ensures (limiter.redisService.Snapshot(), answers) ==
      IncrementRun(old(limiter.redisService.Snapshot()), limiter.redisService.clock,
                   GlobalKey(SecondOf(limiter.redisService.clock)), limiter.maxMessagesGlobalPerSec, n)
    ensures GlobalKey(SecondOf(limiter.redisService.clock)) !in old(limiter.redisService.values)
            && limiter.maxMessagesGlobalPerSec >= 0
      ==> TrueCount(answers) == Min(n, limiter.maxMessagesGlobalPerSec)
  {
    var store := limiter.redisService;
    ghost var start := store.Snapshot();
    var key := GlobalKey(SecondOf(store.clock));
    answers := [];
    var i := 0;
    while i < n
      invariant 0 <= i <= n
      invariant store.Valid() && store.clock == old(store.clock)
      invariant (store.Snapshot(), answers) == IncrementRun(start, store.clock, key, limiter.maxMessagesGlobalPerSec, i)
    {
      var r := limiter.CanSendGlobal();
      answers := answers + [r.value];
      i := i + 1;
    }
    if key !in start.values && limiter.maxMessagesGlobalPerSec >= 0 {
      IncrementRunAdmitsMin(start, store.clock, key, limiter.maxMessagesGlobalPerSec, n);
    }
  }

  /** One more call of the interleaving: only the caller's bucket moves. */
  lemma InterleavedStep(t: Table, now: Instant, calls: seq<string>, i: nat, limit: int)
    requires OnlyCounters(t) && i < |calls|
    requires forall j :: 0 <= j < |calls| ==>
      Count(t, SenderKey(calls[j], SecondOf(now))) == Occurrences(calls[..i], calls[j])
    ensures var r := Increment(t, now, SenderKey(calls[i], SecondOf(now)), limit);
      && OnlyCounters(r.table)
      && r.answer == Success(Occurrences(calls[..i], calls[i]) + 1 <= limit)
      && InterleavedAdmissions(calls[..i + 1], limit) == InterleavedAdmissions(calls[..i], limit) + [r.answer.value]
      && forall j :: 0 <= j < |calls| ==>
           Count(r.table, SenderKey(calls[j], SecondOf(now))) == Occurrences(calls[..i + 1], calls[j])
  {
    assert calls[..i + 1][..i] == calls[..i];
    SenderCheckTouchesOnlyItsKey(t, now, calls[i], limit);
  }

  /**
   * `MultipleSimultaneousRequests_FromDifferentSenders`: the checks of several
   * senders in any interleaving, every sender's bucket starting empty.
   */
  method InterleavedSenders(limiter: RateLimiterService, calls: seq<string>) returns (answers: seq<bool>)
    requires limiter.redisService.Valid()
    requires OnlyCounters(limiter.redisService.Snapshot())
    requires forall j :: 0 <= j < |calls| ==>
      SenderKey(calls[j], SecondOf(limiter.redisService.clock)) !in limiter.redisService.values
    modifies limiter.redisService
    ensures limiter.redisService.Valid() && limiter.redisService.clock == old(limiter.redisService.clock)
    ensures answers == InterleavedAdmissions(calls, limiter.maxMessagesPerSenderPerSec)
    ensures forall s :: (AdmittedFor(calls, answers, s) ==
      Min(Occurrences(calls, s), Max(limiter.maxMessagesPerSenderPerSec, 0)))
  {
    var store := limiter.redisService;
    var sec := SecondOf(store.clock);
    var limit := limiter.maxMessagesPerSenderPerSec;
    answers := [];
    var i := 0;
    while i < |calls|
      invariant 0 <= i <= |calls|
      invariant store.Valid() && store.clock == old(store.clock)
      invariant OnlyCounters(store.Snapshot())
      invariant answers == InterleavedAdmissions(calls[..i], limit)
      invariant forall j :: 0 <= j < |calls| ==>
        Count(store.Snapshot(), SenderKey(calls[j], sec)) == Occurrences(calls[..i], calls[j])
    {
      InterleavedStep(store.Snapshot(), store.clock, calls, i, limit);
      var r := limiter.CanSend(calls[i]);
      answers := answers + [r.value];
      i := i + 1;
    }
    assert calls[..|calls|] == calls;
    forall s ensures AdmittedFor(calls, answers, s) == Min(Occurrences(calls, s), Max(limit, 0)) {
      EachSenderGetsItsLimit(calls, limit, s);
    }
  }

  /** One `CanSendMessage` on a table of counters, as the send loop below uses it. */
  lemma AdmissionStep(t: Table, now: Instant, sender: string, maxPerSender: int, maxGlobal: int)
    requires OnlyCounters(t)
    ensures var r := Admission(t, now, sender, maxPerSender, maxGlobal);
      var gk, sk := GlobalKey(SecondOf(now)), SenderKey(sender, SecondOf(now));
      && OnlyCounters(r.table) && r.answer.Success?
      && Count(r.table, gk) == Count(t, gk) + 1
      && Count(t, sk) <= Count(r.table, sk) <= Count(t, sk) + 1
      && (r.answer.value ==> Count(r.table, gk) <= maxGlobal)
      && (r.answer.value ==> Count(r.table, sk) == Count(t, sk) + 1 <= maxPerSender)
      && forall other :: other != sender ==>
           Count(r.table, SenderKey(other, SecondOf(now))) == Count(t, SenderKey(other, SecondOf(now)))
  {
    var g := Increment(t, now, GlobalKey(SecondOf(now)), maxGlobal);
    GlobalCheckTouchesNoSender(t, now, maxGlobal, sender);
    forall other ensures Count(g.table, SenderKey(other, SecondOf(now))) == Count(t, SenderKey(other, SecondOf(now))) {
      GlobalCheckTouchesNoSender(t, now, maxGlobal, other);
    }
    SenderCheckTouchesOnlyItsKey(g.table, now, sender, maxPerSender);
  }

  function SendersOf(requests: seq<SmsRequest>): (senders: seq<string>)
    ensures |senders| == |requests|
  {
    seq(|requests|, i requires 0 <= i < |requests| => Interpolated(requests[i].senderPhoneNumber))
  }

  /**
   * `RealWorldScenario_MixedSenderAndGlobalLimits`, sent through
   * `MessageService`: within one second, however the requests interleave, at
   * most the global limit of them succeed, and at most the per-sender limit
   * of any one sender's.
   */
  method SendAll(service: MessageService, requests: seq<SmsRequest>) returns (allowed: seq<bool>)
    requires service.rateLimiter.redisService.Valid()
    requires OnlyCounters(service.rateLimiter.redisService.Snapshot())
    modifies service.rateLimiter.redisService
    ensures |allowed| == |requests|
    ensures TrueCount(allowed) <= Max(service.rateLimiter.maxMessagesGlobalPerSec, 0)
    ensures forall s :: (AdmittedFor(SendersOf(requests), allowed, s) <=
      Max(service.rateLimiter.maxMessagesPerSenderPerSec, 0))
  {
    var store := service.rateLimiter.redisService;
    var sec := SecondOf(store.clock);
    var maxGlobal := service.rateLimiter.maxMessagesGlobalPerSec;
    var maxPerSender := service.rateLimiter.maxMessagesPerSenderPerSec;
    var senders := SendersOf(requests);
    allowed := [];
    var i := 0;
    while i < |requests|
      invariant 0 <= i <= |requests| && |allowed| == i
      invariant store.Valid() && store.clock == old(store.clock)
      invariant OnlyCounters(store.Snapshot())
      invariant TrueCount(allowed) <= Count(store.Snapshot(), GlobalKey(sec))
      invariant TrueCount(allowed) <= Max(maxGlobal, 0)
      invariant forall s ::
        && AdmittedFor(senders[..i], allowed, s) <= Count(store.Snapshot(), SenderKey(s, sec))
        && AdmittedFor(senders[..i], allowed, s) <= Max(maxPerSender, 0)
    {
      ghost var before := store.Snapshot();
      ghost var wereAllowed := allowed;
      var r := service.CanSendMessage(requests[i]);
      AdmissionStep(before, store.clock, senders[i], maxPerSender, maxGlobal);
      allowed := allowed + [r.value];
      assert allowed[..i] == wereAllowed;
      forall s
        ensures AdmittedFor(senders[..i + 1], allowed, s) <= Count(store.Snapshot(), SenderKey(s, sec))
        ensures AdmittedFor(senders[..i + 1], allowed, s) <= Max(maxPerSender, 0)
      {
        assert senders[..i + 1][..i] == senders[..i];
      }
      i := i + 1;
    }
    assert senders[..|requests|] == senders;
  }

  /**
   * The check of `RealWorldScenario_MixedSenderAndGlobalLimits`: the sender's
   * bucket first, and the global one only when the sender was admitted
   * (the reverse of `MessageService`'s order).
   */
  function SenderFirstAdmission(t: Table, now: Instant, sender: string, maxPerSender: int, maxGlobal: int): Reply {
    var s := Increment(t, now, SenderKey(sender, SecondOf(now)), maxPerSender);
    if s.answer != Success(true) then s
    else Increment(s.table, now, GlobalKey(SecondOf(now)), maxGlobal)
  }

  lemma SenderFirstStep(t: Table, now: Instant, sender: string, maxPerSender: int, maxGlobal: int)
    requires OnlyCounters(t)
    ensures var r := SenderFirstAdmission(t, now, sender, maxPerSender, maxGlobal);
      var gk, sk := GlobalKey(SecondOf(now)), SenderKey(sender, SecondOf(now));
      && OnlyCounters(r.table) && r.answer.Success?
      && Count(r.table, sk) == Count(t, sk) + 1
      && Count(t, gk) <= Count(r.table, gk) <= Count(t, gk) + 1
      && (r.answer.value ==> Count(r.table, sk) <= maxPerSender)
      && (r.answer.value ==> Count(r.table, gk) == Count(t, gk) + 1 <= maxGlobal)
      && forall other :: other != sender ==>
           Count(r.table, SenderKey(other, SecondOf(now))) == Count(t, SenderKey(other, SecondOf(now)))
  {
    var s := Increment(t, now, SenderKey(sender, SecondOf(now)), maxPerSender);
    SenderCheckTouchesOnlyItsKey(t, now, sender, maxPerSender);
    if s.answer == Success(true) {
      GlobalCheckTouchesNoSender(s.table, now, maxGlobal, sender);
      forall other ensures Count(Increment(s.table, now, GlobalKey(SecondOf(now)), maxGlobal).table, SenderKey(other, SecondOf(now)))
                           == Count(s.table, SenderKey(other, SecondOf(now))) {
        GlobalCheckTouchesNoSender(s.table, now, maxGlobal, other);
      }
    }
  }

  /**
   * `RealWorldScenario_MixedSenderAndGlobalLimits`: `CanSend(sender) &&
   * CanSendGlobal()` for every entry of `senders`, within one second. At most
   * the global limit of the checks pass, and at most the per-sender limit of
   * any one sender's.
   */
  method MixedLimits(limiter: RateLimiterService, senders: seq<string>) returns (allowed: seq<bool>)
    requires limiter.redisService.Valid()
    requires OnlyCounters(limiter.redisService.Snapshot())
    modifies limiter.redisService
    ensures |allowed| == |senders|
    ensures TrueCount(allowed) <= Max(limiter.maxMessagesGlobalPerSec, 0)
    ensures forall s :: (AdmittedFor(senders, allowed, s) <= Max(limiter.maxMessagesPerSenderPerSec, 0))
  {
    var store := limiter.redisService;
    var sec := SecondOf(store.clock);
    var maxGlobal := limiter.maxMessagesGlobalPerSec;
    var maxPerSender := limiter.maxMessagesPerSenderPerSec;
    allowed := [];
    var i := 0;
    while i < |senders|
      invariant 0 <= i <= |senders| && |allowed| == i
      invariant store.Valid() && store.clock == old(store.clock)
      invariant OnlyCounters(store.Snapshot())
      invariant TrueCount(allowed) <= Count(store.Snapshot(), GlobalKey(sec))
      invariant TrueCount(allowed) <= Max(maxGlobal, 0)
      invariant forall s ::
        && AdmittedFor(senders[..i], allowed, s) <= Count(store.Snapshot(), SenderKey(s, sec))
        && AdmittedFor(senders[..i], allowed, s) <= Max(maxPerSender, 0)
    {
      ghost var before := store.Snapshot();
      ghost var wereAllowed := allowed;
      SenderFirstStep(before, store.clock, senders[i], maxPerSender, maxGlobal);
      var canSend := limiter.CanSend(senders[i]);
      if canSend == Success(true) {
        canSend := limiter.CanSendGlobal();
      }
      allowed := allowed + [canSend.value];
      assert allowed[..i] == wereAllowed;
      forall s
        ensures AdmittedFor(senders[..i + 1], allowed, s) <= Count(store.Snapshot(), SenderKey(s, sec))
        ensures AdmittedFor(senders[..i + 1], allowed, s) <= Max(maxPerSender, 0)
      {
        assert senders[..i + 1][..i] == senders[..i];
      }
      i := i + 1;
    }
    assert senders[..|senders|] == senders;
  }
}
