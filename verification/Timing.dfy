/** How often the lease is renewed: the heartbeat beside a cloud change (internal/ha/controller.go) and
    the supervisor's ticker (internal/ha/supervisor.go). All times are nanoseconds. */
module Timing {
  import opened Common
  import opened Lease
  import opened Stores

  function Max(a: int, b: int): int {
    if a < b then b else a
  }

  // ----- The heartbeat -----

  const MIN_RENEW_DELAY: Duration := 1 * SECOND
  const MAX_RENEW_DELAY: Duration := 5 * SECOND

  // Go's integer division by three rounds toward zero.
  function Third(d: Duration): Duration {
    if d >= 0 then d / 3 else -((-d) / 3)
  }

  function NextLeaseRenewDelay(expiresAt: Time, now: Time): Duration {
    var delay := Third(expiresAt - now);
    if delay < MIN_RENEW_DELAY then MIN_RENEW_DELAY
    else if delay > MAX_RENEW_DELAY then MAX_RENEW_DELAY
    else delay
  }

  /** Every delay lies within 1 and 5 s, and ends before the lease does whenever more than 1 s of it is
      left; with 1 s or less it does not. */
  lemma DelayBounds(expiresAt: Time, now: Time)
    ensures 1_000_000_000 <= NextLeaseRenewDelay(expiresAt, now) <= 5_000_000_000
    ensures NextLeaseRenewDelay(expiresAt, now) < expiresAt - now <==> expiresAt - now > 1_000_000_000
    // In between it is a third of what is left.
    ensures 3_000_000_000 <= expiresAt - now <= 15_000_000_000 ==>
              3 * NextLeaseRenewDelay(expiresAt, now) <= expiresAt - now < 3 * NextLeaseRenewDelay(expiresAt, now) + 3
    ensures expiresAt - now < 3_000_000_000 ==> NextLeaseRenewDelay(expiresAt, now) == 1_000_000_000
    ensures expiresAt - now > 15_000_000_000 ==> NextLeaseRenewDelay(expiresAt, now) == 5_000_000_000
  {
  }

  // The time a renewal may still take once its delay is over never shrinks with a longer lease.
  lemma SlackGrows(short: Duration, long: Duration)
    requires short <= long
    ensures short - NextLeaseRenewDelay(short, 0) <= long - NextLeaseRenewDelay(long, 0)
  {
  }

  lemma DelayShifts(expiresAt: Time, now: Time)
    ensures NextLeaseRenewDelay(expiresAt, now) == NextLeaseRenewDelay(expiresAt - now, 0)
  {
  }

  // The previous answer took a, the next request takes b: the next renewal reaches a live lease.
  predicate ArrivesInTime(ttl: Duration, a: Duration, b: Duration) {
    NextLeaseRenewDelay(ttl - a, 0) + b < ttl - a
  }

  // A renewal takes at most request to reach the store and at most reply to be answered; the lease
  // outlives the next renewal's arrival in the worst case.
  predicate HeartbeatSafe(ttl: Duration, request: Duration, reply: Duration) {
    ArrivesInTime(ttl, reply, request)
  }

  // The slowest renewal decides about all renewals.
  lemma HeartbeatSafeIff(ttl: Duration, request: Duration, reply: Duration)
    requires 0 <= request && 0 <= reply
    ensures HeartbeatSafe(ttl, request, reply) <==>
            forall a, b :: 0 <= a <= reply && 0 <= b <= request ==> ArrivesInTime(ttl, a, b)
  {
    if HeartbeatSafe(ttl, request, reply) {
      forall a, b | 0 <= a <= reply && 0 <= b <= request
        ensures ArrivesInTime(ttl, a, b)
      {
        SlackGrows(ttl - reply, ttl - a);
      }
    }
  }

  // For requests of at most 2 s, a TTL above 1 s plus the renewal's whole latency is enough.
  lemma QuickRequestsAreSafe(ttl: Duration, request: Duration, reply: Duration)
    requires 0 <= request <= 2 * SECOND && 0 <= reply
    ensures HeartbeatSafe(ttl, request, reply) <==> ttl > MIN_RENEW_DELAY + request + reply
  {
  }

  // ----- Runs of the heartbeat -----

  // One renewal: how long the request takes to the store, and the answer back.
  datatype Pulse = Pulse(request: Duration, reply: Duration)

  // At most how long a request takes to the store, and the answer back; and how long the check takes that reads the
  // lease again after the renewal a change begins with.
  datatype Latency = Latency(request: Duration, reply: Duration, check: Duration) {
    predicate Ok() {
      0 <= request && 0 <= reply && 0 <= check
    }

    // How old the stored lease may be when the heartbeat starts.
    function Age(): Duration {
      reply + check
    }
  }

  // The slowest renewal arrives in time, or a lease as old as can be outlives the limit.
  predicate Safe(ttl: Duration, l: Latency, limit: Duration) {
    HeartbeatSafe(ttl, l.request, l.Age()) || ttl - l.Age() > limit
  }

  // Time counts from the start of the change; the record it starts with was stored lag earlier.
  datatype Beating = Beating(ttl: Duration, lag: Duration, pulses: seq<Pulse>) {
    // How old the stored lease is when the i-th record is in hand.
    function Lag(i: nat): Duration
      requires i <= |pulses|
    {
      if i == 0 then lag else pulses[i - 1].reply
    }

    // When the i-th record is in hand and the timer is set for renewal i.
    function ReadyAt(i: nat): Time
      requires i <= |pulses|
    {
      if i == 0 then 0
      else
        var before := ReadyAt(i - 1);
        before + NextLeaseRenewDelay(before + ttl - Lag(i - 1), before) + pulses[i - 1].request + pulses[i - 1].reply
    }

    // When the lease ends that the i-th record stands for.
    function ExpiryAt(i: nat): Time
      requires i <= |pulses|
    {
      ReadyAt(i) + ttl - Lag(i)
    }

    // When the timer fires.
    function FiredAt(i: nat): Time
      requires i <= |pulses|
    {
      ReadyAt(i) + NextLeaseRenewDelay(ExpiryAt(i), ReadyAt(i))
    }

    // When renewal i reaches the store.
    function StoredAt(i: nat): Time
      requires i < |pulses|
    {
      FiredAt(i) + pulses[i].request
    }

    // Renewal i finds the lease expired, and the change, done at the given time, still running when it expired.
    predicate LapsesBefore(i: nat, done: Time)
      requires i < |pulses|
    {
      ExpiryAt(i) <= StoredAt(i) && ExpiryAt(i) <= done
    }
  }

  // The latencies are within their bounds, and the lease is live when the change starts.
  predicate Within(b: Beating, l: Latency) {
    && 0 <= b.lag <= l.Age() && b.lag < b.ttl
    && forall p :: p in b.pulses ==> 0 <= p.request <= l.request && 0 <= p.reply <= l.reply
  }

  // Whatever the latencies and however long the change takes within its limit, the lease never lapses during it.
  ghost predicate KeepsLease(ttl: Duration, l: Latency, limit: Duration) {
    forall b: Beating, i: nat, done: Time ::
      b.ttl == ttl && Within(b, l) && i < |b.pulses| && 0 <= done <= limit ==> !b.LapsesBefore(i, done)
  }

  lemma LagWithin(b: Beating, l: Latency, i: nat)
    requires l.Ok() && Within(b, l) && i <= |b.pulses|
    ensures 0 <= b.Lag(i) <= l.Age()
    ensures i < |b.pulses| ==> 0 <= b.pulses[i].request <= l.request && 0 <= b.pulses[i].reply <= l.reply
  {
    if i > 0 {
      assert b.pulses[i - 1] in b.pulses;
    }
    if i < |b.pulses| {
      assert b.pulses[i] in b.pulses;
    }
  }

  lemma {:induction false} TimeGoesOn(b: Beating, l: Latency, i: nat)
    requires l.Ok() && Within(b, l) && i <= |b.pulses|
    ensures i * MIN_RENEW_DELAY <= b.ReadyAt(i)
  {
    if i > 0 {
      TimeGoesOn(b, l, i - 1);
      LagWithin(b, l, i - 1);
      DelayBounds(b.ExpiryAt(i - 1), b.ReadyAt(i - 1));
    }
  }

  lemma SafeBeatDoesNotLapse(b: Beating, l: Latency, limit: Duration, i: nat, done: Time)
    requires l.Ok() && Within(b, l) && i < |b.pulses| && done <= limit
    requires Safe(b.ttl, l, limit)
    ensures !b.LapsesBefore(i, done)
  {
    LagWithin(b, l, i);
    TimeGoesOn(b, l, i);
    DelayShifts(b.ExpiryAt(i), b.ReadyAt(i));
    SlackGrows(b.ttl - l.Age(), b.ttl - b.Lag(i));
  }

  // The run that lapses: the slowest renewal, at the first beat.
  function SlowestBeat(ttl: Duration, l: Latency): Beating {
    Beating(ttl, if l.Age() < ttl then l.Age() else ttl - 1, [Pulse(l.request, 0)])
  }

  /** The heartbeat keeps the lease through every change that ends within the limit, whatever the latencies within
      their bounds, if and only if the slowest renewal of a lease as old as can be still arrives in time, or such a
      lease outlives the limit. */
  lemma HeartbeatKeepsLeaseIff(ttl: Duration, l: Latency, limit: Duration)
    requires ttl > 0 && l.Ok() && 0 < limit
    ensures KeepsLease(ttl, l, limit) <==> Safe(ttl, l, limit)
  {
    if Safe(ttl, l, limit) {
      forall b: Beating, i: nat, done: Time |
        b.ttl == ttl && Within(b, l) && i < |b.pulses| && 0 <= done <= limit
        ensures !b.LapsesBefore(i, done)
      {
        SafeBeatDoesNotLapse(b, l, limit, i, done);
      }
    } else {
      var b := SlowestBeat(ttl, l);
      DelayShifts(b.ExpiryAt(0), 0);
      assert Within(b, l) && b.LapsesBefore(0, limit);
    }
  }

  const RENEWAL_SLOTS := 64
  const ROUTE_ATTEMPT_TIMEOUT: Duration := 45 * SECOND

  // For slower requests "above 1 s plus the latency" is not enough, because the delay grows with the lease: a lease of
  // 12 s, renewed by a request of 10 s, lapses 12 s into a change that may take 45 s.
  lemma SlowRequestsLapse()
    ensures var b := Beating(12 * SECOND, 0, [Pulse(10 * SECOND, 0)]);
      && 12 * SECOND > MIN_RENEW_DELAY + 10 * SECOND && Within(b, Latency(10 * SECOND, 0, 0))
      && b.FiredAt(0) == 4 * SECOND && b.StoredAt(0) == 14 * SECOND && b.ExpiryAt(0) == 12 * SECOND
      && b.LapsesBefore(0, ROUTE_ATTEMPT_TIMEOUT)
    ensures !KeepsLease(12 * SECOND, Latency(10 * SECOND, 0, 0), ROUTE_ATTEMPT_TIMEOUT)
  {
    HeartbeatKeepsLeaseIff(12 * SECOND, Latency(10 * SECOND, 0, 0), ROUTE_ATTEMPT_TIMEOUT);
  }

  // What the heartbeat sends to the change it runs beside.
  datatype Sent = Renewed(record: Record) | RenewalFailed

  // The record after renewal i.
  function RenewedRecord(record: Record, b: Beating, start: Time, i: nat): Record
    requires i < |b.pulses|
  {
    record.(expiresAt := start + b.StoredAt(i) + b.ttl, updatedAt := start + b.StoredAt(i))
  }

  // What has been sent is what the run's renewals gave, a failure at most at the end.
  ghost predicate Reports(sent: seq<Sent>, record: Record, b: Beating, start: Time) {
    && |b.pulses| <= |sent| <= |b.pulses| + 1
    && (forall i :: 0 <= i < |b.pulses| ==> sent[i] == Renewed(RenewedRecord(record, b, start, i)))
    && (|sent| > |b.pulses| ==> sent[|b.pulses|] == RenewalFailed)
  }

  lemma {:induction false} BeatingExtends(b: Beating, c: Beating, i: nat)
    requires b.ttl == c.ttl && b.lag == c.lag && b.pulses <= c.pulses && i <= |b.pulses|
    ensures b.ReadyAt(i) == c.ReadyAt(i) && b.Lag(i) == c.Lag(i)
    ensures i < |b.pulses| ==> b.StoredAt(i) == c.StoredAt(i)
  {
    if i > 0 {
      BeatingExtends(b, c, i - 1);
    }
  }

  // Where a run stands: the record in hand, the time, and when the timer fires.
  predicate Stands(b: Beating, start: Time, expiresAt: Time, now: Time, fired: Time) {
    && now == start + b.ReadyAt(|b.pulses|) && expiresAt == start + b.ExpiryAt(|b.pulses|)
    && fired == start + b.FiredAt(|b.pulses|)
  }

  lemma StandsAtStart(b: Beating, start: Time)
    requires b.pulses == []
    ensures var expiresAt := start + b.ttl - b.lag;
      Stands(b, start, expiresAt, start, start + NextLeaseRenewDelay(expiresAt, start))
  {
    DelayShifts(start + b.ttl - b.lag, start);
  }

  function Longer(b: Beating, p: Pulse): Beating {
    b.(pulses := b.pulses + [p])
  }

  // One more renewal: where the longer run stands.
  lemma StandsOneOn(b: Beating, start: Time, p: Pulse)
    ensures var stored := start + b.FiredAt(|b.pulses|) + p.request;
      var now := stored + p.reply;
      Stands(Longer(b, p), start, stored + b.ttl, now, now + NextLeaseRenewDelay(stored + b.ttl, now))
  {
    var n, c := |b.pulses|, Longer(b, p);
    BeatingExtends(b, c, n);
    assert c.ReadyAt(n + 1) == b.FiredAt(n) + p.request + p.reply;
    DelayShifts(start + c.ExpiryAt(n + 1), start + c.ReadyAt(n + 1));
    DelayShifts(c.ExpiryAt(n + 1), c.ReadyAt(n + 1));
  }

  // and what it has reported.
  lemma ReportsOneOn(sent: seq<Sent>, record: Record, b: Beating, start: Time, p: Pulse)
    requires Reports(sent, record, b, start) && |sent| == |b.pulses|
    ensures var stored := start + b.FiredAt(|b.pulses|) + p.request;
      Reports(sent + [Renewed(record.(expiresAt := stored + b.ttl, updatedAt := stored))], record, Longer(b, p), start)
  {
    var n, c := |b.pulses|, Longer(b, p);
    BeatingExtends(b, c, n);
    forall i | 0 <= i < n
      ensures RenewedRecord(record, b, start, i) == RenewedRecord(record, c, start, i)
    {
      BeatingExtends(b, c, i);
    }
  }

  lemma WithinOneOn(b: Beating, l: Latency, p: Pulse)
    requires l.Ok() && Within(b, l) && 0 <= p.request <= l.request && 0 <= p.reply <= l.reply
    ensures Within(Longer(b, p), l)
  {
  }

  // When the timer fires before the change is done there is room for one more report.
  lemma RoomForReport(b: Beating, l: Latency, done: Time)
    requires l.Ok() && Within(b, l) && b.FiredAt(|b.pulses|) <= done <= ROUTE_ATTEMPT_TIMEOUT
    ensures |b.pulses| + 1 <= 45
  {
    TimeGoesOn(b, l, |b.pulses|);
    DelayBounds(b.ExpiryAt(|b.pulses|), b.ReadyAt(|b.pulses|));
  }

  lemma RunIsOnTime(b: Beating, l: Latency, limit: Duration, done: Time)
    requires l.Ok() && Within(b, l) && done <= limit
    requires Safe(b.ttl, l, limit)
    ensures forall i :: 0 <= i < |b.pulses| ==> b.StoredAt(i) < b.ExpiryAt(i) || done < b.ExpiryAt(i)
    ensures done <= b.FiredAt(|b.pulses|) ==> done < b.ExpiryAt(|b.pulses|)
  {
    forall i | 0 <= i < |b.pulses|
      ensures b.StoredAt(i) < b.ExpiryAt(i) || done < b.ExpiryAt(i)
    {
      SafeBeatDoesNotLapse(b, l, limit, i, done);
    }
    if done <= b.FiredAt(|b.pulses|) {
      LiveWhenDone(b, l, limit, done);
    }
  }

  // The heartbeat between two firings of its timer.
  datatype Hand = Hand(record: Record, now: Time, fired: Time)

  ghost predicate Going(sent: seq<Sent>, record: Record, b: Beating, start: Time, l: Latency,
                        h: Hand) {
    && Within(b, l) && Reports(sent, record, b, start) && |sent| == |b.pulses|
    && h.record == record.(expiresAt := h.record.expiresAt, updatedAt := h.record.updatedAt)
    && Stands(b, start, h.record.expiresAt, h.now, h.fired)
  }

  // A renewal that succeeds.
  method Renew(sent: seq<Sent>, ghost record: Record, ghost b: Beating, ghost start: Time, ttl: Duration,
               l: Latency, h: Hand)
    returns (sent': seq<Sent>, h': Hand, ghost b': Beating)
    requires l.Ok() && ttl == b.ttl && Going(sent, record, b, start, l, h)
    ensures Going(sent', record, b', start, l, h')
    ensures b'.ttl == b.ttl && b'.lag == b.lag && |sent'| == |sent| + 1
  {
    var there: int :| 0 <= there <= l.request;
    var back: int :| 0 <= back <= l.reply;
    ghost var p := Pulse(there, back);
    StandsOneOn(b, start, p);
    ReportsOneOn(sent, record, b, start, p);
    WithinOneOn(b, l, p);
    var stored := h.fired + there;
    var renewed := h.record.(expiresAt := stored + ttl, updatedAt := stored);
    var now := stored + back;
    sent' := sent + [Renewed(renewed)];
    h' := Hand(renewed, now, now + NextLeaseRenewDelay(renewed.expiresAt, now));
    b' := Longer(b, p);
  }

  /** The heartbeat itself, from start until the change is done or a renewal fails, which cancels the change: what it
      sends is what a run of its renewals gives, under the fenced tenure, and it fits the channel. Under the exact
      condition every renewal arrives in time, and without a failure the lease is live when the change is done. */
  method RenewLeaseUntilDone(record: Record, ttl: Duration, l: Latency, limit: Duration,
                             start: Time, done: Time)
    returns (sent: seq<Sent>, cancelled: bool, ghost b: Beating)
    requires l.Ok() && limit <= 45_000_000_000
    // The record was renewed and checked just before, and the change ends with the attempt's context at the latest.
    requires ttl - l.Age() <= record.expiresAt - start <= ttl && start < record.expiresAt
    requires start <= done <= start + limit
    ensures b.ttl == ttl && b.lag == ttl - (record.expiresAt - start) && Within(b, l)
    ensures Reports(sent, record, b, start) && (cancelled <==> |sent| > |b.pulses|)
    ensures |sent| <= 45 < RENEWAL_SLOTS == 64
    // The timer that was set last would not have fired before the change was done.
    ensures !cancelled ==> done <= start + b.FiredAt(|b.pulses|)
    ensures Safe(ttl, l, limit) ==>
              && (forall i :: 0 <= i < |b.pulses| ==> b.StoredAt(i) < b.ExpiryAt(i) || done - start < b.ExpiryAt(i))
              && (!cancelled ==> done < start + b.ExpiryAt(|b.pulses|))
  {
    b := Beating(ttl, ttl - (record.expiresAt - start), []);
    var h := Hand(record, start, start + NextLeaseRenewDelay(record.expiresAt, start));
    sent, cancelled := [], false;
    StandsAtStart(b, start);
    // When the timer fires just as the change is done, either may be seen first.
    var more := *;
    while h.fired < done || (more && h.fired == done)
      invariant b.ttl == ttl && b.lag == ttl - (record.expiresAt - start)
      invariant Going(sent, record, b, start, l, h) && |sent| <= 45
      decreases 45 - |sent|
    {
      RoomForReport(b, l, done - start);
      var fails: bool := *;
      if fails {
        sent, cancelled := sent + [RenewalFailed], true;
        break;
      }
      sent, h, b := Renew(sent, record, b, start, ttl, l, h);
      more := *;
    }
    if Safe(ttl, l, limit) {
      RunIsOnTime(b, l, limit, done - start);
    }
  }

  // The lease in hand last is live when the change is done before the next timer would fire.
  lemma LiveWhenDone(b: Beating, l: Latency, limit: Duration, done: Time)
    requires l.Ok() && Within(b, l) && done <= limit && done <= b.FiredAt(|b.pulses|)
    requires Safe(b.ttl, l, limit)
    ensures done < b.ExpiryAt(|b.pulses|)
  {
    var n := |b.pulses|;
    LagWithin(b, l, n);
    TimeGoesOn(b, l, n);
    DelayShifts(b.ExpiryAt(n), b.ReadyAt(n));
    SlackGrows(b.ttl - l.Age(), b.ttl - b.Lag(n));
  }

  // ----- The ticker -----

  // The settings the Terraform provider accepts (internal/tfprovider/gateway_resource.go): TTL and renew
  // interval in whole seconds.
  function HaTiming(ttlValue: Option<int>, renewValue: Option<int>, profile: string): Option<(int, int)> {
    var ttl := if ttlValue.Some? then ttlValue.value else 10;
    var renew := if renewValue.Some? then renewValue.value else 1;
    if profile != "default" || ttl <= 0 || renew <= 0 || renew >= ttl then None else Some((ttl, renew))
  }

  function RenewInterval(ttl: int, renew: int): Duration {
    if renew > 0 then renew * SECOND
    else if ttl > 0 then ttl * SECOND / 3
    else 5 * SECOND
  }

  function StepTimeout(ttl: int): Duration {
    if ttl > 0 then
      var timeout := ttl * SECOND / 2;
      if timeout < SECOND then SECOND else if timeout > 8 * SECOND then 8 * SECOND else timeout
    else 5 * SECOND
  }

  // In seconds: the configured interval, or a third of the TTL, or 5 s; a time-out of half the TTL, at least 1 s and
  // at most 8 s, or 5 s.
  lemma TimingInSeconds(ttl: int, renew: int)
    ensures renew > 0 ==> RenewInterval(ttl, renew) == renew * 1_000_000_000
    ensures renew <= 0 < ttl ==>
              3 * RenewInterval(ttl, renew) <= ttl * 1_000_000_000 < 3 * RenewInterval(ttl, renew) + 3
    ensures renew <= 0 && ttl <= 0 ==> RenewInterval(ttl, renew) == 5_000_000_000
    ensures 2 <= ttl <= 16 ==> 2 * StepTimeout(ttl) == ttl * 1_000_000_000
    ensures ttl == 1 ==> StepTimeout(ttl) == 1_000_000_000
    ensures ttl > 16 ==> StepTimeout(ttl) == 8_000_000_000
    ensures ttl <= 0 ==> StepTimeout(ttl) == 5_000_000_000
  {
  }

  // Accepted are the default profile with 0 < interval < TTL; what is not given is 10 s of TTL and an interval of 1 s.
  lemma AcceptedIff(ttlValue: Option<int>, renewValue: Option<int>, profile: string)
    ensures ttlValue == None && renewValue == None && profile == "default" ==>
              HaTiming(ttlValue, renewValue, profile) == Some((10, 1))
    ensures ttlValue.Some? && renewValue == None && profile == "default" ==>
              HaTiming(ttlValue, renewValue, profile) == if ttlValue.value > 1 then Some((ttlValue.value, 1)) else None
    ensures ttlValue == None && renewValue.Some? && profile == "default" ==>
              HaTiming(ttlValue, renewValue, profile) ==
              if 0 < renewValue.value < 10 then Some((10, renewValue.value)) else None
    ensures ttlValue.Some? && renewValue.Some? && profile == "default" ==>
              HaTiming(ttlValue, renewValue, profile) ==
              if 0 < renewValue.value < ttlValue.value then Some((ttlValue.value, renewValue.value)) else None
    ensures profile != "default" ==> HaTiming(ttlValue, renewValue, profile) == None
  {
  }

  // What is left of the TTL for a renewal to arrive late in its step.
  function Margin(ttl: int, renew: int): Duration {
    ttl * SECOND - Max(RenewInterval(ttl, renew), StepTimeout(ttl))
  }

  /** Every accepted pair of settings leaves a positive margin. */
  lemma AcceptedTimingHasMargin(ttlValue: Option<int>, renewValue: Option<int>, profile: string)
    requires HaTiming(ttlValue, renewValue, profile).Some?
    ensures var (ttl, renew) := HaTiming(ttlValue, renewValue, profile).value; Margin(ttl, renew) > 0
  {
  }

  // One step of the loop: how long it takes and when in it the renewal reaches the store.
  datatype Beat = Beat(duration: Duration, renewedAfter: Duration)

  // When the step after one that started at start and ended at end begins. Ticks come at the multiples
  // of the interval; the ticker keeps at most one for a late receiver.
  function NextStart(interval: Duration, start: Time, end: Time): Time
    requires interval > 0 && start <= end
  {
    if start / interval < end / interval then end else (end / interval + 1) * interval
  }

  lemma NextStartBounds(interval: Duration, start: Time, end: Time, timeout: Duration)
    requires interval > 0 && start <= end <= start + timeout
    ensures start < NextStart(interval, start, end) || start < end
    ensures end <= NextStart(interval, start, end) <= start + Max(interval, timeout)
  {
    var q := end / interval;
    assert q * interval <= end < q * interval + interval;
    assert (q + 1) * interval == q * interval + interval;
    if start / interval >= q {
      assert q * interval <= start / interval * interval <= start;
    }
  }

  predicate BeatsOk(beats: seq<Beat>, timeout: Duration, latency: Duration) {
    forall b :: b in beats ==> 0 <= b.renewedAfter <= b.duration <= timeout && b.renewedAfter <= latency
  }

  // When step i starts, the first at time 0.
  function StartOf(interval: Duration, beats: seq<Beat>, i: nat): Time
    requires interval > 0 && i <= |beats| && forall b :: b in beats ==> 0 <= b.duration
  {
    if i == 0 then 0
    else
      var start := StartOf(interval, beats, i - 1);
      NextStart(interval, start, start + beats[i - 1].duration)
  }

  function RenewedAt(interval: Duration, beats: seq<Beat>, i: nat): Time
    requires interval > 0 && i < |beats| && forall b :: b in beats ==> 0 <= b.duration
  {
    StartOf(interval, beats, i) + beats[i].renewedAfter
  }

  /** Successive renewals are at most max(interval, step timeout) plus the renewal's latency apart. */
  lemma RenewalsComeInTime(interval: Duration, timeout: Duration, latency: Duration, beats: seq<Beat>, i: nat)
    requires interval > 0 && timeout > 0 && BeatsOk(beats, timeout, latency) && i + 1 < |beats|
    ensures RenewedAt(interval, beats, i + 1) - RenewedAt(interval, beats, i) <= Max(interval, timeout) + latency
  {
    assert beats[i] in beats && beats[i + 1] in beats;
    var start := StartOf(interval, beats, i);
    NextStartBounds(interval, start, start + beats[i].duration, timeout);
  }

  // The lease stored by each renewal is still live when the next one arrives.
  ghost predicate NeverLapses(ttl: int, renew: int, beats: seq<Beat>)
    requires RenewInterval(ttl, renew) > 0 && forall b :: b in beats ==> 0 <= b.duration
  {
    forall i :: 0 <= i && i + 1 < |beats| ==>
                  RenewedAt(RenewInterval(ttl, renew), beats, i + 1) <
                    RenewedAt(RenewInterval(ttl, renew), beats, i) + ttl * SECOND
  }

  /** In the supervisor's loop the lease never lapses, whatever each step takes, if and only if the slowest renewal
      a step has time for reaches the store within less than the margin of its step's start. */
  lemma LoopKeepsLeaseIff(ttl: int, renew: int, latency: Duration)
    requires 0 < renew < ttl && 0 <= latency
    ensures (forall beats :: BeatsOk(beats, StepTimeout(ttl), latency) ==> NeverLapses(ttl, renew, beats))
            <==> latency < Margin(ttl, renew) || StepTimeout(ttl) < Margin(ttl, renew)
  {
    var interval, timeout := RenewInterval(ttl, renew), StepTimeout(ttl);
    var slowest := if latency < timeout then latency else timeout;
    if slowest < Margin(ttl, renew) {
      forall beats | BeatsOk(beats, timeout, latency) ensures NeverLapses(ttl, renew, beats) {
        forall i | 0 <= i && i + 1 < |beats|
          ensures RenewedAt(interval, beats, i + 1) < RenewedAt(interval, beats, i) + ttl * SECOND
        {
          RenewalsComeInTime(interval, timeout, slowest, beats, i);
        }
      }
    } else {
      // A step that uses all its time, or none, and then a renewal at the last moment.
      var beats := [Beat(if timeout > interval then timeout else 0, 0), Beat(slowest, slowest)];
      assert BeatsOk(beats, timeout, latency);
      assert StartOf(interval, beats, 0) == 0;
      var end := beats[0].duration;
      assert StartOf(interval, beats, 1) == NextStart(interval, 0, end);
      if timeout > interval {
        assert end / interval >= 1;
      }
      assert NextStart(interval, 0, end) == Max(interval, timeout);
      assert RenewedAt(interval, beats, 1) >= RenewedAt(interval, beats, 0) + ttl * SECOND;
    }
  }

  /** From a TTL of 2 s up a supervisor step ends while the lease it acquired or renewed is still assured, on every
      store. */
  lemma StepEndsUnderLiveLease(k: Terms, ttl: int, start: Time, end: Time, expiresAt: Time)
    requires ttl >= 2 && k.ttl == ttl * SECOND && k.Sound()
    requires end <= start + StepTimeout(ttl) && start + k.Assured() <= expiresAt
    ensures end < expiresAt
  {
  }
}
