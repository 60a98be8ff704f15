/** What every run of notifications and sweeps keeps (app/bot/services.py). */
module NotificationGuarantees {
  import opened Wrappers
  import opened Instants
  import opened QuietHours
  import opened NotificationModel

  function CountEvents(outbox: seq<Event>, q: Key -> bool): nat {
    if outbox == [] then 0
    else
      var n := |outbox| - 1;
      CountEvents(outbox[..n], q) + (if q(KeyOf(outbox[n])) then 1 else 0)
  }

  function Target(orderId: OrderId, userId: UserId): Key -> bool {
    (k: Key) => k.orderId == orderId && k.userId == userId
  }

  /** How many messages about this order Telegram accepted for this user. */
  function Accepted(outbox: seq<Event>, orderId: OrderId, userId: UserId): nat {
    CountEvents(outbox, Target(orderId, userId))
  }

  predicate OneRowEach(rows: seq<Delivery>) {
    forall i, j :: 0 <= i < j < |rows| ==> !HasKey(rows[i], rows[j].orderId, rows[j].userId)
  }

  /** A delivery is settled, and marked sent exactly when one message was accepted. */
  predicate StatusTells(outbox: seq<Event>, r: Delivery) {
    r.status != Queued && Accepted(outbox, r.orderId, r.userId) == (if r.status == Sent then 1 else 0)
  }

  predicate EventsRecorded(rows: seq<Delivery>, outbox: seq<Event>) {
    forall k :: 0 <= k < |outbox| ==> exists i :: 0 <= i < |rows| && Records(rows[i], outbox[k])
  }

  /** One delivery per order and user, marked sent exactly when one message was accepted, none left queued,
      and no message without a delivery. */
  predicate DeliveredOnce(w: World) {
    && OneRowEach(w.rows) && EventsRecorded(w.rows, w.outbox)
    && forall i :: 0 <= i < |w.rows| ==> StatusTells(w.outbox, w.rows[i])
  }

  predicate Records(r: Delivery, e: Event) {
    SentRow(r) && RowKey(r) == KeyOf(e)
  }

  // ---------- the shape of a step ----------

  predicate Terminal(status: Status) {
    status == Sent || status == Failed || status == Skipped
  }

  /** At most one delivery changes: one that was deferred, or a new one for an order and user without any.
      At most one message is accepted, and then that delivery records it. */
  ghost predicate Shape(w: World, w': World, i: nat) {
    && i < |w'.rows|
    && w'.rows[i].status != Queued
    && (|| (i < |w.rows| && w.rows[i].status == Deferred && w'.rows == w.rows[i := w'.rows[i]]
            && HasKey(w'.rows[i], w.rows[i].orderId, w.rows[i].userId))
        || (i == |w.rows| && w'.rows == w.rows + [w'.rows[i]]
            && forall j :: 0 <= j < |w.rows| ==> !HasKey(w.rows[j], w'.rows[i].orderId, w'.rows[i].userId)))
    && (w'.rows[i].status == Sent ==> SentRow(w'.rows[i]))
    && (|| w'.outbox == w.outbox
        || (|w'.outbox| == |w.outbox| + 1 && w'.outbox == w.outbox + [w'.outbox[|w.outbox|]]
            && Records(w'.rows[i], w'.outbox[|w.outbox|])))
  }

  lemma NotifyShape(w: World, orderId: OrderId, now: Time, r: Recipient, settings: Settings) returns (i: nat)
    requires orderId in w.orders && Reaches(w, orderId, now, r)
    ensures var w' := NotifyStep(w, orderId, now, r, settings).0;
            && Shape(w, w', i)
            && i == Find(w.rows, orderId, r.userId) && HasKey(w'.rows[i], orderId, r.userId)
            && (settings.maxRetries >= 1 && w'.outbox == w.outbox ==> w'.rows[i].status != Sent)
  {
    i := Find(w.rows, orderId, r.userId);
    var w' := NotifyStep(w, orderId, now, r, settings).0;
    var rows := WithDelivery(w.rows, orderId, r.userId, r.subscription.value);
    assert w'.rows == rows[i := w'.rows[i]];
    if i == |w.rows| {
      assert w'.rows == w.rows + [w'.rows[i]];
    }
  }

  lemma StepShape(w: World, s: Step, settings: Settings) returns (i: nat)
    requires StepEnabled(w, s)
    ensures var w' := TakeStep(w, s, settings);
            || (w'.rows == w.rows && w'.outbox == w.outbox)
            || (Shape(w, w', i) && (settings.maxRetries >= 1 && w'.outbox == w.outbox ==> w'.rows[i].status != Sent))
  {
    i := 0;
    match s
    case NotifyOne(orderId, now, r) =>
      if Reaches(w, orderId, now, r) {
        i := NotifyShape(w, orderId, now, r, settings);
      }
    case SweepOne(row, cardAt, reply) => i := row;
    case Edit(orders, users) =>
  }

  // ---------- counting ----------

  function Counted(r: Delivery, q: Key -> bool): nat {
    if SentRow(r) && q(RowKey(r)) then 1 else 0
  }

  lemma {:induction false} CountSentUpdate(rows: seq<Delivery>, i: nat, r: Delivery, q: Key -> bool)
    requires i < |rows|
    ensures CountSent(rows[i := r], q) + Counted(rows[i], q) == CountSent(rows, q) + Counted(r, q)
  {
    var n := |rows| - 1;
    if i == n {
      // Base: the update is in the last place.
      assert rows[i := r][..n] == rows[..n];
    } else {
      assert rows[i := r][..n] == rows[..n][i := r];
      CountSentUpdate(rows[..n], i, r, q);
    }
  }

  lemma CountEventsAppend(outbox: seq<Event>, e: Event, q: Key -> bool)
    ensures CountEvents(outbox + [e], q) == CountEvents(outbox, q) + (if q(KeyOf(e)) then 1 else 0)
  {
    assert (outbox + [e])[..|outbox|] == outbox;
  }

  lemma CountSentAppend(rows: seq<Delivery>, r: Delivery, q: Key -> bool)
    ensures CountSent(rows + [r], q) == CountSent(rows, q) + Counted(r, q)
  {
    assert (rows + [r])[..|rows|] == rows;
  }

  lemma {:induction false} CountedEventExists(outbox: seq<Event>, q: Key -> bool) returns (k: nat)
    requires CountEvents(outbox, q) > 0
    ensures k < |outbox| && q(KeyOf(outbox[k]))
  {
    k := |outbox| - 1;
    if !q(KeyOf(outbox[k])) {
      k := CountedEventExists(outbox[..k], q);
    }
  }

  lemma AcceptedHasDelivery(w: World, orderId: OrderId, userId: UserId) returns (i: nat)
    requires EventsRecorded(w.rows, w.outbox)
    requires Accepted(w.outbox, orderId, userId) > 0
    ensures i < |w.rows| && SentRow(w.rows[i]) && HasKey(w.rows[i], orderId, userId)
  {
    var k := CountedEventExists(w.outbox, Target(orderId, userId));
    i :| 0 <= i < |w.rows| && Records(w.rows[i], w.outbox[k]);
  }

  // ---------- at most once ----------

  lemma StepKeepsDeliveredOnce(w: World, s: Step, settings: Settings)
    requires DeliveredOnce(w) && StepEnabled(w, s) && settings.maxRetries >= 1
    ensures DeliveredOnce(TakeStep(w, s, settings))
  {
    var w' := TakeStep(w, s, settings);
    var i := StepShape(w, s, settings);
    if !(w'.rows == w.rows && w'.outbox == w.outbox) {
      ShapeKeepsDeliveredOnce(w, w', i);
    }
  }

  lemma ShapeKeepsEventsRecorded(w: World, w': World, i: nat)
    requires EventsRecorded(w.rows, w.outbox) && Shape(w, w', i)
    ensures EventsRecorded(w'.rows, w'.outbox)
  {
    forall k | 0 <= k < |w'.outbox| ensures exists j :: 0 <= j < |w'.rows| && Records(w'.rows[j], w'.outbox[k]) {
      if k < |w.outbox| {
        var j :| 0 <= j < |w.rows| && Records(w.rows[j], w.outbox[k]);
        assert w'.rows[j] == w.rows[j] && w'.outbox[k] == w.outbox[k];
      } else {
        assert Records(w'.rows[i], w'.outbox[k]);
      }
    }
  }

  lemma ShapeKeepsStatus(w: World, w': World, i: nat, j: nat)
    requires DeliveredOnce(w) && Shape(w, w', i) && OneRowEach(w'.rows) && j < |w'.rows|
    requires w'.outbox == w.outbox ==> w'.rows[i].status != Sent
    ensures StatusTells(w'.outbox, w'.rows[j])
  {
    var r := w'.rows[j];
    if w'.outbox != w.outbox {
      CountEventsAppend(w.outbox, w'.outbox[|w.outbox|], Target(r.orderId, r.userId));
    }
    if j == i {
      // Nothing had been accepted for this order and user: the row that could record it was not sent.
      if Accepted(w.outbox, r.orderId, r.userId) > 0 {
        var k := AcceptedHasDelivery(w, r.orderId, r.userId);
        assert false;
      }
    } else {
      assert r == w.rows[j] && StatusTells(w.outbox, r);
    }
  }

  lemma ShapeKeepsDeliveredOnce(w: World, w': World, i: nat)
    requires DeliveredOnce(w) && Shape(w, w', i)
    requires w'.outbox == w.outbox ==> w'.rows[i].status != Sent
    ensures DeliveredOnce(w')
  {
    ShapeKeepsEventsRecorded(w, w', i);
    assert OneRowEach(w'.rows) by {
      assert forall j :: 0 <= j < |w.rows| && j != i ==> w'.rows[j] == w.rows[j];
    }
    forall j | 0 <= j < |w'.rows| ensures StatusTells(w'.outbox, w'.rows[j]) {
      ShapeKeepsStatus(w, w', i, j);
    }
  }

  lemma {:induction false} StepsKeepDeliveredOnce(w: World, steps: seq<Step>, settings: Settings)
    requires DeliveredOnce(w) && StepsEnabled(w, steps, settings) && settings.maxRetries >= 1
    ensures DeliveredOnce(RunSteps(w, steps, settings))
  {
    if steps == [] {
    } else {
      var n := |steps| - 1;
      StepsKeepDeliveredOnce(w, steps[..n], settings);
      StepKeepsDeliveredOnce(RunSteps(w, steps[..n], settings), steps[n], settings);
    }
  }

  /** Over every serial run of notifications, sweeps and changes made elsewhere, Telegram accepts at most one
      message per order and user, and the delivery table says exactly which were accepted. */
  lemma AtMostOnce(w: World, calls: seq<Call>, settings: Settings)
    requires Initial(w) && CallsEnabled(w, calls, settings) && settings.maxRetries >= 1
    ensures DeliveredOnce(RunCalls(w, calls, settings))
    ensures forall o, u :: Accepted(RunCalls(w, calls, settings).outbox, o, u) <= 1
  {
    var steps := SerialRunIsASteppedRun(w, calls, settings);
    StepsKeepDeliveredOnce(w, steps, settings);
    var w' := RunCalls(w, calls, settings);
    forall o, u ensures Accepted(w'.outbox, o, u) <= 1 {
      if Accepted(w'.outbox, o, u) > 0 {
        var i := AcceptedHasDelivery(w', o, u);
        assert w'.rows[i].orderId == o && w'.rows[i].userId == u;
      }
    }
  }

  /** Sent, failed and skipped deliveries never change again. */
  lemma {:induction false} TerminalDeliveriesAreFinal(w: World, steps: seq<Step>, settings: Settings, i: nat)
    requires StepsEnabled(w, steps, settings)
    requires i < |w.rows| && Terminal(w.rows[i].status)
    ensures var w' := RunSteps(w, steps, settings);
            |w.rows| <= |w'.rows| && w'.rows[i] == w.rows[i]
  {
    if steps == [] {
    } else {
      var n := |steps| - 1;
      TerminalDeliveriesAreFinal(w, steps[..n], settings, i);
      var j := StepShape(RunSteps(w, steps[..n], settings), steps[n], settings);
    }
  }

  /** The sweep does not look at a delivery again before sending. If other work ran since its query, handling
      the delivery keeps the guarantee exactly when nobody has sent it in between. */
  lemma StaleSweepIsSafeIffNotYetSent(w: World, i: nat, cardAt: Time, reply: Reply, settings: Settings)
    requires DeliveredOnce(w) && i < |w.rows| && settings.maxRetries >= 1
    ensures DeliveredOnce(SweepStep(w, i, cardAt, reply, settings).0) <==> w.rows[i].status != Sent
  {
    var w' := SweepStep(w, i, cardAt, reply, settings).0;
    SweepStepEffect(w, i, cardAt, reply, settings);
    if w.rows[i].status == Sent {
      SweepingSentBreaks(w, i, cardAt, reply, settings);
    } else {
      var v := AsIfDeferred(w, i);
      ShapeKeepsDeliveredOnce(v, w', i);
    }
  }

  lemma SweepingSentBreaks(w: World, i: nat, cardAt: Time, reply: Reply, settings: Settings)
    requires DeliveredOnce(w) && i < |w.rows| && settings.maxRetries >= 1 && w.rows[i].status == Sent
    ensures !DeliveredOnce(SweepStep(w, i, cardAt, reply, settings).0)
  {
    var w' := SweepStep(w, i, cardAt, reply, settings).0;
    var r := w.rows[i];
    assert HasKey(w'.rows[i], r.orderId, r.userId);
    if w'.outbox != w.outbox {
      CountEventsAppend(w.outbox, w'.outbox[|w.outbox|], Target(r.orderId, r.userId));
    }
    assert StatusTells(w.outbox, r) && !StatusTells(w'.outbox, w'.rows[i]);
  }

  /** An unsent delivery might as well still be deferred: its old status plays no part. */
  lemma AsIfDeferred(w: World, i: nat) returns (v: World)
    requires DeliveredOnce(w) && i < |w.rows| && w.rows[i].status != Sent
    ensures v == w.(rows := w.rows[i := w.rows[i].(status := Deferred)]) && DeliveredOnce(v)
  {
    v := w.(rows := w.rows[i := w.rows[i].(status := Deferred)]);
    assert EventsRecorded(v.rows, v.outbox) by {
      forall k | 0 <= k < |v.outbox| ensures exists j :: 0 <= j < |v.rows| && Records(v.rows[j], v.outbox[k]) {
        var j :| 0 <= j < |w.rows| && Records(w.rows[j], w.outbox[k]);
        assert v.rows[j] == w.rows[j];
      }
    }
    forall j | 0 <= j < |v.rows| ensures StatusTells(v.outbox, v.rows[j]) {
      assert StatusTells(w.outbox, w.rows[j]);
    }
  }

  /** With no attempts allowed, sending returns quietly and the delivery is marked sent although no message
      left: the guarantee needs a retry count of at least one, and that is enough. */
  lemma NoRetriesMarksUnsentAsSent(w: World, orderId: OrderId, now: Time, r: Recipient, settings: Settings)
    requires DeliveredOnce(w) && orderId in w.orders
    requires Reaches(w, orderId, now, r) && !IsInQuietHours(now, r.subscription.value.quiet)
    ensures DeliveredOnce(NotifyStep(w, orderId, now, r, settings).0) <==> settings.maxRetries >= 1
  {
    var w' := NotifyStep(w, orderId, now, r, settings).0;
    var i := NotifyShape(w, orderId, now, r, settings);
    if settings.maxRetries >= 1 {
      ShapeKeepsDeliveredOnce(w, w', i);
    } else {
      assert SendOutcome(r.reply.attempt, settings.maxRetries) == NothingSent;
      assert !StatusTells(w'.outbox, w'.rows[i]) by {
        if Accepted(w.outbox, orderId, r.userId) > 0 {
          var j := AcceptedHasDelivery(w, orderId, r.userId);
          assert false;
        }
      }
    }
  }

  /** The same of a sweep that gets as far as sending. */
  lemma NoRetriesMarksUnsentAsSwept(w: World, i: nat, cardAt: Time, reply: Reply, settings: Settings)
    requires DeliveredOnce(w) && StepEnabled(w, SweepOne(i, cardAt, reply))
    requires Notifiable(w, w.rows[i].orderId, cardAt, settings) && Reachable(w.users, w.rows[i].userId)
    ensures DeliveredOnce(SweepStep(w, i, cardAt, reply, settings).0) <==> settings.maxRetries >= 1
  {
    if settings.maxRetries >= 1 {
      StaleSweepIsSafeIffNotYetSent(w, i, cardAt, reply, settings);
    } else {
      var w' := SweepStep(w, i, cardAt, reply, settings).0;
      assert StatusTells(w.outbox, w.rows[i]);
      assert SendOutcome(reply.attempt, settings.maxRetries) == NothingSent;
      assert w'.rows[i] == MarkSent(w.rows[i], reply.at) && w'.outbox == w.outbox;
      assert !StatusTells(w'.outbox, w'.rows[i]);
    }
  }

  // ---------- the sliding-window rate limit ----------

  /** Accepted messages are all on record, and every immediate one was sent below its limit. */
  ghost predicate Limited(w: World) {
    && (forall q: Key -> bool :: CountEvents(w.outbox, q) <= CountSent(w.rows, q))
    && (forall k :: 0 <= k < |w.outbox| ==> BelowLimit(w.outbox, k))
  }

  predicate BelowLimit(outbox: seq<Event>, k: nat)
    requires k < |outbox|
  {
    var e := outbox[k];
    e.origin.Immediate? ==>
      && e.origin.checkedAt <= e.at
      && var sub := e.origin.subscription;
      (sub.limit.Some? ==>
         CountEvents(outbox[..k], SentSince(e.userId, e.origin.checkedAt - sub.periodMinutes * MINUTE))
         < sub.limit.value)
  }

  lemma ShapeKeepsRecorded(w: World, w': World, i: nat, q: Key -> bool)
    requires CountEvents(w.outbox, q) <= CountSent(w.rows, q) && Shape(w, w', i)
    ensures CountEvents(w'.outbox, q) <= CountSent(w'.rows, q)
  {
    if i < |w.rows| {
      CountSentUpdate(w.rows, i, w'.rows[i], q);
    } else {
      CountSentAppend(w.rows, w'.rows[i], q);
    }
    if w'.outbox != w.outbox {
      CountEventsAppend(w.outbox, w'.outbox[|w.outbox|], q);
    }
  }

  lemma NewEventBelowLimit(w: World, s: Step, settings: Settings)
    requires Limited(w) && StepEnabled(w, s)
    requires var outbox := TakeStep(w, s, settings).outbox;
             |outbox| == |w.outbox| + 1 && outbox[..|w.outbox|] == w.outbox
    ensures BelowLimit(TakeStep(w, s, settings).outbox, |w.outbox|)
  {
    if s.NotifyOne? && s.recipient.subscription.Some? {
      var q := SentSince(s.recipient.userId, s.now - s.recipient.subscription.value.periodMinutes * MINUTE);
      assert CountEvents(w.outbox, q) <= CountSent(w.rows, q);
    }
  }

  lemma StepKeepsLimited(w: World, s: Step, settings: Settings)
    requires Limited(w) && StepEnabled(w, s)
    ensures Limited(TakeStep(w, s, settings))
  {
    var w' := TakeStep(w, s, settings);
    var i := StepShape(w, s, settings);
    if !(w'.rows == w.rows && w'.outbox == w.outbox) {
      forall q: Key -> bool ensures CountEvents(w'.outbox, q) <= CountSent(w'.rows, q) {
        ShapeKeepsRecorded(w, w', i, q);
      }
      forall k | 0 <= k < |w'.outbox| ensures BelowLimit(w'.outbox, k) {
        if k < |w.outbox| {
          assert BelowLimit(w.outbox, k) && w'.outbox[..k] == w.outbox[..k];
        } else {
          assert w'.outbox[..k] == w.outbox;
          NewEventBelowLimit(w, s, settings);
        }
      }
    }
  }

  lemma {:induction false} StepsKeepLimited(w: World, steps: seq<Step>, settings: Settings)
    requires Limited(w) && StepsEnabled(w, steps, settings)
    ensures Limited(RunSteps(w, steps, settings))
  {
    if steps == [] {
    } else {
      var n := |steps| - 1;
      StepsKeepLimited(w, steps[..n], settings);
      StepKeepsLimited(RunSteps(w, steps[..n], settings), steps[n], settings);
    }
  }

  /** An immediate send to this user under a subscription with this limit and period, in a closed window. */
  predicate LimitedSend(e: Event, userId: UserId, limit: nat, period: nat, from: Time, to: Time) {
    && e.userId == userId && from <= e.at <= to && e.origin.Immediate?
    && e.origin.subscription.limit == Some(limit) && e.origin.subscription.periodMinutes == period
  }

  function CountLimited(outbox: seq<Event>, userId: UserId, limit: nat, period: nat, from: Time, to: Time): nat {
    if outbox == [] then 0
    else
      var n := |outbox| - 1;
      CountLimited(outbox[..n], userId, limit, period, from, to)
      + (if LimitedSend(outbox[n], userId, limit, period, from, to) then 1 else 0)
  }

  lemma {:induction false} CountLimitedAtMostSince(outbox: seq<Event>, userId: UserId, limit: nat, period: nat,
                                                   from: Time, to: Time, cutoff: Time)
    requires cutoff <= from
    ensures CountLimited(outbox, userId, limit, period, from, to) <= CountEvents(outbox, SentSince(userId, cutoff))
  {
    if outbox == [] {
    } else {
      CountLimitedAtMostSince(outbox[..|outbox| - 1], userId, limit, period, from, to, cutoff);
    }
  }

  lemma {:induction false} WindowHoldsAtMostLimit(outbox: seq<Event>, userId: UserId, limit: nat, period: nat,
                                                  from: Time)
    requires forall k :: 0 <= k < |outbox| ==> BelowLimit(outbox, k)
    ensures CountLimited(outbox, userId, limit, period, from, from + period * MINUTE) <= limit
  {
    if outbox == [] {
    } else {
      var n := |outbox| - 1;
      var e, to := outbox[n], from + period * MINUTE;
      if LimitedSend(e, userId, limit, period, from, to) {
        // The check looked back to before the window opened, so it saw every earlier send in it.
        assert BelowLimit(outbox, n);
        CountLimitedAtMostSince(outbox[..n], userId, limit, period, from, to, e.origin.checkedAt - period * MINUTE);
      } else {
        forall k | 0 <= k < n ensures BelowLimit(outbox[..n], k) {
          assert BelowLimit(outbox, k) && outbox[..n][..k] == outbox[..k];
        }
        WindowHoldsAtMostLimit(outbox[..n], userId, limit, period, from);
      }
    }
  }

  /** Over every run, in every interleaving with sweeps and whatever the retry count: a closed window as long
      as the period holds at most `limit` immediate sends made under that limit and period. */
  lemma SlidingWindowRateLimit(w: World, steps: seq<Step>, settings: Settings,
                               userId: UserId, limit: nat, period: nat, from: Time)
    requires Initial(w) && StepsEnabled(w, steps, settings)
    ensures var outbox := RunSteps(w, steps, settings).outbox;
            CountLimited(outbox, userId, limit, period, from, from + period * MINUTE) <= limit
  {
    StepsKeepLimited(w, steps, settings);
    WindowHoldsAtMostLimit(RunSteps(w, steps, settings).outbox, userId, limit, period, from);
  }

  /** The same over serial calls. */
  lemma SlidingWindowRateLimitOfCalls(w: World, calls: seq<Call>, settings: Settings,
                                      userId: UserId, limit: nat, period: nat, from: Time)
    requires Initial(w) && CallsEnabled(w, calls, settings)
    ensures var outbox := RunCalls(w, calls, settings).outbox;
            CountLimited(outbox, userId, limit, period, from, from + period * MINUTE) <= limit
  {
    var steps := SerialRunIsASteppedRun(w, calls, settings);
    SlidingWindowRateLimit(w, steps, settings, userId, limit, period, from);
  }

  // ---------- the cooldown between similar orders ----------

  ghost predicate FingerprintsAre(orders: map<OrderId, Order>, fp: OrderId -> Option<string>) {
    forall o :: o in orders ==> orders[o].fingerprint == fp(o)
  }

  ghost predicate StepKeepsFingerprints(s: Step, fp: OrderId -> Option<string>) {
    s.Edit? ==> FingerprintsAre(s.orders, fp)
  }

  predicate Similar(e: Event, f: Event, fp: OrderId -> Option<string>) {
    && e.userId == f.userId && e.orderId != f.orderId
    && fp(e.orderId) == fp(f.orderId) && fp(e.orderId).Some? && fp(e.orderId).value != ""
  }

  predicate UnderCooldown(e: Event) {
    e.origin.Immediate? && e.origin.subscription.cooldownMinutes.Some?
  }

  ghost predicate CooledDown(w: World, fp: OrderId -> Option<string>) {
    && FingerprintsAre(w.orders, fp)
    && RowsHaveOrders(w.rows, w.orders)
    && EventsRecorded(w.rows, w.outbox)
    && (forall j, k | 0 <= j < k < |w.outbox| && Similar(w.outbox[j], w.outbox[k], fp) && UnderCooldown(w.outbox[k]) ::
          w.outbox[k].at - w.outbox[j].at > w.outbox[k].origin.subscription.cooldownMinutes.value * MINUTE)
  }

  lemma NewEventIsCooledDown(w: World, s: Step, settings: Settings, fp: OrderId -> Option<string>, j: nat)
    requires CooledDown(w, fp) && StepEnabled(w, s) && j < |w.outbox|
    requires |TakeStep(w, s, settings).outbox| == |w.outbox| + 1
    ensures var e := TakeStep(w, s, settings).outbox[|w.outbox|];
            Similar(w.outbox[j], e, fp) && UnderCooldown(e) ==>
              e.at - w.outbox[j].at > e.origin.subscription.cooldownMinutes.value * MINUTE
  {
    var e := TakeStep(w, s, settings).outbox[|w.outbox|];
    if Similar(w.outbox[j], e, fp) && UnderCooldown(e) {
      var i :| 0 <= i < |w.rows| && Records(w.rows[i], w.outbox[j]);
      var cutoff := s.now - e.origin.subscription.cooldownMinutes.value * MINUTE;
      assert !SimilarSent(w, e.userId, e.orderId, w.rows[i], cutoff);
    }
  }

  lemma StepKeepsCooledDown(w: World, s: Step, settings: Settings, fp: OrderId -> Option<string>)
    requires CooledDown(w, fp) && StepEnabled(w, s) && StepKeepsFingerprints(s, fp)
    ensures CooledDown(TakeStep(w, s, settings), fp)
  {
    var w' := TakeStep(w, s, settings);
    var i := StepShape(w, s, settings);
    StepKeepsFingerprintsOfOrders(w, s, settings, fp);
    StepKeepsRowsHaveOrders(w, s, settings);
    if !(w'.rows == w.rows && w'.outbox == w.outbox) {
      ShapeKeepsEventsRecorded(w, w', i);
      if w'.outbox != w.outbox {
        forall j | 0 <= j < |w.outbox|
          ensures Similar(w'.outbox[j], w'.outbox[|w.outbox|], fp) && UnderCooldown(w'.outbox[|w.outbox|]) ==>
                    w'.outbox[|w.outbox|].at - w'.outbox[j].at
                    > w'.outbox[|w.outbox|].origin.subscription.cooldownMinutes.value * MINUTE
        {
          NewEventIsCooledDown(w, s, settings, fp, j);
        }
      }
    }
  }

  predicate RowsHaveOrders(rows: seq<Delivery>, orders: map<OrderId, Order>) {
    forall i :: 0 <= i < |rows| ==> rows[i].orderId in orders
  }

  lemma StepKeepsFingerprintsOfOrders(w: World, s: Step, settings: Settings, fp: OrderId -> Option<string>)
    requires StepEnabled(w, s) && FingerprintsAre(w.orders, fp) && StepKeepsFingerprints(s, fp)
    ensures FingerprintsAre(TakeStep(w, s, settings).orders, fp)
    ensures w.orders.Keys <= TakeStep(w, s, settings).orders.Keys
  {
  }

  lemma StepKeepsRowsHaveOrders(w: World, s: Step, settings: Settings)
    requires StepEnabled(w, s) && RowsHaveOrders(w.rows, w.orders)
    requires w.orders.Keys <= TakeStep(w, s, settings).orders.Keys
    ensures RowsHaveOrders(TakeStep(w, s, settings).rows, TakeStep(w, s, settings).orders)
  {
    var w' := TakeStep(w, s, settings);
    if s.NotifyOne? && Reaches(w, s.orderId, s.now, s.recipient) {
      var i := NotifyShape(w, s.orderId, s.now, s.recipient, settings);
      assert forall j :: 0 <= j < |w'.rows| && j != i ==> w'.rows[j] == w.rows[j];
    }
  }

  lemma {:induction false} StepsKeepCooledDown(w: World, steps: seq<Step>, settings: Settings,
                                               fp: OrderId -> Option<string>)
    requires CooledDown(w, fp) && StepsEnabled(w, steps, settings)
    requires forall k :: 0 <= k < |steps| ==> StepKeepsFingerprints(steps[k], fp)
    ensures CooledDown(RunSteps(w, steps, settings), fp)
  {
    if steps == [] {
    } else {
      var n := |steps| - 1;
      StepsKeepCooledDown(w, steps[..n], settings, fp);
      StepKeepsCooledDown(RunSteps(w, steps[..n], settings), steps[n], settings, fp);
    }
  }

  /** Over every run that leaves fingerprints alone: a closed window of length `cooldown` that ends with an
      immediate send under that cooldown holds no earlier send, of either kind, of a different order with the
      same non-empty fingerprint to the same user. So it holds at most one immediate send. */
  lemma CooldownSeparatesSimilarSends(w: World, steps: seq<Step>, settings: Settings, fp: OrderId -> Option<string>,
                                      j: nat, k: nat, from: Time)
    requires Initial(w) && FingerprintsAre(w.orders, fp) && StepsEnabled(w, steps, settings)
    requires forall i :: 0 <= i < |steps| ==> StepKeepsFingerprints(steps[i], fp)
    requires var outbox := RunSteps(w, steps, settings).outbox;
             && j < k < |outbox| && UnderCooldown(outbox[k])
             && from <= outbox[j].at
             && outbox[k].at <= from + outbox[k].origin.subscription.cooldownMinutes.value * MINUTE
    ensures var outbox := RunSteps(w, steps, settings).outbox; !Similar(outbox[j], outbox[k], fp)
  {
    StepsKeepCooledDown(w, steps, settings, fp);
  }

  // ---------- quiet hours ----------

  ghost predicate DeferredUntilExit(sub: Option<Subscription>, due: Option<Time>) {
    sub.Some? && due.Some? && exists d :: NextQuietHoursEnd(d, sub.value.quiet) == due
  }

  ghost predicate QuietRespected(w: World) {
    && (forall i :: 0 <= i < |w.rows| && w.rows[i].status == Deferred ==>
          DeferredUntilExit(w.rows[i].subscription, w.rows[i].scheduledFor))
    && (forall k :: 0 <= k < |w.outbox| ==> EventRespectsQuiet(w.outbox[k]))
  }

  ghost predicate EventRespectsQuiet(e: Event) {
    match e.origin
    case Immediate(sub, checkedAt) => !IsInQuietHours(checkedAt, sub.quiet)
    case Swept(sub, due) => DeferredUntilExit(sub, due) && e.at >= due.value
  }

  lemma StepKeepsQuietRespected(w: World, s: Step, settings: Settings)
    requires QuietRespected(w) && StepEnabled(w, s)
    ensures QuietRespected(TakeStep(w, s, settings))
  {
    var w' := TakeStep(w, s, settings);
    match s
    case NotifyOne(orderId, now, r) =>
      if Reaches(w, orderId, now, r) {
        var i := NotifyShape(w, orderId, now, r, settings);
        var sub := r.subscription.value;
        NextEndIsFirstExit(now, sub.quiet);
        assert IsInQuietHours(now, sub.quiet) ==> DeferredUntilExit(Some(sub), NextQuietHoursEnd(now, sub.quiet));
        assert forall j :: 0 <= j < |w'.rows| && j != i ==> w'.rows[j] == w.rows[j];
      }
    case SweepOne(row, cardAt, reply) =>
    case Edit(orders, users) =>
  }

  lemma {:induction false} StepsKeepQuietRespected(w: World, steps: seq<Step>, settings: Settings)
    requires QuietRespected(w) && StepsEnabled(w, steps, settings)
    ensures QuietRespected(RunSteps(w, steps, settings))
  {
    if steps == [] {
    } else {
      var n := |steps| - 1;
      StepsKeepQuietRespected(w, steps[..n], settings);
      StepKeepsQuietRespected(RunSteps(w, steps[..n], settings), steps[n], settings);
    }
  }

  /** An immediate send was decided outside quiet hours. A swept one falls into the quiet hours that deferred
      it exactly when the sweep came so late that a later quiet period had begun. */
  predicate QuietVerdict(e: Event) {
    match e.origin
    case Immediate(sub, checkedAt) => !IsInQuietHours(checkedAt, sub.quiet)
    case Swept(sub, due) =>
      && sub.Some? && due.Some? && e.at >= due.value
      && (IsInQuietHours(e.at, sub.value.quiet)
          <==> (e.at - due.value) % DAY >= DAY - QuietLength(sub.value.quiet))
      && (e.at - due.value < DAY - QuietLength(sub.value.quiet) ==> !IsInQuietHours(e.at, sub.value.quiet))
  }

  /** Over every run. */
  lemma SendsRespectQuietHours(w: World, steps: seq<Step>, settings: Settings, k: nat)
    requires Initial(w) && StepsEnabled(w, steps, settings)
    requires k < |RunSteps(w, steps, settings).outbox|
    ensures QuietVerdict(RunSteps(w, steps, settings).outbox[k])
  {
    StepsKeepQuietRespected(w, steps, settings);
    RespectedMeansVerdict(RunSteps(w, steps, settings).outbox[k]);
  }

  lemma RespectedMeansVerdict(e: Event)
    requires EventRespectsQuiet(e)
    ensures QuietVerdict(e)
  {
    if e.origin.Swept? {
      SweptSendQuietIffLate(e.origin.deferredBy.value, e.origin.dueAt, e.at);
    }
  }

  lemma SweptSendQuietIffLate(sub: Subscription, due: Option<Time>, at: Time)
    requires DeferredUntilExit(Some(sub), due) && at >= due.value
    ensures IsInQuietHours(at, sub.quiet) <==> (at - due.value) % DAY >= DAY - QuietLength(sub.quiet)
    ensures at - due.value < DAY - QuietLength(sub.quiet) ==> !IsInQuietHours(at, sub.quiet)
  {
    var d :| NextQuietHoursEnd(d, sub.quiet) == due;
    NextEndIsFirstExit(d, sub.quiet);
    AfterExitQuietIffLate(d, sub.quiet, at);
    if at - due.value < DAY - QuietLength(sub.quiet) {
      PromptSendIsNotQuiet(d, sub.quiet, at);
    }
  }
}
