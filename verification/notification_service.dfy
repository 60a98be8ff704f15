/** The two entry points of notification delivery (app/bot/services.py) as they change the tables, proved to
    take exactly the steps of the model. */
module NotificationService {
  import opened Wrappers
  import opened Instants
  import opened QuietHours
  import opened NotificationModel

  datatype Counts = Counts(sent: nat, skipped: nat, failed: nat, deferred: nat) {
    function Add(kind: Kind): (counts: Counts)
      ensures counts.Total() == Total() + 1
    {
      match kind
      case WasSent => this.(sent := sent + 1)
      case WasSkipped => this.(skipped := skipped + 1)
      case WasFailed => this.(failed := failed + 1)
      case WasDeferred => this.(deferred := deferred + 1)
    }

    function Total(): nat {
      sent + skipped + failed + deferred
    }
  }

  const ZERO := Counts(0, 0, 0, 0)

  datatype NotificationResult =
    | CardUnavailable
    | NoRecipients
    | Processed(counts: Counts)

  ghost function KindOf(w: World, s: Step, settings: Settings): Kind {
    match s
    case NotifyOne(orderId, now, r) =>
      if orderId in w.orders then NotifyStep(w, orderId, now, r, settings).1 else WasSkipped
    case SweepOne(i, cardAt, reply) =>
      if i < |w.rows| then SweepStep(w, i, cardAt, reply, settings).1 else WasSkipped
    case Edit(_, _) => WasSkipped
  }

  /** How a run of steps went, counted by kind. */
  ghost function Tally(w: World, steps: seq<Step>, settings: Settings): Counts {
    if steps == [] then ZERO
    else
      var n := |steps| - 1;
      Tally(w, steps[..n], settings).Add(KindOf(RunSteps(w, steps[..n], settings), steps[n], settings))
  }

  lemma OneMessagePerSentStep(w: World, s: Step, settings: Settings)
    ensures var outbox := TakeStep(w, s, settings).outbox;
            if settings.maxRetries >= 1 && KindOf(w, s, settings) == WasSent then |outbox| == |w.outbox| + 1
            else outbox == w.outbox
  {
  }

  /** Every recipient or delivery is counted exactly once. */
  lemma {:induction false} TallyIsConserved(w: World, steps: seq<Step>, settings: Settings)
    ensures Tally(w, steps, settings).Total() == |steps|
  {
    if steps == [] {
    } else {
      var n := |steps| - 1;
      TallyIsConserved(w, steps[..n], settings);
    }
  }

  /** With at least one attempt allowed, the sent count is the number of messages Telegram accepted; with none,
      nothing leaves whatever the count says. */
  lemma {:induction false} SentCountIsMessagesAccepted(w: World, steps: seq<Step>, settings: Settings)
    ensures var outbox := RunSteps(w, steps, settings).outbox;
            if settings.maxRetries >= 1 then |outbox| == |w.outbox| + Tally(w, steps, settings).sent
            else outbox == w.outbox
  {
    if steps == [] {
    } else {
      var n := |steps| - 1;
      SentCountIsMessagesAccepted(w, steps[..n], settings);
      OneMessagePerSentStep(RunSteps(w, steps[..n], settings), steps[n], settings);
    }
  }

  /** One more delivery at the end of a sweep. */
  lemma SweepGrows(w: World, batch: seq<nat>, inputs: seq<SweepInput>, k: nat, settings: Settings)
    requires |inputs| == |batch| && k < |batch|
    ensures var done := SweepSteps(batch[..k], inputs[..k]);
            var more := SweepSteps(batch[..k + 1], inputs[..k + 1]);
            var step := SweepOne(batch[k], inputs[k].cardAt, inputs[k].reply);
            && RunSteps(w, more, settings) == TakeStep(RunSteps(w, done, settings), step, settings)
            && Tally(w, more, settings)
               == Tally(w, done, settings).Add(KindOf(RunSteps(w, done, settings), step, settings))
  {
    var more := SweepSteps(batch[..k + 1], inputs[..k + 1]);
    assert more[..k] == SweepSteps(batch[..k], inputs[..k]);
  }

  lemma SweptNotDeferred(w: World, i: nat, input: SweepInput, settings: Settings)
    ensures KindOf(w, SweepOne(i, input.cardAt, input.reply), settings) != WasDeferred
  {
    if i < |w.rows| {
      SweepStepEffect(w, i, input.cardAt, input.reply, settings);
    }
  }

  lemma {:induction false} SweepDefersNothing(w: World, batch: seq<nat>, inputs: seq<SweepInput>, settings: Settings)
    requires |inputs| == |batch|
    ensures Tally(w, SweepSteps(batch, inputs), settings).deferred == 0
    decreases |batch|
  {
    if batch == [] {
    } else {
      var n := |batch| - 1;
      assert batch[..n + 1] == batch && inputs[..n + 1] == inputs;
      SweepGrows(w, batch, inputs, n, settings);
      SweepDefersNothing(w, batch[..n], inputs[..n], settings);
      var before := RunSteps(w, SweepSteps(batch[..n], inputs[..n]), settings);
      SweptNotDeferred(before, batch[n], inputs[n], settings);
    }
  }

  class NotificationService {
    const settings: Settings
    var rows: seq<Delivery>
    var orders: map<OrderId, Order>
    var users: map<UserId, User>
    /** What Telegram has accepted. */
    var outbox: seq<Event>

    constructor (settings: Settings, orders: map<OrderId, Order>, users: map<UserId, User>)
      ensures this.settings == settings
      ensures Tables() == World([], orders, users, [])
    {
      this.settings := settings;
      this.rows, this.orders, this.users, this.outbox := [], orders, users, [];
    }

    function Tables(): World
      reads this
    {
      World(rows, orders, users, outbox)
    }

    method GetOrCreateDelivery(orderId: OrderId, userId: UserId, sub: Subscription) returns (i: nat, created: bool)
      modifies this`rows
      ensures rows == WithDelivery(old(rows), orderId, userId, sub)
      ensures i == Find(old(rows), orderId, userId)
      ensures created <==> i == |old(rows)|
    {
      i := Find(rows, orderId, userId);
      if i < |rows| {
        return i, false;
      }
      rows := rows + [NewDelivery(orderId, userId, sub)];
      created := true;
    }

    /** One turn of the loop over recipients. */
    method NotifyRecipient(orderId: OrderId, now: Time, r: Recipient) returns (kind: Kind)
      requires orderId in orders
      modifies this`rows, this`orders, this`outbox
      ensures (Tables(), kind) == NotifyStep(old(Tables()), orderId, now, r, settings)
      ensures orderId in orders
    {
      if r.subscription.None? {
        return WasSkipped;
      }
      var sub := r.subscription.value;
      if IsRateLimited(Tables(), r.userId, sub, now) {
        return WasSkipped;
      }
      if IsSimilarCooldownActive(Tables(), r.userId, orderId, sub, now) {
        return WasSkipped;
      }
      var i, created := GetOrCreateDelivery(orderId, r.userId, sub);
      var delivery := rows[i];
      if !created && !Retryable(delivery, now) {
        return WasSkipped;
      }

      if IsInQuietHours(now, sub.quiet) {
        delivery := delivery.(status := Deferred);
        delivery := delivery.(scheduledFor := NextQuietHoursEnd(now, sub.quiet));
        delivery := delivery.(subscription := Some(sub));
        rows := rows[i := delivery];
        return WasDeferred;
      }

      var outcome, calls := SendWithRetry(r.reply.attempt, settings.maxRetries);
      if outcome.Raised? {
        delivery := delivery.(status := Failed);
        delivery := delivery.(error := Some(Truncate(outcome.error)));
        rows := rows[i := delivery];
        return WasFailed;
      }
      if outcome.Delivered? {
        outbox := outbox + [Event(orderId, r.userId, r.reply.at, Immediate(sub, now))];
      }
      delivery := delivery.(status := Sent);
      delivery := delivery.(sentAt := Some(r.reply.at));
      delivery := delivery.(scheduledFor := None);
      delivery := delivery.(subscription := Some(sub));
      delivery := delivery.(error := None);
      rows := rows[i := delivery];
      orders := orders[orderId := orders[orderId].(notifiedAt := delivery.sentAt)];
      return WasSent;
    }

    method SendOrderNotification(orderId: OrderId, cardAt: Time, now: Time, recipients: seq<Recipient>)
      returns (result: NotificationResult)
      modifies this`rows, this`orders, this`outbox
      ensures var before := old(Tables());
              var steps := CallSteps(before, Notify(orderId, cardAt, now, recipients), settings);
              && Tables() == RunSteps(before, steps, settings)
              && result == (if !Notifiable(before, orderId, cardAt, settings) then CardUnavailable
                            else if recipients == [] then NoRecipients
                            else Processed(Tally(before, steps, settings)))
    {
      if !Notifiable(Tables(), orderId, cardAt, settings) {
        return CardUnavailable;
      }
      if recipients == [] {
        return NoRecipients;
      }
      var counts := ZERO;
      ghost var before := Tables();
      for k := 0 to |recipients|
        invariant orderId in orders
        invariant Tables() == RunSteps(before, NotifySteps(orderId, now, recipients[..k]), settings)
        invariant counts == Tally(before, NotifySteps(orderId, now, recipients[..k]), settings)
      {
        ghost var steps := NotifySteps(orderId, now, recipients[..k + 1]);
        assert steps[..k] == NotifySteps(orderId, now, recipients[..k]);
        assert steps[k] == NotifyOne(orderId, now, recipients[k]);
        var kind := NotifyRecipient(orderId, now, recipients[k]);
        counts := counts.Add(kind);
      }
      assert recipients[..|recipients|] == recipients;
      return Processed(counts);
    }

    /** One turn of the sweep's loop. */
    method SweepDelivery(i: nat, input: SweepInput) returns (kind: Kind)
      requires i < |rows|
      modifies this`rows, this`orders, this`outbox
      ensures (Tables(), kind) == SweepStep(old(Tables()), i, input.cardAt, input.reply, settings)
      ensures |rows| == |old(rows)| && kind != WasDeferred
    {
      var delivery := rows[i];
      var orderId, userId := delivery.orderId, delivery.userId;
      if !Notifiable(Tables(), orderId, input.cardAt, settings) || !Reachable(users, userId) {
        delivery := delivery.(status := Skipped);
        rows := rows[i := delivery];
        return WasSkipped;
      }
      var outcome, calls := SendWithRetry(input.reply.attempt, settings.maxRetries);
      if outcome.Raised? {
        delivery := delivery.(status := Failed);
        delivery := delivery.(error := Some(Truncate(outcome.error)));
        rows := rows[i := delivery];
        return WasFailed;
      }
      if outcome.Delivered? {
        var origin := Swept(delivery.subscription, delivery.scheduledFor);
        outbox := outbox + [Event(orderId, userId, input.reply.at, origin)];
      }
      delivery := delivery.(status := Sent);
      delivery := delivery.(sentAt := Some(input.reply.at));
      delivery := delivery.(scheduledFor := None);
      delivery := delivery.(error := None);
      rows := rows[i := delivery];
      if orderId in orders {
        orders := orders[orderId := orders[orderId].(notifiedAt := delivery.sentAt)];
      }
      return WasSent;
    }

    /** The sweep over the deliveries its query returned. */
    method ProcessDeferredNotifications(now: Time, batch: seq<nat>, inputs: seq<SweepInput>) returns (counts: Counts)
      requires IsBatch(rows, now, batch) && |inputs| == |batch|
      modifies this`rows, this`orders, this`outbox
      ensures var before := old(Tables());
              var steps := CallSteps(before, Sweep(now, batch, inputs), settings);
              Tables() == RunSteps(before, steps, settings) && counts == Tally(before, steps, settings)
      ensures counts.deferred == 0 && counts.Total() == |batch|
    {
      counts := ZERO;
      ghost var before := Tables();
      for k := 0 to |batch|
        invariant |rows| == |before.rows|
        invariant Tables() == RunSteps(before, SweepSteps(batch[..k], inputs[..k]), settings)
        invariant counts == Tally(before, SweepSteps(batch[..k], inputs[..k]), settings)
      {
        SweepGrows(before, batch, inputs, k, settings);
        var kind := SweepDelivery(batch[k], inputs[k]);
        counts := counts.Add(kind);
      }
      assert batch[..|batch|] == batch && inputs[..|inputs|] == inputs;
      TallyIsConserved(before, SweepSteps(batch, inputs), settings);
      SweepDefersNothing(before, batch, inputs, settings);
    }
  }
}
