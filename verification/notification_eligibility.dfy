/** Which orders a notification or a sweep may be about (app/bot/services.py): the card is only fetched for
    orders that still deserve it, and what a call writes meanwhile does not change that. */
module NotificationEligibility {
  import opened Wrappers
  import opened Instants
  import opened OrderStatuses
  import opened NotificationModel

  /** Canonical among its duplicates, fresh, relevant and still open. */
  predicate Deserving(orders: map<OrderId, Order>, id: OrderId, settings: Settings) {
    && id in orders && orders[id].messageExists
    && (orders[id].canonicalId.Some? ==> orders[id].canonicalId.value == id)
    && orders[id].isFresh && orders[id].relevance >= settings.minRelevance
    && orders[id].status in {OrderStatus.New, OrderStatus.Viewed, OrderStatus.Contacted}
  }

  predicate RecentAt(orders: map<OrderId, Order>, id: OrderId, at: Time, settings: Settings)
    requires id in orders
  {
    at - orders[id].publishedAt <= settings.freshnessDays * DAY
  }

  predicate Addressed(recipients: seq<Recipient>, userId: UserId) {
    exists i :: 0 <= i < |recipients| && recipients[i].userId == userId && recipients[i].subscription.Some?
  }

  /** Apart from when they were notified. */
  predicate SameOrders(orders: map<OrderId, Order>, orders': map<OrderId, Order>) {
    && orders'.Keys == orders.Keys
    && forall id :: id in orders ==> orders'[id].(notifiedAt := None) == orders[id].(notifiedAt := None)
  }

  lemma SameOrdersDeserve(orders: map<OrderId, Order>, orders': map<OrderId, Order>, id: OrderId, at: Time,
                          settings: Settings)
    requires SameOrders(orders, orders')
    ensures Deserving(orders', id, settings) <==> Deserving(orders, id, settings)
    ensures id in orders ==> (RecentAt(orders', id, at, settings) <==> RecentAt(orders, id, at, settings))
  {
    if id in orders {
      assert orders'[id].(notifiedAt := None) == orders[id].(notifiedAt := None);
    }
  }

  lemma NotifiableMeansDeserving(w: World, id: OrderId, at: Time, settings: Settings)
    ensures Notifiable(w, id, at, settings)
            <==> Deserving(w.orders, id, settings) && RecentAt(w.orders, id, at, settings)
  {
  }

  lemma NotifiedKeepsOrders(orders: map<OrderId, Order>, id: OrderId, at: Time)
    ensures SameOrders(orders, Notified(orders, id, at))
  {
  }

  /** A step writes nothing to an order but its notification time, and accepts at most one message. */
  ghost predicate Modest(w: World, w': World) {
    && (w'.orders == w.orders || exists id, at :: w'.orders == Notified(w.orders, id, at))
    && w'.users == w.users && w.outbox <= w'.outbox && |w'.outbox| <= |w.outbox| + 1
  }

  lemma NotifyIsModest(w: World, orderId: OrderId, now: Time, r: Recipient, settings: Settings)
    requires orderId in w.orders
    ensures Modest(w, NotifyStep(w, orderId, now, r, settings).0)
  {
  }

  lemma SweepIsModest(w: World, i: nat, cardAt: Time, reply: Reply, settings: Settings)
    requires i < |w.rows|
    ensures Modest(w, SweepStep(w, i, cardAt, reply, settings).0)
  {
  }

  lemma StepKeepsOrders(w: World, s: Step, settings: Settings)
    requires !s.Edit?
    ensures var w' := TakeStep(w, s, settings);
            && SameOrders(w.orders, w'.orders) && w'.users == w.users
            && w.outbox <= w'.outbox && |w'.outbox| <= |w.outbox| + 1
  {
    var w' := TakeStep(w, s, settings);
    if s.NotifyOne? && s.orderId in w.orders {
      NotifyIsModest(w, s.orderId, s.now, s.recipient, settings);
    } else if s.SweepOne? && s.row < |w.rows| {
      SweepIsModest(w, s.row, s.cardAt, s.reply, settings);
    }
    if w'.orders != w.orders {
      var id, at :| w'.orders == Notified(w.orders, id, at);
      NotifiedKeepsOrders(w.orders, id, at);
    }
  }

  lemma {:induction false} NotifiedOnlyAddressed(w: World, id: OrderId, now: Time, rs: seq<Recipient>,
                                                 settings: Settings, k: nat)
    requires var after := RunSteps(w, NotifySteps(id, now, rs), settings); |w.outbox| <= k < |after.outbox|
    ensures var e := RunSteps(w, NotifySteps(id, now, rs), settings).outbox[k];
            e.orderId == id && Addressed(rs, e.userId)
    decreases |rs|
  {
    if rs == [] {
    } else {
      var n := |rs| - 1;
      assert NotifySteps(id, now, rs)[..n] == NotifySteps(id, now, rs[..n]);
      var before := RunSteps(w, NotifySteps(id, now, rs[..n]), settings);
      StepKeepsOrders(before, NotifyOne(id, now, rs[n]), settings);
      if k < |before.outbox| {
        NotifiedOnlyAddressed(w, id, now, rs[..n], settings, k);
        var i :| 0 <= i < n && rs[..n][i].userId == before.outbox[k].userId && rs[..n][i].subscription.Some?;
        assert rs[i] == rs[..n][i];
      } else {
        assert rs[n].userId == RunSteps(w, NotifySteps(id, now, rs), settings).outbox[k].userId;
      }
    }
  }

  /** The message is of a delivery in the batch, whose order was recent when its own card was fetched. */
  predicate SweptWell(w: World, batch: seq<nat>, inputs: seq<SweepInput>, e: Event, settings: Settings)
    requires |inputs| == |batch|
  {
    && Deserving(w.orders, e.orderId, settings) && Reachable(w.users, e.userId)
    && exists i :: 0 <= i < |batch| && OwnCard(w, batch[i], inputs[i], e, settings)
  }

  predicate OwnCard(w: World, row: nat, input: SweepInput, e: Event, settings: Settings) {
    && row < |w.rows| && HasKey(w.rows[row], e.orderId, e.userId)
    && e.orderId in w.orders && RecentAt(w.orders, e.orderId, input.cardAt, settings)
  }

  predicate SameKeys(rows: seq<Delivery>, rows': seq<Delivery>) {
    |rows'| == |rows| && forall i :: 0 <= i < |rows| ==> HasKey(rows'[i], rows[i].orderId, rows[i].userId)
  }

  lemma SweepKeepsKeys(w: World, row: nat, input: SweepInput, settings: Settings)
    requires row < |w.rows|
    ensures SameKeys(w.rows, TakeStep(w, SweepOne(row, input.cardAt, input.reply), settings).rows)
  {
  }

  /** A sweep, up to any of its deliveries. */
  lemma {:induction false} SweptOnlyDeserving(w: World, batch: seq<nat>, inputs: seq<SweepInput>, settings: Settings)
    requires |inputs| == |batch| && forall i :: 0 <= i < |batch| ==> batch[i] < |w.rows|
    ensures var after := RunSteps(w, SweepSteps(batch, inputs), settings);
            && SameOrders(w.orders, after.orders) && after.users == w.users && w.outbox <= after.outbox
            && SameKeys(w.rows, after.rows)
            && forall k | |w.outbox| <= k < |after.outbox| :: SweptWell(w, batch, inputs, after.outbox[k], settings)
    decreases |batch|
  {
    if batch == [] {
    } else {
      var n := |batch| - 1;
      assert SweepSteps(batch, inputs)[..n] == SweepSteps(batch[..n], inputs[..n]);
      SweptOnlyDeserving(w, batch[..n], inputs[..n], settings);
      var before := RunSteps(w, SweepSteps(batch[..n], inputs[..n]), settings);
      var s := SweepOne(batch[n], inputs[n].cardAt, inputs[n].reply);
      StepKeepsOrders(before, s, settings);
      SweepKeepsKeys(before, batch[n], inputs[n], settings);
      var after := TakeStep(before, s, settings);
      forall k | |w.outbox| <= k < |after.outbox| ensures SweptWell(w, batch, inputs, after.outbox[k], settings) {
        if k < |before.outbox| {
          EarlierInput(w, batch, inputs, before.outbox[k], settings);
        } else {
          OneSweptWell(before, batch[n], inputs[n], settings);
          SameOrdersDeserve(w.orders, before.orders, after.outbox[k].orderId, inputs[n].cardAt, settings);
          assert OwnCard(w, batch[n], inputs[n], after.outbox[k], settings);
        }
      }
    }
  }

  lemma EarlierInput(w: World, batch: seq<nat>, inputs: seq<SweepInput>, e: Event, settings: Settings)
    requires |inputs| == |batch| > 0
    requires SweptWell(w, batch[..|batch| - 1], inputs[..|batch| - 1], e, settings)
    ensures SweptWell(w, batch, inputs, e, settings)
  {
    var n := |batch| - 1;
    var i :| 0 <= i < n && OwnCard(w, batch[..n][i], inputs[..n][i], e, settings);
    assert batch[i] == batch[..n][i] && inputs[i] == inputs[..n][i];
  }

  lemma OneSweptWell(w: World, row: nat, input: SweepInput, settings: Settings)
    requires row < |w.rows|
    ensures var outbox := TakeStep(w, SweepOne(row, input.cardAt, input.reply), settings).outbox;
            |outbox| > |w.outbox| ==>
              var e := outbox[|w.outbox|];
              && Deserving(w.orders, e.orderId, settings) && Reachable(w.users, e.userId)
              && OwnCard(w, row, input, e, settings)
  {
  }

  /** For a notification its order and one of its recipients with a subscription, for a sweep one of its deliveries,
      and the order recent when the card for this very message was fetched. */
  predicate AboutRecentOrder(w: World, c: Call, e: Event, settings: Settings) {
    && e.orderId in w.orders
    && match c
       case Notify(id, cardAt, _, recipients) =>
         e.orderId == id && Addressed(recipients, e.userId) && RecentAt(w.orders, e.orderId, cardAt, settings)
       case Sweep(_, batch, inputs) =>
         && Reachable(w.users, e.userId) && |inputs| == |batch|
         && exists i :: 0 <= i < |batch| && OwnCard(w, batch[i], inputs[i], e, settings)
       case Change(_, _) => false
  }

  /** Every message a call sends is about an order that was canonical, fresh, relevant and open at its start and
      recent enough when its card was fetched, and goes to a recipient with a subscription or, swept, to the active
      user of the delivery. */
  lemma OnlyDeservingOrdersAreSent(w: World, c: Call, settings: Settings, k: nat)
    requires CallEnabled(w, c)
    requires |w.outbox| <= k < |RunSteps(w, CallSteps(w, c, settings), settings).outbox|
    ensures var e := RunSteps(w, CallSteps(w, c, settings), settings).outbox[k];
            Deserving(w.orders, e.orderId, settings) && AboutRecentOrder(w, c, e, settings)
  {
    match c
    case Notify(id, cardAt, now, rs) =>
      NotifiableMeansDeserving(w, id, cardAt, settings);
      NotifiedOnlyAddressed(w, id, now, rs, settings, k);
    case Sweep(now, batch, inputs) =>
      SweptOnlyDeserving(w, batch, inputs, settings);
      assert SweptWell(w, batch, inputs, RunSteps(w, SweepSteps(batch, inputs), settings).outbox[k], settings);
    case Change(orders, users) =>
  }
}
