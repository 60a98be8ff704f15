/** Notification delivery (app/bot/services.py): the tables it touches, one step per recipient or due
    delivery, and the runs built from them. Telegram's answers and clock readings are inputs of a step. */
module NotificationModel {
  import opened Wrappers
  import opened Instants
  import opened OrderStatuses
  import opened QuietHours

  type OrderId = nat
  type UserId = nat

  datatype Settings = Settings(maxRetries: int, freshnessDays: int, minRelevance: int)

  datatype Subscription = Subscription(
    id: nat, limit: Option<nat>, periodMinutes: nat, cooldownMinutes: Option<nat>, quiet: Config)

  datatype Order = Order(
    messageExists: bool, canonicalId: Option<OrderId>, isFresh: bool, publishedAt: Time, relevance: int,
    status: OrderStatus, fingerprint: Option<string>, notifiedAt: Option<Time>)

  datatype User = User(chatId: Option<int>, active: bool)

  datatype Status = Queued | Sent | Failed | Skipped | Deferred

  datatype Delivery = Delivery(
    orderId: OrderId, userId: UserId, status: Status, subscription: Option<Subscription>,
    sentAt: Option<Time>, scheduledFor: Option<Time>, error: Option<string>)

  /** A message Telegram accepted, and what the sender had checked. */
  datatype Event = Event(orderId: OrderId, userId: UserId, at: Time, origin: Origin)
  datatype Origin =
    | Immediate(subscription: Subscription, checkedAt: Time)
    | Swept(deferredBy: Option<Subscription>, dueAt: Option<Time>)

  /** The delivery table in insertion order, the rows it joins, and every message accepted so far. */
  datatype World = World(rows: seq<Delivery>, orders: map<OrderId, Order>, users: map<UserId, User>, outbox: seq<Event>)

  // ---------- Telegram ----------

  datatype Attempt = Accepted | Error(text: string)

  /** Telegram's answer to each attempt, and the clock once sending is over. */
  datatype Reply = Reply(attempt: nat -> Attempt, at: Time)

  datatype Outcome = Delivered | Raised(error: string) | NothingSent

  ghost predicate SomeAccepted(attempt: nat -> Attempt, maxRetries: int) {
    exists i: nat :: i < maxRetries && attempt(i).Accepted?
  }

  ghost function SendOutcome(attempt: nat -> Attempt, maxRetries: int): Outcome {
    if SomeAccepted(attempt, maxRetries) then Delivered
    else if maxRetries <= 0 then NothingSent
    else Raised(attempt(maxRetries - 1).text)
  }

  /** Stops at the first acceptance, so at most one attempt is accepted; raises the last error otherwise. */
  method SendWithRetry(attempt: nat -> Attempt, maxRetries: int) returns (outcome: Outcome, calls: nat)
    ensures outcome == SendOutcome(attempt, maxRetries)
    ensures maxRetries >= 0 ==> calls <= maxRetries
    ensures forall i: nat :: i + 1 < calls ==> attempt(i).Error?
    ensures outcome.Delivered? <==> calls > 0 && attempt(calls - 1).Accepted?
  {
    var lastError: Option<string> := None;
    calls := 0;
    while calls < maxRetries
      invariant calls == 0 || calls <= maxRetries
      invariant forall i: nat :: i < calls ==> attempt(i).Error?
      invariant lastError == if calls == 0 then None else Some(attempt(calls - 1).text)
    {
      var answer := attempt(calls);
      calls := calls + 1;
      if answer.Accepted? {
        return Delivered, calls;
      }
      lastError := Some(answer.text);
    }
    if lastError.Some? {
      return Raised(lastError.value), calls;
    }
    return NothingSent, calls;
  }

  // ---------- queries ----------

  datatype Key = Key(orderId: OrderId, userId: UserId, at: Time)

  function KeyOf(e: Event): Key {
    Key(e.orderId, e.userId, e.at)
  }

  predicate SentRow(r: Delivery) {
    r.status == Sent && r.sentAt.Some?
  }

  function RowKey(r: Delivery): Key
    requires SentRow(r)
  {
    Key(r.orderId, r.userId, r.sentAt.value)
  }

  function CountSent(rows: seq<Delivery>, q: Key -> bool): nat {
    if rows == [] then 0
    else
      var r := rows[|rows| - 1];
      CountSent(rows[..|rows| - 1], q) + (if SentRow(r) && q(RowKey(r)) then 1 else 0)
  }

  function SentSince(userId: UserId, cutoff: Time): Key -> bool {
    (k: Key) => k.userId == userId && k.at >= cutoff
  }

  predicate IsRateLimited(w: World, userId: UserId, sub: Subscription, now: Time) {
    sub.limit.Some? &&
    CountSent(w.rows, SentSince(userId, now - sub.periodMinutes * MINUTE)) >= sub.limit.value
  }

  predicate HasFingerprint(o: Order) {
    o.fingerprint.Some? && o.fingerprint.value != ""
  }

  predicate SimilarSent(w: World, userId: UserId, orderId: OrderId, r: Delivery, cutoff: Time)
    requires orderId in w.orders
  {
    && r.userId == userId && SentRow(r) && r.sentAt.value >= cutoff
    && r.orderId in w.orders && w.orders[r.orderId].fingerprint == w.orders[orderId].fingerprint
    && r.orderId != orderId
  }

  predicate IsSimilarCooldownActive(w: World, userId: UserId, orderId: OrderId, sub: Subscription, now: Time)
    requires orderId in w.orders
  {
    && sub.cooldownMinutes.Some? && HasFingerprint(w.orders[orderId])
    && exists i :: 0 <= i < |w.rows| &&
         SimilarSent(w, userId, orderId, w.rows[i], now - sub.cooldownMinutes.value * MINUTE)
  }

  /** The order still deserves a notification: canonical in its group, fresh, relevant and open. */
  predicate Notifiable(w: World, orderId: OrderId, at: Time, settings: Settings) {
    && orderId in w.orders
    && var o := w.orders[orderId];
    && o.messageExists
    && (o.canonicalId.None? || o.canonicalId.value == orderId)
    && o.isFresh && o.publishedAt >= at - settings.freshnessDays * DAY
    && o.relevance >= settings.minRelevance
    && o.status != Irrelevant && o.status != Archived
  }

  predicate HasKey(r: Delivery, orderId: OrderId, userId: UserId) {
    r.orderId == orderId && r.userId == userId
  }

  /** Index of the first delivery of this order to this user, or the number of rows. */
  function Find(rows: seq<Delivery>, orderId: OrderId, userId: UserId): (i: nat)
    ensures i <= |rows|
    ensures i < |rows| ==> HasKey(rows[i], orderId, userId)
    ensures forall j :: 0 <= j < i ==> !HasKey(rows[j], orderId, userId)
  {
    if rows == [] then 0
    else
      var last := |rows| - 1;
      var i := Find(rows[..last], orderId, userId);
      if i < last || HasKey(rows[last], orderId, userId) then i else |rows|
  }

  predicate Due(r: Delivery, now: Time) {
    r.status == Deferred && r.scheduledFor.Some? && r.scheduledFor.value <= now
  }

  /** An existing delivery is taken up again only when its deferral has run out. */
  predicate Retryable(r: Delivery, now: Time) {
    r.status == Deferred && (r.scheduledFor.None? || r.scheduledFor.value <= now)
  }

  function Truncate(text: string): string {
    if |text| <= 2000 then text else text[..2000]
  }

  // ---------- steps ----------

  /** One recipient of a notification with the subscription that matches the order, if any. */
  datatype Recipient = Recipient(userId: UserId, subscription: Option<Subscription>, reply: Reply)

  datatype Step =
    | NotifyOne(orderId: OrderId, now: Time, recipient: Recipient)
    | SweepOne(row: nat, cardAt: Time, reply: Reply)
    | Edit(orders: map<OrderId, Order>, users: map<UserId, User>)

  datatype Kind = WasSent | WasSkipped | WasFailed | WasDeferred

  function NewDelivery(orderId: OrderId, userId: UserId, sub: Subscription): Delivery {
    Delivery(orderId, userId, Queued, Some(sub), None, None, None)
  }

  predicate Reaches(w: World, orderId: OrderId, now: Time, r: Recipient)
    requires orderId in w.orders
  {
    && r.subscription.Some?
    && !IsRateLimited(w, r.userId, r.subscription.value, now)
    && !IsSimilarCooldownActive(w, r.userId, orderId, r.subscription.value, now)
    && var i := Find(w.rows, orderId, r.userId);
    (i < |w.rows| ==> Retryable(w.rows[i], now))
  }

  /** The rows with the delivery for this recipient present. */
  function WithDelivery(rows: seq<Delivery>, orderId: OrderId, userId: UserId, sub: Subscription)
    : (rows': seq<Delivery>)
    ensures Find(rows, orderId, userId) < |rows'|
  {
    if Find(rows, orderId, userId) < |rows| then rows else rows + [NewDelivery(orderId, userId, sub)]
  }

  function MarkSent(r: Delivery, at: Time): Delivery {
    r.(status := Sent, sentAt := Some(at), scheduledFor := None, error := None)
  }

  function MarkFailed(r: Delivery, error: string): Delivery {
    r.(status := Failed, error := Some(Truncate(error)))
  }

  function Notified(orders: map<OrderId, Order>, orderId: OrderId, at: Time): map<OrderId, Order> {
    if orderId in orders then orders[orderId := orders[orderId].(notifiedAt := Some(at))] else orders
  }

  ghost function NotifyStep(w: World, orderId: OrderId, now: Time, r: Recipient, settings: Settings): (World, Kind)
    requires orderId in w.orders
  {
    if !Reaches(w, orderId, now, r) then (w, WasSkipped)
    else
      var sub := r.subscription.value;
      var i := Find(w.rows, orderId, r.userId);
      var rows := WithDelivery(w.rows, orderId, r.userId, sub);
      if IsInQuietHours(now, sub.quiet) then
        var row := rows[i].(status := Deferred, scheduledFor := NextQuietHoursEnd(now, sub.quiet),
                            subscription := Some(sub));
        (w.(rows := rows[i := row]), WasDeferred)
      else match SendOutcome(r.reply.attempt, settings.maxRetries)
        case Raised(error) => (w.(rows := rows[i := MarkFailed(rows[i], error)]), WasFailed)
        case outcome =>
          var at := r.reply.at;
          var row := MarkSent(rows[i], at).(subscription := Some(sub));
          var outbox := if outcome.Delivered?
                        then w.outbox + [Event(orderId, r.userId, at, Immediate(sub, now))] else w.outbox;
          (World(rows[i := row], Notified(w.orders, orderId, at), w.users, outbox), WasSent)
  }

  predicate Reachable(users: map<UserId, User>, userId: UserId) {
    userId in users && users[userId].chatId.Some? && users[userId].active
  }

  ghost function SweepStep(w: World, i: nat, cardAt: Time, reply: Reply, settings: Settings): (World, Kind)
    requires i < |w.rows|
  {
    var r := w.rows[i];
    if !Notifiable(w, r.orderId, cardAt, settings) || !Reachable(w.users, r.userId) then
      (w.(rows := w.rows[i := r.(status := Skipped)]), WasSkipped)
    else match SendOutcome(reply.attempt, settings.maxRetries)
      case Raised(error) => (w.(rows := w.rows[i := MarkFailed(r, error)]), WasFailed)
      case outcome =>
        var at := reply.at;
        var outbox := if outcome.Delivered?
                      then w.outbox + [Event(r.orderId, r.userId, at, Swept(r.subscription, r.scheduledFor))]
                      else w.outbox;
        (World(w.rows[i := MarkSent(r, at)], Notified(w.orders, r.orderId, at), w.users, outbox), WasSent)
  }

  // ---------- runs ----------

  /** What holds when a step starts: clocks do not run backwards inside a step, a swept delivery is still
      due, and edits delete no order (deleting one would delete its deliveries with it). */
  predicate StepEnabled(w: World, s: Step) {
    match s
    case NotifyOne(orderId, now, r) => orderId in w.orders && now <= r.reply.at
    case SweepOne(i, cardAt, reply) => i < |w.rows| && Due(w.rows[i], reply.at)
    case Edit(orders, users) => w.orders.Keys <= orders.Keys
  }

  ghost function TakeStep(w: World, s: Step, settings: Settings): World {
    match s
    case NotifyOne(orderId, now, r) =>
      if orderId in w.orders then NotifyStep(w, orderId, now, r, settings).0 else w
    case SweepOne(i, cardAt, reply) =>
      if i < |w.rows| then SweepStep(w, i, cardAt, reply, settings).0 else w
    case Edit(orders, users) => w.(orders := orders, users := users)
  }

  ghost function RunSteps(w: World, steps: seq<Step>, settings: Settings): World {
    if steps == [] then w
    else
      var n := |steps| - 1;
      TakeStep(RunSteps(w, steps[..n], settings), steps[n], settings)
  }

  ghost predicate StepsEnabled(w: World, steps: seq<Step>, settings: Settings) {
    if steps == [] then true
    else
      var n := |steps| - 1;
      StepsEnabled(w, steps[..n], settings) && StepEnabled(RunSteps(w, steps[..n], settings), steps[n])
  }

  datatype SweepInput = SweepInput(cardAt: Time, reply: Reply)

  /** One task: a notification of one order, one sweep over due deliveries, or a change made elsewhere. */
  datatype Call =
    | Notify(orderId: OrderId, cardAt: Time, now: Time, recipients: seq<Recipient>)
    | Sweep(now: Time, batch: seq<nat>, inputs: seq<SweepInput>)
    | Change(orders: map<OrderId, Order>, users: map<UserId, User>)

  const SWEEP_LIMIT := 100

  /** What the sweep's query may return: due deliveries, earliest first, at most so many, none left out before the
      limit; deliveries due at the same time come in any order. */
  ghost predicate EarliestDue(rows: seq<Delivery>, now: Time, limit: nat, batch: seq<nat>) {
    && |batch| <= limit
    && (forall j :: 0 <= j < |batch| ==> batch[j] < |rows| && Due(rows[batch[j]], now))
    && (forall j, k :: 0 <= j < k < |batch| ==>
          batch[j] != batch[k] && rows[batch[j]].scheduledFor.value <= rows[batch[k]].scheduledFor.value)
    && (forall i :: 0 <= i < |rows| && Due(rows[i], now) && i !in batch ==>
          && |batch| == limit
          && forall j :: 0 <= j < |batch| ==> rows[batch[j]].scheduledFor.value <= rows[i].scheduledFor.value)
  }

  ghost predicate IsBatch(rows: seq<Delivery>, now: Time, batch: seq<nat>) {
    EarliestDue(rows, now, SWEEP_LIMIT, batch)
  }

  /** The query always has such an answer. */
  lemma {:induction false} SomeBatchExists(rows: seq<Delivery>, now: Time, limit: nat) returns (batch: seq<nat>)
    ensures EarliestDue(rows, now, limit, batch)
    decreases limit
  {
    batch := [];
    if limit == 0 || forall i :: 0 <= i < |rows| ==> !Due(rows[i], now) {
    } else {
      var first := FirstDue(rows, now);
      var rest := SomeBatchExists(rows[first := rows[first].(status := Skipped)], now, limit - 1);
      batch := [first] + rest;
      FirstThenRest(rows, now, limit - 1, first, rest);
    }
  }

  lemma FirstThenRest(rows: seq<Delivery>, now: Time, limit: nat, first: nat, rest: seq<nat>)
    requires first < |rows| && Due(rows[first], now)
    requires forall i :: 0 <= i < |rows| && Due(rows[i], now) ==>
               rows[first].scheduledFor.value <= rows[i].scheduledFor.value
    requires EarliestDue(rows[first := rows[first].(status := Skipped)], now, limit, rest)
    ensures EarliestDue(rows, now, limit + 1, [first] + rest)
  {
    var others, batch := rows[first := rows[first].(status := Skipped)], [first] + rest;
    forall j | 0 <= j < |rest| ensures rest[j] < |rows| && rest[j] != first && rows[rest[j]] == others[rest[j]] {
      assert Due(others[rest[j]], now);
    }
    forall i | 0 <= i < |rows| && Due(rows[i], now) && i !in batch
      ensures |rest| == limit
      ensures forall j :: 0 <= j < |batch| ==> rows[batch[j]].scheduledFor.value <= rows[i].scheduledFor.value
    {
      assert i != first && i !in rest && Due(others[i], now);
      forall j | 0 <= j < |batch| ensures rows[batch[j]].scheduledFor.value <= rows[i].scheduledFor.value {
        assert j > 0 ==> batch[j] == rest[j - 1];
      }
    }
  }

  lemma {:induction false} FirstDue(rows: seq<Delivery>, now: Time) returns (first: nat)
    requires exists i :: 0 <= i < |rows| && Due(rows[i], now)
    ensures first < |rows| && Due(rows[first], now)
    ensures forall i :: 0 <= i < |rows| && Due(rows[i], now) ==>
              rows[first].scheduledFor.value <= rows[i].scheduledFor.value
  {
    var n := |rows| - 1;
    first := n;
    if i :| 0 <= i < n && Due(rows[i], now) {
      assert rows[..n][i] == rows[i];
      var before := FirstDue(rows[..n], now);
      first := if Due(rows[n], now) && rows[n].scheduledFor.value < rows[before].scheduledFor.value then n else before;
      forall j | 0 <= j < n && Due(rows[j], now)
        ensures rows[before].scheduledFor.value <= rows[j].scheduledFor.value
      {
        assert rows[..n][j] == rows[j];
      }
    }
  }

  function NotifySteps(orderId: OrderId, now: Time, recipients: seq<Recipient>): seq<Step> {
    seq(|recipients|, i requires 0 <= i < |recipients| => NotifyOne(orderId, now, recipients[i]))
  }

  function SweepSteps(batch: seq<nat>, inputs: seq<SweepInput>): seq<Step>
    requires |inputs| == |batch|
  {
    seq(|batch|, i requires 0 <= i < |batch| => SweepOne(batch[i], inputs[i].cardAt, inputs[i].reply))
  }

  ghost predicate CallEnabled(w: World, c: Call) {
    match c
    case Notify(orderId, cardAt, now, rs) => forall i :: 0 <= i < |rs| ==> now <= rs[i].reply.at
    case Sweep(now, batch, inputs) =>
      && IsBatch(w.rows, now, batch) && |inputs| == |batch|
      && forall i :: 0 <= i < |inputs| ==> now <= inputs[i].reply.at
    case Change(orders, users) => w.orders.Keys <= orders.Keys
  }

  /** The steps a call takes when calls do not overlap. */
  function CallSteps(w: World, c: Call, settings: Settings): seq<Step> {
    match c
    case Notify(orderId, cardAt, now, rs) =>
      if Notifiable(w, orderId, cardAt, settings) then NotifySteps(orderId, now, rs) else []
    case Sweep(now, batch, inputs) => if |inputs| == |batch| then SweepSteps(batch, inputs) else []
    case Change(orders, users) => [Edit(orders, users)]
  }

  ghost function RunCalls(w: World, calls: seq<Call>, settings: Settings): World {
    if calls == [] then w
    else
      var before := RunCalls(w, calls[..|calls| - 1], settings);
      RunSteps(before, CallSteps(before, calls[|calls| - 1], settings), settings)
  }

  ghost predicate CallsEnabled(w: World, calls: seq<Call>, settings: Settings) {
    if calls == [] then true
    else
      var n := |calls| - 1;
      CallsEnabled(w, calls[..n], settings) && CallEnabled(RunCalls(w, calls[..n], settings), calls[n])
  }

  predicate Initial(w: World) {
    w.rows == [] && w.outbox == []
  }

  // ---------- serial calls are enabled steps ----------

  lemma {:induction false} RunStepsConcat(w: World, a: seq<Step>, b: seq<Step>, settings: Settings)
    ensures RunSteps(w, a + b, settings) == RunSteps(RunSteps(w, a, settings), b, settings)
    ensures StepsEnabled(w, a + b, settings)
            <==> StepsEnabled(w, a, settings) && StepsEnabled(RunSteps(w, a, settings), b, settings)
    decreases |b|
  {
    if b == [] {
      assert a + b == a;
    } else {
      var n := |b| - 1;
      assert (a + b)[..|a| + n] == a + b[..n];
      RunStepsConcat(w, a, b[..n], settings);
    }
  }

  lemma {:induction false} NotifyStepsEnabled(w: World, orderId: OrderId, now: Time, rs: seq<Recipient>,
                                              settings: Settings)
    requires orderId in w.orders
    requires forall i :: 0 <= i < |rs| ==> now <= rs[i].reply.at
    ensures StepsEnabled(w, NotifySteps(orderId, now, rs), settings)
    ensures orderId in RunSteps(w, NotifySteps(orderId, now, rs), settings).orders
    decreases |rs|
  {
    if rs == [] {
    } else {
      var n := |rs| - 1;
      assert NotifySteps(orderId, now, rs)[..n] == NotifySteps(orderId, now, rs[..n]);
      NotifyStepsEnabled(w, orderId, now, rs[..n], settings);
    }
  }

  lemma SweepStepEffect(w: World, i: nat, cardAt: Time, reply: Reply, settings: Settings)
    requires i < |w.rows|
    ensures var rows := SweepStep(w, i, cardAt, reply, settings).0.rows;
            && |rows| == |w.rows| && rows == w.rows[i := rows[i]]
            && (rows[i].status == Sent || rows[i].status == Failed || rows[i].status == Skipped)
    ensures SweepStep(w, i, cardAt, reply, settings).1 != WasDeferred
  {
  }

  /** A sweep of these rows has touched them only, and none of them is deferred any more. */
  ghost predicate SweptRows(rows: seq<Delivery>, rows': seq<Delivery>, batch: seq<nat>) {
    && |rows'| == |rows|
    && (forall i :: 0 <= i < |rows| && i !in batch ==> rows'[i] == rows[i])
    && (forall i :: 0 <= i < |rows| && i in batch ==> rows'[i].status != Deferred)
  }

  lemma OneMoreSwept(rows: seq<Delivery>, rows': seq<Delivery>, done: seq<nat>, i: nat, r: Delivery)
    requires SweptRows(rows, rows', done) && i < |rows| && r.status != Deferred
    ensures SweptRows(rows, rows'[i := r], done + [i])
  {
    forall j ensures j in done + [i] <==> j in done || j == i {
    }
  }

  /** A sweep only touches the rows of its batch, each once, so each is still due when its turn comes. */
  lemma {:induction false} SweepStepsEnabled(w: World, now: Time, batch: seq<nat>, inputs: seq<SweepInput>,
                                             settings: Settings)
    requires |inputs| == |batch|
    requires forall j :: 0 <= j < |batch| ==> batch[j] < |w.rows| && Due(w.rows[batch[j]], now)
    requires forall j, k :: 0 <= j < k < |batch| ==> batch[j] != batch[k]
    requires forall i :: 0 <= i < |inputs| ==> now <= inputs[i].reply.at
    ensures StepsEnabled(w, SweepSteps(batch, inputs), settings)
    ensures SweptRows(w.rows, RunSteps(w, SweepSteps(batch, inputs), settings).rows, batch)
    decreases |batch|
  {
    if batch == [] {
    } else {
      var n := |batch| - 1;
      assert SweepSteps(batch, inputs)[..n] == SweepSteps(batch[..n], inputs[..n]);
      SweepStepsEnabled(w, now, batch[..n], inputs[..n], settings);
      var before := RunSteps(w, SweepSteps(batch[..n], inputs[..n]), settings);
      var i := batch[n];
      assert i !in batch[..n] && batch == batch[..n] + [i];
      assert StepEnabled(before, SweepOne(i, inputs[n].cardAt, inputs[n].reply));
      SweepStepEffect(before, i, inputs[n].cardAt, inputs[n].reply, settings);
      var after := SweepStep(before, i, inputs[n].cardAt, inputs[n].reply, settings).0;
      OneMoreSwept(w.rows, before.rows, batch[..n], i, after.rows[i]);
    }
  }

  lemma CallStepsEnabled(w: World, c: Call, settings: Settings)
    requires CallEnabled(w, c)
    ensures StepsEnabled(w, CallSteps(w, c, settings), settings)
  {
    match c
    case Notify(orderId, cardAt, now, rs) =>
      if Notifiable(w, orderId, cardAt, settings) {
        NotifyStepsEnabled(w, orderId, now, rs, settings);
      }
    case Sweep(now, batch, inputs) => SweepStepsEnabled(w, now, batch, inputs, settings);
    case Change(orders, users) =>
      var steps := CallSteps(w, c, settings);
      assert steps[..0] == [];
  }

  lemma {:induction false} SerialRunIsASteppedRun(w: World, calls: seq<Call>, settings: Settings)
    returns (steps: seq<Step>)
    requires CallsEnabled(w, calls, settings)
    ensures StepsEnabled(w, steps, settings)
    ensures RunSteps(w, steps, settings) == RunCalls(w, calls, settings)
  {
    if calls == [] {
      steps := [];
    } else {
      var n := |calls| - 1;
      var first := SerialRunIsASteppedRun(w, calls[..n], settings);
      var before := RunCalls(w, calls[..n], settings);
      CallStepsEnabled(before, calls[n], settings);
      steps := first + CallSteps(before, calls[n], settings);
      RunStepsConcat(w, first, CallSteps(before, calls[n], settings), settings);
    }
  }

  /** A sweep handles the deliveries that are deferred until now or earlier, at most a hundred of them and none before
      one that is due earlier: afterwards those it left out are still deferred, and no other due one is. */
  lemma SweepClearsItsBatch(w: World, now: Time, batch: seq<nat>, inputs: seq<SweepInput>, settings: Settings)
    requires CallEnabled(w, Sweep(now, batch, inputs))
    ensures |batch| <= 100
    ensures var rows := RunSteps(w, SweepSteps(batch, inputs), settings).rows;
            && |rows| == |w.rows|
            && (forall i :: 0 <= i < |rows| && i in batch ==>
                  && w.rows[i].status == Deferred && w.rows[i].scheduledFor.Some?
                  && w.rows[i].scheduledFor.value <= now && rows[i].status != Deferred)
            && (forall i :: 0 <= i < |rows| && i !in batch ==> rows[i] == w.rows[i])
    ensures forall i | 0 <= i < |w.rows| && i !in batch && w.rows[i].status == Deferred && w.rows[i].scheduledFor.Some?
                       && w.rows[i].scheduledFor.value <= now ::
              |batch| == 100
              && forall j :: j in batch ==> w.rows[j].scheduledFor.value <= w.rows[i].scheduledFor.value
  {
    SweepStepsEnabled(w, now, batch, inputs, settings);
    forall j | j in batch ensures j < |w.rows| && Due(w.rows[j], now) {
      var k :| 0 <= k < |batch| && batch[k] == j;
    }
  }
}
