/** What happens to each recipient and each due delivery (app/bot/services.py), told from the messages that went out
    and the fields of the rows alone. */
module NotificationDecisions {
  import opened Wrappers
  import opened Instants
  import opened OrderStatuses
  import opened QuietHours
  import opened NotificationModel
  import opened NotificationGuarantees
  import opened NotificationWindows
  import opened NotificationEligibility
  import opened NotificationService

  // ---------- what holds a notification back ----------

  /** The messages to this user from this instant on. */
  function Recent(outbox: seq<Event>, userId: UserId, from: Time): set<nat> {
    set k: nat | k < |outbox| && outbox[k].userId == userId && outbox[k].at >= from
  }

  /** A message to this user, from this instant on, about another order with the same non-empty fingerprint. */
  ghost predicate SimilarRecent(outbox: seq<Event>, fp: OrderId -> Option<string>, userId: UserId, orderId: OrderId,
                                from: Time) {
    && fp(orderId).Some? && fp(orderId).value != ""
    && exists k :: 0 <= k < |outbox| && outbox[k].userId == userId && outbox[k].at >= from
                   && outbox[k].orderId != orderId && fp(outbox[k].orderId) == fp(orderId)
  }

  /** The order has no delivery to this user but a deferred one that has fallen due. */
  predicate FreeToGo(rows: seq<Delivery>, orderId: OrderId, userId: UserId, now: Time) {
    forall i | 0 <= i < |rows| && rows[i].orderId == orderId && rows[i].userId == userId ::
      rows[i].status == Deferred && (rows[i].scheduledFor.Some? ==> rows[i].scheduledFor.value <= now)
  }

  /** A subscription matches, fewer messages than its limit went to the user in its period, none about a similar order
      in its cooldown, and the order has no delivery to the user yet or a deferred one that has fallen due. Periods
      and cooldowns are in minutes, instants in microseconds. */
  ghost predicate MayGo(w: World, fp: OrderId -> Option<string>, orderId: OrderId, now: Time, r: Recipient) {
    && r.subscription.Some?
    && var sub := r.subscription.value;
    && (sub.limit.Some? ==> |Recent(w.outbox, r.userId, now - sub.periodMinutes * 60_000_000)| < sub.limit.value)
    && (sub.cooldownMinutes.Some? ==>
          !SimilarRecent(w.outbox, fp, r.userId, orderId, now - sub.cooldownMinutes.value * 60_000_000))
    && FreeToGo(w.rows, orderId, r.userId, now)
  }

  /** What every run with at least one attempt keeps. */
  ghost predicate Known(w: World, fp: OrderId -> Option<string>) {
    OneRowEach(w.rows) && CooledDown(w, fp) && Exact(w)
  }

  lemma RunsAreKnown(w: World, steps: seq<Step>, settings: Settings, fp: OrderId -> Option<string>)
    requires Initial(w) && FingerprintsAre(w.orders, fp) && StepsEnabled(w, steps, settings) && settings.maxRetries >= 1
    requires forall k :: 0 <= k < |steps| ==> StepKeepsFingerprints(steps[k], fp)
    ensures Known(RunSteps(w, steps, settings), fp)
  {
    StepsKeepDeliveredOnce(w, steps, settings);
    StepsKeepCooledDown(w, steps, settings, fp);
    StepsKeepExact(w, steps, settings);
  }

  lemma {:induction false} CountIsSize(outbox: seq<Event>, userId: UserId, from: Time)
    ensures CountEvents(outbox, SentSince(userId, from)) == |Recent(outbox, userId, from)|
  {
    if outbox == [] {
      assert Recent(outbox, userId, from) == {};
    } else {
      var n := |outbox| - 1;
      CountIsSize(outbox[..n], userId, from);
      var last := if outbox[n].userId == userId && outbox[n].at >= from then {n} else {};
      assert Recent(outbox, userId, from) == Recent(outbox[..n], userId, from) + last;
    }
  }

  function KeyIs(key: Key): Key -> bool {
    (k: Key) => k == key
  }

  lemma {:induction false} RowIsCounted(rows: seq<Delivery>, i: nat)
    requires i < |rows| && SentRow(rows[i])
    ensures CountSent(rows, KeyIs(RowKey(rows[i]))) > 0
  {
    var n := |rows| - 1;
    if i == n {
    } else {
      RowIsCounted(rows[..n], i);
    }
  }

  /** What a sent delivery records did go out. */
  lemma SentRowHasEvent(w: World, i: nat) returns (k: nat)
    requires Exact(w) && i < |w.rows| && SentRow(w.rows[i])
    ensures k < |w.outbox| && KeyOf(w.outbox[k]) == RowKey(w.rows[i])
  {
    var q := KeyIs(RowKey(w.rows[i]));
    RowIsCounted(w.rows, i);
    assert CountEvents(w.outbox, q) == CountSent(w.rows, q);
    k := CountedEventExists(w.outbox, q);
  }

  lemma CooldownIsSimilarRecent(w: World, fp: OrderId -> Option<string>, userId: UserId, orderId: OrderId,
                                sub: Subscription, now: Time)
    requires Known(w, fp) && orderId in w.orders && sub.cooldownMinutes.Some?
    ensures IsSimilarCooldownActive(w, userId, orderId, sub, now)
            <==> SimilarRecent(w.outbox, fp, userId, orderId, now - sub.cooldownMinutes.value * 60_000_000)
  {
    var cutoff := now - sub.cooldownMinutes.value * 60_000_000;
    if HasFingerprint(w.orders[orderId]) {
      if i :| 0 <= i < |w.rows| && SimilarSent(w, userId, orderId, w.rows[i], cutoff) {
        var k := SentRowHasEvent(w, i);
        assert fp(w.outbox[k].orderId) == fp(orderId);
      }
      if SimilarRecent(w.outbox, fp, userId, orderId, cutoff) {
        EventIsSimilarSent(w, fp, userId, orderId, cutoff);
      }
    }
  }

  lemma EventIsSimilarSent(w: World, fp: OrderId -> Option<string>, userId: UserId, orderId: OrderId, cutoff: Time)
    requires Known(w, fp) && orderId in w.orders && SimilarRecent(w.outbox, fp, userId, orderId, cutoff)
    ensures exists i :: 0 <= i < |w.rows| && SimilarSent(w, userId, orderId, w.rows[i], cutoff)
  {
    var k :| 0 <= k < |w.outbox| && w.outbox[k].userId == userId && w.outbox[k].at >= cutoff
             && w.outbox[k].orderId != orderId && fp(w.outbox[k].orderId) == fp(orderId);
    var i :| 0 <= i < |w.rows| && Records(w.rows[i], w.outbox[k]);
    assert SimilarSent(w, userId, orderId, w.rows[i], cutoff);
  }

  lemma RateLimitCountsRecent(w: World, userId: UserId, sub: Subscription, now: Time)
    requires Exact(w)
    ensures IsRateLimited(w, userId, sub, now)
            <==> sub.limit.Some? && |Recent(w.outbox, userId, now - sub.periodMinutes * 60_000_000)| >= sub.limit.value
  {
    var q := SentSince(userId, now - sub.periodMinutes * MINUTE);
    assert CountEvents(w.outbox, q) == CountSent(w.rows, q);
    CountIsSize(w.outbox, userId, now - sub.periodMinutes * MINUTE);
  }

  lemma OnlyRowDecides(rows: seq<Delivery>, orderId: OrderId, userId: UserId, now: Time)
    requires OneRowEach(rows)
    ensures (Find(rows, orderId, userId) < |rows| ==> Retryable(rows[Find(rows, orderId, userId)], now))
            <==> FreeToGo(rows, orderId, userId, now)
  {
    assert forall i | 0 <= i < |rows| && rows[i].orderId == orderId && rows[i].userId == userId ::
        i == Find(rows, orderId, userId);
  }

  lemma ReachesIffMayGo(w: World, fp: OrderId -> Option<string>, orderId: OrderId, now: Time, r: Recipient)
    requires Known(w, fp) && orderId in w.orders
    ensures Reaches(w, orderId, now, r) <==> MayGo(w, fp, orderId, now, r)
  {
    if r.subscription.Some? {
      var sub := r.subscription.value;
      RateLimitCountsRecent(w, r.userId, sub, now);
      if sub.cooldownMinutes.Some? {
        CooldownIsSimilarRecent(w, fp, r.userId, orderId, sub, now);
      }
      OnlyRowDecides(w.rows, orderId, r.userId, now);
    }
  }

  ghost predicate Accepts(reply: Reply, maxRetries: int) {
    exists i: nat :: i < maxRetries && reply.attempt(i).Accepted?
  }

  /** Over every run with at least one attempt: a recipient is sent the message exactly when nothing holds it back, it
      is not in quiet hours and Telegram accepts one of the attempts; and is skipped without a trace exactly when
      something does hold it back. */
  lemma SentExactlyWhen(w: World, steps: seq<Step>, settings: Settings, fp: OrderId -> Option<string>,
                        orderId: OrderId, now: Time, r: Recipient)
    requires Initial(w) && FingerprintsAre(w.orders, fp) && StepsEnabled(w, steps, settings) && settings.maxRetries >= 1
    requires forall k :: 0 <= k < |steps| ==> StepKeepsFingerprints(steps[k], fp)
    requires orderId in RunSteps(w, steps, settings).orders
    ensures DecidedWell(RunSteps(w, steps, settings), settings, fp, orderId, now, r)
  {
    RunsAreKnown(w, steps, settings, fp);
    KnownDecidesWell(RunSteps(w, steps, settings), settings, fp, orderId, now, r);
  }

  ghost predicate DecidedWell(w: World, settings: Settings, fp: OrderId -> Option<string>, orderId: OrderId, now: Time,
                              r: Recipient)
    requires orderId in w.orders
  {
    var (w', kind) := NotifyStep(w, orderId, now, r, settings);
    var goes := MayGo(w, fp, orderId, now, r);
    && (!goes ==> w' == w)
    && (kind == WasSkipped <==> !goes)
    && (kind == WasDeferred <==> goes && IsInQuietHours(now, r.subscription.value.quiet))
    && (w'.outbox != w.outbox
        <==> goes && !IsInQuietHours(now, r.subscription.value.quiet) && Accepts(r.reply, settings.maxRetries))
    && (w'.outbox != w.outbox ==>
          w'.outbox == w.outbox + [Event(orderId, r.userId, r.reply.at, Immediate(r.subscription.value, now))])
  }

  lemma KnownDecidesWell(w: World, settings: Settings, fp: OrderId -> Option<string>, orderId: OrderId, now: Time,
                         r: Recipient)
    requires Known(w, fp) && orderId in w.orders && settings.maxRetries >= 1
    ensures DecidedWell(w, settings, fp, orderId, now, r)
  {
    ReachesIffMayGo(w, fp, orderId, now, r);
    assert Accepts(r.reply, settings.maxRetries) <==> SomeAccepted(r.reply.attempt, settings.maxRetries);
  }

  // ---------- what the rows say afterwards ----------

  /** Nothing but this delivery and, when it is sent, the notification time of its order is written. */
  predicate OnlyWrites(w: World, w': World, i: nat, orderId: OrderId) {
    && i < |w'.rows| && w'.users == w.users && w'.orders.Keys == w.orders.Keys
    && (forall j :: 0 <= j < |w.rows| && j != i ==> j < |w'.rows| && w'.rows[j] == w.rows[j])
    && (forall o :: o in w.orders && o != orderId ==> w'.orders[o] == w.orders[o])
    && (orderId in w.orders ==> w'.orders[orderId].(notifiedAt := None) == w.orders[orderId].(notifiedAt := None))
  }

  predicate SentNow(w': World, i: nat, orderId: OrderId, at: Time)
    requires i < |w'.rows|
  {
    && w'.rows[i].status == Sent && w'.rows[i].sentAt == Some(at) && w'.rows[i].scheduledFor.None?
    && w'.rows[i].error.None? && (orderId in w'.orders ==> w'.orders[orderId].notifiedAt == Some(at))
  }

  /** The last error is kept, cut to two thousand characters. */
  predicate FailedNow(w: World, w': World, i: nat, text: string)
    requires i < |w'.rows|
  {
    && w'.rows[i].status == Failed && w'.orders == w.orders && w'.outbox == w.outbox
    && w'.rows[i].error.Some? && w'.rows[i].error.value <= text
    && |w'.rows[i].error.value| == if |text| < 2000 then |text| else 2000
  }

  lemma DeferralIsRecorded(w: World, orderId: OrderId, now: Time, r: Recipient, settings: Settings)
    requires orderId in w.orders && Reaches(w, orderId, now, r)
    requires IsInQuietHours(now, r.subscription.value.quiet)
    ensures var (w', kind) := NotifyStep(w, orderId, now, r, settings);
            var i, sub := Find(w.rows, orderId, r.userId), r.subscription.value;
            && OnlyWrites(w, w', i, orderId) && HasKey(w'.rows[i], orderId, r.userId)
            && kind == WasDeferred && w'.outbox == w.outbox && w'.orders == w.orders
            && w'.rows[i].status == Deferred && w'.rows[i].subscription == Some(sub)
            && w'.rows[i].scheduledFor == NextQuietHoursEnd(now, sub.quiet)
  {
  }

  lemma SendIsRecorded(w: World, orderId: OrderId, now: Time, r: Recipient, settings: Settings)
    requires orderId in w.orders && Reaches(w, orderId, now, r) && settings.maxRetries >= 1
    requires !IsInQuietHours(now, r.subscription.value.quiet) && SomeAccepted(r.reply.attempt, settings.maxRetries)
    ensures var (w', kind) := NotifyStep(w, orderId, now, r, settings);
            var i := Find(w.rows, orderId, r.userId);
            && OnlyWrites(w, w', i, orderId) && HasKey(w'.rows[i], orderId, r.userId)
            && kind == WasSent && SentNow(w', i, orderId, r.reply.at) && w'.rows[i].subscription == r.subscription
  {
  }

  lemma FailureIsRecorded(w: World, orderId: OrderId, now: Time, r: Recipient, settings: Settings)
    requires orderId in w.orders && Reaches(w, orderId, now, r) && settings.maxRetries >= 1
    requires !IsInQuietHours(now, r.subscription.value.quiet) && !SomeAccepted(r.reply.attempt, settings.maxRetries)
    ensures var (w', kind) := NotifyStep(w, orderId, now, r, settings);
            var i, last := Find(w.rows, orderId, r.userId), r.reply.attempt(settings.maxRetries - 1);
            && OnlyWrites(w, w', i, orderId) && HasKey(w'.rows[i], orderId, r.userId)
            && kind == WasFailed && last.Error? && FailedNow(w, w', i, last.text)
  {
  }

  lemma NotificationIsRecorded(w: World, orderId: OrderId, now: Time, r: Recipient, settings: Settings)
    requires orderId in w.orders && Reaches(w, orderId, now, r) && settings.maxRetries >= 1
    ensures var (w', kind) := NotifyStep(w, orderId, now, r, settings);
            var i, sub := Find(w.rows, orderId, r.userId), r.subscription.value;
            && OnlyWrites(w, w', i, orderId) && HasKey(w'.rows[i], orderId, r.userId)
            && (if IsInQuietHours(now, sub.quiet) then
                  && kind == WasDeferred && w'.outbox == w.outbox && w'.orders == w.orders
                  && w'.rows[i].status == Deferred && w'.rows[i].subscription == Some(sub)
                  && w'.rows[i].scheduledFor == NextQuietHoursEnd(now, sub.quiet)
                else if Accepts(r.reply, settings.maxRetries) then
                  && kind == WasSent && SentNow(w', i, orderId, r.reply.at) && w'.rows[i].subscription == Some(sub)
                else
                  && kind == WasFailed && r.reply.attempt(settings.maxRetries - 1).Error?
                  && FailedNow(w, w', i, r.reply.attempt(settings.maxRetries - 1).text))
  {
    assert Accepts(r.reply, settings.maxRetries) <==> SomeAccepted(r.reply.attempt, settings.maxRetries);
    if IsInQuietHours(now, r.subscription.value.quiet) {
      DeferralIsRecorded(w, orderId, now, r, settings);
    } else if Accepts(r.reply, settings.maxRetries) {
      SendIsRecorded(w, orderId, now, r, settings);
    } else {
      FailureIsRecorded(w, orderId, now, r, settings);
    }
  }

  /** A sweep skips a delivery exactly when its order no longer deserves a card or its user cannot be reached, and
      otherwise sends it exactly when Telegram accepts one of the attempts. */
  lemma SweptExactlyWhen(w: World, i: nat, cardAt: Time, reply: Reply, settings: Settings)
    requires i < |w.rows| && settings.maxRetries >= 1
    ensures var (w', kind) := SweepStep(w, i, cardAt, reply, settings);
            var orderId, userId := w.rows[i].orderId, w.rows[i].userId;
            var goes := && Deserving(w.orders, orderId, settings) && RecentAt(w.orders, orderId, cardAt, settings)
                        && userId in w.users && w.users[userId].active && w.users[userId].chatId.Some?;
            && OnlyWrites(w, w', i, orderId) && HasKey(w'.rows[i], orderId, userId)
            && w'.rows[i].subscription == w.rows[i].subscription
            && (if !goes then
                  kind == WasSkipped && w'.rows[i].status == Skipped && w'.outbox == w.outbox && w'.orders == w.orders
                else if Accepts(reply, settings.maxRetries) then
                  && kind == WasSent && SentNow(w', i, orderId, reply.at)
                  && w'.outbox == w.outbox + [Event(orderId, userId, reply.at,
                                                    Swept(w.rows[i].subscription, w.rows[i].scheduledFor))]
                else
                  && kind == WasFailed && reply.attempt(settings.maxRetries - 1).Error?
                  && FailedNow(w, w', i, reply.attempt(settings.maxRetries - 1).text))
  {
    assert Accepts(reply, settings.maxRetries) <==> SomeAccepted(reply.attempt, settings.maxRetries);
    NotifiableMeansDeserving(w, w.rows[i].orderId, cardAt, settings);
  }

  // ---------- what the counts say ----------

  function WithStatus(rows: seq<Delivery>, status: Status): set<nat> {
    set i: nat | i < |rows| && rows[i].status == status
  }

  lemma StatusOfUpdate(rows: seq<Delivery>, rows': seq<Delivery>, i: nat, status: Status)
    requires |rows| <= |rows'| && i < |rows'| && (i < |rows| ==> |rows'| == |rows|)
    requires i >= |rows| ==> i == |rows| && |rows'| == |rows| + 1
    requires forall j :: 0 <= j < |rows| && j != i ==> rows'[j] == rows[j]
    requires i < |rows| ==> rows[i].status != status
    ensures |WithStatus(rows', status)| == |WithStatus(rows, status)| + (if rows'[i].status == status then 1 else 0)
  {
    var before, after := WithStatus(rows, status), WithStatus(rows', status);
    assert i !in before;
    assert after - {i} == before by {
      forall j ensures j in after - {i} <==> j in before {
      }
    }
    SizeWithout(after, i);
  }

  lemma SizeWithout(s: set<nat>, i: nat)
    ensures |s| == |s - {i}| + (if i in s then 1 else 0)
  {
    if i !in s {
      assert s - {i} == s;
    }
  }

  /** One step adds one sent row when it counts as sent, one failed row when it counts as failed, and a sweep one
      skipped row when it counts as skipped. */
  lemma KindTellsTheRow(w: World, s: Step, settings: Settings)
    requires StepEnabled(w, s)
    ensures var rows, rows', kind := w.rows, TakeStep(w, s, settings).rows, KindOf(w, s, settings);
            && |WithStatus(rows', Sent)| == |WithStatus(rows, Sent)| + (if kind == WasSent then 1 else 0)
            && |WithStatus(rows', Failed)| == |WithStatus(rows, Failed)| + (if kind == WasFailed then 1 else 0)
            && |WithStatus(rows', Skipped)|
               == |WithStatus(rows, Skipped)| + (if kind == WasSkipped && s.SweepOne? then 1 else 0)
  {
    match s
    case NotifyOne(orderId, now, r) =>
      if Reaches(w, orderId, now, r) {
        NotifiedRow(w, orderId, now, r, settings);
      }
    case SweepOne(i, cardAt, reply) => SweptRow(w, i, cardAt, reply, settings);
    case Edit(orders, users) =>
  }

  /** The row that is written has the status of the kind, and had another. */
  ghost predicate Became(rows: seq<Delivery>, rows': seq<Delivery>, kind: Kind) {
    forall status: Status | status != Deferred ::
      |WithStatus(rows', status)| == |WithStatus(rows, status)| + (if status == StatusOf(kind) then 1 else 0)
  }

  function StatusOf(kind: Kind): Status {
    match kind
    case WasSent => Sent
    case WasSkipped => Skipped
    case WasFailed => Failed
    case WasDeferred => Deferred
  }

  lemma NotifiedRow(w: World, orderId: OrderId, now: Time, r: Recipient, settings: Settings)
    requires orderId in w.orders && Reaches(w, orderId, now, r)
    ensures var (w', kind) := NotifyStep(w, orderId, now, r, settings);
            Became(w.rows, w'.rows, kind) && kind != WasSkipped
  {
    var (w', kind) := NotifyStep(w, orderId, now, r, settings);
    var i := NotifyShape(w, orderId, now, r, settings);
    assert w'.rows[i].status == StatusOf(kind);
    StatusesOfUpdate(w.rows, w'.rows, i);
  }

  lemma SweptRow(w: World, i: nat, cardAt: Time, reply: Reply, settings: Settings)
    requires i < |w.rows| && w.rows[i].status == Deferred
    ensures var (w', kind) := SweepStep(w, i, cardAt, reply, settings); Became(w.rows, w'.rows, kind)
  {
    var (w', kind) := SweepStep(w, i, cardAt, reply, settings);
    assert w'.rows[i].status == StatusOf(kind);
    StatusesOfUpdate(w.rows, w'.rows, i);
  }

  lemma StatusesOfUpdate(rows: seq<Delivery>, rows': seq<Delivery>, i: nat)
    requires |rows| <= |rows'| && i < |rows'| && (i < |rows| ==> |rows'| == |rows|)
    requires i >= |rows| ==> i == |rows| && |rows'| == |rows| + 1
    requires forall j :: 0 <= j < |rows| && j != i ==> rows'[j] == rows[j]
    requires i < |rows| ==> rows[i].status == Deferred
    ensures forall status: Status | status != Deferred ::
              |WithStatus(rows', status)| == |WithStatus(rows, status)| + (if rows'[i].status == status then 1 else 0)
  {
    forall status: Status | status != Deferred
      ensures |WithStatus(rows', status)| == |WithStatus(rows, status)| + (if rows'[i].status == status then 1 else 0)
    {
      StatusOfUpdate(rows, rows', i, status);
    }
  }

  /** Over every run, the counts returned are the rows added: as many sent rows as the sent count, as many failed rows
      as the failed count and, when all steps are a sweep's, as many skipped rows as the skipped count. */
  lemma {:induction false} CountsTellTheRows(w: World, steps: seq<Step>, settings: Settings)
    requires StepsEnabled(w, steps, settings)
    ensures var rows, rows', counts := w.rows, RunSteps(w, steps, settings).rows, Tally(w, steps, settings);
            && |WithStatus(rows', Sent)| == |WithStatus(rows, Sent)| + counts.sent
            && |WithStatus(rows', Failed)| == |WithStatus(rows, Failed)| + counts.failed
            && ((forall k :: 0 <= k < |steps| ==> steps[k].SweepOne?) ==>
                  |WithStatus(rows', Skipped)| == |WithStatus(rows, Skipped)| + counts.skipped)
  {
    if steps == [] {
    } else {
      var n := |steps| - 1;
      CountsTellTheRows(w, steps[..n], settings);
      KindTellsTheRow(RunSteps(w, steps[..n], settings), steps[n], settings);
    }
  }

  /** How each step of a run went. */
  ghost function Kinds(w: World, steps: seq<Step>, settings: Settings): (kinds: seq<Kind>)
    ensures |kinds| == |steps|
    ensures forall k :: 0 <= k < |steps| ==> kinds[k] == KindAt(w, steps, settings, k)
  {
    seq(|steps|, k requires 0 <= k < |steps| => KindAt(w, steps, settings, k))
  }

  ghost function KindAt(w: World, steps: seq<Step>, settings: Settings, k: nat): Kind
    requires k < |steps|
  {
    KindOf(RunSteps(w, steps[..k], settings), steps[k], settings)
  }

  function Places(kinds: seq<Kind>, kind: Kind): set<nat> {
    set k: nat | k < |kinds| && kinds[k] == kind
  }

  lemma OneMorePlace(kinds: seq<Kind>, last: Kind, kind: Kind)
    ensures |Places(kinds + [last], kind)| == |Places(kinds, kind)| + (if last == kind then 1 else 0)
  {
    assert Places(kinds + [last], kind) - {|kinds|} == Places(kinds, kind);
    SizeWithout(Places(kinds + [last], kind), |kinds|);
  }

  lemma KindAtOfPrefix(w: World, steps: seq<Step>, settings: Settings, n: nat, k: nat)
    requires k < n <= |steps|
    ensures KindAt(w, steps[..n], settings, k) == KindAt(w, steps, settings, k)
  {
    assert steps[..n][..k] == steps[..k] && steps[..n][k] == steps[k];
  }

  lemma SameKinds(kinds: seq<Kind>, before: seq<Kind>, last: Kind)
    requires |kinds| == |before| + 1 && kinds[|before|] == last
    requires forall k :: 0 <= k < |before| ==> kinds[k] == before[k]
    ensures kinds == before + [last]
  {
  }

  lemma KindsGrow(w: World, steps: seq<Step>, settings: Settings)
    requires steps != []
    ensures var n := |steps| - 1;
            Kinds(w, steps, settings) == Kinds(w, steps[..n], settings) + [KindAt(w, steps, settings, n)]
  {
    var n := |steps| - 1;
    var kinds, before := Kinds(w, steps, settings), Kinds(w, steps[..n], settings);
    forall k | 0 <= k < n ensures kinds[k] == before[k] {
      KindAtOfPrefix(w, steps, settings, n, k);
    }
    SameKinds(kinds, before, KindAt(w, steps, settings, n));
  }

  /** Each of the four counts is the number of steps that went that way. */
  lemma {:induction false} CountsAreOfTheirKind(w: World, steps: seq<Step>, settings: Settings)
    ensures var counts, kinds := Tally(w, steps, settings), Kinds(w, steps, settings);
            && counts.sent == |Places(kinds, WasSent)| && counts.skipped == |Places(kinds, WasSkipped)|
            && counts.failed == |Places(kinds, WasFailed)| && counts.deferred == |Places(kinds, WasDeferred)|
  {
    if steps == [] {
      assert forall kind :: Places([], kind) == {};
    } else {
      var n := |steps| - 1;
      CountsAreOfTheirKind(w, steps[..n], settings);
      KindsGrow(w, steps, settings);
      var before, last := Kinds(w, steps[..n], settings), KindAt(w, steps, settings, n);
      OneMorePlace(before, last, WasSent);
      OneMorePlace(before, last, WasSkipped);
      OneMorePlace(before, last, WasFailed);
      OneMorePlace(before, last, WasDeferred);
    }
  }

  // ---------- what a call does ----------

  /** A notification takes one step for each recipient, in order, when its order deserves a card, and none otherwise; a
      sweep takes one for each delivery of its batch. */
  lemma CallsStepThrough(w: World, c: Call, settings: Settings)
    requires CallEnabled(w, c)
    ensures var steps := CallSteps(w, c, settings);
            match c
            case Notify(id, cardAt, now, rs) =>
              if Deserving(w.orders, id, settings) && RecentAt(w.orders, id, cardAt, settings) then
                |steps| == |rs| && forall k :: 0 <= k < |rs| ==> steps[k] == NotifyOne(id, now, rs[k])
              else steps == []
            case Sweep(now, batch, inputs) =>
              && |steps| == |batch| == |inputs|
              && forall k :: 0 <= k < |batch| ==> steps[k] == SweepOne(batch[k], inputs[k].cardAt, inputs[k].reply)
            case Change(orders, users) => steps == [Edit(orders, users)]
  {
    if c.Notify? {
      NotifiableMeansDeserving(w, c.orderId, c.cardAt, settings);
    }
  }

  /** Messages of a sweep, told by when their deliveries had fallen due: in order, and none after `last`. */
  ghost predicate SweptInOrder(outbox: seq<Event>, from: nat, last: Time) {
    && (forall a | from <= a < |outbox| ::
          outbox[a].origin.Swept? && outbox[a].origin.dueAt.Some? && outbox[a].origin.dueAt.value <= last)
    && (forall a, b | from <= a < b < |outbox| ::
          outbox[a].origin.dueAt.value <= outbox[b].origin.dueAt.value)
  }

  predicate InDueOrder(rows: seq<Delivery>, now: Time, batch: seq<nat>, last: Time) {
    && (forall i :: 0 <= i < |batch| ==>
          batch[i] < |rows| && Due(rows[batch[i]], now) && rows[batch[i]].scheduledFor.value <= last)
    && (forall i, j :: 0 <= i < j < |batch| ==>
          batch[i] != batch[j] && rows[batch[i]].scheduledFor.value <= rows[batch[j]].scheduledFor.value)
  }

  lemma SweptNext(w: World, i: nat, cardAt: Time, reply: Reply, settings: Settings, from: nat, last: Time)
    requires i < |w.rows| && w.rows[i].scheduledFor.Some? && last <= w.rows[i].scheduledFor.value
    requires from <= |w.outbox| && SweptInOrder(w.outbox, from, last)
    ensures var outbox := SweepStep(w, i, cardAt, reply, settings).0.outbox;
            from <= |outbox| && SweptInOrder(outbox, from, w.rows[i].scheduledFor.value)
  {
  }

  lemma AllButLastInOrder(rows: seq<Delivery>, now: Time, batch: seq<nat>, last: Time)
    requires InDueOrder(rows, now, batch, last) && batch != []
    ensures var n := |batch| - 1;
            && batch[n] < |rows| && Due(rows[batch[n]], now) && rows[batch[n]].scheduledFor.value <= last
            && InDueOrder(rows, now, batch[..n], rows[batch[n]].scheduledFor.value) && batch[n] !in batch[..n]
  {
  }

  lemma InOrderUntil(outbox: seq<Event>, from: nat, at: Time, last: Time)
    requires SweptInOrder(outbox, from, at) && at <= last
    ensures SweptInOrder(outbox, from, last)
  {
  }

  lemma {:induction false} SweptUpTo(w: World, now: Time, batch: seq<nat>, inputs: seq<SweepInput>,
                                     settings: Settings, last: Time)
    requires |inputs| == |batch| && forall i :: 0 <= i < |inputs| ==> now <= inputs[i].reply.at
    requires InDueOrder(w.rows, now, batch, last)
    ensures var outbox := RunSteps(w, SweepSteps(batch, inputs), settings).outbox;
            |w.outbox| <= |outbox| && SweptInOrder(outbox, |w.outbox|, last)
    decreases |batch|
  {
    if batch == [] {
    } else {
      var n := |batch| - 1;
      var i, before := batch[n], RunSteps(w, SweepSteps(batch[..n], inputs[..n]), settings);
      AllButLastInOrder(w.rows, now, batch, last);
      var at := w.rows[i].scheduledFor.value;
      SweptUpTo(w, now, batch[..n], inputs[..n], settings, at);
      SweepStepsEnabled(w, now, batch[..n], inputs[..n], settings);
      SweptNext(before, i, inputs[n].cardAt, inputs[n].reply, settings, |w.outbox|, at);
      SweepGrows(w, batch, inputs, n, settings);
      assert batch[..n + 1] == batch && inputs[..n + 1] == inputs;
      InOrderUntil(RunSteps(w, SweepSteps(batch, inputs), settings).outbox, |w.outbox|, at, last);
    }
  }

  /** A sweep sends first what fell due first. */
  lemma SweepSendsInOrder(w: World, now: Time, batch: seq<nat>, inputs: seq<SweepInput>, settings: Settings)
    requires CallEnabled(w, Sweep(now, batch, inputs))
    ensures var outbox := RunSteps(w, SweepSteps(batch, inputs), settings).outbox;
            && |w.outbox| <= |outbox|
            && (forall a | |w.outbox| <= a < |outbox| ::
                  outbox[a].origin.Swept? && outbox[a].origin.dueAt.Some? && outbox[a].origin.dueAt.value <= now)
            && (forall a, b | |w.outbox| <= a < b < |outbox| ::
                  outbox[a].origin.dueAt.value <= outbox[b].origin.dueAt.value)
  {
    SweptUpTo(w, now, batch, inputs, settings, now);
  }
}
