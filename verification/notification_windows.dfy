/** How many messages a user gets in a window, of both kinds (app/bot/services.py). */
module NotificationWindows {
  import opened Wrappers
  import opened Instants
  import opened OrderStatuses
  import opened QuietHours
  import opened NotificationModel
  import opened NotificationGuarantees

  function SentWithin(userId: UserId, from: Time, to: Time): Key -> bool {
    (k: Key) => k.userId == userId && from <= k.at <= to
  }

  /** Every message to this user in the closed window of one period, immediate or swept, under whatever
      subscription. */
  function CountWindow(outbox: seq<Event>, userId: UserId, period: nat, from: Time): nat {
    CountEvents(outbox, SentWithin(userId, from, from + period * MINUTE))
  }

  /** What the check would have found just before this message: fewer than `limit` in the period before it. */
  predicate SentBelow(outbox: seq<Event>, k: nat, limit: nat, period: nat)
    requires k < |outbox|
  {
    CountEvents(outbox[..k], SentSince(outbox[k].userId, outbox[k].at - period * MINUTE)) < limit
  }

  predicate UnderLimit(e: Event, limit: nat, period: nat) {
    e.origin.Immediate? && e.origin.subscription.limit == Some(limit) && e.origin.subscription.periodMinutes == period
  }

  predicate Chronological(outbox: seq<Event>) {
    forall i, j :: 0 <= i < j < |outbox| ==> outbox[i].at <= outbox[j].at
  }

  // ---------- counting ----------

  lemma {:induction false} CountMonotone(outbox: seq<Event>, q: Key -> bool, r: Key -> bool)
    requires forall i :: 0 <= i < |outbox| && q(KeyOf(outbox[i])) ==> r(KeyOf(outbox[i]))
    ensures CountEvents(outbox, q) <= CountEvents(outbox, r)
  {
    if outbox == [] {
    } else {
      CountMonotone(outbox[..|outbox| - 1], q, r);
    }
  }

  lemma {:induction false} CountPrefix(outbox: seq<Event>, n: nat, q: Key -> bool)
    requires n <= |outbox|
    ensures CountEvents(outbox[..n], q) <= CountEvents(outbox, q)
    decreases |outbox|
  {
    if n == |outbox| {
      assert outbox[..n] == outbox;
    } else {
      assert outbox[..|outbox| - 1][..n] == outbox[..n];
      CountPrefix(outbox[..|outbox| - 1], n, q);
    }
  }

  lemma CountNext(outbox: seq<Event>, k: nat, q: Key -> bool)
    requires k < |outbox|
    ensures CountEvents(outbox[..k + 1], q) == CountEvents(outbox[..k], q) + (if q(KeyOf(outbox[k])) then 1 else 0)
  {
    assert outbox[..k + 1] == outbox[..k] + [outbox[k]];
    CountEventsAppend(outbox[..k], outbox[k], q);
  }

  // ---------- what the check bounds ----------

  lemma CheckedSendIsBelow(outbox: seq<Event>, k: nat, limit: nat, period: nat)
    requires k < |outbox| && BelowLimit(outbox, k) && UnderLimit(outbox[k], limit, period)
    ensures SentBelow(outbox, k, limit, period)
  {
    var e := outbox[k];
    CountMonotone(outbox[..k], SentSince(e.userId, e.at - period * MINUTE),
                  SentSince(e.userId, e.origin.checkedAt - period * MINUTE));
  }

  lemma BelowMeansAtMost(outbox: seq<Event>, k: nat, limit: nat, period: nat)
    requires k < |outbox| && SentBelow(outbox, k, limit, period)
    ensures CountEvents(outbox[..k + 1], SentSince(outbox[k].userId, outbox[k].at - period * MINUTE)) <= limit
  {
    CountNext(outbox, k, SentSince(outbox[k].userId, outbox[k].at - period * MINUTE));
  }

  /** Every immediate send was checked. */
  ghost predicate AllChecked(outbox: seq<Event>) {
    forall k :: 0 <= k < |outbox| ==> BelowLimit(outbox, k)
  }

  lemma RunIsChecked(w: World, steps: seq<Step>, settings: Settings)
    requires Initial(w) && StepsEnabled(w, steps, settings)
    ensures AllChecked(RunSteps(w, steps, settings).outbox)
  {
    StepsKeepLimited(w, steps, settings);
  }

  /** If this is an immediate send under the limit, then with it the period before it holds at most `limit` messages to
      the user, immediate or swept, under whatever subscriptions. */
  predicate WithinLimit(outbox: seq<Event>, k: nat, limit: nat, period: nat) {
    k < |outbox| && UnderLimit(outbox[k], limit, period) ==>
      && SentBelow(outbox, k, limit, period)
      && CountEvents(outbox[..k + 1], SentSince(outbox[k].userId, outbox[k].at - period * MINUTE)) <= limit
  }

  lemma CheckedSendIsWithin(outbox: seq<Event>, k: nat, limit: nat, period: nat)
    requires AllChecked(outbox)
    ensures WithinLimit(outbox, k, limit, period)
  {
    if k < |outbox| && UnderLimit(outbox[k], limit, period) {
      CheckedSendIsBelow(outbox, k, limit, period);
      BelowMeansAtMost(outbox, k, limit, period);
    }
  }

  /** Over every run and for every immediate send of it. */
  lemma ImmediateSendsStayWithinLimit(w: World, steps: seq<Step>, settings: Settings, k: nat, limit: nat, period: nat)
    requires Initial(w) && StepsEnabled(w, steps, settings)
    ensures WithinLimit(RunSteps(w, steps, settings).outbox, k, limit, period)
  {
    RunIsChecked(w, steps, settings);
    CheckedSendIsWithin(RunSteps(w, steps, settings).outbox, k, limit, period);
  }

  // ---------- windows over both kinds ----------

  lemma {:induction false} WindowWithinLimit(outbox: seq<Event>, userId: UserId, limit: nat, period: nat, from: Time)
    requires forall k :: 0 <= k < |outbox| && outbox[k].userId == userId ==> SentBelow(outbox, k, limit, period)
    ensures CountWindow(outbox, userId, period, from) <= limit
  {
    if outbox == [] {
    } else {
      var n := |outbox| - 1;
      var e, to := outbox[n], from + period * MINUTE;
      if e.userId == userId && from <= e.at <= to {
        CountMonotone(outbox[..n], SentWithin(userId, from, to), SentSince(userId, e.at - period * MINUTE));
      } else {
        forall k | 0 <= k < n && outbox[..n][k].userId == userId ensures SentBelow(outbox[..n], k, limit, period) {
          assert SentBelow(outbox, k, limit, period) && outbox[..n][..k] == outbox[..k];
        }
        WindowWithinLimit(outbox[..n], userId, limit, period, from);
      }
    }
  }

  lemma SendAboveFillsWindow(outbox: seq<Event>, k: nat, limit: nat, period: nat)
    requires k < |outbox| && Chronological(outbox) && !SentBelow(outbox, k, limit, period)
    ensures var e := outbox[k];
            CountWindow(outbox, e.userId, period, e.at - period * MINUTE) > limit
  {
    var e := outbox[k];
    var from := e.at - period * MINUTE;
    var q := SentWithin(e.userId, from, from + period * MINUTE);
    CountMonotone(outbox[..k], SentSince(e.userId, from), q);
    CountNext(outbox, k, q);
    CountPrefix(outbox, k + 1, q);
  }

  ghost predicate WindowsHold(outbox: seq<Event>, userId: UserId, limit: nat, period: nat) {
    forall from :: CountWindow(outbox, userId, period, from) <= limit
  }

  /** Each message to the user that was not checked against this limit and period, that is, each swept one and each
      under another subscription, went out while that check would have let it. */
  ghost predicate UncheckedAreBelow(outbox: seq<Event>, userId: UserId, limit: nat, period: nat) {
    forall k | 0 <= k < |outbox| && outbox[k].userId == userId && !UnderLimit(outbox[k], limit, period) ::
      SentBelow(outbox, k, limit, period)
  }

  lemma WindowsHoldIff(outbox: seq<Event>, userId: UserId, limit: nat, period: nat)
    requires Chronological(outbox) && AllChecked(outbox)
    ensures WindowsHold(outbox, userId, limit, period) <==> UncheckedAreBelow(outbox, userId, limit, period)
  {
    forall k | 0 <= k < |outbox| && UnderLimit(outbox[k], limit, period) ensures SentBelow(outbox, k, limit, period) {
      CheckedSendIsBelow(outbox, k, limit, period);
    }
    if UncheckedAreBelow(outbox, userId, limit, period) {
      forall from ensures CountWindow(outbox, userId, period, from) <= limit {
        WindowWithinLimit(outbox, userId, limit, period, from);
      }
    } else {
      var k :| 0 <= k < |outbox| && outbox[k].userId == userId && !SentBelow(outbox, k, limit, period);
      SendAboveFillsWindow(outbox, k, limit, period);
    }
  }

  /** Over every run with a monotone clock: every closed window of one period holds at most `limit` messages to the
      user exactly when the unchecked ones, the swept ones above all, went out below it. */
  lemma WindowsHoldIffSweepsDo(w: World, steps: seq<Step>, settings: Settings, userId: UserId, limit: nat, period: nat)
    requires Initial(w) && StepsEnabled(w, steps, settings)
    requires Chronological(RunSteps(w, steps, settings).outbox)
    ensures var outbox := RunSteps(w, steps, settings).outbox;
            WindowsHold(outbox, userId, limit, period) <==> UncheckedAreBelow(outbox, userId, limit, period)
  {
    RunIsChecked(w, steps, settings);
    WindowsHoldIff(RunSteps(w, steps, settings).outbox, userId, limit, period);
  }

  // ---------- the guard that the sweep lacks ----------

  /** The delivery table counts exactly the messages that went out. */
  ghost predicate Exact(w: World) {
    forall q: Key -> bool :: CountEvents(w.outbox, q) == CountSent(w.rows, q)
  }

  lemma ShapeKeepsExact(w: World, w': World, i: nat, q: Key -> bool)
    requires CountEvents(w.outbox, q) == CountSent(w.rows, q) && Shape(w, w', i)
    requires w'.outbox == w.outbox ==> w'.rows[i].status != Sent
    ensures CountEvents(w'.outbox, q) == CountSent(w'.rows, q)
  {
    if i < |w.rows| {
      CountSentUpdate(w.rows, i, w'.rows[i], q);
    } else {
      CountSentAppend(w.rows, w'.rows[i], q);
    }
    if w'.outbox != w.outbox {
      CountEventsAppend(w.outbox, w'.outbox[|w.outbox|], q);
    }
  }

  lemma {:induction false} StepsKeepExact(w: World, steps: seq<Step>, settings: Settings)
    requires Exact(w) && StepsEnabled(w, steps, settings) && settings.maxRetries >= 1
    ensures Exact(RunSteps(w, steps, settings))
  {
    if steps == [] {
    } else {
      var n := |steps| - 1;
      var before := RunSteps(w, steps[..n], settings);
      var after := TakeStep(before, steps[n], settings);
      StepsKeepExact(w, steps[..n], settings);
      var i := StepShape(before, steps[n], settings);
      if !(after.rows == before.rows && after.outbox == before.outbox) {
        forall q: Key -> bool ensures CountEvents(after.outbox, q) == CountSent(after.rows, q) {
          ShapeKeepsExact(before, after, i, q);
        }
      }
    }
  }

  lemma SweptBelowIff(w: World, i: nat, cardAt: Time, reply: Reply, settings: Settings, sub: Subscription)
    requires Exact(w) && i < |w.rows| && sub.limit.Some?
    requires SweepStep(w, i, cardAt, reply, settings).0.outbox != w.outbox
    ensures var outbox := SweepStep(w, i, cardAt, reply, settings).0.outbox;
            && |outbox| == |w.outbox| + 1
            && (SentBelow(outbox, |w.outbox|, sub.limit.value, sub.periodMinutes)
                <==> !IsRateLimited(w, w.rows[i].userId, sub, reply.at))
  {
    var outbox := SweepStep(w, i, cardAt, reply, settings).0.outbox;
    assert outbox[..|w.outbox|] == w.outbox;
    var q := SentSince(w.rows[i].userId, reply.at - sub.periodMinutes * MINUTE);
    assert CountEvents(w.outbox, q) == CountSent(w.rows, q);
  }

  /** After any run, the next message a sweep sends goes out within a limit exactly when the check, had the sweep
      made it at that instant, would have let it. */
  lemma SweepStaysWithinLimitIff(w: World, steps: seq<Step>, settings: Settings, i: nat, cardAt: Time, reply: Reply,
                                 sub: Subscription)
    requires Initial(w) && StepsEnabled(w, steps, settings) && settings.maxRetries >= 1 && sub.limit.Some?
    requires var before := RunSteps(w, steps, settings);
             && StepEnabled(before, SweepOne(i, cardAt, reply))
             && SweepStep(before, i, cardAt, reply, settings).0.outbox != before.outbox
    ensures var before := RunSteps(w, steps, settings);
            var outbox := SweepStep(before, i, cardAt, reply, settings).0.outbox;
            && |outbox| == |before.outbox| + 1
            && (SentBelow(outbox, |before.outbox|, sub.limit.value, sub.periodMinutes)
                <==> !IsRateLimited(before, before.rows[i].userId, sub, reply.at))
  {
    StepsKeepExact(w, steps, settings);
    SweptBelowIff(RunSteps(w, steps, settings), i, cardAt, reply, settings, sub);
  }

  // ---------- no limit holds for sweeps ----------

  const SETTINGS := Settings(1, 7, 60)

  function DeferredRow(i: nat, sub: Subscription, due: Time): Delivery {
    Delivery(i, 0, Deferred, Some(sub), None, Some(due), None)
  }

  function SweptEvent(i: nat, sub: Subscription, due: Time): Event {
    Event(i, 0, due, Swept(Some(sub), Some(due)))
  }

  function OrderOf(i: nat, k: nat, now: Time, due: Time): Order {
    Order(true, None, true, now, 100, New, None, if i < k then Some(due) else None)
  }

  function Ids(n: nat): (ids: set<nat>)
    ensures forall i: nat :: i in ids <==> i < n
  {
    if n == 0 then {} else Ids(n - 1) + {n - 1}
  }

  /** `n` orders published at `now`, of which the first `d` have deferred deliveries and the first `k` of those have
      been swept when they fell due. */
  function Scene(n: nat, d: nat, k: nat, sub: Subscription, now: Time, due: Time): World {
    World(seq(d, i requires 0 <= i < d => if i < k then MarkSent(DeferredRow(i, sub, due), due)
                                          else DeferredRow(i, sub, due)),
          map i: nat | i in Ids(n) :: OrderOf(i, k, now, due),
          map[0 := User(Some(7), true)],
          seq(k, i requires 0 <= i < k => SweptEvent(i, sub, due)))
  }

  function Accepting(at: Time): Reply {
    Reply(i => Attempt.Accepted, at)
  }

  lemma {:induction false} NothingSentYet(rows: seq<Delivery>, q: Key -> bool)
    requires forall i :: 0 <= i < |rows| ==> rows[i].status == Deferred
    ensures CountSent(rows, q) == 0
  {
    if rows == [] {
    } else {
      NothingSentYet(rows[..|rows| - 1], q);
    }
  }

  lemma DeferNext(n: nat, d: nat, sub: Subscription, now: Time)
    requires d < n && IsInQuietHours(now, sub.quiet) && (sub.limit.Some? ==> sub.limit.value >= 1)
    ensures var due := NextQuietHoursEnd(now, sub.quiet).value;
            NotifyStep(Scene(n, d, 0, sub, now, due), d, now, Recipient(0, Some(sub), Accepting(now)), SETTINGS).0
            == Scene(n, d + 1, 0, sub, now, due)
  {
    var due := NextQuietHoursEnd(now, sub.quiet).value;
    var w, r := Scene(n, d, 0, sub, now, due), Recipient(0, Some(sub), Accepting(now));
    NothingSentYet(w.rows, SentSince(0, now - sub.periodMinutes * MINUTE));
    assert Find(w.rows, d, 0) == |w.rows|;
    assert Reaches(w, d, now, r);
    assert NotifyStep(w, d, now, r, SETTINGS).0.rows == Scene(n, d + 1, 0, sub, now, due).rows;
  }

  lemma SweepNext(n: nat, k: nat, sub: Subscription, now: Time, due: Time)
    requires k < n && now <= due <= now + DAY
    ensures SweepStep(Scene(n, n, k, sub, now, due), k, due, Accepting(due), SETTINGS).0
            == Scene(n, n, k + 1, sub, now, due)
  {
    var w, w' := Scene(n, n, k, sub, now, due), Scene(n, n, k + 1, sub, now, due);
    assert Accepting(due).attempt(0).Accepted? && SomeAccepted(Accepting(due).attempt, SETTINGS.maxRetries);
    assert Notifiable(w, k, due, SETTINGS) && Reachable(w.users, 0);
    assert w.rows[k := MarkSent(DeferredRow(k, sub, due), due)] == w'.rows;
    assert w.outbox + [SweptEvent(k, sub, due)] == w'.outbox;
    assert Notified(w.orders, k, due) == w'.orders;
  }

  lemma {:induction false} DeferAll(n: nat, d: nat, sub: Subscription, now: Time) returns (steps: seq<Step>)
    requires d <= n && IsInQuietHours(now, sub.quiet) && (sub.limit.Some? ==> sub.limit.value >= 1)
    ensures var due := NextQuietHoursEnd(now, sub.quiet).value;
            && StepsEnabled(Scene(n, 0, 0, sub, now, due), steps, SETTINGS)
            && RunSteps(Scene(n, 0, 0, sub, now, due), steps, SETTINGS) == Scene(n, d, 0, sub, now, due)
  {
    if d == 0 {
      steps := [];
    } else {
      var before := DeferAll(n, d - 1, sub, now);
      steps := before + [NotifyOne(d - 1, now, Recipient(0, Some(sub), Accepting(now)))];
      assert steps[..|steps| - 1] == before;
      DeferNext(n, d - 1, sub, now);
    }
  }

  lemma {:induction false} SweepAll(n: nat, k: nat, sub: Subscription, now: Time, due: Time) returns (steps: seq<Step>)
    requires k <= n && now <= due <= now + DAY
    ensures StepsEnabled(Scene(n, n, 0, sub, now, due), steps, SETTINGS)
    ensures RunSteps(Scene(n, n, 0, sub, now, due), steps, SETTINGS) == Scene(n, n, k, sub, now, due)
  {
    if k == 0 {
      steps := [];
    } else {
      var before := SweepAll(n, k - 1, sub, now, due);
      steps := before + [SweepOne(k - 1, due, Accepting(due))];
      assert steps[..|steps| - 1] == before;
      SweepNext(n, k - 1, sub, now, due);
    }
  }

  /** Whatever its limit, a subscription with quiet hours can get any number of messages at one instant: the orders
      notified during quiet hours are deferred unchecked against each other, and swept together when they end. */
  lemma SweepsExceedAnyLimit(sub: Subscription, now: Time, n: nat) returns (w: World, steps: seq<Step>)
    requires IsInQuietHours(now, sub.quiet) && (sub.limit.Some? ==> sub.limit.value >= 1)
    ensures Initial(w) && StepsEnabled(w, steps, SETTINGS)
    ensures var due := NextQuietHoursEnd(now, sub.quiet).value;
            RunSteps(w, steps, SETTINGS).outbox == seq(n, i requires 0 <= i < n => SweptEvent(i, sub, due))
  {
    NextEndIsFirstExit(now, sub.quiet);
    var due := NextQuietHoursEnd(now, sub.quiet).value;
    w := Scene(n, 0, 0, sub, now, due);
    var first := DeferAll(n, n, sub, now);
    var second := SweepAll(n, n, sub, now, due);
    steps := first + second;
    RunStepsConcat(w, first, second, SETTINGS);
  }
}
