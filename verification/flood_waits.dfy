/** When a source is read again after Telegram asked to wait (app/collector/messages.py,
    app/services/floodwait_recovery.py). */
module FloodWaits {
  import opened Wrappers
  import opened Instants

  /** Whether the source is marked as waiting, and until when it is paused. */
  datatype Access = Access(waiting: bool, pauseUntil: Option<Time>)

  /** A collection connects, then fetches what is new, then syncs what it knows. */
  datatype Purpose = Connect | Fetch | Sync

  /** A request to Telegram, and the seconds it asked to wait, if it did. */
  datatype Request = Request(purpose: Purpose, at: Time, wait: Option<nat>)

  /** What the requests of a collection would be answered; with no known live message nothing is synced. */
  datatype Attempt = Attempt(connectWait: Option<nat>, fetchWait: Option<nat>, syncWait: Option<nat>, known: bool)

  datatype State = State(now: Time, access: Access, requests: seq<Request>)

  datatype Step = Tick | Collection(attempt: Attempt) | Recovery

  predicate Collectable(a: Access, now: Time) {
    !a.waiting && (a.pauseUntil.None? || a.pauseUntil.value <= now)
  }

  /** The connection is made before the pause is looked at. */
  predicate Reads(a: Access, now: Time, c: Attempt) {
    c.connectWait.None? && Collectable(a, now)
  }

  predicate Syncs(a: Access, now: Time, c: Attempt) {
    Reads(a, now, c) && c.fetchWait.None? && c.known
  }

  function RequestsOf(a: Access, now: Time, c: Attempt): seq<Request> {
    [Request(Connect, now, c.connectWait)]
    + (if Reads(a, now, c) then [Request(Fetch, now, c.fetchWait)] else [])
    + (if Syncs(a, now, c) then [Request(Sync, now, c.syncWait)] else [])
  }

  /** A wait met while connecting or syncing is caught by nobody and leaves the source as it was. */
  predicate Raises(a: Access, now: Time, c: Attempt) {
    c.connectWait.Some? || (Syncs(a, now, c) && c.syncWait.Some?)
  }

  function Attempted(a: Access, now: Time, c: Attempt): Access {
    if Reads(a, now, c) && c.fetchWait.Some? then Access(true, Some(now + c.fetchWait.value * SECOND)) else a
  }

  function Recovered(a: Access, now: Time): Access {
    if a.waiting && a.pauseUntil.Some? && a.pauseUntil.value <= now then Access(false, None) else a
  }

  function Take(s: State, step: Step): State {
    match step
    case Tick => s.(now := s.now + 1)
    case Collection(c) =>
      s.(access := Attempted(s.access, s.now, c), requests := s.requests + RequestsOf(s.access, s.now, c))
    case Recovery => s.(access := Recovered(s.access, s.now))
  }

  function Run(s: State, steps: seq<Step>): State
    decreases |steps|
  {
    if steps == [] then s else Run(Take(s, steps[0]), steps[1..])
  }

  /** The wait that this request was answered with is over. */
  predicate Over(r: Request, at: Time) {
    r.wait.Some? ==> at >= r.at + r.wait.value * SECOND
  }

  predicate AllOver(requests: seq<Request>, at: Time) {
    forall i :: 0 <= i < |requests| ==> Over(requests[i], at)
  }

  predicate Early(requests: seq<Request>, i: int, j: int)
    requires 0 <= i < j < |requests|
  {
    requests[j].purpose != Connect && !Over(requests[i], requests[j].at)
  }

  /** The source was never read while a wait lasted. */
  predicate NoneEarly(requests: seq<Request>) {
    forall i, j :: 0 <= i < j < |requests| ==> !Early(requests, i, j)
  }

  // ---------- waits met while fetching ----------

  /** Waits that were met while fetching are over or the source is paused until they are. */
  predicate Paused(s: State) {
    forall i | 0 <= i < |s.requests| && s.requests[i].purpose == Fetch ::
      || Over(s.requests[i], s.now)
      || (s.access.waiting && s.access.pauseUntil.Some? && Over(s.requests[i], s.access.pauseUntil.value))
  }

  predicate FetchWaitsKept(requests: seq<Request>) {
    forall i, j :: 0 <= i < j < |requests| && requests[i].purpose == Fetch ==> !Early(requests, i, j)
  }

  lemma StepKeepsFetchWaits(s: State, step: Step)
    requires Paused(s) && FetchWaitsKept(s.requests)
    ensures Paused(Take(s, step)) && FetchWaitsKept(Take(s, step).requests) && s.requests <= Take(s, step).requests
  {
    var s' := Take(s, step);
    if step.Collection? {
      forall i, j | 0 <= i < j < |s'.requests| && s'.requests[i].purpose == Fetch ensures !Early(s'.requests, i, j) {
        if j < |s.requests| {
          assert !Early(s.requests, i, j);
        }
      }
    }
  }

  /** Over every run of collections, recoveries and the clock: the source is not read while a wait that it met while
      fetching lasts. */
  lemma {:induction false} FetchWaitsAreKept(s: State, steps: seq<Step>)
    requires Paused(s) && FetchWaitsKept(s.requests)
    ensures Paused(Run(s, steps)) && FetchWaitsKept(Run(s, steps).requests) && s.requests <= Run(s, steps).requests
    decreases |steps|
  {
    if steps == [] {
    } else {
      StepKeepsFetchWaits(s, steps[0]);
      FetchWaitsAreKept(Take(s, steps[0]), steps[1..]);
    }
  }

  /** A source that was told to wait while fetching is read again, after a recovery, exactly from the end of the wait
      on. */
  lemma ResumesIffOver(a: Access, now: Time, c: Attempt, at: Time)
    requires Reads(a, now, c) && c.fetchWait.Some?
    ensures Collectable(Recovered(Attempted(a, now, c), at), at) <==> at >= now + c.fetchWait.value * 1_000_000
    ensures !Collectable(Attempted(a, now, c), at)
  {
  }

  /** How far a collection gets: it connects; reads if it could connect and the source is neither waiting nor paused;
      syncs if nothing was in the way so far and a live message is known. It raises exactly when its last request met a
      wait that was not for reading. */
  lemma HowFarACollectionGets(s: State, c: Attempt)
    ensures var requests := Take(s, Collection(c)).requests;
            var stopped := s.access.waiting || (s.access.pauseUntil.Some? && s.now < s.access.pauseUntil.value);
            var made := if c.connectWait.Some? || stopped then 1 else if c.fetchWait.Some? || !c.known then 2 else 3;
            && |requests| == |s.requests| + made && s.requests <= requests
            && requests[|s.requests|] == Request(Connect, s.now, c.connectWait)
            && (made > 1 ==> requests[|s.requests| + 1] == Request(Fetch, s.now, c.fetchWait))
            && (made > 2 ==> requests[|s.requests| + 2] == Request(Sync, s.now, c.syncWait))
            && (Raises(s.access, s.now, c)
                <==> requests[|requests| - 1].wait.Some? && requests[|requests| - 1].purpose != Fetch)
  {
  }

  // ---------- all waits ----------

  /** A collection keeps to every wait exactly when it does not read or no earlier wait lasts. */
  lemma CollectionKeepsWaitsIff(s: State, c: Attempt)
    requires NoneEarly(s.requests)
    ensures NoneEarly(Take(s, Collection(c)).requests)
            <==> (Reads(s.access, s.now, c) ==> AllOver(s.requests, s.now))
  {
    var requests := Take(s, Collection(c)).requests;
    var n := |s.requests|;
    if Reads(s.access, s.now, c) && !AllOver(s.requests, s.now) {
      var i :| 0 <= i < n && !Over(s.requests[i], s.now);
      assert Early(requests, i, n + 1);
    } else {
      forall i, j | 0 <= i < j < |requests| ensures !Early(requests, i, j) {
        if j < n {
          assert !Early(s.requests, i, j);
        } else if i < n {
          assert requests[i] == s.requests[i];
        }
      }
    }
  }

  /** Every collection that reads starts when all waits are over. */
  ghost predicate ReadsAfterWaits(s: State, steps: seq<Step>)
    decreases |steps|
  {
    steps == []
    || ((steps[0].Collection? && Reads(s.access, s.now, steps[0].attempt) ==> AllOver(s.requests, s.now))
        && ReadsAfterWaits(Take(s, steps[0]), steps[1..]))
  }

  lemma {:induction false} EarlyStays(s: State, steps: seq<Step>)
    requires !NoneEarly(s.requests)
    ensures !NoneEarly(Run(s, steps).requests)
    decreases |steps|
  {
    if steps == [] {
    } else {
      var i, j :| 0 <= i < j < |s.requests| && Early(s.requests, i, j);
      assert Early(Take(s, steps[0]).requests, i, j);
      EarlyStays(Take(s, steps[0]), steps[1..]);
    }
  }

  /** Over every run, whichever requests meet waits: the source is never read early exactly when each collection that
      reads starts after all of them. */
  lemma {:induction false} NoEarlyRetriesIff(s: State, steps: seq<Step>)
    requires NoneEarly(s.requests)
    ensures NoneEarly(Run(s, steps).requests) <==> ReadsAfterWaits(s, steps)
    decreases |steps|
  {
    if steps == [] {
    } else {
      var s1 := Take(s, steps[0]);
      if steps[0].Collection? {
        CollectionKeepsWaitsIff(s, steps[0].attempt);
      }
      if NoneEarly(s1.requests) {
        NoEarlyRetriesIff(s1, steps[1..]);
      } else {
        EarlyStays(s1, steps[1..]);
      }
    }
  }

  /** Waits are met while fetching only. */
  predicate OnlyFetchesWait(steps: seq<Step>) {
    forall k :: 0 <= k < |steps| && steps[k].Collection? ==>
      steps[k].attempt.connectWait.None? && steps[k].attempt.syncWait.None?
  }

  predicate WaitsAreFetches(requests: seq<Request>) {
    forall i :: 0 <= i < |requests| && requests[i].wait.Some? ==> requests[i].purpose == Fetch
  }

  /** Over every run in which only fetches meet waits, the source is never read early. */
  lemma {:induction false} NoEarlyRetries(s: State, steps: seq<Step>)
    requires Paused(s) && WaitsAreFetches(s.requests) && NoneEarly(s.requests) && OnlyFetchesWait(steps)
    ensures NoneEarly(Run(s, steps).requests)
    decreases |steps|
  {
    if steps == [] {
    } else {
      var s1 := Take(s, steps[0]);
      StepKeepsFetchWaits(s, steps[0]);
      if steps[0].Collection? {
        CollectionKeepsWaitsIff(s, steps[0].attempt);
      }
      NoEarlyRetries(s1, steps[1..]);
    }
  }

  // ---------- where waits are not kept ----------

  /** A wait met while syncing pauses nothing: the next collection reads the source in the middle of it, for every
      length of the wait. */
  lemma SyncWaitIsNotKept(s: State, n: nat, next: Attempt)
    requires n >= 1 && Collectable(s.access, s.now) && s.requests == [] && next.connectWait.None?
    ensures var first := Collection(Attempt(None, None, Some(n), true));
            Take(s, first).access == s.access && !NoneEarly(Run(s, [first, Collection(next)]).requests)
  {
    var first := Collection(Attempt(None, None, Some(n), true));
    var steps := [first, Collection(next)];
    var s1 := Take(s, first);
    assert steps[1..] == [Collection(next)] && [Collection(next)][1..] == [];
    assert Run(s, steps) == Run(s1, [Collection(next)]) == Take(s1, Collection(next));
    assert !Over(s1.requests[2], s.now);
    CollectionKeepsWaitsIff(s1, next);
  }

  /** A paused source is connected for all the same. */
  lemma ConnectsDuringWait(s: State, n: nat, next: Attempt)
    requires n >= 1 && Collectable(s.access, s.now) && s.requests == []
    ensures var s1 := Take(s, Collection(Attempt(None, Some(n), None, false)));
            var s2 := Take(s1, Collection(next));
            && |s2.requests| == |s1.requests| + 1 && s2.access == s1.access
            && s2.requests[|s1.requests|] == Request(Connect, s.now, next.connectWait)
            && !AllOver(s1.requests, s.now)
  {
    var s1 := Take(s, Collection(Attempt(None, Some(n), None, false)));
    assert !Over(s1.requests[1], s.now);
  }
}
