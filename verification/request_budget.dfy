/** The per-account request budget (app/collector/rate_limit.py): INCR, and EXPIRE by whoever saw the count
    become one, as separate Redis commands that interleave with those of other processes. */
module RequestBudget {
  import opened Wrappers
  import opened Instants

  type Pid = nat

  const WINDOW: nat := 60

  /** The counter of one account while its key exists; no expiry until EXPIRE has run. */
  datatype Counter = Counter(count: nat, expiresAt: Option<Seconds>)

  /** One answer: when, whether a slot was granted, and in which lifetime of the key. */
  datatype Answer = Answer(at: Seconds, granted: bool, lifetime: nat)

  /** `pending` is the process that still owes the current key its EXPIRE; `born` is when that key was created. */
  datatype State = State(
    now: Seconds, counter: Option<Counter>, pending: Option<Pid>, lifetime: nat, born: Seconds, answers: seq<Answer>)

  datatype Step = Tick | Incr(p: Pid) | Expire(p: Pid) | Crash(p: Pid)

  /** max(limit, 1). */
  function Limit(configured: int): (limit: nat)
    ensures limit >= 1 && limit >= configured && (limit == 1 || limit == configured)
  {
    if configured < 1 then 1 else configured
  }

  /** An expired key reads as absent. */
  function Live(s: State): Option<Counter> {
    if s.counter.Some? && (s.counter.value.expiresAt.None? || s.now < s.counter.value.expiresAt.value)
    then s.counter else None
  }

  predicate Enabled(s: State, step: Step) {
    match step
    case Expire(p) => s.pending == Some(p)
    case _ => true
  }

  function Take(s: State, step: Step, limit: nat): State {
    match step
    case Tick => s.(now := s.now + 1)
    case Incr(p) =>
      if Live(s).None? then
        State(s.now, Some(Counter(1, None)), Some(p), s.lifetime + 1, s.now,
              s.answers + [Answer(s.now, 1 <= limit, s.lifetime + 1)])
      else
        var count := Live(s).value.count + 1;
        s.(counter := Some(Live(s).value.(count := count)),
           answers := s.answers + [Answer(s.now, count <= limit, s.lifetime)])
    case Expire(p) =>
      if Live(s).None? then s.(pending := None)
      else s.(counter := Some(Live(s).value.(expiresAt := Some(s.now + WINDOW))), pending := None)
    case Crash(p) => if s.pending == Some(p) then s.(pending := None) else s
  }

  ghost predicate Run(s: State, steps: seq<Step>, s': State, limit: nat)
    decreases |steps|
  {
    if steps == [] then s' == s
    else Enabled(s, steps[0]) && Run(Take(s, steps[0], limit), steps[1..], s', limit)
  }

  predicate Initial(s: State) {
    s.counter.None? && s.pending.None? && s.lifetime == 0 && s.born == 0 && s.answers == []
  }

  // ---------- counting grants ----------

  predicate InWindow(a: Answer, from: Seconds, to: Seconds) {
    a.granted && from <= a.at <= to
  }

  function Grants(answers: seq<Answer>, from: Seconds, to: Seconds): nat {
    if answers == [] then 0
    else
      var n := |answers| - 1;
      Grants(answers[..n], from, to) + (if InWindow(answers[n], from, to) then 1 else 0)
  }

  function LifetimeGrants(answers: seq<Answer>, lifetime: nat): nat {
    if answers == [] then 0
    else
      var n := |answers| - 1;
      LifetimeGrants(answers[..n], lifetime) + (if answers[n].granted && answers[n].lifetime == lifetime then 1 else 0)
  }

  lemma LifetimeGrantsAppend(answers: seq<Answer>, a: Answer, lifetime: nat)
    ensures LifetimeGrants(answers + [a], lifetime)
            == LifetimeGrants(answers, lifetime) + (if a.granted && a.lifetime == lifetime then 1 else 0)
  {
    assert (answers + [a])[..|answers|] == answers;
  }

  // ---------- what every interleaving keeps ----------

  /** A key lives at least a window once its EXPIRE has run, and is not replaced before: what was answered in an
      earlier lifetime was before the current key was born, and two lifetimes back it was a window before. */
  predicate Spread(answers: seq<Answer>, now: Seconds, lifetime: nat, born: Seconds) {
    && (forall i :: 0 <= i < |answers| ==> answers[i].at <= now && answers[i].lifetime <= lifetime)
    && (forall i :: 0 <= i < |answers| && answers[i].lifetime < lifetime ==> answers[i].at < born)
    && (forall i :: 0 <= i < |answers| && answers[i].lifetime + 1 < lifetime ==> answers[i].at + WINDOW < born)
    && (forall i, j :: 0 <= i < j < |answers| ==> answers[i].lifetime <= answers[j].lifetime)
    && (forall i, j :: 0 <= i < j < |answers| && answers[i].lifetime + 1 < answers[j].lifetime ==>
          answers[i].at + WINDOW < answers[j].at)
  }

  predicate Spaced(s: State) {
    Spread(s.answers, s.now, s.lifetime, s.born)
  }

  predicate KeyOk(s: State) {
    && s.born <= s.now
    && (s.counter.None? ==> s.lifetime == 0 && s.answers == [] && s.pending.None?)
    && (s.pending.Some? ==> s.counter.Some? && s.counter.value.expiresAt.None?)
    && (s.counter.Some? && s.counter.value.expiresAt.Some? ==>
          && s.born + WINDOW <= s.counter.value.expiresAt.value
          && forall i :: 0 <= i < |s.answers| ==> s.answers[i].at < s.counter.value.expiresAt.value)
  }

  ghost predicate Bounded(s: State, limit: nat) {
    && (s.counter.Some? ==> LifetimeGrants(s.answers, s.lifetime) <= s.counter.value.count)
    && (forall lifetime: nat :: LifetimeGrants(s.answers, lifetime) <= limit)
    && (forall lifetime: nat :: lifetime > s.lifetime ==> LifetimeGrants(s.answers, lifetime) == 0)
  }

  ghost predicate Inv(s: State, limit: nat) {
    Spaced(s) && KeyOk(s) && Bounded(s, limit)
  }

  lemma AnswerUnderSameKey(answers: seq<Answer>, a: Answer, now: Seconds, lifetime: nat, born: Seconds)
    requires Spread(answers, now, lifetime, born) && born <= now && a.at == now && a.lifetime == lifetime
    ensures Spread(answers + [a], now, lifetime, born)
  {
  }

  lemma AnswerUnderNewKey(answers: seq<Answer>, a: Answer, now: Seconds, lifetime: nat, born: Seconds)
    requires Spread(answers, now, lifetime, born) && a.at == now && a.lifetime == lifetime + 1
    requires answers != [] ==> born + WINDOW <= now && forall i :: 0 <= i < |answers| ==> answers[i].at < now
    ensures Spread(answers + [a], now, lifetime + 1, now)
  {
  }

  lemma StepKeepsSpaced(s: State, step: Step, limit: nat)
    requires Spaced(s) && KeyOk(s) && Enabled(s, step)
    ensures Spaced(Take(s, step, limit)) && KeyOk(Take(s, step, limit))
  {
    if step.Incr? {
      var a := Take(s, step, limit).answers[|s.answers|];
      if Live(s).None? {
        AnswerUnderNewKey(s.answers, a, s.now, s.lifetime, s.born);
      } else {
        AnswerUnderSameKey(s.answers, a, s.now, s.lifetime, s.born);
      }
    }
  }

  lemma AnswerKeepsBounded(s: State, s': State, a: Answer, limit: nat)
    requires Bounded(s, limit) && s'.answers == s.answers + [a] && a.lifetime == s'.lifetime >= s.lifetime
    requires s'.counter.Some? && (a.granted ==> s'.counter.value.count <= limit)
    requires LifetimeGrants(s.answers, s'.lifetime) + 1 <= s'.counter.value.count
    ensures Bounded(s', limit)
  {
    forall lifetime: nat
      ensures LifetimeGrants(s'.answers, lifetime) <= limit
      ensures lifetime > s'.lifetime ==> LifetimeGrants(s'.answers, lifetime) == 0
    {
      LifetimeGrantsAppend(s.answers, a, lifetime);
    }
    LifetimeGrantsAppend(s.answers, a, s'.lifetime);
  }

  lemma StepKeepsBounded(s: State, step: Step, limit: nat)
    requires Inv(s, limit) && Enabled(s, step)
    ensures Bounded(Take(s, step, limit), limit)
  {
    if step.Incr? {
      var s' := Take(s, step, limit);
      AnswerKeepsBounded(s, s', s'.answers[|s.answers|], limit);
    }
  }

  lemma {:induction false} RunsKeepInv(s: State, steps: seq<Step>, s': State, limit: nat)
    requires Inv(s, limit) && Run(s, steps, s', limit)
    ensures Inv(s', limit)
    decreases |steps|
  {
    if steps == [] {
    } else {
      StepKeepsSpaced(s, steps[0], limit);
      StepKeepsBounded(s, steps[0], limit);
      RunsKeepInv(Take(s, steps[0], limit), steps[1..], s', limit);
    }
  }

  lemma {:induction false} FirstInWindow(answers: seq<Answer>, from: Seconds, to: Seconds) returns (i: nat)
    requires Grants(answers, from, to) > 0
    ensures i < |answers| && InWindow(answers[i], from, to)
    ensures forall j :: 0 <= j < i ==> !InWindow(answers[j], from, to)
  {
    var n := |answers| - 1;
    if Grants(answers[..n], from, to) > 0 {
      i := FirstInWindow(answers[..n], from, to);
    } else {
      i := n;
      NoneInWindow(answers[..n], from, to);
    }
  }

  lemma {:induction false} NoneInWindow(answers: seq<Answer>, from: Seconds, to: Seconds)
    requires Grants(answers, from, to) == 0
    ensures forall j :: 0 <= j < |answers| ==> !InWindow(answers[j], from, to)
  {
    if answers == [] {
    } else {
      NoneInWindow(answers[..|answers| - 1], from, to);
    }
  }

  lemma {:induction false} TwoLifetimesCover(answers: seq<Answer>, from: Seconds, to: Seconds, lifetime: nat)
    requires forall i :: 0 <= i < |answers| && InWindow(answers[i], from, to) ==>
               answers[i].lifetime == lifetime || answers[i].lifetime == lifetime + 1
    ensures Grants(answers, from, to) <= LifetimeGrants(answers, lifetime) + LifetimeGrants(answers, lifetime + 1)
  {
    if answers == [] {
    } else {
      TwoLifetimesCover(answers[..|answers| - 1], from, to, lifetime);
    }
  }

  /** Over every interleaving of INCR and EXPIRE, however late an EXPIRE comes and whoever crashes: one lifetime
      of the key grants at most `limit` requests, and a closed minute at most twice as many. */
  lemma BudgetOverRuns(s: State, steps: seq<Step>, s': State, limit: nat, from: Seconds)
    requires Initial(s) && Run(s, steps, s', limit)
    ensures forall lifetime: nat :: LifetimeGrants(s'.answers, lifetime) <= limit
    ensures Grants(s'.answers, from, from + 60) <= 2 * limit
  {
    RunsKeepInv(s, steps, s', limit);
    if Grants(s'.answers, from, from + WINDOW) > 0 {
      var i := FirstInWindow(s'.answers, from, from + WINDOW);
      TwoLifetimesCover(s'.answers, from, from + WINDOW, s'.answers[i].lifetime);
    }
  }

  // ---------- the bound is reached ----------

  lemma {:induction false} RunConcat(s: State, a: seq<Step>, m: State, b: seq<Step>, s': State, limit: nat)
    requires Run(s, a, m, limit) && Run(m, b, s', limit)
    ensures Run(s, a + b, s', limit)
    decreases |a|
  {
    if a == [] {
      assert a + b == b;
    } else {
      assert (a + b)[1..] == a[1..] + b;
      RunConcat(Take(s, a[0], limit), a[1..], m, b, s', limit);
    }
  }

  lemma {:induction false} TimePasses(s: State, n: nat, limit: nat) returns (steps: seq<Step>)
    ensures Run(s, steps, s.(now := s.now + n), limit)
    decreases n
  {
    steps := [];
    if n == 0 {
    } else {
      var rest := TimePasses(s.(now := s.now + 1), n - 1, limit);
      steps := [Tick] + rest;
      assert steps[1..] == rest;
    }
  }

  lemma GrantsAppend(answers: seq<Answer>, a: Answer, from: Seconds, to: Seconds)
    ensures Grants(answers + [a], from, to) == Grants(answers, from, to) + (if InWindow(a, from, to) then 1 else 0)
  {
    assert (answers + [a])[..|answers|] == answers;
  }

  /** Requests up to the limit, all at once, under a key that lives. */
  lemma {:induction false} Burst(s: State, n: nat, limit: nat, from: Seconds) returns (steps: seq<Step>, s': State)
    requires Live(s).Some? && s.counter.value.count + n <= limit && from <= s.now <= from + WINDOW
    ensures Run(s, steps, s', limit)
    ensures s' == s.(counter := Some(s.counter.value.(count := s.counter.value.count + n)), answers := s'.answers)
    ensures Grants(s'.answers, from, from + WINDOW) == Grants(s.answers, from, from + WINDOW) + n
    decreases n
  {
    steps, s' := [], s;
    if n == 0 {
    } else {
      var s1 := Take(s, Step.Incr(0), limit);
      GrantsAppend(s.answers, s1.answers[|s.answers|], from, from + WINDOW);
      var rest;
      rest, s' := Burst(s1, n - 1, limit, from);
      steps := [Step.Incr(0)] + rest;
      assert steps[1..] == rest;
    }
  }

  /** A new key, its expiry, and requests up to the limit. */
  lemma FullLifetime(s: State, limit: nat, from: Seconds) returns (steps: seq<Step>, s': State)
    requires Live(s).None? && limit >= 1 && from <= s.now <= from + WINDOW
    ensures Run(s, steps, s', limit)
    ensures s'.now == s.now && s'.counter == Some(Counter(limit, Some(s.now + WINDOW)))
    ensures Grants(s'.answers, from, from + WINDOW) == Grants(s.answers, from, from + WINDOW) + limit
  {
    var s1 := Take(s, Step.Incr(0), limit);
    var s2 := Take(s1, Step.Expire(0), limit);
    GrantsAppend(s.answers, s1.answers[|s.answers|], from, from + WINDOW);
    var rest;
    rest, s' := Burst(s2, limit - 1, limit, from);
    steps := [Step.Incr(0), Step.Expire(0)] + rest;
    assert steps[1..] == [Step.Expire(0)] + rest && ([Step.Expire(0)] + rest)[1..] == rest;
    assert Run(s1, [Step.Expire(0)] + rest, s', limit);
  }

  /** For every limit there is a run whose closed minute holds exactly twice as many grants. */
  lemma TwiceTheBudgetInAMinute(limit: nat) returns (s: State, steps: seq<Step>, s': State)
    requires limit >= 1
    ensures Initial(s) && Run(s, steps, s', limit) && Grants(s'.answers, 0, 60) == 2 * limit
  {
    s := State(0, None, None, 0, 0, []);
    var first, s1 := FullLifetime(s, limit, 0);
    var wait := TimePasses(s1, WINDOW, limit);
    var s2 := s1.(now := s1.now + WINDOW);
    var second;
    second, s' := FullLifetime(s2, limit, 0);
    RunConcat(s, first, s1, wait, s2, limit);
    RunConcat(s, first + wait, s2, second, s', limit);
    steps := first + wait + second;
  }

  /** An expiry that is not overtaken: the key it was set for counts for another minute and then starts over. */
  lemma KeyLivesAMinuteFromExpire(s: State, p: Pid, limit: nat, n: nat)
    requires Enabled(s, Step.Expire(p)) && Live(s).Some?
    ensures var s' := Take(s, Step.Expire(p), limit).(now := s.now + n);
            && (Live(s').Some? <==> n < 60)
            && Take(s', Step.Incr(p), limit).counter.value.count == if n < 60 then s.counter.value.count + 1 else 1
  {
  }

  // ---------- an expiry that never comes ----------

  /** The key has no expiry, nobody is left to set one, and the count has reached the limit. */
  predicate Stuck(s: State, limit: nat) {
    s.counter.Some? && s.counter.value.expiresAt.None? && s.pending.None? && s.counter.value.count >= limit
  }

  lemma {:induction false} StuckStaysStuck(s: State, steps: seq<Step>, s': State, limit: nat)
    requires Stuck(s, limit) && Run(s, steps, s', limit)
    ensures Stuck(s', limit) && s.answers <= s'.answers
    ensures forall k :: |s.answers| <= k < |s'.answers| ==> !s'.answers[k].granted
    decreases |steps|
  {
    if steps == [] {
    } else {
      StuckStaysStuck(Take(s, steps[0], limit), steps[1..], s', limit);
    }
  }

  ghost predicate CanGrant(s: State, limit: nat) {
    exists steps, s' :: Run(s, steps, s', limit) && GrantsAfter(s, s')
  }

  predicate GrantsAfter(s: State, s': State) {
    exists k :: |s.answers| <= k < |s'.answers| && s'.answers[k].granted
  }

  lemma GrantsAtOnce(s: State, limit: nat) returns (steps: seq<Step>, s': State)
    requires limit >= 1 && (Live(s).None? || Live(s).value.count < limit)
    ensures Run(s, steps, s', limit) && GrantsAfter(s, s')
  {
    steps, s' := [Step.Incr(0)], Take(s, Step.Incr(0), limit);
    assert Run(s', steps[1..], s', limit);
    assert s'.answers[|s.answers|].granted;
  }

  lemma GrantsAfterExpiry(s: State, limit: nat) returns (steps: seq<Step>, s': State)
    requires limit >= 1 && s.counter.Some? && s.counter.value.expiresAt.Some?
    ensures Run(s, steps, s', limit) && GrantsAfter(s, s')
  {
    var expiry := s.counter.value.expiresAt.value;
    var n := if s.now < expiry then expiry - s.now else 0;
    var wait := TimePasses(s, n, limit);
    var m := s.(now := s.now + n);
    var last;
    last, s' := GrantsAtOnce(m, limit);
    steps := wait + last;
    RunConcat(s, wait, m, last, s', limit);
  }

  /** Some run grants another request exactly when the budget is not stuck. */
  lemma GrantsAgainIff(s: State, limit: nat)
    requires limit >= 1
    ensures CanGrant(s, limit) <==> !Stuck(s, limit)
  {
    if Stuck(s, limit) {
      forall steps, s' | Run(s, steps, s', limit) ensures !GrantsAfter(s, s') {
        StuckStaysStuck(s, steps, s', limit);
      }
    } else if s.counter.Some? && s.counter.value.expiresAt.Some? {
      var steps, s' := GrantsAfterExpiry(s, limit);
      assert Run(s, steps, s', limit) && GrantsAfter(s, s');
    } else if s.pending.Some? && s.counter.Some? {
      var m := Take(s, Step.Expire(s.pending.value), limit);
      var rest, s' := GrantsAfterExpiry(m, limit);
      var steps := [Step.Expire(s.pending.value)] + rest;
      assert steps[1..] == rest;
      assert Run(s, steps, s', limit) && GrantsAfter(s, s') by {
        var k :| |m.answers| <= k < |s'.answers| && s'.answers[k].granted;
      }
    } else {
      var steps, s' := GrantsAtOnce(s, limit);
    }
  }

  /** A process that crashes between its INCR and its EXPIRE leaves every limit to be used up and then stuck. */
  lemma CrashGetsStuck(limit: nat) returns (s: State, steps: seq<Step>, s': State)
    requires limit >= 1
    ensures Initial(s) && Run(s, steps, s', limit) && Stuck(s', limit)
  {
    s := State(0, None, None, 0, 0, []);
    var s1 := Take(s, Step.Incr(0), limit);
    var s2 := Take(s1, Step.Crash(0), limit);
    var rest;
    rest, s' := Burst(s2, limit - 1, limit, 0);
    steps := [Step.Incr(0), Step.Crash(0)] + rest;
    assert steps[1..] == [Step.Crash(0)] + rest && ([Step.Crash(0)] + rest)[1..] == rest;
    assert Run(s1, [Step.Crash(0)] + rest, s', limit);
  }

  // ---------- the request ----------

  class AccountBudget {
    var now: Seconds
    var counter: Option<Counter>

    constructor ()
      ensures now == 0 && counter == None
    {
      now, counter := 0, None;
    }

    function Current(): Option<Counter>
      reads this
    {
      if counter.Some? && (counter.value.expiresAt.None? || now < counter.value.expiresAt.value) then counter else None
    }

    method Incr() returns (count: nat)
      modifies this`counter
      ensures count == (if old(Current()).None? then 0 else old(Current()).value.count) + 1
      ensures counter == Some(Counter(count, if old(Current()).None? then None else old(Current()).value.expiresAt))
    {
      if counter.None? || (counter.value.expiresAt.Some? && now >= counter.value.expiresAt.value) {
        counter := Some(Counter(0, None));
      }
      counter := Some(counter.value.(count := counter.value.count + 1));
      count := counter.value.count;
    }

    method Expire(seconds: nat)
      modifies this`counter
      ensures counter == if old(Current()).None? then old(counter)
                         else Some(old(Current()).value.(expiresAt := Some(now + seconds)))
    {
      if Current().Some? {
        counter := Some(counter.value.(expiresAt := Some(now + seconds)));
      }
    }

    predicate Valid()
      reads this
    {
      counter.Some? ==> counter.value.count >= 1
    }

    /** One request, undisturbed: its two commands are two steps of the model, and the answer is the model's. */
    method AcquireAccountRequestSlot(configured: int, ghost s: State, ghost p: Pid) returns (granted: bool)
      requires Valid() && s.now == now && s.counter == counter
      modifies this`counter
      ensures Valid()
      ensures var limit := Limit(configured);
              var s1 := Take(s, Step.Incr(p), limit);
              && counter == (if Live(s).None? then Take(s1, Step.Expire(p), limit) else s1).counter
              && s1.answers == s.answers + [Answer(now, granted, s1.lifetime)]
    {
      var limit := Limit(configured);
      var count := Incr();
      if count == 1 {
        Expire(60);
      }
      granted := count <= limit;
    }
  }
}
