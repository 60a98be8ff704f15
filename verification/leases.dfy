/** Redis leases (app/collector/leases.py) and their nesting in a collection (app/collector/messages.py):
    every interleaving of processes whose Redis commands are atomic, with the clock running between them. */
module Leases {
  import opened Wrappers
  import opened Instants

  type Pid = nat
  type Token = nat

  datatype LeaseKey = SourceKey(source: nat) | AccountKey(account: nat)

  datatype Entry = Entry(token: Token, expiresAt: Seconds)

  /** What one lease object knows: its key, its own token, and since when it has been held. */
  datatype Lease = Lease(key: LeaseKey, token: Token, since: Seconds)

  /** A collection works down this path; each arrow is one Redis command or the work in between. */
  datatype Phase =
    | Idle
    | HoldingSource(source: Lease)
    | HoldingBoth(source: Lease, account: Lease)
    | Crashed(held: seq<Lease>)

  /** A finished critical section. */
  datatype Section = Section(pid: Pid, key: LeaseKey, from: Seconds, to: Seconds)

  datatype State = State(
    now: Seconds, store: map<LeaseKey, Entry>, phases: map<Pid, Phase>, nextToken: Token, history: seq<Section>)

  datatype Ttl = Ttl(source: nat, account: nat)

  function TtlOf(key: LeaseKey, ttl: Ttl): nat {
    match key
    case SourceKey(_) => ttl.source
    case AccountKey(_) => ttl.account
  }

  // ---------- the Redis commands ----------

  /** An expired key reads as absent. */
  predicate PresentIn(store: map<LeaseKey, Entry>, now: Seconds, key: LeaseKey) {
    key in store && now < store[key].expiresAt
  }

  /** SET key token EX seconds NX. */
  function StoreSetNx(store: map<LeaseKey, Entry>, now: Seconds, key: LeaseKey, token: Token, seconds: nat)
    : map<LeaseKey, Entry>
  {
    if PresentIn(store, now, key) then store else store[key := Entry(token, now + seconds)]
  }

  /** The release script: delete the key only while it still holds this token. */
  function StoreRelease(store: map<LeaseKey, Entry>, now: Seconds, key: LeaseKey, token: Token): map<LeaseKey, Entry> {
    if PresentIn(store, now, key) && store[key].token == token then store - {key} else store
  }

  predicate Present(s: State, key: LeaseKey) {
    PresentIn(s.store, s.now, key)
  }

  /** An acquisition with a token nobody has had. */
  function SetNx(s: State, key: LeaseKey, ttl: Ttl): (State, bool) {
    (s.(nextToken := s.nextToken + 1, store := StoreSetNx(s.store, s.now, key, s.nextToken, TtlOf(key, ttl))),
     !Present(s, key))
  }

  function Release(s: State, lease: Lease): State {
    s.(store := StoreRelease(s.store, s.now, lease.key, lease.token))
  }

  // ---------- processes ----------

  function HeldBy(phase: Phase): seq<Lease> {
    match phase
    case Idle => []
    case HoldingSource(source) => [source]
    case HoldingBoth(source, account) => [source, account]
    case Crashed(held) => held
  }

  function PhaseOf(s: State, p: Pid): Phase {
    if p in s.phases then s.phases[p] else Idle
  }

  datatype Step =
    | Tick
    | EnterSource(p: Pid, source: nat)
    | EnterAccount(p: Pid, account: nat)
    | ExitAccount(p: Pid)
    | ExitSource(p: Pid)
    | Crash(p: Pid)

  predicate Enabled(s: State, step: Step) {
    match step
    case Tick => true
    case EnterSource(p, _) => PhaseOf(s, p).Idle?
    case EnterAccount(p, _) => PhaseOf(s, p).HoldingSource?
    case ExitAccount(p) => PhaseOf(s, p).HoldingBoth?
    case ExitSource(p) => PhaseOf(s, p).HoldingSource?
    case Crash(p) => true
  }

  function SetPhase(s: State, p: Pid, phase: Phase): State {
    s.(phases := s.phases[p := phase])
  }

  function Finish(s: State, p: Pid, lease: Lease): State {
    s.(history := s.history + [Section(p, lease.key, lease.since, s.now)])
  }

  /** A refused source lease ends the collection; a refused account lease (`account_busy`) leaves the process
      holding only the source, from where its one way on is out. */
  function Take(s: State, step: Step, ttl: Ttl): State
    requires Enabled(s, step)
  {
    match step
    case Tick => s.(now := s.now + 1)
    case EnterSource(p, source) =>
      var (s', acquired) := SetNx(s, SourceKey(source), ttl);
      if acquired then SetPhase(s', p, HoldingSource(Lease(SourceKey(source), s.nextToken, s.now))) else s'
    case EnterAccount(p, account) =>
      var (s', acquired) := SetNx(s, AccountKey(account), ttl);
      var source := PhaseOf(s, p).source;
      if acquired then SetPhase(s', p, HoldingBoth(source, Lease(AccountKey(account), s.nextToken, s.now))) else s'
    case ExitAccount(p) =>
      var HoldingBoth(source, account) := PhaseOf(s, p);
      SetPhase(Finish(Release(s, account), p, account), p, HoldingSource(source))
    case ExitSource(p) =>
      var source := PhaseOf(s, p).source;
      SetPhase(Finish(Release(s, source), p, source), p, Idle)
    case Crash(p) => SetPhase(s, p, Crashed(HeldBy(PhaseOf(s, p))))
  }

  ghost predicate Run(s: State, steps: seq<Step>, s': State, ttl: Ttl)
    decreases |steps|
  {
    if steps == [] then s' == s
    else Enabled(s, steps[0]) && Run(Take(s, steps[0], ttl), steps[1..], s', ttl)
  }

  predicate Initial(s: State) {
    s.store == map[] && s.phases == map[] && s.history == []
  }

  predicate Holds(s: State, p: Pid, lease: Lease) {
    lease in HeldBy(PhaseOf(s, p))
  }

  predicate Unexpired(s: State, lease: Lease, ttl: Ttl) {
    s.now < lease.since + TtlOf(lease.key, ttl)
  }

  // ---------- what every interleaving keeps ----------

  predicate Short(h: Section, ttl: Ttl) {
    h.to - h.from < TtlOf(h.key, ttl)
  }

  /** A token is handed out once, to one lease of one process. */
  ghost predicate TokensUnique(s: State) {
    && (forall p, l :: Holds(s, p, l) ==> l.token < s.nextToken && l.since <= s.now)
    && (forall p, l, q, m :: Holds(s, p, l) && Holds(s, q, m) && l.token == m.token ==> p == q && l == m)
  }

  /** The store holds the leases that have not expired, and no entry nobody holds. */
  ghost predicate StoreExact(s: State, ttl: Ttl) {
    && (forall p, l :: Holds(s, p, l) && Unexpired(s, l, ttl) ==>
          l.key in s.store && s.store[l.key] == Entry(l.token, l.since + TtlOf(l.key, ttl)))
    && (forall k :: Present(s, k) ==> exists p, l :: Holds(s, p, l) && Owns(s, l, k, ttl))
  }

  predicate Owns(s: State, l: Lease, k: LeaseKey, ttl: Ttl)
    requires Present(s, k)
  {
    l.key == k && l.token == s.store[k].token && Unexpired(s, l, ttl)
  }

  /** Short sections of the past ended before any unexpired lease of their key began, and do not overlap. */
  ghost predicate PastDisjoint(s: State, ttl: Ttl) {
    && (forall i :: 0 <= i < |s.history| ==> s.history[i].to <= s.now)
    && (forall i, p, l | 0 <= i < |s.history| && Holds(s, p, l) && l.key == s.history[i].key
                         && Short(s.history[i], ttl) && Unexpired(s, l, ttl) :: s.history[i].to <= l.since)
    && (forall i, j | 0 <= i < j < |s.history| && s.history[i].key == s.history[j].key
                      && Short(s.history[i], ttl) && Short(s.history[j], ttl) :: s.history[i].to <= s.history[j].from)
  }

  /** The source lease is taken first and the account lease inside it. */
  predicate WellNested(phase: Phase) {
    match phase
    case HoldingSource(source) => source.key.SourceKey?
    case HoldingBoth(source, account) => source.key.SourceKey? && account.key.AccountKey?
    case _ => true
  }

  ghost predicate Nested(s: State) {
    forall p :: WellNested(PhaseOf(s, p))
  }

  ghost predicate Inv(s: State, ttl: Ttl) {
    Nested(s) && TokensUnique(s) && StoreExact(s, ttl) && PastDisjoint(s, ttl)
  }

  /** At most one process holds an unexpired lease on a key. */
  lemma MutualExclusion(s: State, ttl: Ttl, p: Pid, l: Lease, q: Pid, m: Lease)
    requires Inv(s, ttl) && Holds(s, p, l) && Holds(s, q, m) && l.key == m.key
    requires Unexpired(s, l, ttl) && Unexpired(s, m, ttl)
    ensures p == q && l == m
  {
  }

  /** A release removes nothing but the releaser's own entry. */
  lemma ReleaseTakesOnlyItsOwn(s: State, ttl: Ttl, p: Pid, l: Lease)
    requires Inv(s, ttl) && Holds(s, p, l)
    ensures forall k :: k in s.store && k != l.key ==> k in Release(s, l).store && Release(s, l).store[k] == s.store[k]
    ensures forall q, m :: Holds(s, q, m) && m.key == l.key && q != p && Unexpired(s, m, ttl) ==>
              m.key in Release(s, l).store && Release(s, l).store[m.key].token == m.token
  {
    forall q, m | Holds(s, q, m) && m.key == l.key && q != p && Unexpired(s, m, ttl)
      ensures m.key in Release(s, l).store && Release(s, l).store[m.key].token == m.token
    {
      assert s.store[m.key].token == m.token;
    }
  }

  // ---------- one step ----------

  lemma TickKeepsInv(s: State, ttl: Ttl)
    requires Inv(s, ttl)
    ensures Inv(Take(s, Tick, ttl), ttl)
  {
    var s' := Take(s, Tick, ttl);
    StepKeepsNested(s, Tick, ttl);
    assert forall p, l :: Holds(s', p, l) <==> Holds(s, p, l);
    forall k | Present(s', k) ensures exists p, l :: Holds(s', p, l) && Owns(s', l, k, ttl) {
      assert Present(s, k);
      var p, l :| Holds(s, p, l) && Owns(s, l, k, ttl);
      assert Holds(s', p, l) && Owns(s', l, k, ttl);
    }
  }

  lemma CrashKeepsInv(s: State, p: Pid, ttl: Ttl)
    requires Inv(s, ttl)
    ensures Inv(Take(s, Crash(p), ttl), ttl)
  {
    var s' := Take(s, Crash(p), ttl);
    StepKeepsNested(s, Crash(p), ttl);
    assert forall q, l :: Holds(s', q, l) <==> Holds(s, q, l);
    forall k | Present(s', k) ensures exists q, l :: Holds(s', q, l) && Owns(s', l, k, ttl) {
      assert Present(s, k);
      var q, l :| Holds(s, q, l) && Owns(s, l, k, ttl);
      assert Holds(s', q, l) && Owns(s', l, k, ttl);
    }
  }

  /** Taking a free key: the new lease is alone in holding it unexpired. */
  ghost predicate Acquires(s: State, s': State, p: Pid, l: Lease, ttl: Ttl) {
    && !Present(s, l.key) && l.token == s.nextToken && l.since == s.now
    && s'.now == s.now && s'.history == s.history && s'.nextToken == s.nextToken + 1
    && s'.store == s.store[l.key := Entry(l.token, s.now + TtlOf(l.key, ttl))]
    && forall q, m :: Holds(s', q, m) <==> Holds(s, q, m) || (q == p && m == l)
  }

  lemma AcquireKeepsInv(s: State, s': State, p: Pid, l: Lease, ttl: Ttl)
    requires Inv(s, ttl) && Acquires(s, s', p, l, ttl) && Nested(s')
    ensures Inv(s', ttl)
  {
    assert Holds(s', p, l);
    forall k | Present(s', k) ensures exists q, m :: Holds(s', q, m) && Owns(s', m, k, ttl) {
      if k == l.key {
        assert Owns(s', l, k, ttl);
      } else {
        assert Present(s, k);
        var q, m :| Holds(s, q, m) && Owns(s, m, k, ttl);
        assert Holds(s', q, m) && Owns(s', m, k, ttl);
      }
    }
    forall q, m | Holds(s', q, m) && Unexpired(s', m, ttl)
      ensures m.key in s'.store && s'.store[m.key] == Entry(m.token, m.since + TtlOf(m.key, ttl))
    {
      if !(q == p && m == l) {
        assert Holds(s, q, m) && Unexpired(s, m, ttl);
        assert m.key != l.key;
      }
    }
  }

  /** A refused acquisition only uses up a token. */
  lemma RefusalKeepsInv(s: State, ttl: Ttl)
    requires Inv(s, ttl)
    ensures Inv(s.(nextToken := s.nextToken + 1), ttl)
  {
    var s' := s.(nextToken := s.nextToken + 1);
    forall p ensures WellNested(PhaseOf(s', p)) {
      assert WellNested(PhaseOf(s, p));
    }
    assert forall p, l :: Holds(s', p, l) <==> Holds(s, p, l);
    forall k | Present(s', k) ensures exists p, l :: Holds(s', p, l) && Owns(s', l, k, ttl) {
      assert Present(s, k);
      var p, l :| Holds(s, p, l) && Owns(s, l, k, ttl);
      assert Holds(s', p, l) && Owns(s', l, k, ttl);
    }
  }

  /** Giving up a held lease: its section becomes history, and its entry goes if it is still there. */
  ghost predicate Leaves(s: State, s': State, p: Pid, l: Lease) {
    && Holds(s, p, l)
    && s'.now == s.now && s'.nextToken == s.nextToken && s'.store == Release(s, l).store
    && s'.history == s.history + [Section(p, l.key, l.since, s.now)]
    && forall q, m :: Holds(s', q, m) <==> Holds(s, q, m) && !(q == p && m == l)
  }

  lemma LeaveKeepsStoreExact(s: State, s': State, p: Pid, l: Lease, ttl: Ttl)
    requires Inv(s, ttl) && Leaves(s, s', p, l)
    ensures TokensUnique(s') && StoreExact(s', ttl)
  {
    forall q, m | Holds(s', q, m) && Unexpired(s', m, ttl)
      ensures m.key in s'.store && s'.store[m.key] == Entry(m.token, m.since + TtlOf(m.key, ttl))
    {
      assert Holds(s, q, m) && Unexpired(s, m, ttl);
    }
    forall k | Present(s', k) ensures exists q, m :: Holds(s', q, m) && Owns(s', m, k, ttl) {
      assert Present(s, k);
      var q, m :| Holds(s, q, m) && Owns(s, m, k, ttl);
      assert Holds(s', q, m) && Owns(s', m, k, ttl);
    }
  }

  lemma LeaveKeepsPastDisjoint(s: State, s': State, p: Pid, l: Lease, ttl: Ttl)
    requires Inv(s, ttl) && Leaves(s, s', p, l)
    ensures PastDisjoint(s', ttl)
  {
    var n := |s.history|;
    var h := s'.history[n];
    assert h == Section(p, l.key, l.since, s.now);
    assert Short(h, ttl) ==> Unexpired(s, l, ttl);
    forall i, q, m | 0 <= i < |s'.history| && Holds(s', q, m) && m.key == s'.history[i].key
                     && Short(s'.history[i], ttl) && Unexpired(s', m, ttl)
      ensures s'.history[i].to <= m.since
    {
      assert Holds(s, q, m) && Unexpired(s, m, ttl);
      if i < n {
        assert s'.history[i] == s.history[i];
      } else {
        MutualExclusion(s, ttl, p, l, q, m);
      }
    }
    forall i, j | 0 <= i < j < |s'.history| && s'.history[i].key == s'.history[j].key
                  && Short(s'.history[i], ttl) && Short(s'.history[j], ttl)
      ensures s'.history[i].to <= s'.history[j].from
    {
      assert s'.history[i] == s.history[i];
    }
  }

  lemma StepKeepsNested(s: State, step: Step, ttl: Ttl)
    requires Nested(s) && Enabled(s, step)
    ensures Nested(Take(s, step, ttl))
  {
    var s' := Take(s, step, ttl);
    forall q ensures WellNested(PhaseOf(s', q)) {
      assert WellNested(PhaseOf(s, q));
    }
  }

  lemma StepKeepsInv(s: State, step: Step, ttl: Ttl)
    requires Inv(s, ttl) && Enabled(s, step)
    ensures Inv(Take(s, step, ttl), ttl)
  {
    var s' := Take(s, step, ttl);
    StepKeepsNested(s, step, ttl);
    match step
    case Tick => TickKeepsInv(s, ttl);
    case Crash(p) => CrashKeepsInv(s, p, ttl);
    case EnterSource(p, source) =>
      if Present(s, SourceKey(source)) {
        RefusalKeepsInv(s, ttl);
      } else {
        AcquireKeepsInv(s, s', p, Lease(SourceKey(source), s.nextToken, s.now), ttl);
      }
    case EnterAccount(p, account) =>
      if Present(s, AccountKey(account)) {
        RefusalKeepsInv(s, ttl);
      } else {
        AcquireKeepsInv(s, s', p, Lease(AccountKey(account), s.nextToken, s.now), ttl);
      }
    case ExitAccount(p) =>
      var l := PhaseOf(s, p).account;
      assert Holds(s, p, l) && Holds(s, p, PhaseOf(s, p).source);
      assert PhaseOf(s, p).source != l;
      LeaveKeepsStoreExact(s, s', p, l, ttl);
      LeaveKeepsPastDisjoint(s, s', p, l, ttl);
    case ExitSource(p) =>
      var l := PhaseOf(s, p).source;
      assert Holds(s, p, l);
      LeaveKeepsStoreExact(s, s', p, l, ttl);
      LeaveKeepsPastDisjoint(s, s', p, l, ttl);
  }

  // ---------- whole runs ----------

  lemma {:induction false} RunsKeepInv(s: State, steps: seq<Step>, s': State, ttl: Ttl)
    requires Inv(s, ttl) && Run(s, steps, s', ttl)
    ensures Inv(s', ttl)
    decreases |steps|
  {
    if steps == [] {
    } else {
      StepKeepsInv(s, steps[0], ttl);
      RunsKeepInv(Take(s, steps[0], ttl), steps[1..], s', ttl);
    }
  }

  /** Over every interleaving of any number of processes: unexpired leases on a key have one holder, finished
      sections shorter than the TTL do not overlap, and every entry in the store is some process's lease. */
  lemma LeaseProtocol(s: State, steps: seq<Step>, s': State, ttl: Ttl)
    requires Initial(s) && Run(s, steps, s', ttl)
    ensures Inv(s', ttl)
    ensures forall p, l, q, m | Holds(s', p, l) && Holds(s', q, m) && l.key == m.key
                                && Unexpired(s', l, ttl) && Unexpired(s', m, ttl) :: p == q && l == m
    ensures forall i, j | 0 <= i < j < |s'.history| && s'.history[i].key == s'.history[j].key
                          && Short(s'.history[i], ttl) && Short(s'.history[j], ttl) ::
              s'.history[i].to <= s'.history[j].from
    ensures forall k :: Present(s', k) ==> exists p, l :: Holds(s', p, l) && Owns(s', l, k, ttl)
  {
    assert forall p :: PhaseOf(s, p).Idle?;
    RunsKeepInv(s, steps, s', ttl);
  }

  /** An entry with the token of a lease that this process holds. */
  ghost predicate OwnEntry(s: State, p: Pid, k: LeaseKey)
    requires k in s.store
  {
    exists l :: Holds(s, p, l) && l.key == k && l.token == s.store[k].token
  }

  /** Nobody waits for anybody: whatever phase it is in, and whether or not the account was busy, a process can
      be idle two commands later without the clock moving, with none of its entries left in the store and every
      other entry still there. */
  lemma NeverBlocked(s: State, p: Pid, ttl: Ttl) returns (steps: seq<Step>, s': State)
    requires Inv(s, ttl) && (PhaseOf(s, p).HoldingSource? || PhaseOf(s, p).HoldingBoth?)
    ensures Run(s, steps, s', ttl) && |steps| <= 2 && s'.now == s.now && PhaseOf(s', p).Idle?
    ensures forall l :: Holds(s, p, l) ==> !(Present(s', l.key) && s'.store[l.key].token == l.token)
    ensures forall q, m :: q != p ==> (Holds(s', q, m) <==> Holds(s, q, m))
    ensures forall k | k in s.store && !OwnEntry(s, p, k) :: k in s'.store && s'.store[k] == s.store[k]
  {
    assert WellNested(PhaseOf(s, p));
    if PhaseOf(s, p).HoldingSource? {
      steps := [ExitSource(p)];
      s' := Take(s, steps[0], ttl);
      assert Run(s', steps[1..], s', ttl);
    } else {
      steps := [ExitAccount(p), ExitSource(p)];
      var s1 := Take(s, steps[0], ttl);
      s' := Take(s1, steps[1], ttl);
      assert steps[1..] == [steps[1]] && [steps[1]][1..] == [];
      assert Run(s', [], s', ttl) && Run(s1, [steps[1]], s', ttl);
    }
  }

  /** A collection that finds its account busy: after it has left again, every reader of the store sees what it saw
      before, and only the token counter and the finished section tell of it. */
  lemma AccountBusyLeavesNoTrace(s: State, p: Pid, source: nat, account: nat, ttl: Ttl)
    returns (steps: seq<Step>, s': State)
    requires PhaseOf(s, p).Idle? && !Present(s, SourceKey(source)) && Present(s, AccountKey(account))
    ensures steps == [EnterSource(p, source), EnterAccount(p, account), ExitSource(p)] && Run(s, steps, s', ttl)
    ensures s'.now == s.now && s'.history == s.history + [Section(p, SourceKey(source), s.now, s.now)]
    ensures forall q :: PhaseOf(s', q) == PhaseOf(s, q)
    ensures forall k :: Present(s', k) <==> Present(s, k)
    ensures forall k :: Present(s, k) ==> k in s'.store && s'.store[k] == s.store[k]
  {
    steps := [EnterSource(p, source), EnterAccount(p, account), ExitSource(p)];
    var s1 := Take(s, steps[0], ttl);
    var s2 := Take(s1, steps[1], ttl);
    s' := Take(s2, steps[2], ttl);
    assert steps[1..] == [steps[1], steps[2]] && [steps[1], steps[2]][1..] == [steps[2]] && [steps[2]][1..] == [];
    assert Run(s', [], s', ttl) && Run(s2, [steps[2]], s', ttl) && Run(s1, [steps[1], steps[2]], s', ttl);
  }

  /** A crashed holder blocks its key for no longer than the TTL. */
  lemma NoEntryOutlivesItsTtl(s: State, k: LeaseKey, ttl: Ttl)
    requires Inv(s, ttl)
    ensures !PresentIn(s.store, s.now + TtlOf(k, ttl), k)
  {
    if Present(s, k) {
      var p, l :| Holds(s, p, l) && Owns(s, l, k, ttl);
      assert l.since <= s.now;
    }
  }

  /** A lease that is not given up, by a crashed holder for one, blocks its key exactly until its seconds are over:
      those of the source lease or those of the account lease, counted from when it was taken. */
  lemma BlocksExactlyForItsTtl(s: State, p: Pid, l: Lease, at: Seconds, ttl: Ttl)
    requires Inv(s, ttl) && Holds(s, p, l) && s.now <= at
    ensures var seconds := if l.key.SourceKey? then ttl.source else ttl.account;
            && (s.now < l.since + seconds ==> (PresentIn(s.store, at, l.key) <==> at < l.since + seconds))
            && (PresentIn(s.store, at, l.key) && s.store[l.key].token == l.token <==> at < l.since + seconds)
  {
    if PresentIn(s.store, at, l.key) && s.store[l.key].token == l.token {
      assert Present(s, l.key);
      var q, m :| Holds(s, q, m) && Owns(s, m, l.key, ttl);
      assert m == l;
    }
  }

  /** Over every interleaving, a process gets the lease it asks for exactly when nobody holds it unexpired: a holder
      that outlasts its TTL keeps nobody out. */
  lemma EntersIffNobodyHoldsUnexpired(s: State, q: Pid, source: nat, ttl: Ttl)
    requires Inv(s, ttl) && PhaseOf(s, q).Idle?
    ensures PhaseOf(Take(s, EnterSource(q, source), ttl), q).HoldingSource?
            <==> !exists p, l :: Holds(s, p, l) && l.key == SourceKey(source) && Unexpired(s, l, ttl)
  {
    if Present(s, SourceKey(source)) {
      var p, l :| Holds(s, p, l) && Owns(s, l, SourceKey(source), ttl);
    }
  }

  lemma {:induction false} TimePasses(s: State, n: nat, ttl: Ttl) returns (steps: seq<Step>)
    ensures Run(s, steps, s.(now := s.now + n), ttl)
    decreases n
  {
    if n == 0 {
      steps := [];
    } else {
      var rest := TimePasses(s.(now := s.now + 1), n - 1, ttl);
      steps := [Tick] + rest;
      assert steps[1..] == rest;
    }
  }

  lemma {:induction false} RunThen(s: State, steps: seq<Step>, m: State, last: Step, ttl: Ttl)
    requires Run(s, steps, m, ttl) && Enabled(m, last)
    ensures Run(s, steps + [last], Take(m, last, ttl), ttl)
    decreases |steps|
  {
    if steps == [] {
      assert steps + [last] == [last] && [last][1..] == [];
      assert Run(Take(m, last, ttl), [], Take(m, last, ttl), ttl);
    } else {
      assert (steps + [last])[1..] == steps[1..] + [last];
      RunThen(Take(s, steps[0], ttl), steps[1..], m, last, ttl);
    }
  }

  /** So, for every TTL, two processes work on one source at a time once the first has taken that long. */
  lemma LongSectionsOverlap(source: nat, ttl: Ttl) returns (s: State, steps: seq<Step>, s': State)
    ensures Initial(s) && Run(s, steps, s', ttl)
    ensures PhaseOf(s', 0).HoldingSource? && PhaseOf(s', 1).HoldingSource?
    ensures PhaseOf(s', 0).source.key == PhaseOf(s', 1).source.key == SourceKey(source)
    ensures s'.now - PhaseOf(s', 0).source.since == ttl.source
  {
    s := State(0, map[], map[], 0, []);
    var s1 := Take(s, EnterSource(0, source), ttl);
    var wait := TimePasses(s1, ttl.source, ttl);
    var s2 := s1.(now := s1.now + ttl.source);
    s' := Take(s2, EnterSource(1, source), ttl);
    RunThen(s1, wait, s2, EnterSource(1, source), ttl);
    steps := [EnterSource(0, source)] + (wait + [EnterSource(1, source)]);
    assert steps[1..] == wait + [EnterSource(1, source)];
  }

  // ---------- the lease objects ----------

  /** The part of Redis that leases use. */
  class RedisServer {
    var store: map<LeaseKey, Entry>
    var now: Seconds

    constructor ()
      ensures store == map[] && now == 0
    {
      store, now := map[], 0;
    }

    method Set(key: LeaseKey, token: Token, ex: nat) returns (ok: bool)
      modifies this`store
      ensures store == StoreSetNx(old(store), now, key, token, ex)
      ensures ok <==> !PresentIn(old(store), now, key)
    {
      ok := !(key in store && now < store[key].expiresAt);
      if ok {
        store := store[key := Entry(token, now + ex)];
      }
    }

    method EvalRelease(key: LeaseKey, token: Token) returns (removed: nat)
      modifies this`store
      ensures store == StoreRelease(old(store), now, key, token)
      ensures removed == if PresentIn(old(store), now, key) && old(store)[key].token == token then 1 else 0
    {
      if key in store && now < store[key].expiresAt && store[key].token == token {
        store := store - {key};
        return 1;
      }
      return 0;
    }

    method Elapse(seconds: nat)
      modifies this`now
      ensures now == old(now) + seconds
    {
      now := now + seconds;
    }
  }

  class RedisLease {
    const key: LeaseKey
    const token: Token
    const ttlSeconds: nat
    var acquired: bool

    constructor (key: LeaseKey, token: Token, ttlSeconds: nat)
      ensures this.key == key && this.token == token && this.ttlSeconds == ttlSeconds && !acquired
    {
      this.key, this.token, this.ttlSeconds, this.acquired := key, token, ttlSeconds, false;
    }

    method Enter(server: RedisServer) returns (ok: bool)
      modifies this`acquired, server`store
      ensures server.store == StoreSetNx(old(server.store), server.now, key, token, ttlSeconds)
      ensures ok == acquired == !PresentIn(old(server.store), server.now, key)
    {
      acquired := server.Set(key, token, ttlSeconds);
      ok := acquired;
    }

    method Exit(server: RedisServer)
      modifies server`store
      ensures server.store == if acquired then StoreRelease(old(server.store), server.now, key, token)
                              else old(server.store)
    {
      if acquired {
        var removed := server.EvalRelease(key, token);
      }
    }
  }

  lemma {:induction false} RunConcat(s: State, a: seq<Step>, m: State, b: seq<Step>, s': State, ttl: Ttl)
    requires Run(s, a, m, ttl) && Run(m, b, s', ttl)
    ensures Run(s, a + b, s', ttl)
    decreases |a|
  {
    if a == [] {
      assert a + b == b;
    } else {
      assert (a + b)[1..] == a[1..] + b;
      RunConcat(Take(s, a[0], ttl), a[1..], m, b, s', ttl);
    }
  }

  /** Some run of the protocol leads from one state to the other. */
  ghost predicate Leads(s: State, s': State, ttl: Ttl) {
    exists steps :: Run(s, steps, s', ttl)
  }

  lemma StaysThere(s: State, ttl: Ttl)
    ensures Leads(s, s, ttl)
  {
    assert Run(s, [], s, ttl);
  }

  lemma StepLeads(s: State, step: Step, ttl: Ttl) returns (s': State)
    requires Enabled(s, step)
    ensures s' == Take(s, step, ttl) && Leads(s, s', ttl)
  {
    s' := Take(s, step, ttl);
    assert Run(s', [step][1..], s', ttl);
    assert Run(s, [step], s', ttl);
  }

  lemma TimeLeads(s: State, n: nat, ttl: Ttl) returns (s': State)
    ensures s' == s.(now := s.now + n) && Leads(s, s', ttl)
  {
    s' := s.(now := s.now + n);
    var steps := TimePasses(s, n, ttl);
  }

  lemma LeadsThrough(s: State, m: State, s': State, ttl: Ttl)
    requires Leads(s, m, ttl) && Leads(m, s', ttl)
    ensures Leads(s, s', ttl)
  {
    var a, b :| Run(s, a, m, ttl) && Run(m, b, s', ttl);
    RunConcat(s, a, m, b, s', ttl);
  }

  datatype CollectionStatus = Locked | RateLimited | AccountBusy | Finished

  /** The sections that a collection leaves in the history: as long as the work when it finished. */
  function SectionsOf(status: CollectionStatus, p: Pid, source: nat, account: Option<nat>, from: Seconds, work: nat)
    : seq<Section>
  {
    match status
    case Locked => []
    case RateLimited => [Section(p, SourceKey(source), from, from)]
    case AccountBusy => [Section(p, SourceKey(source), from, from)]
    case Finished =>
      (if account.Some? then [Section(p, AccountKey(account.value), from, from + work)] else [])
      + [Section(p, SourceKey(source), from, from + work)]
  }

  /** The inner lease: what a collection does for its account while it holds its source. */
  method CollectForAccount(server: RedisServer, account: nat, work: nat, token: Token, ttl: Ttl,
                           ghost s: State, ghost p: Pid)
    returns (busy: bool, ghost s': State)
    requires s.store == server.store && s.now == server.now && PhaseOf(s, p).HoldingSource? && token == s.nextToken
    modifies server
    ensures busy <==> PresentIn(old(server.store), old(server.now), AccountKey(account))
    ensures busy ==> server.store == old(server.store) && server.now == old(server.now)
    ensures !busy ==> server.now == old(server.now) + work && !PresentIn(server.store, server.now, AccountKey(account))
    ensures forall k :: k != AccountKey(account) ==>
              (k in server.store <==> k in old(server.store))
              && (k in server.store ==> server.store[k] == old(server.store)[k])
    ensures Leads(s, s', ttl) && s'.store == server.store && s'.now == server.now
    ensures PhaseOf(s', p) == PhaseOf(s, p)
    ensures s'.history == if busy then s.history
                          else s.history + [Section(p, AccountKey(account), s.now, server.now)]
  {
    var lease := new RedisLease(AccountKey(account), token, ttl.account);
    var acquired := lease.Enter(server);
    s' := StepLeads(s, EnterAccount(p, account), ttl);
    if acquired {
      server.Elapse(work);
      ghost var held := s';
      ghost var worked := TimeLeads(held, work, ttl);
      LeadsThrough(s, held, worked, ttl);
      s' := StepLeads(worked, ExitAccount(p), ttl);
      LeadsThrough(s, worked, s', ttl);
    }
    lease.Exit(server);
    busy := !acquired;
  }

  /** What a collection does once it holds its source. */
  method CollectHoldingSource(server: RedisServer, account: Option<nat>, slot: bool, work: nat, token: Token, ttl: Ttl,
                              ghost s: State, ghost p: Pid)
    returns (status: CollectionStatus, ghost s': State)
    requires s.store == server.store && s.now == server.now && PhaseOf(s, p).HoldingSource? && token == s.nextToken
    modifies server
    ensures status == (if account.None? then Finished
                       else if !slot then RateLimited
                       else if PresentIn(old(server.store), old(server.now), AccountKey(account.value)) then AccountBusy
                       else Finished)
    ensures status != Finished ==> server.store == old(server.store)
    ensures status == Finished && account.Some? ==> !PresentIn(server.store, server.now, AccountKey(account.value))
    ensures forall k :: (account.Some? ==> k != AccountKey(account.value)) ==>
              (k in server.store <==> k in old(server.store))
              && (k in server.store ==> server.store[k] == old(server.store)[k])
    ensures Leads(s, s', ttl) && s'.store == server.store && s'.now == server.now
    ensures PhaseOf(s', p) == PhaseOf(s, p) && s'.now == s.now + (if status == Finished then work else 0)
    ensures s'.history == if status == Finished && account.Some?
                          then s.history + [Section(p, AccountKey(account.value), s.now, s'.now)] else s.history
  {
    if account.None? {
      server.Elapse(work);
      s' := TimeLeads(s, work, ttl);
      return Finished, s';
    }
    if !slot {
      StaysThere(s, ttl);
      return RateLimited, s;
    }
    var busy;
    busy, s' := CollectForAccount(server, account.value, work, token, ttl, s, p);
    status := if busy then AccountBusy else Finished;
  }

  /** The keys of these leases aside, the store is as it was. */
  ghost predicate SameExcept(before: map<LeaseKey, Entry>, after: map<LeaseKey, Entry>, source: nat,
                             account: Option<nat>) {
    forall k :: k != SourceKey(source) && (account.Some? ==> k != AccountKey(account.value)) ==>
      (k in after <==> k in before) && (k in after ==> after[k] == before[k])
  }

  /** What a collection leaves in the store: neither of the keys it took, and everything else as it was. */
  ghost predicate LeavesNothing(before: map<LeaseKey, Entry>, after: map<LeaseKey, Entry>, now: Seconds,
                                status: CollectionStatus, source: nat, account: Option<nat>) {
    && SameExcept(before, after, source, account)
    && (status == Locked ==> after == before)
    && (status != Locked ==> !PresentIn(after, now, SourceKey(source)))
    && (status == Finished && account.Some? ==> !PresentIn(after, now, AccountKey(account.value)))
    && (status != Finished && account.Some? && AccountKey(account.value) in before ==>
          AccountKey(account.value) in after
          && after[AccountKey(account.value)] == before[AccountKey(account.value)])
  }

  lemma NestedLeavesNothing(before: map<LeaseKey, Entry>, held: map<LeaseKey, Entry>, worked: map<LeaseKey, Entry>,
                            after: map<LeaseKey, Entry>, now: Seconds, status: CollectionStatus, source: nat,
                            account: Option<nat>, e: Entry)
    requires held == before[SourceKey(source) := e] && after == StoreRelease(worked, now, SourceKey(source), e.token)
    requires status != Locked && (status != Finished ==> worked == held)
    requires status == Finished && account.Some? ==> !PresentIn(worked, now, AccountKey(account.value))
    requires forall k :: (account.Some? ==> k != AccountKey(account.value)) ==>
               (k in worked <==> k in held) && (k in worked ==> worked[k] == held[k])
    ensures LeavesNothing(before, after, now, status, source, account)
  {
    assert SourceKey(source) in worked && worked[SourceKey(source)] == e;
  }

  lemma SectionsAddUp(before: seq<Section>, worked: seq<Section>, after: seq<Section>, status: CollectionStatus, p: Pid,
                      source: nat, account: Option<nat>, from: Seconds, work: nat)
    requires status != Locked
    requires var to := from + (if status == Finished then work else 0);
             && after == worked + [Section(p, SourceKey(source), from, to)]
             && worked == if status == Finished && account.Some?
                          then before + [Section(p, AccountKey(account.value), from, to)] else before
    ensures after == before + SectionsOf(status, p, source, account, from, work)
  {
  }

  /** The nesting of one collection, alone on the server: `work` is how long collecting takes, `slot` what the
      request budget says, and an account is missing when the default session is used. It is a run of process `p` in
      the protocol above and, whatever way it ends and even if its leases ran out meanwhile, leaves neither key
      behind and touches no other. */
  method CollectSourceMessages(server: RedisServer, source: nat, account: Option<nat>, slot: bool, work: nat,
                               tokens: (Token, Token), ttl: Ttl, ghost s: State, ghost p: Pid)
    returns (status: CollectionStatus, ghost s': State)
    requires s.store == server.store && s.now == server.now && PhaseOf(s, p).Idle?
    requires tokens == (s.nextToken, s.nextToken + 1)
    modifies server
    ensures Leads(s, s', ttl) && s'.store == server.store && s'.now == server.now && PhaseOf(s', p).Idle?
    ensures s'.history == s.history + SectionsOf(status, p, source, account, s.now, work)
    ensures status == (if PresentIn(old(server.store), old(server.now), SourceKey(source)) then Locked
                       else if account.None? then Finished
                       else if !slot then RateLimited
                       else if PresentIn(old(server.store), old(server.now), AccountKey(account.value)) then AccountBusy
                       else Finished)
    ensures LeavesNothing(old(server.store), server.store, server.now, status, source, account)
  {
    var lease := new RedisLease(SourceKey(source), tokens.0, ttl.source);
    var acquired := lease.Enter(server);
    ghost var held := StepLeads(s, EnterSource(p, source), ttl);
    if !acquired {
      return Locked, held;
    }
    ghost var worked;
    status, worked := CollectHoldingSource(server, account, slot, work, tokens.1, ttl, held, p);
    lease.Exit(server);
    s' := StepLeads(worked, ExitSource(p), ttl);
    LeadsThrough(s, held, worked, ttl);
    LeadsThrough(s, worked, s', ttl);
    SectionsAddUp(s.history, worked.history, s'.history, status, p, source, account, s.now, work);
    NestedLeavesNothing(s.store, held.store, worked.store, s'.store, s'.now, status, source, account,
                        held.store[SourceKey(source)]);
  }
}
