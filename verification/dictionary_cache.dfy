/** The keyword dictionary cache (app/services/dictionaries.py) and its writers (app/services/keywords.py):
    every interleaving of commits, invalidations that may be lost, and readers that miss, load and store. */
module DictionaryCache {
  import opened Wrappers
  import opened Instants

  type Pid = nat

  datatype Kind = Positive | Negative

  datatype Rule = Rule(id: nat, phrase: string, lang: string, weight: int, category: Option<string>, isRegex: bool)

  type Content = seq<Rule>

  /** The enabled rules from some moment on, until the next version. */
  datatype Version = Version(from: Seconds, content: Content)

  /** A cached list, with when it had been read from the database and when it was stored. */
  datatype Entry = Entry(content: Content, loadedAt: Seconds, storedAt: Seconds)

  datatype Phase = Idle | Missed | Loaded(content: Content, at: Seconds)

  /** A rule list handed to a caller, and how old the entry behind it is. */
  datatype Served = Served(at: Seconds, content: Content, loadedAt: Seconds, storedAt: Seconds)

  datatype State = State(
    now: Seconds, versions: seq<Version>, cache: Option<Entry>, readers: map<Pid, Phase>, served: seq<Served>)

  datatype Step =
    | Tick
    | Commit(content: Content)
    | Invalidate
    | Hit(p: Pid)
    | Miss(p: Pid)
    | Load(p: Pid)
    | Store(p: Pid)

  predicate Present(s: State, ttl: nat) {
    s.cache.Some? && s.now < s.cache.value.storedAt + ttl
  }

  function PhaseOf(s: State, p: Pid): Phase {
    if p in s.readers then s.readers[p] else Idle
  }

  function Db(s: State): Content
    requires s.versions != []
  {
    s.versions[|s.versions| - 1].content
  }

  predicate Enabled(s: State, step: Step, ttl: nat) {
    match step
    case Hit(p) => PhaseOf(s, p).Idle? && Present(s, ttl)
    case Miss(p) => PhaseOf(s, p).Idle? && !Present(s, ttl)
    case Load(p) => PhaseOf(s, p).Missed? && s.versions != []
    case Store(p) => PhaseOf(s, p).Loaded?
    case _ => true
  }

  /** Reads of the cache, of the database and the write back are separate steps; a lost invalidation is one
      that never happens. */
  function Take(s: State, step: Step, ttl: nat): State
    requires Enabled(s, step, ttl)
  {
    match step
    case Tick => s.(now := s.now + 1)
    case Commit(content) => s.(versions := s.versions + [Version(s.now, content)])
    case Invalidate => s.(cache := None)
    case Hit(p) =>
      var e := s.cache.value;
      s.(served := s.served + [Served(s.now, e.content, e.loadedAt, e.storedAt)])
    case Miss(p) => s.(readers := s.readers[p := Missed])
    case Load(p) => s.(readers := s.readers[p := Loaded(Db(s), s.now)])
    case Store(p) =>
      var Loaded(content, at) := PhaseOf(s, p);
      s.(cache := Some(Entry(content, at, s.now)), readers := s.readers[p := Idle],
         served := s.served + [Served(s.now, content, at, s.now)])
  }

  ghost predicate Run(s: State, steps: seq<Step>, s': State, ttl: nat)
    decreases |steps|
  {
    if steps == [] then s' == s
    else Enabled(s, steps[0], ttl) && Run(Take(s, steps[0], ttl), steps[1..], s', ttl)
  }

  predicate Initial(s: State) {
    |s.versions| == 1 && s.versions[0].from <= s.now && s.cache.None? && s.readers == map[] && s.served == []
  }

  // ---------- bounded staleness ----------

  /** The database held exactly these rules at this instant. */
  predicate HeldAt(versions: seq<Version>, content: Content, at: Seconds) {
    exists i :: 0 <= i < |versions| && VersionHolds(versions, i, content, at)
  }

  predicate VersionHolds(versions: seq<Version>, i: nat, content: Content, at: Seconds)
    requires i < |versions|
  {
    versions[i].content == content && versions[i].from <= at && (i + 1 < |versions| ==> at <= versions[i + 1].from)
  }

  predicate Inv(s: State, ttl: nat) {
    && s.versions != [] && (forall i :: 0 <= i < |s.versions| ==> s.versions[i].from <= s.now)
    && (s.cache.Some? ==>
          && s.cache.value.loadedAt <= s.cache.value.storedAt <= s.now
          && HeldAt(s.versions, s.cache.value.content, s.cache.value.loadedAt))
    && (forall p :: p in s.readers && s.readers[p].Loaded? ==>
          s.readers[p].at <= s.now && HeldAt(s.versions, s.readers[p].content, s.readers[p].at))
    && (forall k :: 0 <= k < |s.served| ==> ServedOk(s, s.served[k], ttl))
  }

  predicate ServedOk(s: State, e: Served, ttl: nat) {
    && e.loadedAt <= e.storedAt <= e.at <= e.storedAt + ttl && e.at <= s.now
    && HeldAt(s.versions, e.content, e.loadedAt)
  }

  lemma HeldAtSurvivesCommit(versions: seq<Version>, v: Version, content: Content, at: Seconds)
    requires HeldAt(versions, content, at) && at <= v.from
    ensures HeldAt(versions + [v], content, at)
  {
    var i :| 0 <= i < |versions| && VersionHolds(versions, i, content, at);
    assert VersionHolds(versions + [v], i, content, at);
  }

  lemma StepKeepsInv(s: State, step: Step, ttl: nat)
    requires Inv(s, ttl) && Enabled(s, step, ttl)
    ensures Inv(Take(s, step, ttl), ttl)
  {
    var s' := Take(s, step, ttl);
    match step
    case Commit(content) =>
      var v := Version(s.now, content);
      if s.cache.Some? {
        HeldAtSurvivesCommit(s.versions, v, s.cache.value.content, s.cache.value.loadedAt);
      }
      forall p | p in s.readers && s.readers[p].Loaded?
        ensures HeldAt(s'.versions, s.readers[p].content, s.readers[p].at)
      {
        HeldAtSurvivesCommit(s.versions, v, s.readers[p].content, s.readers[p].at);
      }
      forall k | 0 <= k < |s.served| ensures ServedOk(s', s.served[k], ttl) {
        assert ServedOk(s, s.served[k], ttl);
        HeldAtSurvivesCommit(s.versions, v, s.served[k].content, s.served[k].loadedAt);
      }
    case Load(p) =>
      assert VersionHolds(s.versions, |s.versions| - 1, Db(s), s.now);
      ServedUnaffected(s, s', ttl);
    case Hit(p) => ServedUnaffected(s, s', ttl);
    case Store(p) => ServedUnaffected(s, s', ttl);
    case _ => ServedUnaffected(s, s', ttl);
  }

  lemma ServedUnaffected(s: State, s': State, ttl: nat)
    requires Inv(s, ttl) && s'.versions == s.versions && s.served <= s'.served && s.now <= s'.now
    ensures forall k :: 0 <= k < |s.served| ==> ServedOk(s', s'.served[k], ttl)
  {
    forall k | 0 <= k < |s.served| ensures ServedOk(s', s'.served[k], ttl) {
      assert ServedOk(s, s.served[k], ttl);
    }
  }

  lemma {:induction false} RunsKeepInv(s: State, steps: seq<Step>, s': State, ttl: nat)
    requires Inv(s, ttl) && Run(s, steps, s', ttl)
    ensures Inv(s', ttl)
    decreases |steps|
  {
    if steps == [] {
    } else {
      StepKeepsInv(s, steps[0], ttl);
      RunsKeepInv(Take(s, steps[0], ttl), steps[1..], s', ttl);
    }
  }

  /** Over every interleaving, and whichever invalidations are lost: a list served at time t is what the database
      held at an instant at most TTL plus the load-to-store gap of the reader that cached it before t. */
  lemma BoundedStaleness(s: State, steps: seq<Step>, s': State, ttl: nat, k: nat)
    requires Initial(s) && Run(s, steps, s', ttl) && k < |s'.served|
    ensures var e := s'.served[k];
            exists at: Seconds :: at <= e.at <= at + ttl + (e.storedAt - e.loadedAt)
                                  && HeldAt(s'.versions, e.content, at)
  {
    RunsKeepInv(s, steps, s', ttl);
    assert ServedOk(s', s'.served[k], ttl);
  }

  /** What a reader stores is served again exactly until its seconds are over, and then read anew. */
  lemma StoredIsServedForTtl(s: State, p: Pid, q: Pid, n: nat, ttl: nat)
    requires PhaseOf(s, p).Loaded? && PhaseOf(Take(s, Store(p), ttl), q).Idle?
    ensures var s' := Take(s, Store(p), ttl).(now := s.now + n);
            && (Enabled(s', Hit(q), ttl) <==> n < ttl) && (Enabled(s', Miss(q), ttl) <==> n >= ttl)
            && (n < ttl ==>
                  var served := Take(s', Hit(q), ttl).served;
                  served == s'.served + [Served(s.now + n, s.readers[p].content, s.readers[p].at, s.now)])
  {
  }

  // ---------- when an invalidation is enough ----------

  predicate NoCommit(steps: seq<Step>) {
    forall k :: 0 <= k < |steps| ==> !steps[k].Commit?
  }

  /** Neither the cache nor a reader on its way to it has anything but the current rules. */
  predicate Fresh(s: State, ttl: nat) {
    && s.versions != []
    && (Present(s, ttl) ==> s.cache.value.content == Db(s))
    && (forall p :: p in s.readers && s.readers[p].Loaded? ==> s.readers[p].content == Db(s))
  }

  lemma {:induction false} FreshStaysFresh(s: State, steps: seq<Step>, s': State, ttl: nat)
    requires Fresh(s, ttl) && Run(s, steps, s', ttl) && NoCommit(steps)
    ensures Fresh(s', ttl) && s'.versions == s.versions && s.served <= s'.served
    ensures forall k :: |s.served| <= k < |s'.served| ==> s'.served[k].content == Db(s)
    decreases |steps|
  {
    if steps == [] {
    } else {
      var s1 := Take(s, steps[0], ttl);
      assert Fresh(s1, ttl) && s1.versions == s.versions;
      FreshStaysFresh(s1, steps[1..], s', ttl);
    }
  }

  lemma StaleGetsServed(s: State, p: Pid, ttl: nat) returns (steps: seq<Step>, s': State)
    requires !Fresh(s, ttl) && s.versions != [] && PhaseOf(s, p).Idle?
    ensures Run(s, steps, s', ttl) && NoCommit(steps) && s.served <= s'.served
    ensures |s'.served| > |s.served| && s'.served[|s.served|].content != Db(s)
  {
    if Present(s, ttl) && s.cache.value.content != Db(s) {
      steps := [Hit(p)];
    } else {
      var q :| q in s.readers && s.readers[q].Loaded? && s.readers[q].content != Db(s);
      steps := [Store(q)];
    }
    s' := Take(s, steps[0], ttl);
    assert Run(s', steps[1..], s', ttl);
  }

  /** Until the next commit every list served is current exactly when, to begin with, neither the cache nor a
      loading reader holds an older one. In particular an invalidation is not enough while a reader that loaded
      before the commit has yet to store. */
  lemma ServesOnlyCurrentIffFresh(s: State, p: Pid, ttl: nat)
    requires s.versions != [] && PhaseOf(s, p).Idle?
    ensures Fresh(s, ttl) <==>
            forall steps, s', k | Run(s, steps, s', ttl) && NoCommit(steps) && |s.served| <= k < |s'.served| ::
              s'.served[k].content == Db(s)
  {
    if Fresh(s, ttl) {
      forall steps, s', k | Run(s, steps, s', ttl) && NoCommit(steps) && |s.served| <= k < |s'.served|
        ensures s'.served[k].content == Db(s)
      {
        FreshStaysFresh(s, steps, s', ttl);
      }
    } else {
      var steps, s' := StaleGetsServed(s, p, ttl);
      var k := |s.served|;
      assert Run(s, steps, s', ttl) && NoCommit(steps) && |s.served| <= k < |s'.served|;
    }
  }

  /** After a commit and its invalidation: fresh exactly when no reader is holding older rules. */
  lemma AfterInvalidation(s: State, content: Content, ttl: nat)
    requires s.versions != []
    ensures var s' := Take(Take(s, Commit(content), ttl), Invalidate, ttl);
            Fresh(s', ttl) <==> forall p :: p in s.readers && s.readers[p].Loaded? ==> s.readers[p].content == content
  {
  }

  // ---------- one read and one write ----------

  lemma {:induction false} RunConcat(s: State, a: seq<Step>, m: State, b: seq<Step>, s': State, ttl: nat)
    requires Run(s, a, m, ttl) && Run(m, b, s', ttl)
    ensures Run(s, a + b, s', ttl)
    decreases |a|
  {
    if a == [] {
      assert a + b == b;
    } else {
      assert (a + b)[1..] == a[1..] + b;
      RunConcat(Take(s, a[0], ttl), a[1..], m, b, s', ttl);
    }
  }

  lemma {:induction false} TimePasses(s: State, n: nat, ttl: nat) returns (steps: seq<Step>)
    ensures Run(s, steps, s.(now := s.now + n), ttl)
    decreases n
  {
    if n == 0 {
      steps := [];
    } else {
      var rest := TimePasses(s.(now := s.now + 1), n - 1, ttl);
      steps := [Tick] + rest;
      assert steps[1..] == rest;
    }
  }

  lemma HitServes(s: State, p: Pid, ttl: nat) returns (steps: seq<Step>, s': State)
    requires PhaseOf(s, p).Idle? && Present(s, ttl)
    ensures Run(s, steps, s', ttl)
    ensures var e := s.cache.value;
            s' == s.(served := s.served + [Served(s.now, e.content, e.loadedAt, e.storedAt)])
  {
    steps, s' := [Hit(p)], Take(s, Hit(p), ttl);
    assert Run(s', steps[1..], s', ttl);
  }

  lemma MissLoadsAndStores(s: State, p: Pid, delay: nat, ttl: nat) returns (steps: seq<Step>, s': State)
    requires PhaseOf(s, p).Idle? && !Present(s, ttl) && s.versions != []
    ensures Run(s, steps, s', ttl)
    ensures var stored := s.now + delay;
            s' == s.(now := stored, cache := Some(Entry(Db(s), s.now, stored)), readers := s.readers[p := Idle],
                     served := s.served + [Served(stored, Db(s), s.now, stored)])
  {
    var s1 := Take(s, Miss(p), ttl);
    var s2 := Take(s1, Load(p), ttl);
    var wait := TimePasses(s2, delay, ttl);
    var s3 := s2.(now := s2.now + delay);
    s' := Take(s3, Store(p), ttl);
    assert [Store(p)][1..] == [] && Run(s', [], s', ttl);
    RunConcat(s2, wait, s3, [Store(p)], s', ttl);
    var rest := wait + [Store(p)];
    steps := [Miss(p), Load(p)] + rest;
    assert steps[1..] == [Load(p)] + rest && ([Load(p)] + rest)[1..] == rest;
    assert Run(s1, [Load(p)] + rest, s', ttl);
    assert s'.readers == s.readers[p := Idle];
  }

  // ---------- the services ----------

  function Other(kind: Kind): Kind {
    match kind
    case Positive => Negative
    case Negative => Positive
  }

  datatype WriteResult = Written | DuplicateKeyword

  class Dictionaries {
    const ttl: nat
    var now: Seconds
    var db: map<Kind, Content>
    var cache: map<Kind, Entry>

    constructor (ttl: nat, positive: Content, negative: Content)
      ensures this.ttl == ttl && now == 0 && cache == map[]
      ensures db == map[Positive := positive, Negative := negative]
    {
      this.ttl := ttl;
      now, cache := 0, map[];
      db := map[Positive := positive, Negative := negative];
    }

    predicate Valid()
      reads this
    {
      Positive in db && Negative in db
    }

    /** For rules of this kind the tables are those of the model. */
    ghost predicate Shows(kind: Kind, s: State)
      reads this
    {
      && kind in db && s.now == now && s.versions != [] && Db(s) == db[kind]
      && s.cache == if kind in cache then Some(cache[kind]) else None
    }

    function Cached(kind: Kind): Option<Entry>
      reads this
    {
      if kind in cache && now < cache[kind].storedAt + ttl then Some(cache[kind]) else None
    }

    method LoadCachedRules(kind: Kind) returns (rules: Option<Content>)
      ensures rules == if Cached(kind).Some? then Some(Cached(kind).value.content) else None
    {
      if kind !in cache || now >= cache[kind].storedAt + ttl {
        return None;
      }
      return Some(cache[kind].content);
    }

    method CacheRules(kind: Kind, rules: Content, loadedAt: Seconds)
      modifies this`cache
      ensures cache == old(cache)[kind := Entry(rules, loadedAt, now)]
    {
      cache := cache[kind := Entry(rules, loadedAt, now)];
    }

    /** Both kinds are dropped together; a Redis failure is swallowed and drops nothing. */
    method InvalidateDictionaryCache(redisDown: bool)
      modifies this`cache
      ensures cache == if redisDown then old(cache) else map[]
    {
      if redisDown {
        return;
      }
      cache := cache - {Positive, Negative};
      assert forall k :: k !in cache by {
        forall k: Kind ensures k !in cache { assert k == Positive || k == Negative; }
      }
    }

    /** A read: the cached list while there is one, else the database's, which is cached for next time. `delay`
        passes between loading and storing. It is a run of the model, and the list it returns is what that run
        serves, so no older than the bound on staleness. */
    method LoadKeywordRules(kind: Kind, delay: nat, ghost s: State, ghost p: Pid)
      returns (rules: Content, ghost steps: seq<Step>, ghost s': State)
      requires Valid() && Shows(kind, s) && Inv(s, ttl) && PhaseOf(s, p).Idle?
      modifies this`cache, this`now
      ensures db == old(db) && Valid()
      ensures rules == if old(Cached(kind)).Some? then old(Cached(kind)).value.content else db[kind]
      ensures old(Cached(kind)).Some? ==> cache == old(cache) && now == old(now)
      ensures old(Cached(kind)).None? ==>
                now == old(now) + delay && cache == old(cache)[kind := Entry(db[kind], old(now), now)]
      ensures Run(s, steps, s', ttl) && Shows(kind, s') && Inv(s', ttl) && PhaseOf(s', p).Idle?
      ensures |s'.served| == |s.served| + 1 && s'.served[|s.served|].at == now && s'.served[|s.served|].content == rules
      ensures ServedOk(s', s'.served[|s.served|], ttl)
    {
      var cached := LoadCachedRules(kind);
      if cached.Some? {
        rules := cached.value;
        steps, s' := HitServes(s, p, ttl);
      } else {
        rules := db[kind];
        var loadedAt := now;
        now := now + delay;
        CacheRules(kind, rules, loadedAt);
        steps, s' := MissLoadsAndStores(s, p, delay, ttl);
      }
      RunsKeepInv(s, steps, s', ttl);
    }

    /** A write: a rejected commit changes nothing and leaves the cache alone. Otherwise it is a commit of its kind
        in the model and, unless Redis is down, an invalidation of both kinds. */
    method CommitDictionaryChange(kind: Kind, content: Content, duplicate: bool, redisDown: bool,
                                  ghost s: State, ghost other: State)
      returns (result: WriteResult)
      requires Valid() && Shows(kind, s) && Shows(Other(kind), other)
      modifies this`db, this`cache
      ensures Valid()
      ensures result == if duplicate then DuplicateKeyword else Written
      ensures var committed := if duplicate then s else Take(s, Commit(content), ttl);
              if duplicate || redisDown then Shows(kind, committed) && Shows(Other(kind), other)
              else Shows(kind, Take(committed, Invalidate, ttl)) && Shows(Other(kind), Take(other, Invalidate, ttl))
      ensures now == old(now) && (duplicate ==> db == old(db) && cache == old(cache))
    {
      if duplicate {
        return DuplicateKeyword;
      }
      db := db[kind := content];
      InvalidateDictionaryCache(redisDown);
      return Written;
    }
  }
}
