/** Duplicate grouping over whole runs, and the service that performs it (app/services/deduplication.py). */
module DeduplicationRuns {
  import opened Wrappers
  import opened Instants
  import opened Sequences
  import opened Deduplication

  /** An order arrives without a group, or a detection runs. */
  datatype Step =
    | Arrive(id: OrderId, order: Order)
    | Detection(id: OrderId, windowStart: Time, answer: seq<OrderId>, newId: GroupId)

  ghost predicate Enabled(s: Store, step: Step) {
    match step
    case Arrive(id, o) => id !in s.orders && o.groupId.None? && o.stored.None?
    case Detection(id, windowStart, answer, newId) => DetectEnabled(s, id, windowStart, answer, newId)
  }

  ghost function Take(s: Store, step: Step): Store
    requires Enabled(s, step)
  {
    match step
    case Arrive(id, o) => s.(orders := s.orders[id := o])
    case Detection(id, windowStart, answer, newId) =>
      AnswerIsPresent(s, id, windowStart, answer);
      Detect(s, id, answer, newId)
  }

  // ---------- matching as an equivalence ----------

  /** Equal contents have equal fingerprints; texts that differ may share a fingerprint. */
  ghost predicate Alike(orders: map<OrderId, Order>) {
    forall x, y | x in orders && y in orders && HasHash(orders[x]) && orders[x].contentHash == orders[y].contentHash ::
      orders[x].fingerprint == orders[y].fingerprint
  }

  ghost predicate AllInWindow(orders: map<OrderId, Order>, windowStart: Time) {
    forall x :: x in orders ==> orders[x].publishedAt >= windowStart
  }

  function Class(orders: map<OrderId, Order>, id: OrderId): set<OrderId>
    requires id in orders
  {
    set x | x in orders && orders[x].fingerprint == orders[id].fingerprint
  }

  /** What a detection for `id` can see of another order of its class: a saved fingerprint, or the same contents. */
  predicate Visible(orders: map<OrderId, Order>, id: OrderId, x: OrderId)
    requires id in orders && x in orders
  {
    x == id || orders[x].stored.Some? || (HasHash(orders[id]) && orders[x].contentHash == orders[id].contentHash)
  }

  function VisibleClass(orders: map<OrderId, Order>, id: OrderId): set<OrderId>
    requires id in orders
  {
    set x | x in Class(orders, id) && Visible(orders, id, x)
  }

  /** No order of the class that is already in a group is out of sight. */
  ghost predicate GroupedAreVisible(orders: map<OrderId, Order>, id: OrderId)
    requires id in orders
  {
    forall x | x in Class(orders, id) && orders[x].groupId.Some? :: Visible(orders, id, x)
  }

  /** Conditions on the inputs of a run: equal contents keep equal fingerprints, no order falls out of the window,
      and a detection can see the grouped orders of its class. */
  ghost predicate Admissible(s: Store, step: Step)
    requires Enabled(s, step)
  {
    && Alike(Take(s, step).orders)
    && (step.Detection? ==> AllInWindow(s.orders, step.windowStart) && GroupedAreVisible(s.orders, step.id))
  }

  ghost predicate Steps(s: Store, steps: seq<Step>, s': Store)
    decreases |steps|
  {
    if steps == [] then s' == s
    else
      var n := |steps| - 1;
      exists m :: Steps(s, steps[..n], m) && Enabled(m, steps[n]) && Admissible(m, steps[n]) && s' == Take(m, steps[n])
  }

  ghost predicate OwnFingerprint(orders: map<OrderId, Order>) {
    forall x :: x in orders ==> orders[x].stored.None? || orders[x].stored == Some(orders[x].fingerprint)
  }

  ghost predicate GroupsAreClasses(orders: map<OrderId, Order>) {
    forall x, y :: x in orders && y in orders && orders[x].groupId.Some? && orders[y].groupId.Some? ==>
      (orders[x].groupId == orders[y].groupId <==> orders[x].fingerprint == orders[y].fingerprint)
  }

  /** Sizes and canonical orders are right; a group lies in one class and a class has at most one group. */
  ghost predicate Grouped(s: Store) {
    Consistent(s) && Alike(s.orders) && OwnFingerprint(s.orders) && GroupsAreClasses(s.orders)
  }

  /** The candidates are what is visible of the class: all of it once each other order has been looked at itself
      or repeats the contents. */
  lemma CandidatesAreTheClass(s: Store, id: OrderId, windowStart: Time, answer: seq<OrderId>)
    requires Grouped(s) && id in s.orders && IsAnswer(s.orders, id, windowStart, answer)
    requires AllInWindow(s.orders, windowStart)
    ensures Elements(WithSelf(answer, id)) == VisibleClass(s.orders, id)
    ensures (forall x :: x in Class(s.orders, id) ==> Visible(s.orders, id, x))
            <==> Elements(WithSelf(answer, id)) == Class(s.orders, id)
  {
    var orders := SaveFingerprint(s.orders, id);
    assert Found(orders, id, windowStart) == VisibleClass(s.orders, id) by {
      forall x ensures x in Found(orders, id, windowStart) <==> x in VisibleClass(s.orders, id) {
        if x in s.orders && x != id {
          assert orders[x] == s.orders[x];
        }
      }
    }
    assert id in Elements(answer);
    assert WithSelf(answer, id) == answer;
    assert VisibleClass(s.orders, id) <= Class(s.orders, id);
  }

  lemma ArrivalKeepsGrouped(s: Store, id: OrderId, o: Order)
    requires Grouped(s) && Enabled(s, Arrive(id, o)) && Admissible(s, Arrive(id, o))
    ensures Grouped(Take(s, Arrive(id, o)))
  {
    var s' := Take(s, Arrive(id, o));
    forall g ensures GroupOk(s', g) {
      assert GroupOk(s, g);
      assert Members(s', g) == Members(s, g);
    }
  }

  lemma DetectionKeepsGrouped(s: Store, id: OrderId, windowStart: Time, answer: seq<OrderId>, newId: GroupId)
    requires Grouped(s) && Enabled(s, Detection(id, windowStart, answer, newId))
    requires Admissible(s, Detection(id, windowStart, answer, newId))
    ensures Grouped(Take(s, Detection(id, windowStart, answer, newId)))
  {
    var rows := WithSelf(answer, id);
    AnswerIsPresent(s, id, windowStart, answer);
    CandidatesAreTheClass(s, id, windowStart, answer);
    RowsAreVisible(s, id, rows);
    assert Closed(s, rows);
    DetectionIsConsistentIffClosed(s, id, windowStart, answer, newId);
    DetectionKeepsClasses(s, id, windowStart, answer, newId);
  }

  lemma RowsAreVisible(s: Store, id: OrderId, rows: seq<OrderId>)
    requires id in s.orders && Elements(rows) == VisibleClass(s.orders, id) && GroupedAreVisible(s.orders, id)
    ensures GroupedCandidates(s.orders, id, rows)
  {
    forall x ensures x in rows <==> x in VisibleClass(s.orders, id) {
      assert x in rows <==> x in Elements(rows);
    }
  }

  /** The candidates lie in the class and include the order itself and all that is grouped. */
  ghost predicate GroupedCandidates(orders: map<OrderId, Order>, id: OrderId, rows: seq<OrderId>)
    requires id in orders
  {
    && id in rows && (forall x :: x in rows ==> x in Class(orders, id))
    && (forall x | x in Class(orders, id) && orders[x].groupId.Some? :: x in rows)
  }

  /** A detection with several candidates keeps the groups right exactly when it sees every grouped order of its
      class, one with a single candidate exactly when the order shares no group with another. */
  lemma DetectionKeepsGroupedIff(s: Store, id: OrderId, windowStart: Time, answer: seq<OrderId>, newId: GroupId)
    requires Grouped(s) && DetectEnabled(s, id, windowStart, answer, newId) && AllInWindow(s.orders, windowStart)
    requires forall x :: x in answer ==> x in s.orders
    ensures Grouped(Detect(s, id, answer, newId))
            <==> if |WithSelf(answer, id)| > 1 then GroupedAreVisible(s.orders, id)
                 else forall x :: x in s.orders && SameGroup(s, id, x) ==> x == id
  {
    if |WithSelf(answer, id)| > 1 {
      SeveralKeepGroupedIff(s, id, windowStart, answer, newId);
    } else {
      LoneKeepsGroupedIff(s, id, windowStart, answer, newId);
    }
  }

  lemma LoneKeepsGroupedIff(s: Store, id: OrderId, windowStart: Time, answer: seq<OrderId>, newId: GroupId)
    requires Grouped(s) && DetectEnabled(s, id, windowStart, answer, newId)
    requires (forall x :: x in answer ==> x in s.orders) && |WithSelf(answer, id)| == 1
    ensures Grouped(Detect(s, id, answer, newId)) <==> forall x :: x in s.orders && SameGroup(s, id, x) ==> x == id
  {
    var rows := WithSelf(answer, id);
    assert rows == [id];
    DetectionIsConsistentIffClosed(s, id, windowStart, answer, newId);
    DetectMoves(s, id, answer, newId);
    DetectKeepsHashes(s, id, answer, newId);
  }

  lemma SeveralKeepGroupedIff(s: Store, id: OrderId, windowStart: Time, answer: seq<OrderId>, newId: GroupId)
    requires Grouped(s) && DetectEnabled(s, id, windowStart, answer, newId) && AllInWindow(s.orders, windowStart)
    requires (forall x :: x in answer ==> x in s.orders) && |WithSelf(answer, id)| > 1
    ensures Grouped(Detect(s, id, answer, newId)) <==> GroupedAreVisible(s.orders, id)
  {
    var rows, s' := WithSelf(answer, id), Detect(s, id, answer, newId);
    AnswerIsPresent(s, id, windowStart, answer);
    CandidatesAreTheClass(s, id, windowStart, answer);
    DetectionIsConsistentIffClosed(s, id, windowStart, answer, newId);
    DetectMoves(s, id, answer, newId);
    if GroupedAreVisible(s.orders, id) {
      RowsAreVisible(s, id, rows);
      assert Closed(s, rows);
      DetectionKeepsClasses(s, id, windowStart, answer, newId);
      DetectKeepsHashes(s, id, answer, newId);
    } else {
      var x :| x in Class(s.orders, id) && s.orders[x].groupId.Some? && !Visible(s.orders, id, x);
      assert x !in Elements(rows) && id in rows;
      MissedBreaks(s, id, windowStart, answer, newId, x);
    }
  }

  lemma DetectKeepsHashes(s: Store, id: OrderId, answer: seq<OrderId>, newId: GroupId)
    requires id in s.orders && Alike(s.orders) && forall x :: x in answer ==> x in s.orders
    ensures Alike(Detect(s, id, answer, newId).orders)
  {
  }

  lemma MissedBreaks(s: Store, id: OrderId, windowStart: Time, answer: seq<OrderId>, newId: GroupId, x: OrderId)
    requires Grouped(s) && DetectEnabled(s, id, windowStart, answer, newId)
    requires (forall y :: y in answer ==> y in s.orders) && |WithSelf(answer, id)| > 1
    requires x in Class(s.orders, id) && s.orders[x].groupId.Some? && x !in WithSelf(answer, id)
    ensures !Grouped(Detect(s, id, answer, newId))
  {
    var rows, s' := WithSelf(answer, id), Detect(s, id, answer, newId);
    var g := TargetGroup(s, rows, newId);
    DetectMoves(s, id, answer, newId);
    assert s'.orders[id].groupId == Some(g) && s'.orders[x].groupId == s.orders[x].groupId;
    if s.orders[x].groupId == Some(g) {
      // The group that `id` joins keeps a member that was not counted.
      TargetIsNewOrTouched(s, rows, newId);
      assert x in Members(s, g);
      var y :| y in Members(s, g) * Elements(rows);
      assert y in rows && SameGroup(s, y, x);
      DetectionIsConsistentIffClosed(s, id, windowStart, answer, newId);
    } else {
      assert s'.orders[x].fingerprint == s'.orders[id].fingerprint;
      assert !GroupsAreClasses(s'.orders);
    }
  }

  /** A detection moves its candidates to one group, or its only candidate out of any, and saves one fingerprint. */
  ghost predicate Moves(orders: map<OrderId, Order>, orders': map<OrderId, Order>, id: OrderId, rows: seq<OrderId>,
                        g: Option<GroupId>) {
    && orders'.Keys == orders.Keys
    && forall x :: x in orders ==>
         && orders'[x].fingerprint == orders[x].fingerprint
         && orders'[x].stored == (if x == id then Some(orders[x].fingerprint) else orders[x].stored)
         && orders'[x].groupId == (if x in rows then g else orders[x].groupId)
  }

  lemma DetectMoves(s: Store, id: OrderId, answer: seq<OrderId>, newId: GroupId)
    requires id in s.orders && forall x :: x in answer ==> x in s.orders
    ensures var rows := WithSelf(answer, id);
            Moves(s.orders, Detect(s, id, answer, newId).orders, id, rows,
                  if |rows| <= 1 then None else Some(TargetGroup(s, rows, newId)))
  {
    if |WithSelf(answer, id)| <= 1 {
      assert WithSelf(answer, id) == [id];
    }
  }

  lemma MovesKeepClasses(orders: map<OrderId, Order>, orders': map<OrderId, Order>, id: OrderId, rows: seq<OrderId>,
                         g: Option<GroupId>)
    requires Moves(orders, orders', id, rows, g) && GroupsAreClasses(orders) && OwnFingerprint(orders)
    requires id in orders && GroupedCandidates(orders, id, rows)
    requires g.Some? ==> forall y :: y in orders && y !in rows ==> orders[y].groupId != g
    ensures GroupsAreClasses(orders') && OwnFingerprint(orders')
  {
    forall x, y | x in orders' && y in orders' && orders'[x].groupId.Some? && orders'[y].groupId.Some?
      ensures orders'[x].groupId == orders'[y].groupId <==> orders'[x].fingerprint == orders'[y].fingerprint
    {
      assert x in orders && y in orders;
      assert x in rows ==> orders[x].fingerprint == orders[id].fingerprint;
      assert y in rows ==> orders[y].fingerprint == orders[id].fingerprint;
    }
  }

  lemma DetectionKeepsClasses(s: Store, id: OrderId, windowStart: Time, answer: seq<OrderId>, newId: GroupId)
    requires Grouped(s) && DetectEnabled(s, id, windowStart, answer, newId)
    requires forall x :: x in answer ==> x in s.orders
    requires GroupedCandidates(s.orders, id, WithSelf(answer, id))
    ensures GroupsAreClasses(Detect(s, id, answer, newId).orders) && OwnFingerprint(Detect(s, id, answer, newId).orders)
  {
    var rows := WithSelf(answer, id);
    DetectMoves(s, id, answer, newId);
    if |rows| <= 1 {
      MovesKeepClasses(s.orders, Detect(s, id, answer, newId).orders, id, rows, None);
    } else {
      var g := TargetGroup(s, rows, newId);
      TargetHasOnlyCandidates(s, id, rows, newId);
      MovesKeepClasses(s.orders, Detect(s, id, answer, newId).orders, id, rows, Some(g));
    }
  }

  lemma TargetHasOnlyCandidates(s: Store, id: OrderId, rows: seq<OrderId>, newId: GroupId)
    requires Grouped(s) && id in s.orders && newId !in s.groups
    requires GroupedCandidates(s.orders, id, rows)
    ensures forall y :: y in s.orders && y !in rows ==> s.orders[y].groupId != Some(TargetGroup(s, rows, newId))
  {
    var g := TargetGroup(s, rows, newId);
    assert forall x :: x in rows ==> x in s.orders;
    TargetIsNewOrTouched(s, rows, newId);
    forall y | y in s.orders && y !in rows ensures s.orders[y].groupId != Some(g) {
      if y in Members(s, g) {
        assert false;
      }
    }
  }

  /** Over every run of arrivals and detections, in any order. */
  lemma {:induction false} GroupingOverRuns(s: Store, steps: seq<Step>, s': Store)
    requires s.orders == map[] && Steps(s, steps, s')
    ensures Grouped(s')
    decreases |steps|
  {
    if steps == [] {
      assert forall g :: Members(s, g) == {};
    } else {
      var n := |steps| - 1;
      var m :| Steps(s, steps[..n], m) && Enabled(m, steps[n]) && Admissible(m, steps[n]) && s' == Take(m, steps[n]);
      GroupingOverRuns(s, steps[..n], m);
      match steps[n]
      case Arrive(id, o) => ArrivalKeepsGrouped(m, id, o);
      case Detection(id, windowStart, answer, newId) => DetectionKeepsGrouped(m, id, windowStart, answer, newId);
    }
  }

  // ---------- right after a detection ----------

  /** The canonical test of notifications: no group, or the canonical order of one. */
  predicate PassesCanonicalTest(s: Store, id: OrderId)
    requires id in s.orders
  {
    var g := s.orders[id].groupId;
    g.None? || g.value !in s.groups || s.groups[g.value].canonical == id
  }

  /** What the detection could see is one group, or a single ungrouped order, and exactly its least member may be
      notified. It is the whole class once every other order of it has been looked at or repeats the contents. */
  lemma RightAfterDetection(s: Store, id: OrderId, windowStart: Time, answer: seq<OrderId>, newId: GroupId)
    requires Grouped(s) && Enabled(s, Detection(id, windowStart, answer, newId))
    requires Admissible(s, Detection(id, windowStart, answer, newId))
    ensures var s' := Take(s, Detection(id, windowStart, answer, newId));
            var peers := VisibleClass(s.orders, id);
            && (if |peers| == 1 then peers == {id} && s'.orders[id].groupId.None?
                else s'.orders[id].groupId.Some? && Members(s', s'.orders[id].groupId.value) == peers)
            && forall x :: x in peers ==> (PassesCanonicalTest(s', x) <==> IsLeast(s'.orders, peers, x))
    ensures (forall x :: x in Class(s.orders, id) ==> Visible(s.orders, id, x))
            ==> VisibleClass(s.orders, id) == Class(s.orders, id)
  {
    var rows, s' := WithSelf(answer, id), Take(s, Detection(id, windowStart, answer, newId));
    AnswerIsPresent(s, id, windowStart, answer);
    CandidatesAreTheClass(s, id, windowStart, answer);
    DistinctCardinality(rows);
    DetectionKeepsGrouped(s, id, windowStart, answer, newId);
    DetectMoves(s, id, answer, newId);
    if |rows| <= 1 {
      assert rows == [id] && id in Elements(rows);
      LoneOrderPasses(s', id);
    } else {
      CandidatesBecomeTheGroup(s, id, windowStart, answer, newId);
      OneGroupOnePass(s', VisibleClass(s.orders, id), TargetGroup(s, rows, newId));
    }
  }

  /** This order passes and no other of these does. */
  ghost predicate PassesAlone(s: Store, peers: set<OrderId>, x: OrderId) {
    && x in peers && x in s.orders && PassesCanonicalTest(s, x)
    && forall y :: y in peers && y in s.orders && PassesCanonicalTest(s, y) ==> y == x
  }

  ghost predicate ExactlyOnePasses(s: Store, peers: set<OrderId>) {
    peers <= s.orders.Keys && exists x :: PassesAlone(s, peers, x)
  }

  lemma OneOfGroupPasses(s: Store, peers: set<OrderId>, g: GroupId)
    requires Consistent(s) && peers == Members(s, g) != {}
    ensures ExactlyOnePasses(s, peers)
  {
    assert GroupOk(s, g);
    assert PassesAlone(s, peers, s.groups[g].canonical);
  }

  /** Of what the detection could see, one order may be notified and no other. */
  lemma OnePassesAfterDetection(s: Store, id: OrderId, windowStart: Time, answer: seq<OrderId>, newId: GroupId)
    requires Grouped(s) && Enabled(s, Detection(id, windowStart, answer, newId))
    requires Admissible(s, Detection(id, windowStart, answer, newId))
    ensures ExactlyOnePasses(Take(s, Detection(id, windowStart, answer, newId)), VisibleClass(s.orders, id))
  {
    var peers := VisibleClass(s.orders, id);
    assert id in peers;
    RightAfterDetection(s, id, windowStart, answer, newId);
    DetectionKeepsGrouped(s, id, windowStart, answer, newId);
    OnePasses(Take(s, Detection(id, windowStart, answer, newId)), id, peers);
  }

  lemma OnePasses(s: Store, id: OrderId, peers: set<OrderId>)
    requires Consistent(s) && id in peers && id in s.orders
    requires match s.orders[id].groupId
             case None => peers == {id}
             case Some(g) => Members(s, g) == peers
    ensures ExactlyOnePasses(s, peers)
  {
    match s.orders[id].groupId
    case None => LoneOnePasses(s, id);
    case Some(g) =>
      assert id in Members(s, g);
      OneOfGroupPasses(s, peers, g);
  }

  lemma LoneOnePasses(s: Store, id: OrderId)
    requires id in s.orders && s.orders[id].groupId.None?
    ensures ExactlyOnePasses(s, {id})
  {
    assert PassesAlone(s, {id}, id);
  }

  lemma CandidatesBecomeTheGroup(s: Store, id: OrderId, windowStart: Time, answer: seq<OrderId>, newId: GroupId)
    requires Grouped(s) && DetectEnabled(s, id, windowStart, answer, newId) && GroupedAreVisible(s.orders, id)
    requires (forall x :: x in answer ==> x in s.orders) && |WithSelf(answer, id)| > 1
    requires Elements(WithSelf(answer, id)) == VisibleClass(s.orders, id)
    ensures var s', g := Detect(s, id, answer, newId), TargetGroup(s, WithSelf(answer, id), newId);
            s'.orders[id].groupId == Some(g) && Members(s', g) == VisibleClass(s.orders, id)
  {
    var rows := WithSelf(answer, id);
    RowsAreVisible(s, id, rows);
    DetectMoves(s, id, answer, newId);
    MembersAfter(s, id, windowStart, answer, newId, TargetGroup(s, rows, newId));
    TargetWithinRows(s, id, rows, newId);
  }

  lemma TargetWithinRows(s: Store, id: OrderId, rows: seq<OrderId>, newId: GroupId)
    requires Grouped(s) && id in s.orders && newId !in s.groups && GroupedCandidates(s.orders, id, rows)
    ensures Members(s, TargetGroup(s, rows, newId)) + Elements(rows) == Elements(rows)
  {
    TargetHasOnlyCandidates(s, id, rows, newId);
  }

  lemma LoneOrderPasses(s: Store, id: OrderId)
    requires id in s.orders && s.orders[id].groupId.None?
    ensures PassesCanonicalTest(s, id) && IsLeast(s.orders, {id}, id)
  {
  }

  lemma OneGroupOnePass(s: Store, peers: set<OrderId>, g: GroupId)
    requires Consistent(s) && Members(s, g) == peers
    ensures forall x :: x in peers ==> (PassesCanonicalTest(s, x) <==> IsLeast(s.orders, peers, x))
  {
    assert GroupOk(s, g);
    forall x | x in peers ensures PassesCanonicalTest(s, x) <==> IsLeast(s.orders, peers, x) {
      LeastIsUnique(s.orders, peers, x, s.groups[g].canonical);
    }
  }

  lemma LeastIsUnique(orders: map<OrderId, Order>, s: set<OrderId>, x: OrderId, y: OrderId)
    requires IsLeast(orders, s, y)
    ensures IsLeast(orders, s, x) <==> x == y
  {
  }

  // ---------- where the code falls short ----------

  const EMPTY := Store(map[], map[])

  function PlainOrder(fingerprint: string, hash: string, publishedAt: Time): Order {
    Order(fingerprint, None, Some(hash), publishedAt, Details(true, false, false, true, true, true), 80, None)
  }

  lemma OneMoreStep(s: Store, steps: seq<Step>, m: Store, step: Step) returns (more: seq<Step>)
    requires Steps(s, steps, m) && Enabled(m, step) && Admissible(m, step)
    ensures Steps(s, more, Take(m, step))
  {
    more := steps + [step];
    assert more[..|steps|] == steps;
  }

  /** Two orders with the same contents, of which only the first has been looked at, in one group. */
  ghost predicate Twins(s: Store, f: string, h: string, at: Time, later: Time) {
    && s.orders.Keys == {0, 1} && s.groups.Keys <= {9} && SameGroup(s, 0, 1)
    && s.orders[0].fingerprint == s.orders[1].fingerprint == f
    && s.orders[0].contentHash == s.orders[1].contentHash == Some(h)
    && s.orders[0].stored == Some(f) && s.orders[1].stored.None?
    && s.orders[0].publishedAt == at && s.orders[1].publishedAt == later
  }

  lemma TwinsArrive(a: Order, b: Order) returns (steps: seq<Step>, s: Store)
    requires a.groupId.None? && a.stored.None? && b.groupId.None? && b.stored.None? && HasHash(a)
    requires a.contentHash == b.contentHash && a.fingerprint == b.fingerprint
    ensures Steps(EMPTY, steps, s) && s == Store(map[0 := a, 1 := b], map[])
  {
    var first := Store(map[0 := a], map[]);
    s := Store(map[0 := a, 1 := b], map[]);
    assert Take(EMPTY, Arrive(0, a)) == first && Take(first, Arrive(1, b)) == s;
    steps := OneMoreStep(EMPTY, [], EMPTY, Arrive(0, a));
    steps := OneMoreStep(EMPTY, steps, first, Arrive(1, b));
  }

  lemma TwinsAnswer(a: Order, b: Order)
    requires HasHash(a) && a.contentHash == b.contentHash && a.publishedAt >= 0 && b.publishedAt >= 0
    ensures IsAnswer(map[0 := a, 1 := b], 0, 0, [0, 1])
  {
    var orders := SaveFingerprint(map[0 := a, 1 := b], 0);
    assert orders[0].contentHash == orders[1].contentHash == a.contentHash;
    assert Found(orders, 0, 0) == {0, 1};
    assert Elements([0, 1]) == {0, 1};
  }

  lemma {:induction false} NoFirstGroup(orders: map<OrderId, Order>, rows: seq<OrderId>)
    requires forall x :: x in rows ==> x in orders && orders[x].groupId.None?
    ensures FirstGroup(orders, rows).None?
  {
    if rows == [] {
    } else {
      NoFirstGroup(orders, rows[1..]);
    }
  }

  lemma DetectedTwins(s: Store, f: string, h: string, at: Time, later: Time)
    requires s == Store(map[0 := PlainOrder(f, h, at), 1 := PlainOrder(f, h, later)], map[])
    ensures Twins(Detect(s, 0, [0, 1], 9), f, h, at, later)
  {
    NoFirstGroup(s.orders, [0, 1]);
    DetectMoves(s, 0, [0, 1], 9);
    assert TargetGroup(s, [0, 1], 9) == 9 && WithSelf([0, 1], 0) == [0, 1];
  }

  lemma TwinsAdmissible(s: Store, f: string, h: string, at: Time, later: Time)
    requires s == Store(map[0 := PlainOrder(f, h, at), 1 := PlainOrder(f, h, later)], map[])
    requires h != "" && 0 <= at && 0 <= later
    ensures DetectEnabled(s, 0, 0, [0, 1], 9) && AllInWindow(s.orders, 0) && GroupedAreVisible(s.orders, 0)
    ensures Alike(s.orders)
  {
    TwinsAnswer(s.orders[0], s.orders[1]);
  }

  lemma OneMoreDetection(steps: seq<Step>, s: Store, id: OrderId, windowStart: Time, answer: seq<OrderId>,
                         newId: GroupId)
    returns (more: seq<Step>)
    requires Steps(EMPTY, steps, s) && DetectEnabled(s, id, windowStart, answer, newId) && Alike(s.orders)
    requires AllInWindow(s.orders, windowStart) && GroupedAreVisible(s.orders, id)
    ensures forall x :: x in answer ==> x in s.orders
    ensures Steps(EMPTY, more, Detect(s, id, answer, newId)) && Grouped(Detect(s, id, answer, newId))
  {
    AnswerIsPresent(s, id, windowStart, answer);
    DetectKeepsHashes(s, id, answer, newId);
    more := OneMoreStep(EMPTY, steps, s, Detection(id, windowStart, answer, newId));
    GroupingOverRuns(EMPTY, more, Detect(s, id, answer, newId));
  }

  /** Two orders with the same contents arrive, and the first is looked at. */
  lemma TwinsInAGroup(f: string, h: string, at: Time, later: Time) returns (steps: seq<Step>, s: Store)
    requires h != "" && 0 <= at && 0 <= later
    ensures Steps(EMPTY, steps, s) && Grouped(s) && Twins(s, f, h, at, later)
  {
    var arrived;
    steps, arrived := TwinsArrive(PlainOrder(f, h, at), PlainOrder(f, h, later));
    TwinsAdmissible(arrived, f, h, at, later);
    steps := OneMoreDetection(steps, arrived, 0, 0, [0, 1], 9);
    DetectedTwins(arrived, f, h, at, later);
    s := Detect(arrived, 0, [0, 1], 9);
  }

  /** One of two members of a group is found, the other is not. */
  lemma SplitGroupBreaks(s: Store, windowStart: Time, answer: seq<OrderId>, found: OrderId, missed: OrderId)
    requires Consistent(s) && DetectEnabled(s, 2, windowStart, answer, 10)
    requires found in answer && missed !in answer && missed != 2
    requires found in s.orders && missed in s.orders && SameGroup(s, found, missed)
    ensures Breaks(s, answer)
  {
    assert found in WithSelf(answer, 2) && missed !in WithSelf(answer, 2);
    AnswerIsPresent(s, 2, windowStart, answer);
    DetectionIsConsistentIffClosed(s, 2, windowStart, answer, 10);
  }

  /** A third order, whose detection finds itself and one of the twins. */
  ghost predicate FindsOne(s: Store, c: Order, windowStart: Time, found: OrderId)
    requires s.orders.Keys == {0, 1}
  {
    && c.groupId.None? && c.stored.None? && c.publishedAt >= windowStart && found in {0, 1}
    && forall x | x in {0, 1} :: x == found <==> s.orders[x].publishedAt >= windowStart && Matches(c, s.orders[x])
  }

  lemma TwinsAndThird(s: Store, f: string, h: string, at: Time, later: Time, c: Order, windowStart: Time,
                      found: OrderId)
    requires Twins(s, f, h, at, later) && h != "" && c.fingerprint == f && c.groupId.None? && c.stored.None?
    requires c.publishedAt >= windowStart && found in {0, 1}
    requires found == 0 <==> at >= windowStart
    requires found == 1 <==> later >= windowStart && c.contentHash == Some(h)
    ensures FindsOne(s, c, windowStart, found) && Alike(s.orders[2 := c])
    ensures c.contentHash == Some(h) ==> GroupedAreVisible(s.orders[2 := c], 2)
    ensures at >= windowStart && later >= windowStart ==> AllInWindow(s.orders[2 := c], windowStart)
  {
    assert Matches(c, s.orders[0]) && (Matches(c, s.orders[1]) <==> c.contentHash == Some(h));
  }

  lemma ThirdAnswer(s: Store, c: Order, windowStart: Time, found: OrderId)
    requires s.orders.Keys == {0, 1} && FindsOne(s, c, windowStart, found)
    ensures IsAnswer(s.orders[2 := c], 2, windowStart, [found, 2])
  {
    var orders, answer := SaveFingerprint(s.orders[2 := c], 2), [found, 2];
    assert Elements(answer) == {found, 2};
    forall x ensures x in Found(orders, 2, windowStart) <==> x in Elements(answer) {
      if x in {0, 1} {
        assert orders[x] == s.orders[x] && (Matches(orders[2], orders[x]) <==> Matches(c, s.orders[x]));
      }
    }
  }

  lemma ThirdArrives(steps: seq<Step>, s: Store, c: Order, windowStart: Time, found: OrderId)
    returns (more: seq<Step>, s': Store)
    requires Steps(EMPTY, steps, s) && Grouped(s)
    requires s.orders.Keys == {0, 1} && s.groups.Keys <= {9} && SameGroup(s, 0, 1)
    requires FindsOne(s, c, windowStart, found) && Alike(s.orders[2 := c])
    ensures Steps(EMPTY, more, s') && Grouped(s') && DetectEnabled(s', 2, windowStart, [found, 2], 10)
    ensures s' == Store(s.orders[2 := c], s.groups) && Breaks(s', [found, 2])
  {
    s' := Store(s.orders[2 := c], s.groups);
    assert Take(s, Arrive(2, c)) == s';
    more := OneMoreStep(EMPTY, steps, s, Arrive(2, c));
    ArrivalKeepsGrouped(s, 2, c);
    ThirdAnswer(s, c, windowStart, found);
    SplitGroupBreaks(s', windowStart, [found, 2], found, 1 - found);
  }

  /** Detecting order 2 leaves a wrong size or a wrong canonical order. */
  ghost predicate Breaks(s: Store, answer: seq<OrderId>) {
    (2 in s.orders ==> forall x :: x in answer ==> x in s.orders) && !Consistent(Detect(s, 2, answer, 10))
  }

  lemma TwinsThenThird(f: string, h: string, at: Time, later: Time, c: Order, windowStart: Time, found: OrderId)
    returns (steps: seq<Step>, s: Store)
    requires h != "" && 0 <= at && 0 <= later && c.fingerprint == f && c.groupId.None? && c.stored.None?
    requires c.publishedAt >= windowStart && found in {0, 1}
    requires found == 0 <==> at >= windowStart
    requires found == 1 <==> later >= windowStart && c.contentHash == Some(h)
    ensures Steps(EMPTY, steps, s) && Grouped(s) && DetectEnabled(s, 2, windowStart, [found, 2], 10)
    ensures Breaks(s, [found, 2])
    ensures c.contentHash == Some(h) ==> GroupedAreVisible(s.orders, 2)
    ensures at >= windowStart && later >= windowStart ==> AllInWindow(s.orders, windowStart)
  {
    var before, twins := TwinsInAGroup(f, h, at, later);
    TwinsAndThird(twins, f, h, at, later, c, windowStart, found);
    steps, s := ThirdArrives(before, twins, c, windowStart, found);
  }

  /** Once the oldest member leaves the window, the next detection of a lookalike records a smaller size and
      moves the canonical order, while the old member stays in the group. */
  lemma SlidingWindowLeavesGroupInconsistent(f: string, h: string)
    returns (steps: seq<Step>, s: Store, answer: seq<OrderId>)
    requires h != ""
    ensures Steps(EMPTY, steps, s) && Grouped(s) && DetectEnabled(s, 2, 5, answer, 10) && GroupedAreVisible(s.orders, 2)
    ensures Breaks(s, answer)
  {
    steps, s := TwinsThenThird(f, h, 0, 6, PlainOrder(f, h, 7), 5, 1);
    answer := [1, 2];
  }

  /** Matching by hash or fingerprint is not transitive while an order has not been looked at itself: 1 joined
      the group of 0 by hash, and 2, which shares only the fingerprint, finds 0 without 1. */
  lemma PartialMatchLeavesGroupInconsistent(f: string, h: string, k: string)
    returns (steps: seq<Step>, s: Store, answer: seq<OrderId>)
    requires h != "" && k != "" && h != k
    ensures Steps(EMPTY, steps, s) && Grouped(s) && AllInWindow(s.orders, 0) && DetectEnabled(s, 2, 0, answer, 10)
    ensures Breaks(s, answer)
  {
    steps, s := TwinsThenThird(f, h, 1, 2, PlainOrder(f, k, 3), 0, 0);
    answer := [0, 2];
  }

  // ---------- the service ----------

  datatype DeduplicationResult =
    | NotFound
    | Unique(id: OrderId, how: Method)
    | Duplicate(isCanonical: bool, canonicalId: OrderId, groupId: GroupId, count: nat, how: Method)

  class Deduplicator {
    var orders: map<OrderId, Order>
    var groups: map<GroupId, Group>

    constructor ()
      ensures Tables() == Store(map[], map[])
    {
      orders, groups := map[], map[];
    }

    function Tables(): Store
      reads this
    {
      Store(orders, groups)
    }

    method UpsertDuplicateGroup(rows: seq<OrderId>, canonicalId: OrderId, how: Method, newId: GroupId)
      returns (g: GroupId)
      requires forall x :: x in rows ==> x in orders
      modifies this
      ensures g == TargetGroup(old(Tables()), rows, newId)
      ensures groups == old(groups)[g := Group(canonicalId, how, |rows|)]
      ensures orders == Assign(old(orders), rows, Some(g))
    {
      var existing := FirstGroup(orders, rows);
      g := if existing.Some? && existing.value in groups then existing.value else newId;
      groups := groups[g := Group(canonicalId, how, |rows|)];
      for k := 0 to |rows|
        invariant groups == old(groups)[g := Group(canonicalId, how, |rows|)]
        invariant orders == Assign(old(orders), rows[..k], Some(g))
      {
        orders := orders[rows[k] := orders[rows[k]].(groupId := Some(g))];
        assert rows[..k + 1] == rows[..k] + [rows[k]];
      }
      assert rows[..|rows|] == rows;
    }

    method DetectDuplicates(id: OrderId, answer: seq<OrderId>, newId: GroupId) returns (result: DeduplicationResult)
      requires id in orders ==> forall x :: x in answer ==> x in orders
      modifies this
      ensures Tables() == Detect(old(Tables()), id, answer, newId)
      ensures result == ResultOf(old(Tables()), id, answer, newId)
    {
      if id !in orders {
        return NotFound;
      }
      ghost var before := Tables();
      orders := orders[id := orders[id].(stored := Some(orders[id].fingerprint))];
      var rows := WithSelf(answer, id);
      var how := DedupeMethod(orders, id, rows);
      if |rows| <= 1 {
        assert rows == [id];
        orders := orders[id := orders[id].(groupId := None)];
        return Unique(id, how);
      }
      var canonical := ChooseCanonicalOrder(CandidatesOf(orders, rows)).id;
      SameTarget(before, orders, id, rows, newId);
      var g := UpsertDuplicateGroup(rows, canonical, how, newId);
      return Duplicate(id == canonical, canonical, g, |rows|, how);
    }
  }

  function ResultOf(s: Store, id: OrderId, answer: seq<OrderId>, newId: GroupId): DeduplicationResult
    requires id in s.orders ==> forall x :: x in answer ==> x in s.orders
  {
    if id !in s.orders then NotFound
    else
      var orders, rows := SaveFingerprint(s.orders, id), WithSelf(answer, id);
      var how := DedupeMethod(orders, id, rows);
      if |rows| <= 1 then Unique(id, how)
      else
        var best := ChooseCanonicalOrder(CandidatesOf(orders, rows)).id;
        Duplicate(id == best, best, TargetGroup(s, rows, newId), |rows|, how)
  }

  /** What the caller is told is what the tables say afterwards, and the method is the content hash whenever the
      order has one: the order itself is always among its candidates. */
  lemma ResultTellsTheTables(s: Store, id: OrderId, windowStart: Time, answer: seq<OrderId>, newId: GroupId)
    requires DetectEnabled(s, id, windowStart, answer, newId)
    requires forall x :: x in answer ==> x in s.orders
    ensures var s' := Detect(s, id, answer, newId);
            match ResultOf(s, id, answer, newId)
            case NotFound => false
            case Unique(x, how) =>
              && x == id && s'.orders[id].groupId.None?
              && Found(SaveFingerprint(s.orders, id), id, windowStart) <= {id}
              && (how == ContentHash <==> s.orders[id].contentHash !in {None, Some("")})
              && (how == NoMethod <==> s.orders[id].contentHash in {None, Some("")} && s.orders[id].fingerprint == "")
            case Duplicate(isCanonical, canonical, g, count, how) =>
              && s'.orders[id].groupId == Some(g) && g in s'.groups
              && s'.groups[g] == Group(canonical, how, count)
              && count == |Elements(WithSelf(answer, id))|
              && IsLeast(s'.orders, Elements(WithSelf(answer, id)), canonical)
              && (isCanonical <==> IsLeast(s'.orders, Elements(WithSelf(answer, id)), id))
              && (how == ContentHash <==> s.orders[id].contentHash !in {None, Some("")})
              && (how == NoMethod <==> s.orders[id].contentHash in {None, Some("")} && s.orders[id].fingerprint == "")
  {
    var orders, rows, s' := SaveFingerprint(s.orders, id), WithSelf(answer, id), Detect(s, id, answer, newId);
    AnswerIsPresent(s, id, windowStart, answer);
    DistinctCardinality(rows);
    if |rows| <= 1 {
      assert rows == [id];
      assert Found(orders, id, windowStart) <= {id} by {
        forall x | x in Elements(answer) ensures x == id {
          assert x in rows;
        }
      }
    } else {
      ChosenIsLeast(s, id, answer, newId);
    }
    MethodAmongCandidates(orders, id, rows);
  }

  lemma MethodAmongCandidates(orders: map<OrderId, Order>, id: OrderId, rows: seq<OrderId>)
    requires id in orders && id in rows && forall x :: x in rows ==> x in orders
    ensures DedupeMethod(orders, id, rows)
            == if orders[id].contentHash !in {None, Some("")} then ContentHash
               else if orders[id].fingerprint == "" then NoMethod else Fingerprint
  {
    var o := orders[id];
    assert HasHash(o) <==> o.contentHash != None && o.contentHash != Some("");
    assert exists x :: x in rows && orders[x].contentHash == o.contentHash by {
      assert id in rows && orders[id].contentHash == o.contentHash;
    }
  }

  lemma ChosenIsLeast(s: Store, id: OrderId, answer: seq<OrderId>, newId: GroupId)
    requires id in s.orders && forall x :: x in answer ==> x in s.orders
    ensures var rows, after := WithSelf(answer, id), Detect(s, id, answer, newId).orders;
            var best := ChooseCanonicalOrder(CandidatesOf(SaveFingerprint(s.orders, id), rows)).id;
            IsLeast(after, Elements(rows), best) && (IsLeast(after, Elements(rows), id) <==> id == best)
  {
    var orders, rows, after := SaveFingerprint(s.orders, id), WithSelf(answer, id), Detect(s, id, answer, newId).orders;
    var best := ChooseCanonicalOrder(CandidatesOf(orders, rows)).id;
    ChoiceIsTheLeast(orders, rows, best);
    DetectKeepsCandidates(s, id, answer, newId);
    LeastIgnoresGroups(orders, s.orders, Elements(rows), best);
    LeastIgnoresGroups(s.orders, after, Elements(rows), best);
    LeastIsUnique(after, Elements(rows), id, best);
  }

  lemma {:induction false} SameFirstGroup(orders: map<OrderId, Order>, orders': map<OrderId, Order>, rows: seq<OrderId>)
    requires forall x :: x in rows ==> x in orders && x in orders' && orders[x].groupId == orders'[x].groupId
    ensures FirstGroup(orders, rows) == FirstGroup(orders', rows)
  {
    if rows == [] {
    } else {
      SameFirstGroup(orders, orders', rows[1..]);
    }
  }

  lemma SameTarget(s: Store, orders: map<OrderId, Order>, id: OrderId, rows: seq<OrderId>, newId: GroupId)
    requires id in s.orders && orders == SaveFingerprint(s.orders, id)
    requires forall x :: x in rows ==> x in s.orders
    ensures TargetGroup(s, rows, newId) == TargetGroup(Store(orders, s.groups), rows, newId)
  {
    SameFirstGroup(s.orders, orders, rows);
  }
}
