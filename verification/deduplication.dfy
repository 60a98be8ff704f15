/** Duplicate grouping of orders (app/services/deduplication.py) with the semantic layer switched off. */
module Deduplication {
  import opened Wrappers
  import opened Instants
  import opened Sequences

  type GroupId = nat

  /** Order ids are UUIDs; comparing their texts compares their values. */
  type OrderId = nat

  datatype Details = Details(
    hasBudget: bool, negotiable: bool, hasDeadline: bool, hasContacts: bool, hasProjectType: bool, hasSummary: bool)

  /** `fingerprint` is what the order's content hashes to, `stored` what an earlier detection has saved. */
  datatype Order = Order(
    fingerprint: string, stored: Option<string>, contentHash: Option<string>, publishedAt: Time,
    details: Details, relevance: int, groupId: Option<GroupId>)

  datatype Method = ContentHash | Fingerprint | NoMethod

  datatype Group = Group(canonical: OrderId, how: Method, size: nat)

  datatype Store = Store(orders: map<OrderId, Order>, groups: map<GroupId, Group>)

  // ---------- the canonical order ----------

  datatype Candidate = Candidate(id: OrderId, publishedAt: Time, completeness: nat, relevance: int)

  function One(b: bool): nat { if b then 1 else 0 }

  function Completeness(d: Details): nat {
    One(d.hasBudget) + One(d.negotiable) + One(d.hasDeadline) + One(d.hasContacts) + One(d.hasProjectType)
    + One(d.hasSummary)
  }

  function CandidateOf(orders: map<OrderId, Order>, id: OrderId): Candidate
    requires id in orders
  {
    var o := orders[id];
    Candidate(id, o.publishedAt, Completeness(o.details), o.relevance)
  }

  /** Earliest, then most complete, then most relevant, then smallest id. */
  predicate Before(a: Candidate, b: Candidate) {
    || a.publishedAt < b.publishedAt
    || (a.publishedAt == b.publishedAt
        && (|| a.completeness > b.completeness
            || (a.completeness == b.completeness
                && (|| a.relevance > b.relevance
                    || (a.relevance == b.relevance && a.id < b.id)))))
  }

  datatype Detail = Budget | Negotiable | Deadline | Contacts | ProjectType | Summary

  predicate Has(d: Details, x: Detail) {
    match x
    case Budget => d.hasBudget
    case Negotiable => d.negotiable
    case Deadline => d.hasDeadline
    case Contacts => d.hasContacts
    case ProjectType => d.hasProjectType
    case Summary => d.hasSummary
  }

  function Present(d: Details): set<Detail> {
    set x: Detail | Has(d, x)
  }

  /** One point for each detail that an order has. */
  lemma CompletenessCountsDetails(d: Details)
    ensures Completeness(d) == |Present(d)|
  {
    var some := {};
    some := OneMore(some, Budget, d.hasBudget);
    some := OneMore(some, Negotiable, d.negotiable);
    some := OneMore(some, Deadline, d.hasDeadline);
    some := OneMore(some, Contacts, d.hasContacts);
    some := OneMore(some, ProjectType, d.hasProjectType);
    some := OneMore(some, Summary, d.hasSummary);
    assert some == Present(d);
  }

  lemma OneMore(some: set<Detail>, x: Detail, has: bool) returns (more: set<Detail>)
    requires x !in some
    ensures |more| == |some| + One(has) && forall y :: y in more <==> y in some || (y == x && has)
  {
    more := if has then some + {x} else some;
  }

  /** The first element of the candidates sorted by that key. */
  function ChooseCanonicalOrder(candidates: seq<Candidate>): (best: Candidate)
    requires candidates != []
    ensures best in candidates && forall c :: c in candidates ==> !Before(c, best)
  {
    var n := |candidates| - 1;
    if n == 0 then candidates[0]
    else
      var best := ChooseCanonicalOrder(candidates[..n]);
      assert candidates == candidates[..n] + [candidates[n]];
      if Before(candidates[n], best) then candidates[n] else best
  }

  ghost predicate IsLeast(orders: map<OrderId, Order>, s: set<OrderId>, id: OrderId) {
    && s <= orders.Keys && id in s
    && forall x :: x in s && x != id ==> Before(CandidateOf(orders, id), CandidateOf(orders, x))
  }

  /** The order is total on distinct orders, so the choice depends on the set of candidates alone. */
  lemma ChoiceIsTheLeast(orders: map<OrderId, Order>, rows: seq<OrderId>, id: OrderId)
    requires rows != [] && forall x :: x in rows ==> x in orders
    ensures IsLeast(orders, Elements(rows), id)
            <==> ChooseCanonicalOrder(CandidatesOf(orders, rows)).id == id
  {
    var candidates := CandidatesOf(orders, rows);
    var best := ChooseCanonicalOrder(candidates);
    forall x | x in rows && x != best.id ensures Before(best, CandidateOf(orders, x)) {
      var i :| 0 <= i < |rows| && rows[i] == x;
      assert candidates[i] in candidates;
    }
    assert best.id in rows && best == CandidateOf(orders, best.id);
    if IsLeast(orders, Elements(rows), id) && id != best.id {
      assert false;
    }
  }

  function CandidatesOf(orders: map<OrderId, Order>, rows: seq<OrderId>): (candidates: seq<Candidate>)
    requires forall x :: x in rows ==> x in orders
    ensures |candidates| == |rows|
    ensures forall i :: 0 <= i < |rows| ==> candidates[i] == CandidateOf(orders, rows[i])
  {
    seq(|rows|, i requires 0 <= i < |rows| => CandidateOf(orders, rows[i]))
  }

  // ---------- one detection ----------

  function SaveFingerprint(orders: map<OrderId, Order>, id: OrderId): map<OrderId, Order>
    requires id in orders
  {
    orders[id := orders[id].(stored := Some(orders[id].fingerprint))]
  }

  predicate HasHash(o: Order) {
    o.contentHash.Some? && o.contentHash.value != ""
  }

  predicate Matches(o: Order, x: Order) {
    x.stored == Some(o.fingerprint) || (HasHash(o) && x.contentHash == o.contentHash)
  }

  /** Recent orders with the same saved fingerprint or the same content hash. */
  function Found(orders: map<OrderId, Order>, id: OrderId, windowStart: Time): set<OrderId>
    requires id in orders
  {
    set x | x in orders && orders[x].publishedAt >= windowStart && Matches(orders[id], orders[x])
  }

  /** The query promises the rows but no order among them. */
  predicate IsAnswer(orders: map<OrderId, Order>, id: OrderId, windowStart: Time, answer: seq<OrderId>)
    requires id in orders
  {
    Distinct(answer) && Elements(answer) == Found(SaveFingerprint(orders, id), id, windowStart)
  }

  function WithSelf(answer: seq<OrderId>, id: OrderId): seq<OrderId> {
    if id in answer then answer else answer + [id]
  }

  function DedupeMethod(orders: map<OrderId, Order>, id: OrderId, rows: seq<OrderId>): Method
    requires id in orders && forall x :: x in rows ==> x in orders
  {
    if HasHash(orders[id]) && exists x :: x in rows && orders[x].contentHash == orders[id].contentHash then ContentHash
    else if orders[id].fingerprint != "" then Fingerprint else NoMethod
  }

  /** The group of the first candidate that has one. */
  function FirstGroup(orders: map<OrderId, Order>, rows: seq<OrderId>): Option<GroupId>
    requires forall x :: x in rows ==> x in orders
  {
    if rows == [] then None
    else if orders[rows[0]].groupId.Some? then orders[rows[0]].groupId
    else FirstGroup(orders, rows[1..])
  }

  function TargetGroup(s: Store, rows: seq<OrderId>, newId: GroupId): GroupId
    requires forall x :: x in rows ==> x in s.orders
  {
    var first := FirstGroup(s.orders, rows);
    if first.Some? && first.value in s.groups then first.value else newId
  }

  function Assign(orders: map<OrderId, Order>, rows: seq<OrderId>, g: Option<GroupId>): map<OrderId, Order> {
    map x | x in orders :: if x in rows then orders[x].(groupId := g) else orders[x]
  }

  /** Detection for one order, given the rows of its query and the id a new group would get. */
  function Detect(s: Store, id: OrderId, answer: seq<OrderId>, newId: GroupId): Store
    requires id in s.orders ==> forall x :: x in answer ==> x in s.orders
  {
    if id !in s.orders then s
    else
      var orders := SaveFingerprint(s.orders, id);
      var rows := WithSelf(answer, id);
      if |rows| <= 1 then Store(Assign(orders, [id], None), s.groups)
      else
        var best := ChooseCanonicalOrder(CandidatesOf(orders, rows)).id;
        var g := TargetGroup(s, rows, newId);
        Store(Assign(orders, rows, Some(g)), s.groups[g := Group(best, DedupeMethod(orders, id, rows), |rows|)])
  }

  // ---------- one detection, told from the tables ----------

  /** Row `k` is the first that has a group. */
  predicate FirstGrouped(orders: map<OrderId, Order>, rows: seq<OrderId>, k: nat)
    requires forall x :: x in rows ==> x in orders
  {
    && k < |rows| && orders[rows[k]].groupId.Some?
    && forall j :: 0 <= j < k ==> orders[rows[j]].groupId.None?
  }

  lemma {:induction false} FirstGroupIsOfFirstGrouped(orders: map<OrderId, Order>, rows: seq<OrderId>)
    returns (k: nat)
    requires forall x :: x in rows ==> x in orders
    ensures FirstGroup(orders, rows).Some?
            ==> FirstGrouped(orders, rows, k) && orders[rows[k]].groupId == FirstGroup(orders, rows)
    ensures FirstGroup(orders, rows).None? ==> forall j: nat :: !FirstGrouped(orders, rows, j)
  {
    k := 0;
    if rows == [] || orders[rows[0]].groupId.Some? {
    } else {
      var j := FirstGroupIsOfFirstGrouped(orders, rows[1..]);
      k := j + 1;
      forall i: nat | FirstGrouped(orders, rows, i) ensures FirstGrouped(orders, rows[1..], i - 1) {
        assert forall j :: 0 <= j < i - 1 ==> rows[1..][j] == rows[j + 1];
      }
    }
  }

  /** The group of the first row that has one, if the table knows it. */
  ghost predicate Reuses(s: Store, rows: seq<OrderId>, g: GroupId)
    requires forall x :: x in rows ==> x in s.orders
  {
    g in s.groups && exists k: nat :: FirstGrouped(s.orders, rows, k) && s.orders[rows[k]].groupId == Some(g)
  }

  /** Several candidates end in one group: in the one that the first grouped candidate has, if the table knows it, and
      then no group is created; in a new one otherwise. */
  lemma DetectionReusesGroup(s: Store, id: OrderId, answer: seq<OrderId>, newId: GroupId)
    requires id in s.orders && newId !in s.groups && forall x :: x in answer ==> x in s.orders
    requires |answer| > 1 || (answer != [] && id !in answer)
    ensures var rows, s' := if id in answer then answer else answer + [id], Detect(s, id, answer, newId);
            && (forall x :: x in rows ==> s'.orders[x].groupId == s'.orders[id].groupId)
            && (forall g: GroupId | Reuses(s, rows, g) ::
                  s'.groups.Keys == s.groups.Keys && s'.orders[id].groupId == Some(g))
            && ((forall g: GroupId :: !Reuses(s, rows, g)) ==>
                  s'.groups.Keys == s.groups.Keys + {newId} && s'.orders[id].groupId == Some(newId))
            && (newId in s'.groups <==> forall g: GroupId :: !Reuses(s, rows, g))
  {
    var rows, s' := WithSelf(answer, id), Detect(s, id, answer, newId);
    var k := FirstGroupIsOfFirstGrouped(s.orders, rows);
    var first := FirstGroup(s.orders, rows);
    assert id in rows;
    if first.Some? && first.value in s.groups {
      assert Reuses(s, rows, first.value);
    }
    forall g: GroupId | Reuses(s, rows, g) ensures first == Some(g) {
      var j: nat :| FirstGrouped(s.orders, rows, j) && s.orders[rows[j]].groupId == Some(g);
      assert j == k;
    }
  }

  lemma AssignedOrders(orders: map<OrderId, Order>, id: OrderId, rows: seq<OrderId>, target: Option<GroupId>)
    requires id in orders && id in rows
    ensures var after := Assign(SaveFingerprint(orders, id), rows, target);
            && after.Keys == orders.Keys
            && after[id] == orders[id].(stored := Some(orders[id].fingerprint), groupId := target)
            && forall x :: x in orders && x != id ==>
                 after[x] == orders[x].(groupId := if x in rows then target else orders[x].groupId)
  {
  }

  /** Nothing else changes: a lone order leaves its group and no group does; the fingerprint of the order is saved; of
      the other orders only those of the answer are regrouped, and of the groups only the one they end in. */
  lemma DetectionWritesNothingElse(s: Store, id: OrderId, answer: seq<OrderId>, newId: GroupId)
    requires id in s.orders && forall x :: x in answer ==> x in s.orders
    ensures var s' := Detect(s, id, answer, newId);
            && s'.orders.Keys == s.orders.Keys
            && s'.orders[id] == s.orders[id].(stored := Some(s.orders[id].fingerprint),
                                              groupId := s'.orders[id].groupId)
            && (forall x :: x in s.orders && x != id ==>
                  s'.orders[x] == s.orders[x].(groupId := if x in answer then s'.orders[id].groupId
                                                          else s.orders[x].groupId))
            && (forall g :: g in s.groups && s'.orders[id].groupId != Some(g) ==>
                  g in s'.groups && s'.groups[g] == s.groups[g])
            && (answer == [] || answer == [id] ==> s'.groups == s.groups && s'.orders[id].groupId.None?)
  {
    var rows, s' := WithSelf(answer, id), Detect(s, id, answer, newId);
    var target := if |rows| <= 1 then None else Some(TargetGroup(s, rows, newId));
    assert answer == [id] ==> id in answer;
    assert |rows| <= 1 ==> rows == [id];
    assert id in rows && s'.orders == Assign(SaveFingerprint(s.orders, id), rows, target);
    AssignedOrders(s.orders, id, rows, target);
  }

  /** The candidates: the order itself, and the orders published since the window began that have its fingerprint saved
      or its contents, if it has any. */
  lemma CandidatesAre(s: Store, id: OrderId, windowStart: Time, answer: seq<OrderId>, x: OrderId)
    requires id in s.orders && IsAnswer(s.orders, id, windowStart, answer)
    ensures var o := s.orders[id];
            x in WithSelf(answer, id)
            <==> x == id
                 || (&& x in s.orders && s.orders[x].publishedAt >= windowStart
                     && (|| s.orders[x].stored == Some(o.fingerprint)
                         || (s.orders[x].contentHash == o.contentHash && o.contentHash !in {None, Some("")})))
  {
    assert x in Elements(answer) <==> x in answer;
  }

  /** The canonical order of the candidates is published no later than any, and among equals has more details, then is
      more relevant, then has the smaller id. */
  lemma CanonicalIsEarliest(s: Store, id: OrderId, answer: seq<OrderId>, newId: GroupId, x: OrderId)
    requires id in s.orders && forall x :: x in answer ==> x in s.orders
    requires |answer| > 1 || (answer != [] && id !in answer)
    requires x in answer || x == id
    ensures var s' := Detect(s, id, answer, newId);
            && s'.orders[id].groupId.Some? && s'.orders[id].groupId.value in s'.groups
            && var best := s'.groups[s'.orders[id].groupId.value].canonical;
            && (best in answer || best == id) && best in s.orders
            && var a, b := s.orders[best], s.orders[x];
            && a.publishedAt <= b.publishedAt
            && (a.publishedAt == b.publishedAt ==>
                  && |Present(a.details)| >= |Present(b.details)|
                  && (|Present(a.details)| == |Present(b.details)| ==>
                        a.relevance >= b.relevance && (a.relevance == b.relevance ==> best <= x)))
  {
    var orders, rows := SaveFingerprint(s.orders, id), WithSelf(answer, id);
    assert id in rows && x in rows;
    var best := ChosenIsEarliest(orders, rows, x);
    RecordedCanonical(s, id, answer, newId);
  }

  lemma RecordedCanonical(s: Store, id: OrderId, answer: seq<OrderId>, newId: GroupId)
    requires id in s.orders && forall x :: x in answer ==> x in s.orders
    requires |WithSelf(answer, id)| > 1
    ensures var s' := Detect(s, id, answer, newId);
            var best := ChooseCanonicalOrder(CandidatesOf(SaveFingerprint(s.orders, id), WithSelf(answer, id)));
            && s'.orders[id].groupId.Some? && s'.orders[id].groupId.value in s'.groups
            && s'.groups[s'.orders[id].groupId.value].canonical == best.id
  {
    assert id in WithSelf(answer, id);
  }

  lemma ChosenIsEarliest(orders: map<OrderId, Order>, rows: seq<OrderId>, x: OrderId) returns (best: OrderId)
    requires (forall y :: y in rows ==> y in orders) && x in rows
    ensures best == ChooseCanonicalOrder(CandidatesOf(orders, rows)).id && best in rows
    ensures var a, b := orders[best], orders[x];
            && a.publishedAt <= b.publishedAt
            && (a.publishedAt == b.publishedAt ==>
                  && |Present(a.details)| >= |Present(b.details)|
                  && (|Present(a.details)| == |Present(b.details)| ==>
                        a.relevance >= b.relevance && (a.relevance == b.relevance ==> best <= x)))
  {
    var candidates := CandidatesOf(orders, rows);
    var chosen := ChooseCanonicalOrder(candidates);
    best := chosen.id;
    var i :| 0 <= i < |rows| && rows[i] == x;
    assert candidates[i] in candidates;
    var j :| 0 <= j < |rows| && candidates[j] == chosen;
    assert rows[j] == best;
    CompletenessCountsDetails(orders[best].details);
    CompletenessCountsDetails(orders[x].details);
  }

  // ---------- consistency of the groups ----------

  function Members(s: Store, g: GroupId): set<OrderId> {
    set x | x in s.orders && s.orders[x].groupId == Some(g)
  }

  ghost predicate GroupOk(s: Store, g: GroupId) {
    Members(s, g) != {} ==>
      g in s.groups && s.groups[g].size == |Members(s, g)| && IsLeast(s.orders, Members(s, g), s.groups[g].canonical)
  }

  /** Every group that has members knows how many and which is the least of them. */
  ghost predicate Consistent(s: Store) {
    forall g :: GroupOk(s, g)
  }

  predicate SameGroup(s: Store, x: OrderId, y: OrderId)
    requires x in s.orders && y in s.orders
  {
    s.orders[x].groupId.Some? && s.orders[y].groupId == s.orders[x].groupId
  }

  /** No candidate belongs to a group with a member that is not a candidate. */
  ghost predicate Closed(s: Store, rows: seq<OrderId>) {
    forall x, y | x in rows && x in s.orders && y in s.orders && SameGroup(s, x, y) :: y in rows
  }

  ghost predicate DetectEnabled(s: Store, id: OrderId, windowStart: Time, answer: seq<OrderId>, newId: GroupId) {
    id in s.orders && IsAnswer(s.orders, id, windowStart, answer) && newId !in s.groups
  }

  lemma {:induction false} FirstGroupFromRow(orders: map<OrderId, Order>, rows: seq<OrderId>) returns (x: OrderId)
    requires forall x :: x in rows ==> x in orders
    requires FirstGroup(orders, rows).Some?
    ensures x in rows && orders[x].groupId == FirstGroup(orders, rows)
  {
    x := rows[0];
    if orders[rows[0]].groupId.None? {
      x := FirstGroupFromRow(orders, rows[1..]);
    }
  }

  lemma AnswerIsPresent(s: Store, id: OrderId, windowStart: Time, answer: seq<OrderId>)
    requires id in s.orders && IsAnswer(s.orders, id, windowStart, answer)
    ensures forall x :: x in answer ==> x in s.orders
    ensures Distinct(WithSelf(answer, id))
  {
    forall x | x in answer ensures x in s.orders {
      assert x in Elements(answer);
    }
  }

  lemma MembersOfAssigned(orders: map<OrderId, Order>, saved: map<OrderId, Order>, groups: map<GroupId, Group>,
                          groups': map<GroupId, Group>, rows: seq<OrderId>, target: Option<GroupId>, g: GroupId)
    requires saved.Keys == orders.Keys && forall x :: x in orders ==> saved[x].groupId == orders[x].groupId
    requires forall x :: x in rows ==> x in orders
    ensures Members(Store(Assign(saved, rows, target), groups'), g)
            == if target == Some(g) then Members(Store(orders, groups), g) + Elements(rows)
               else Members(Store(orders, groups), g) - Elements(rows)
  {
  }

  /** Where the members of each group are after a detection. */
  lemma MembersAfter(s: Store, id: OrderId, windowStart: Time, answer: seq<OrderId>, newId: GroupId, g: GroupId)
    requires DetectEnabled(s, id, windowStart, answer, newId)
    requires forall x :: x in answer ==> x in s.orders
    ensures var rows, s' := WithSelf(answer, id), Detect(s, id, answer, newId);
            Members(s', g) == if |rows| > 1 && g == TargetGroup(s, rows, newId) then Members(s, g) + Elements(rows)
                              else Members(s, g) - Elements(rows)
  {
    var orders, rows, s' := SaveFingerprint(s.orders, id), WithSelf(answer, id), Detect(s, id, answer, newId);
    var target := if |rows| <= 1 then None else Some(TargetGroup(s, rows, newId));
    assert |rows| <= 1 ==> rows == [id];
    assert s' == Store(Assign(orders, rows, target), s'.groups);
    MembersOfAssigned(s.orders, orders, s.groups, s'.groups, rows, target, g);
  }

  predicate SameCandidates(orders: map<OrderId, Order>, orders': map<OrderId, Order>) {
    orders.Keys == orders'.Keys && forall x :: x in orders ==> CandidateOf(orders, x) == CandidateOf(orders', x)
  }

  lemma AssignKeepsCandidates(orders: map<OrderId, Order>, rows: seq<OrderId>, g: Option<GroupId>)
    ensures SameCandidates(orders, Assign(orders, rows, g))
  {
  }

  lemma SaveKeepsCandidates(orders: map<OrderId, Order>, id: OrderId)
    requires id in orders
    ensures SameCandidates(orders, SaveFingerprint(orders, id))
  {
  }

  lemma DetectKeepsCandidates(s: Store, id: OrderId, answer: seq<OrderId>, newId: GroupId)
    requires id in s.orders && forall x :: x in answer ==> x in s.orders
    ensures SameCandidates(s.orders, SaveFingerprint(s.orders, id))
    ensures SameCandidates(s.orders, Detect(s, id, answer, newId).orders)
  {
    var orders, rows := SaveFingerprint(s.orders, id), WithSelf(answer, id);
    SaveKeepsCandidates(s.orders, id);
    if |rows| <= 1 {
      AssignKeepsCandidates(orders, [id], None);
    } else {
      AssignKeepsCandidates(orders, rows, Some(TargetGroup(s, rows, newId)));
    }
  }

  lemma LeastIgnoresGroups(orders: map<OrderId, Order>, orders': map<OrderId, Order>, s: set<OrderId>, id: OrderId)
    requires SameCandidates(orders, orders')
    ensures IsLeast(orders, s, id) <==> IsLeast(orders', s, id)
  {
  }

  lemma TargetIsNewOrTouched(s: Store, rows: seq<OrderId>, newId: GroupId)
    requires Consistent(s) && newId !in s.groups && forall x :: x in rows ==> x in s.orders
    ensures var g := TargetGroup(s, rows, newId);
            Members(s, g) == {} || Members(s, g) * Elements(rows) != {}
  {
    var g := TargetGroup(s, rows, newId);
    assert GroupOk(s, newId);
    if g != newId || FirstGroup(s.orders, rows) == Some(newId) {
      var x := FirstGroupFromRow(s.orders, rows);
      assert x in Members(s, g) * Elements(rows);
    }
  }

  /** What a detection takes away from a group and what it gives. */
  ghost predicate TakenWholeOrNotAtAll(s: Store, rows: seq<OrderId>, g: GroupId) {
    Members(s, g) * Elements(rows) != {} ==> Members(s, g) <= Elements(rows)
  }

  lemma JudgeTarget(s': Store, g: GroupId, ms: set<OrderId>, es: set<OrderId>)
    requires Members(s', g) == ms + es && es != {}
    requires g in s'.groups && s'.groups[g].size == |es| && IsLeast(s'.orders, es, s'.groups[g].canonical)
    ensures GroupOk(s', g) <==> ms <= es
  {
    if ms <= es {
      assert ms + es == es;
    } else {
      ProperUnion(es, ms);
    }
  }

  lemma TargetGroupAfter(s: Store, id: OrderId, windowStart: Time, answer: seq<OrderId>, newId: GroupId)
    requires DetectEnabled(s, id, windowStart, answer, newId) && Consistent(s)
    requires (forall x :: x in answer ==> x in s.orders) && |WithSelf(answer, id)| > 1
    ensures var rows := WithSelf(answer, id);
            var g := TargetGroup(s, rows, newId);
            GroupOk(Detect(s, id, answer, newId), g) <==> TakenWholeOrNotAtAll(s, rows, g)
  {
    var rows, s' := WithSelf(answer, id), Detect(s, id, answer, newId);
    var orders, g := SaveFingerprint(s.orders, id), TargetGroup(s, rows, newId);
    var best := ChooseCanonicalOrder(CandidatesOf(orders, rows)).id;
    AnswerIsPresent(s, id, windowStart, answer);
    MembersAfter(s, id, windowStart, answer, newId, g);
    DistinctCardinality(rows);
    TargetIsNewOrTouched(s, rows, newId);
    ChoiceIsTheLeast(orders, rows, best);
    DetectKeepsCandidates(s, id, answer, newId);
    LeastIgnoresGroups(orders, s.orders, Elements(rows), best);
    LeastIgnoresGroups(s.orders, s'.orders, Elements(rows), best);
    assert rows[0] in Elements(rows);
    JudgeTarget(s', g, Members(s, g), Elements(rows));
  }

  lemma JudgeOther(s: Store, s': Store, g: GroupId, es: set<OrderId>)
    requires GroupOk(s, g) && Members(s', g) == Members(s, g) - es && SameCandidates(s.orders, s'.orders)
    requires g in s.groups ==> g in s'.groups && s'.groups[g] == s.groups[g]
    ensures GroupOk(s', g) <==> (Members(s, g) * es != {} ==> Members(s, g) <= es)
  {
    var ms := Members(s, g);
    if ms * es == {} {
      assert ms - es == ms by {
        assert forall x :: x in ms && x in es ==> x in ms * es;
      }
      if ms != {} {
        LeastIgnoresGroups(s.orders, s'.orders, ms, s.groups[g].canonical);
      }
    } else if ms <= es {
      assert ms - es == {};
    } else {
      var x :| x in ms * es;
      var y :| y in ms && y !in es;
      assert x in ms && x !in ms - es && y in ms - es;
      SubsetCardinality(ms - es, ms);
    }
  }

  lemma OtherGroupAfter(s: Store, id: OrderId, windowStart: Time, answer: seq<OrderId>, newId: GroupId, g: GroupId)
    requires DetectEnabled(s, id, windowStart, answer, newId) && Consistent(s)
    requires forall x :: x in answer ==> x in s.orders
    requires |WithSelf(answer, id)| > 1 ==> g != TargetGroup(s, WithSelf(answer, id), newId)
    ensures GroupOk(Detect(s, id, answer, newId), g) <==> TakenWholeOrNotAtAll(s, WithSelf(answer, id), g)
  {
    MembersAfter(s, id, windowStart, answer, newId, g);
    DetectKeepsCandidates(s, id, answer, newId);
    assert GroupOk(s, g);
    JudgeOther(s, Detect(s, id, answer, newId), g, Elements(WithSelf(answer, id)));
  }

  lemma GroupAfter(s: Store, id: OrderId, windowStart: Time, answer: seq<OrderId>, newId: GroupId, g: GroupId)
    requires DetectEnabled(s, id, windowStart, answer, newId) && Consistent(s)
    requires forall x :: x in answer ==> x in s.orders
    ensures GroupOk(Detect(s, id, answer, newId), g) <==> TakenWholeOrNotAtAll(s, WithSelf(answer, id), g)
  {
    var rows := WithSelf(answer, id);
    if |rows| > 1 && g == TargetGroup(s, rows, newId) {
      TargetGroupAfter(s, id, windowStart, answer, newId);
    } else {
      OtherGroupAfter(s, id, windowStart, answer, newId, g);
    }
  }

  /** A detection leaves every group with the right size and the least member as its canonical order exactly
      when no candidate shares a group with an order that is not a candidate. */
  lemma DetectionIsConsistentIffClosed(s: Store, id: OrderId, windowStart: Time, answer: seq<OrderId>, newId: GroupId)
    requires DetectEnabled(s, id, windowStart, answer, newId) && Consistent(s)
    requires forall x :: x in answer ==> x in s.orders
    ensures Consistent(Detect(s, id, answer, newId)) <==> Closed(s, WithSelf(answer, id))
  {
    var rows, s' := WithSelf(answer, id), Detect(s, id, answer, newId);
    forall g ensures GroupOk(s', g) <==> TakenWholeOrNotAtAll(s, rows, g) {
      GroupAfter(s, id, windowStart, answer, newId, g);
    }
    ClosedIff(s, rows);
  }

  lemma ClosedIff(s: Store, rows: seq<OrderId>)
    ensures Closed(s, rows) <==> forall g: GroupId :: TakenWholeOrNotAtAll(s, rows, g)
  {
    if Closed(s, rows) {
      forall g: GroupId ensures TakenWholeOrNotAtAll(s, rows, g) {
        if x :| x in Members(s, g) * Elements(rows) {
          assert x in rows;
        }
      }
    } else {
      var x, y :| x in rows && x in s.orders && y in s.orders && SameGroup(s, x, y) && y !in rows;
      var g := s.orders[x].groupId.value;
      assert x in Members(s, g) * Elements(rows) && y in Members(s, g) && y !in Elements(rows);
      assert !TakenWholeOrNotAtAll(s, rows, g);
    }
  }

  lemma ProperUnion(a: set<OrderId>, b: set<OrderId>)
    requires !(b <= a)
    ensures |b + a| > |a|
  {
    var x :| x in b && x !in a;
    assert |a + {x}| == |a| + 1;
    assert a + {x} <= b + a;
    SubsetCardinality(a + {x}, b + a);
  }
}
