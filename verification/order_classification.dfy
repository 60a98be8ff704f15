/** From a message to its order (app/services/order_classification.py). The model's answer and the clock
    readings are inputs of a classification. */
module OrderClassification {
  import opened ClassificationRules
  import opened Instants
  import OrderStatuses
  import opened Rounding
  import opened Wrappers

  type MessageId = nat

  // ---------- the decision and its gate ----------

  /** What the trained model answers: no usable artifact, or its best class (none when it is not a known one). */
  datatype MlOutput = Unavailable | Answer(best: Option<Label>, probability: real)

  datatype MlResult = MlPrediction(predicted: Label, certainty: real) | MlFallback

  datatype Method = ByRules | ByMl

  datatype Decision = Decision(verdict: Label, confidence: real, manualReview: bool, relevance: int, how: Method)

  function PredictWithMl(output: MlOutput, settings: Settings): MlResult {
    if !settings.mlEnabled || output.Unavailable? || output.best.None? || output.probability < settings.mlMinConfidence
    then MlFallback
    else MlPrediction(output.best.value, Round4(output.probability))
  }

  function BuildDecision(rules: RulesResult, ml: MlResult): Decision {
    match ml
    case MlPrediction(predicted, certainty) =>
      Decision(predicted, certainty, false, if predicted == OrderLabel then rules.relevance else 0, ByMl)
    case MlFallback =>
      Decision(rules.verdict, rules.confidence, rules.manualReview, rules.relevance, ByRules)
  }

  predicate IsFresh(publishedAt: Time, freshnessDays: int, now: Time) {
    AgeInDays(publishedAt, now) <= freshnessDays as real
  }

  /** In instants: to the microsecond. */
  lemma FreshToTheMicrosecond(publishedAt: Time, freshnessDays: int, now: Time)
    ensures IsFresh(publishedAt, freshnessDays, now) <==> now - publishedAt <= freshnessDays * 86_400_000_000
  {
    var age := now - publishedAt;
    assert AgeInDays(publishedAt, now) * DAY as real == age as real;
    assert (freshnessDays * DAY) as real == freshnessDays as real * DAY as real;
  }

  predicate ShouldCreateOrder(d: Decision, publishedAt: Time, settings: Settings, now: Time) {
    && d.verdict == OrderLabel && !d.manualReview && d.confidence >= settings.orderMinConfidence
    && d.relevance >= settings.orderMinRelevance && IsFresh(publishedAt, settings.freshnessDays, now)
  }

  function Decide(input: Input, ml: MlOutput, settings: Settings, now: Time): Decision
    requires settings.freshnessDays != 0
  {
    BuildDecision(ClassifyRules(input, settings, now), PredictWithMl(ml, settings))
  }

  /** The rules read the clock at `now`, the gate later at `gateAt`. */
  predicate Passes(input: Input, ml: MlOutput, settings: Settings, now: Time, gateAt: Time)
    requires settings.freshnessDays != 0
  {
    ShouldCreateOrder(Decide(input, ml, settings, now), input.publishedAt, settings, gateAt)
  }

  /** The trained model is switched on, knows an answer and is sure enough of it. */
  predicate Usable(ml: MlOutput, settings: Settings) {
    settings.mlEnabled && ml.Answer? && ml.best.Some? && ml.probability >= settings.mlMinConfidence
  }

  /** A usable prediction replaces the label, its confidence and manual review, and keeps the relevance of the rules for
      an order; otherwise the rules decide. */
  lemma WhoDecides(input: Input, ml: MlOutput, settings: Settings, now: Time)
    requires settings.freshnessDays != 0
    ensures var rules, d := ClassifyRules(input, settings, now), Decide(input, ml, settings, now);
            if Usable(ml, settings) then
              && d.how == ByMl && Some(d.verdict) == ml.best && !d.manualReview
              && -0.00005 <= d.confidence - ml.probability <= 0.00005
              && d.relevance == if ml.best == Some(OrderLabel) then rules.relevance else 0
            else
              && d.how == ByRules && d.verdict == rules.verdict && d.manualReview == rules.manualReview
              && d.confidence == rules.confidence && d.relevance == rules.relevance
  {
  }

  /** The gate: a fresh message that is labelled an order, with enough confidence and relevance and nothing left to
      manual review. */
  lemma GateIs(input: Input, ml: MlOutput, settings: Settings, now: Time, gateAt: Time)
    requires settings.freshnessDays != 0
    ensures var rules := ClassifyRules(input, settings, now);
            Passes(input, ml, settings, now, gateAt)
            <==> && gateAt - input.publishedAt <= settings.freshnessDays * 86_400_000_000
                 && rules.relevance >= settings.orderMinRelevance
                 && (if Usable(ml, settings) then
                       ml.best == Some(OrderLabel) && Round4(ml.probability) >= settings.orderMinConfidence
                     else
                       && rules.verdict == OrderLabel && !rules.manualReview
                       && rules.confidence >= settings.orderMinConfidence)
  {
    FreshToTheMicrosecond(input.publishedAt, settings.freshnessDays, gateAt);
  }

  /** With a positive relevance threshold only a message that the rules label an order becomes one,
      whoever decides: no ad, vacancy, resume, partnership or spam marker, and no penalty. */
  lemma OrdersAreClean(input: Input, ml: MlOutput, settings: Settings, now: Time, gateAt: Time)
    requires settings.freshnessDays != 0 && settings.orderMinRelevance > 0
    requires Passes(input, ml, settings, now, gateAt)
    ensures ClassifyRules(input, settings, now).verdict == OrderLabel
    ensures Clean(input) && !OnlyAsks(input) && Strength(input) >= 0.42
    ensures var s := BuildSignals(input, settings.freshnessDays, now); s.ad == 0.0 && s.spam == 0.0 && s.pClient == 1.0
  {
    OrderLabelIff(input, settings, now);
  }

  /** The trained model alone makes a fresh message an order exactly when the relevance threshold asks nothing. */
  lemma MlAloneMakesAnOrderIff(input: Input, ml: MlOutput, settings: Settings, now: Time, gateAt: Time)
    requires settings.freshnessDays != 0 && gateAt - input.publishedAt <= settings.freshnessDays * 86_400_000_000
    requires ClassifyRules(input, settings, now).verdict != OrderLabel
    requires Usable(ml, settings) && ml.best == Some(OrderLabel)
    requires Round4(ml.probability) >= settings.orderMinConfidence
    ensures Passes(input, ml, settings, now, gateAt) <==> settings.orderMinRelevance <= 0
  {
    OrderLabelIff(input, settings, now);
    FreshToTheMicrosecond(input.publishedAt, settings.freshnessDays, gateAt);
  }

  /** A weak order (strength below 0.58) decided by the rules passes on confidence exactly when the threshold is
      at most 0.55 and 0.55 is not left to manual review; a strong one does whatever the two are up to 0.76. */
  lemma RulesConfidencePassesIff(input: Input, settings: Settings, now: Time)
    requires settings.freshnessDays != 0 && ClassifyRules(input, settings, now).verdict == OrderLabel
    ensures var r := ClassifyRules(input, settings, now);
            var confident := !r.manualReview && r.confidence >= settings.orderMinConfidence;
            && (Strength(input) < 0.58 ==>
                (confident
                 <==> settings.orderMinConfidence <= 0.55 && !(settings.manualMin <= 0.55 <= settings.manualMax)))
            && (Strength(input) >= 0.58 && settings.orderMinConfidence <= 0.76 && settings.manualMax < 0.76 ==>
                confident)
  {
    OrderConfidence(input, settings, now);
    OrderLabelIff(input, settings, now);
    StrengthIsOrderStrength(input, settings.freshnessDays, now);
  }

  /** The whole pipeline under default settings: what it takes to become an order. */
  lemma DefaultGate(input: Input, ml: MlOutput, now: Time, gateAt: Time)
    ensures Passes(input, ml, DEFAULTS, now, gateAt)
            <==> && Clean(input) && !OnlyAsks(input) && Strength(input) >= 0.58 && Points(input, now) >= 47.5
                 && gateAt - input.publishedAt <= 7 * 86_400_000_000
  {
    OrderLabelIff(input, DEFAULTS, now);
    FreshToTheMicrosecond(input.publishedAt, 7, gateAt);
    if ClassifyRules(input, DEFAULTS, now).verdict == OrderLabel {
      RulesConfidencePassesIff(input, DEFAULTS, now);
      DefaultRelevance(input, now);
    }
  }

  /** A clean, fresh message that says it needs a known type of project is an order, whatever else it leaves out;
      one that asks for it without a recognized type needs a budget, a contact or a deadline as well. */
  lemma NeedAndProjectTypeSuffice(input: Input, ml: MlOutput, now: Time, gateAt: Time)
    requires Clean(input) && gateAt - input.publishedAt <= 7 * 86_400_000_000
    requires input.keywordHits != [] || input.text.need
    ensures input.projectTypes != [] ==> Passes(input, ml, DEFAULTS, now, gateAt)
    ensures input.projectTypes == [] && input.budgets == [] && input.contacts == [] && input.deadlines == []
            ==> !Passes(input, ml, DEFAULTS, now, gateAt)
  {
    DefaultGate(input, ml, now, gateAt);
  }

  /** The same with the trained model switched on: where it answers, it overrides the rules' strength and their
      manual review, so that weak orders of the rules pass, but not what makes a message clean or relevant. */
  lemma DefaultGateWithMl(input: Input, ml: MlOutput, now: Time, gateAt: Time)
    ensures var settings := DEFAULTS.(mlEnabled := true);
            Passes(input, ml, settings, now, gateAt)
            <==> && Clean(input) && !OnlyAsks(input) && Points(input, now) >= 47.5
                 && gateAt - input.publishedAt <= 7 * 86_400_000_000
                 && (if ml.Answer? && ml.best.Some? && ml.probability >= 0.7
                     then ml.best == Some(OrderLabel) && Strength(input) >= 0.42
                     else Strength(input) >= 0.58)
  {
    var settings := DEFAULTS.(mlEnabled := true);
    OrderLabelIff(input, settings, now);
    FreshToTheMicrosecond(input.publishedAt, 7, gateAt);
    if PredictWithMl(ml, settings).MlPrediction? {
      Round4KeepsThreshold(ml.probability, 0.7, 7000);
    }
    if ClassifyRules(input, settings, now).verdict == OrderLabel {
      RulesConfidencePassesIff(input, settings, now);
      DefaultRelevance(input, now);
    }
  }

  // ---------- the tables ----------

  datatype Message = Message(
    sourceId: nat, text: Text, publishedAt: Time, failedPrefilter: bool, entities: seq<Fact>)

  function OfKind(facts: seq<Fact>, kind: Kind): (found: seq<Fact>)
    ensures forall f :: f in found <==> f in facts && f.kind == kind
  {
    if facts == [] then []
    else (if facts[0].kind == kind then [facts[0]] else []) + OfKind(facts[1..], kind)
  }

  function BuildInput(m: Message): Input {
    Input(m.text, m.publishedAt, m.failedPrefilter,
          OfKind(m.entities, KeywordHit), OfKind(m.entities, NegativeKeywordHit), OfKind(m.entities, ProjectType),
          OfKind(m.entities, Budget), OfKind(m.entities, Deadline), OfKind(m.entities, Contact))
  }

  /** The entities of one kind keep their order: the first of them is the first of that kind. */
  lemma {:induction false} FirstOfKind(facts: seq<Fact>, kind: Kind) returns (k: nat)
    requires OfKind(facts, kind) != []
    ensures k < |facts| && facts[k] == OfKind(facts, kind)[0]
    ensures forall i :: 0 <= i < k ==> facts[i].kind != kind
  {
    k := 0;
    if facts[0].kind == kind {
    } else {
      var j := FirstOfKind(facts[1..], kind);
      k := j + 1;
      forall i | 0 <= i < k ensures facts[i].kind != kind {
        assert i > 0 ==> facts[i] == facts[1..][i - 1];
      }
    }
  }

  ghost predicate Mentions(m: Message, kind: Kind) {
    exists f :: f in m.entities && f.kind == kind
  }

  /** What the rules see of a message: its text, date and prefilter, and which kinds of entity were extracted. */
  lemma InputIsTheMessage(m: Message)
    ensures var input := BuildInput(m);
            && input.text == m.text && input.publishedAt == m.publishedAt && input.failedPrefilter == m.failedPrefilter
            && (input.keywordHits != [] <==> Mentions(m, KeywordHit))
            && (input.negativeHits != [] <==> Mentions(m, NegativeKeywordHit))
            && (input.projectTypes != [] <==> Mentions(m, ProjectType))
            && (input.budgets != [] <==> Mentions(m, Budget))
            && (input.deadlines != [] <==> Mentions(m, Deadline))
            && (input.contacts != [] <==> Mentions(m, Contact))
  {
    forall kind ensures OfKind(m.entities, kind) != [] <==> Mentions(m, kind) {
      if OfKind(m.entities, kind) != [] {
        assert OfKind(m.entities, kind)[0] in OfKind(m.entities, kind);
      }
    }
  }

  datatype Classification = Classification(messageId: MessageId, decision: Decision)

  datatype Order = Order(
    sourceId: nat, projectType: Option<string>, publishedAt: Time, relevance: int, status: OrderStatuses.OrderStatus,
    isFresh: bool, duplicateGroup: Option<nat>, notifiedAt: Option<Time>, version: nat)

  datatype Tables = Tables(
    messages: map<MessageId, Message>, classifications: seq<Classification>, orders: map<MessageId, Order>)

  /** When the rules, the gate and the row's fields read the clock. */
  datatype Clock = Clock(rulesAt: Time, gateAt: Time, storeAt: Time)

  datatype Result =
    | NotFound
    | DivisionByZero
    | Classified(decision: Decision, hasOrder: bool)

  /** The type named by the first project type that has a normalized value. */
  function ProjectTypeOf(facts: seq<Fact>): Option<string> {
    if facts == [] then None
    else if facts[0].kind == ProjectType && facts[0].hasValue
    then (if facts[0].projectType == "" then None else Some(facts[0].projectType))
    else ProjectTypeOf(facts[1..])
  }

  function Without(rows: seq<Classification>, id: MessageId): (rest: seq<Classification>)
    ensures forall c :: c in rest <==> c in rows && c.messageId != id
  {
    if rows == [] then []
    else if rows[0].messageId == id then Without(rows[1..], id)
    else [rows[0]] + Without(rows[1..], id)
  }

  /** The order row a passing decision leaves: the message's fields are written over it and it is new again;
      its duplicate group and notification time stay. */
  function Stored(m: Message, d: Decision, existing: Option<Order>, settings: Settings, storeAt: Time): Order {
    Order(m.sourceId, ProjectTypeOf(m.entities), m.publishedAt, d.relevance, OrderStatuses.New,
          IsFresh(m.publishedAt, settings.freshnessDays, storeAt),
          if existing.Some? then existing.value.duplicateGroup else None,
          if existing.Some? then existing.value.notifiedAt else None,
          if existing.Some? then existing.value.version + 1 else 1)
  }

  function OrderOf(t: Tables, id: MessageId): Option<Order> {
    if id in t.orders then Some(t.orders[id]) else None
  }

  function Classify(t: Tables, id: MessageId, ml: MlOutput, clock: Clock, settings: Settings): Tables {
    if id !in t.messages || settings.freshnessDays == 0 then t
    else
      var m := t.messages[id];
      var d := Decide(BuildInput(m), ml, settings, clock.rulesAt);
      t.(classifications := Without(t.classifications, id) + [Classification(id, d)],
         orders := if Passes(BuildInput(m), ml, settings, clock.rulesAt, clock.gateAt)
                   then t.orders[id := Stored(m, d, OrderOf(t, id), settings, clock.storeAt)]
                   else t.orders - {id})
  }

  /** Fact `k` is the first project type that has a value. */
  predicate NamesType(facts: seq<Fact>, k: nat) {
    && k < |facts| && facts[k].kind == ProjectType && facts[k].hasValue
    && forall j :: 0 <= j < k ==> !(facts[j].kind == ProjectType && facts[j].hasValue)
  }

  lemma {:induction false} ProjectTypeIsTheFirst(facts: seq<Fact>)
    ensures forall k: nat | NamesType(facts, k) ::
              ProjectTypeOf(facts) == if facts[k].projectType == "" then None else Some(facts[k].projectType)
    ensures (forall k: nat :: !NamesType(facts, k)) ==> ProjectTypeOf(facts).None?
  {
    if facts == [] {
    } else if facts[0].kind == ProjectType && facts[0].hasValue {
      assert NamesType(facts, 0);
    } else {
      ProjectTypeIsTheFirst(facts[1..]);
      forall k: nat | NamesType(facts, k) ensures k > 0 && NamesType(facts[1..], k - 1) {
        assert forall j :: 0 <= j < k - 1 ==> facts[1..][j] == facts[j + 1];
      }
      forall k: nat | NamesType(facts[1..], k) ensures NamesType(facts, k + 1) {
        assert forall j :: 0 < j < k + 1 ==> facts[j] == facts[1..][j - 1];
      }
    }
  }

  /** What a classification stores: one row for the message with its decision, and in an order the message's own
      fields, the relevance of that decision, and whether it was fresh when it was stored. */
  lemma StoredOrderIs(t: Tables, id: MessageId, ml: MlOutput, clock: Clock, settings: Settings)
    requires id in t.messages && settings.freshnessDays != 0
    ensures var t', m := Classify(t, id, ml, clock, settings), t.messages[id];
            var d := Decide(BuildInput(m), ml, settings, clock.rulesAt);
            && t'.messages == t.messages
            && (forall c :: c in t'.classifications
                            <==> c == Classification(id, d) || (c in t.classifications && c.messageId != id))
            && (id in t'.orders ==>
                  var o := t'.orders[id];
                  && o.sourceId == m.sourceId && o.publishedAt == m.publishedAt && o.relevance == d.relevance
                  && o.status == OrderStatuses.New && o.projectType == ProjectTypeOf(m.entities)
                  && (o.isFresh <==> clock.storeAt - m.publishedAt <= settings.freshnessDays * 86_400_000_000)
                  && (if id in t.orders then
                        && o.duplicateGroup == t.orders[id].duplicateGroup
                        && o.notifiedAt == t.orders[id].notifiedAt && o.version == t.orders[id].version + 1
                      else o.duplicateGroup.None? && o.notifiedAt.None? && o.version == 1))
  {
    var rest := Without(t.classifications, id);
    var c := Classification(id, Decide(BuildInput(t.messages[id]), ml, settings, clock.rulesAt));
    assert forall x :: x in rest + [c] <==> x in rest || x == c;
    FreshToTheMicrosecond(t.messages[id].publishedAt, settings.freshnessDays, clock.storeAt);
  }

  class OrderClassifier {
    const settings: Settings
    var messages: map<MessageId, Message>
    var classifications: seq<Classification>
    var orders: map<MessageId, Order>

    constructor (settings: Settings, messages: map<MessageId, Message>)
      ensures this.settings == settings && State() == Tables(messages, [], map[])
    {
      this.settings, this.messages, this.classifications, this.orders := settings, messages, [], map[];
    }

    function State(): Tables
      reads this
    {
      Tables(messages, classifications, orders)
    }

    method PersistClassification(id: MessageId, decision: Decision)
      modifies this`classifications
      ensures classifications == Without(old(classifications), id) + [Classification(id, decision)]
    {
      classifications := Without(classifications, id);
      classifications := classifications + [Classification(id, decision)];
    }

    /** Deletes, inserts or updates the order of the message. */
    method PersistOrder(id: MessageId, m: Message, d: Decision, gateAt: Time, storeAt: Time) returns (stored: bool)
      modifies this`orders
      ensures stored <==> ShouldCreateOrder(d, m.publishedAt, settings, gateAt)
      ensures stored ==> orders == old(orders)[id := Stored(m, d, OrderOf(old(State()), id), settings, storeAt)]
      ensures !stored ==> orders == old(orders) - {id}
    {
      if !ShouldCreateOrder(d, m.publishedAt, settings, gateAt) {
        if id in orders {
          orders := orders - {id};
        }
        return false;
      }
      var projectType := ProjectTypeOf(m.entities);
      var isFresh := IsFresh(m.publishedAt, settings.freshnessDays, storeAt);
      if id !in orders {
        var created := Order(m.sourceId, projectType, m.publishedAt, d.relevance, OrderStatuses.New, isFresh,
                             None, None, 1);
        orders := orders[id := created];
        return true;
      }
      var order := orders[id];
      order := order.(sourceId := m.sourceId, projectType := projectType, publishedAt := m.publishedAt,
                      relevance := d.relevance, status := OrderStatuses.New, isFresh := isFresh);
      order := order.(version := order.version + 1);
      orders := orders[id := order];
      return true;
    }

    method ClassifyMessage(id: MessageId, ml: MlOutput, clock: Clock) returns (result: Result)
      modifies this`classifications, this`orders
      ensures State() == Classify(old(State()), id, ml, clock, settings)
      ensures result == if id !in messages then NotFound
                        else if settings.freshnessDays == 0 then DivisionByZero
                        else Classified(Decide(BuildInput(messages[id]), ml, settings, clock.rulesAt), id in orders)
    {
      if id !in messages {
        return NotFound;
      }
      if settings.freshnessDays == 0 {
        return DivisionByZero;
      }
      var m := messages[id];
      var rules := ClassifyRules(BuildInput(m), settings, clock.rulesAt);
      var decision := BuildDecision(rules, PredictWithMl(ml, settings));
      PersistClassification(id, decision);
      var stored := PersistOrder(id, m, decision, clock.gateAt, clock.storeAt);
      return Classified(decision, stored);
    }
  }

  // ---------- runs ----------

  /** Beside classification, messages arrive, change and go, orders change status and are grouped or notified. */
  datatype Step =
    | Reclassify(id: MessageId, ml: MlOutput, clock: Clock)
    | Rewrite(messages: map<MessageId, Message>)
    | Touch(orders: map<MessageId, Order>)

  /** Status, grouping and notification, and the version that counts changes. */
  predicate OnlyTouched(before: map<MessageId, Order>, after: map<MessageId, Order>) {
    && after.Keys == before.Keys
    && forall id | id in before ::
         after[id].relevance == before[id].relevance && after[id].version >= before[id].version
  }

  predicate Enabled(t: Tables, s: Step) {
    s.Touch? ==> OnlyTouched(t.orders, s.orders)
  }

  function Take(t: Tables, s: Step, settings: Settings): Tables {
    match s
    case Reclassify(id, ml, clock) => Classify(t, id, ml, clock, settings)
    case Rewrite(messages) => t.(messages := messages)
    case Touch(orders) => t.(orders := orders)
  }

  ghost predicate Run(t: Tables, steps: seq<Step>, t': Tables, settings: Settings)
    decreases |steps|
  {
    if steps == [] then t' == t
    else Enabled(t, steps[0]) && Run(Take(t, steps[0], settings), steps[1..], t', settings)
  }

  predicate Qualifies(d: Decision, settings: Settings) {
    && d.verdict == OrderLabel && !d.manualReview && d.confidence >= settings.orderMinConfidence
    && d.relevance >= settings.orderMinRelevance
  }

  predicate OnePerMessage(rows: seq<Classification>) {
    forall i, j :: 0 <= i < j < |rows| ==> rows[i].messageId != rows[j].messageId
  }

  /** Every message has at most one classification; every order has one, it qualifies, and it gave the relevance. */
  ghost predicate Consistent(t: Tables, settings: Settings) {
    && OnePerMessage(t.classifications)
    && (forall id :: id in t.orders ==> Justified(t.classifications, id, t.orders[id], settings))
  }

  ghost predicate Justified(rows: seq<Classification>, id: MessageId, order: Order, settings: Settings) {
    exists c :: c in rows && c.messageId == id && Qualifies(c.decision, settings)
                && order.relevance == c.decision.relevance && order.version >= 1
  }

  lemma {:induction false} WithoutKeepsOne(rows: seq<Classification>, id: MessageId)
    requires OnePerMessage(rows)
    ensures OnePerMessage(Without(rows, id))
  {
    if rows == [] {
    } else {
      var rest := Without(rows[1..], id);
      WithoutKeepsOne(rows[1..], id);
      forall k | 0 <= k < |rest| ensures rest[k].messageId != rows[0].messageId {
        assert rest[k] in rest;
        var i :| 0 <= i < |rows[1..]| && rows[1..][i] == rest[k];
        assert rows[i + 1] == rest[k];
      }
    }
  }

  lemma NewClassification(rows: seq<Classification>, c: Classification)
    requires OnePerMessage(rows)
    ensures OnePerMessage(Without(rows, c.messageId) + [c])
  {
    var rest := Without(rows, c.messageId);
    WithoutKeepsOne(rows, c.messageId);
    forall k | 0 <= k < |rest| ensures rest[k].messageId != c.messageId {
      assert rest[k] in rest;
    }
  }

  lemma ClassifyKeepsConsistent(t: Tables, id: MessageId, ml: MlOutput, clock: Clock, settings: Settings)
    requires Consistent(t, settings)
    ensures Consistent(Classify(t, id, ml, clock, settings), settings)
  {
    var t' := Classify(t, id, ml, clock, settings);
    if t' != t {
      var c := t'.classifications[|t'.classifications| - 1];
      NewClassification(t.classifications, c);
      forall k | k in t'.orders ensures Justified(t'.classifications, k, t'.orders[k], settings) {
        if k == id {
          assert c in t'.classifications && Qualifies(c.decision, settings);
        } else {
          var d :| d in t.classifications && d.messageId == k && Qualifies(d.decision, settings)
                   && t.orders[k].relevance == d.decision.relevance && t.orders[k].version >= 1;
          assert d in t'.classifications;
        }
      }
    }
  }

  /** Over every run, no order outlives a classification that would not have made it. */
  lemma {:induction false} OrdersOverRuns(t: Tables, steps: seq<Step>, t': Tables, settings: Settings)
    requires Run(t, steps, t', settings) && Consistent(t, settings)
    ensures Consistent(t', settings)
    decreases |steps|
  {
    if steps == [] {
    } else {
      if steps[0].Reclassify? {
        ClassifyKeepsConsistent(t, steps[0].id, steps[0].ml, steps[0].clock, settings);
      }
      OrdersOverRuns(Take(t, steps[0], settings), steps[1..], t', settings);
    }
  }

  /** After a step: an order row exists exactly when the decision passed, and it is the only order that changed. */
  lemma OrderExistsIffGatePasses(t: Tables, id: MessageId, ml: MlOutput, clock: Clock, settings: Settings)
    requires id in t.messages && settings.freshnessDays != 0
    ensures var t' := Classify(t, id, ml, clock, settings);
            && (id in t'.orders <==> Passes(BuildInput(t.messages[id]), ml, settings, clock.rulesAt, clock.gateAt))
            && t'.orders - {id} == t.orders - {id}
            && (id in t'.orders && settings.orderMinRelevance > 0 ==> Clean(BuildInput(t.messages[id])))
  {
    var input := BuildInput(t.messages[id]);
    if Passes(input, ml, settings, clock.rulesAt, clock.gateAt) && settings.orderMinRelevance > 0 {
      OrdersAreClean(input, ml, settings, clock.rulesAt, clock.gateAt);
    }
  }

  /** Classifying again at the same instants changes only the version and takes the status back to new;
      an order that someone had dismissed is new again. */
  lemma ClassifyingAgain(t: Tables, id: MessageId, ml: MlOutput, clock: Clock, settings: Settings)
    requires id in t.messages && settings.freshnessDays != 0
    ensures var t' := Classify(t, id, ml, clock, settings);
            var t'' := Classify(t', id, ml, clock, settings);
            && multiset(t''.classifications) == multiset(t'.classifications)
            && t''.orders.Keys == t'.orders.Keys
            && (id in t'.orders ==> t'.orders[id].status == OrderStatuses.New
                                    && t''.orders
                                       == t'.orders[id := t'.orders[id].(version := t'.orders[id].version + 1)])
  {
    var t' := Classify(t, id, ml, clock, settings);
    var d := Decide(BuildInput(t.messages[id]), ml, settings, clock.rulesAt);
    WithoutLast(Without(t.classifications, id), Classification(id, d), id);
  }

  lemma {:induction false} WithoutLast(rows: seq<Classification>, c: Classification, id: MessageId)
    requires c.messageId == id && forall r :: r in rows ==> r.messageId != id
    ensures Without(rows + [c], id) == rows
  {
    if rows == [] {
    } else {
      assert (rows + [c])[1..] == rows[1..] + [c];
      WithoutLast(rows[1..], c, id);
    }
  }
}
