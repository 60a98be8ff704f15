/** Rule-based classification (app/classification/rules.py). What a regular expression finds in the text is
    a free input; scores are reals. */
module ClassificationRules {
  import opened Instants
  import opened Rounding

  datatype Label = OrderLabel | Vacancy | ServiceAd | Resume | Partnership | Spam | Discussion | Irrelevant

  /** Whether the text is empty, and which of the marker expressions occur in it. */
  datatype Text = Text(
    empty: bool, need: bool, task: bool, taskObject: bool, vacancy: bool, serviceAd: bool, resume: bool,
    partnership: bool, spam: bool, discussion: bool)

  datatype Kind = KeywordHit | NegativeKeywordHit | ProjectType | Budget | Deadline | Contact | OtherKind

  /** An extracted entity: whether it has a normalized value, and what that says. */
  datatype Fact = Fact(kind: Kind, hasValue: bool, negotiable: bool, projectType: string)

  datatype Input = Input(
    text: Text, publishedAt: Time, failedPrefilter: bool, keywordHits: seq<Fact>, negativeHits: seq<Fact>,
    projectTypes: seq<Fact>, budgets: seq<Fact>, deadlines: seq<Fact>, contacts: seq<Fact>)

  datatype Signals = Signals(
    need: real, task: real, budget: real, deadline: real, contact: real, niche: real, freshness: real,
    pClient: real, ad: real, spam: real)

  datatype Settings = Settings(
    manualMin: real, manualMax: real, orderMinConfidence: real, orderMinRelevance: int, freshnessDays: int,
    mlEnabled: bool, mlMinConfidence: real, weights: Signals)

  const DEFAULTS := Settings(0.4, 0.6, 0.6, 60, 7, false, 0.7,
                             Signals(0.18, 0.16, 0.14, 0.08, 0.10, 0.14, 0.08, 0.12, 0.10, 0.10))

  datatype RulesResult = RulesResult(verdict: Label, confidence: real, manualReview: bool, relevance: int)

  function If(b: bool): real { if b then 1.0 else 0.0 }

  function Min(x: real, y: real): real { if x <= y then x else y }

  function Max(x: real, y: real): real { if x >= y then x else y }

  function Clamp(x: real): real { Max(0.0, Min(1.0, x)) }

  function BudgetSignal(budgets: seq<Fact>): real {
    if budgets == [] then 0.0 else if budgets[0].hasValue && budgets[0].negotiable then 0.5 else 1.0
  }

  function AgeInDays(publishedAt: Time, now: Time): real {
    (now - publishedAt) as real / DAY as real
  }

  function FreshnessSignal(publishedAt: Time, freshnessDays: int, now: Time): real
    requires freshnessDays != 0
  {
    Clamp(1.0 - Max(0.0, AgeInDays(publishedAt, now)) / freshnessDays as real)
  }

  function AdSignal(input: Input): real {
    if input.negativeHits != [] then 1.0 else If(input.text.serviceAd)
  }

  function ClientProbability(text: Text, ad: real, spam: real): real {
    var p := Clamp(1.0 - 0.75 * ad - 0.35 * spam);
    if text.vacancy || text.resume then Min(p, 0.35) else p
  }

  function BuildSignals(input: Input, freshnessDays: int, now: Time): Signals
    requires freshnessDays != 0
  {
    var text, ad, spam := input.text, AdSignal(input), If(input.text.spam);
    var task := If(input.projectTypes != [] || text.task);
    Signals(If(input.keywordHits != [] || text.need),
            if task == 0.0 && text.taskObject then 0.5 else task,
            BudgetSignal(input.budgets), If(input.deadlines != []), If(input.contacts != []),
            If(input.projectTypes != []), FreshnessSignal(input.publishedAt, freshnessDays, now),
            ClientProbability(text, ad, spam), ad, spam)
  }

  function OrderStrength(s: Signals): real {
    0.32 * s.need + 0.24 * s.task + 0.16 * s.niche + 0.12 * s.budget + 0.08 * s.contact + 0.08 * s.deadline
  }

  function ChooseLabel(input: Input, s: Signals): (Label, real) {
    var text := input.text;
    var strength := OrderStrength(s);
    if text.empty then (Irrelevant, 0.9)
    else if text.spam then (Spam, 0.92)
    else if text.vacancy then (Vacancy, 0.86)
    else if text.resume then (Resume, 0.86)
    else if text.partnership then (Partnership, 0.82)
    else if input.negativeHits != [] || text.serviceAd then (ServiceAd, 0.88)
    else if text.discussion && s.need < 1.0 then (Discussion, 0.76)
    else if input.failedPrefilter && input.keywordHits == [] && strength < 0.42 then (Irrelevant, 0.9)
    else if strength >= 0.58 && s.ad < 0.5 && s.spam < 0.5 then (OrderLabel, Min(0.95, Max(0.62, strength + 0.18)))
    else if strength >= 0.42 then (OrderLabel, 0.55)
    else if text.discussion then (Discussion, 0.72)
    else (Irrelevant, 0.78)
  }

  function RawScore(s: Signals, w: Signals): real {
    w.need * s.need + w.task * s.task + w.budget * s.budget + w.deadline * s.deadline + w.contact * s.contact
    + w.niche * s.niche + w.freshness * s.freshness + w.pClient * s.pClient - w.ad * s.ad - w.spam * s.spam
  }

  function RelevanceScore(s: Signals, w: Signals): int {
    Round(Clamp(RawScore(s, w)) * 100.0)
  }

  function ClassifyRules(input: Input, settings: Settings, now: Time): RulesResult
    requires settings.freshnessDays != 0
  {
    var s := BuildSignals(input, settings.freshnessDays, now);
    var (chosen, confidence) := ChooseLabel(input, s);
    RulesResult(chosen, Round4(confidence), settings.manualMin <= confidence <= settings.manualMax,
                if chosen == OrderLabel then RelevanceScore(s, settings.weights) else 0)
  }

  // ---------- which messages look like orders ----------

  /** Nothing in the message marks it as anything but a client's. */
  predicate Clean(input: Input) {
    var text := input.text;
    && !text.empty && !text.spam && !text.vacancy && !text.resume && !text.partnership && !text.serviceAd
    && input.negativeHits == []
  }

  /** A question by someone who does not say they need anything. */
  predicate OnlyAsks(input: Input) {
    input.text.discussion && input.keywordHits == [] && !input.text.need
  }

  /** Without signals: what a message says, weighed for the label. */
  function Strength(input: Input): real {
    0.32 * If(input.keywordHits != [] || input.text.need)
    + (if input.projectTypes != [] then 0.40
       else if input.text.task then 0.24
       else if input.text.taskObject then 0.12 else 0.0)
    + (if input.budgets == [] then 0.0
       else if input.budgets[0].hasValue && input.budgets[0].negotiable then 0.06 else 0.12)
    + 0.08 * If(input.contacts != []) + 0.08 * If(input.deadlines != [])
  }

  /** A message is labelled an order exactly when it is clean, does more than ask, and says enough;
      then no penalty applies to it. Only orders have a relevance. */
  lemma OrderLabelIff(input: Input, settings: Settings, now: Time)
    requires settings.freshnessDays != 0
    ensures ClassifyRules(input, settings, now).verdict == OrderLabel
            <==> Clean(input) && !OnlyAsks(input) && Strength(input) >= 0.42
    ensures Clean(input) ==> var s := BuildSignals(input, settings.freshnessDays, now);
                             s.ad == 0.0 && s.spam == 0.0 && s.pClient == 1.0
    ensures var r := ClassifyRules(input, settings, now); r.verdict != OrderLabel ==> r.relevance == 0
  {
    StrengthIsOrderStrength(input, settings.freshnessDays, now);
  }

  /** Among several markers spam goes first, then vacancy, resume and partnership, and an ad last. */
  lemma MarkersDecideInOrder(input: Input, settings: Settings, now: Time)
    requires settings.freshnessDays != 0 && !input.text.empty
    ensures var verdict, text := ClassifyRules(input, settings, now).verdict, input.text;
            && (verdict == Spam <==> text.spam)
            && (verdict in {Spam, Vacancy} <==> text.spam || text.vacancy)
            && (verdict in {Spam, Vacancy, Resume} <==> text.spam || text.vacancy || text.resume)
            && (verdict in {Spam, Vacancy, Resume, Partnership}
                <==> text.spam || text.vacancy || text.resume || text.partnership)
            && (verdict in {OrderLabel, Discussion, Irrelevant} <==> Clean(input))
  {
  }

  lemma StrengthIsOrderStrength(input: Input, freshnessDays: int, now: Time)
    requires freshnessDays != 0
    ensures OrderStrength(BuildSignals(input, freshnessDays, now)) == Strength(input)
  {
  }

  /** How sure the rules are of an order: 0.55 when it is weak, at least 0.76 otherwise, never in between. */
  lemma OrderConfidence(input: Input, settings: Settings, now: Time)
    requires settings.freshnessDays != 0 && ClassifyRules(input, settings, now).verdict == OrderLabel
    ensures var r := ClassifyRules(input, settings, now);
            && (Strength(input) < 0.58 ==> r.confidence == 0.55)
            && (Strength(input) >= 0.58 ==> 0.76 <= r.confidence <= 0.95)
  {
    OrderLabelIff(input, settings, now);
    StrengthIsOrderStrength(input, settings.freshnessDays, now);
    var confidence := ChooseLabel(input, BuildSignals(input, settings.freshnessDays, now)).1;
    Round4KeepsThreshold(confidence, 0.55, 5500);
    Round4KeepsThreshold(confidence, 0.76, 7600);
    Round4KeepsThreshold(confidence, 0.95, 9500);
  }

  /** A clean message that is no order is a discussion when it asks, unless it says it needs something, is weak, failed
      the prefilter and hit no keyword; everything else is irrelevant. */
  lemma DiscussionIff(input: Input, settings: Settings, now: Time)
    requires settings.freshnessDays != 0
    ensures ClassifyRules(input, settings, now).verdict == Discussion
            <==> && Clean(input) && input.text.discussion
                 && (OnlyAsks(input)
                     || (Strength(input) < 0.42 && !(input.failedPrefilter && input.keywordHits == [])))
    ensures ClassifyRules(input, settings, now).verdict == Irrelevant
            <==> || input.text.empty
                 || (&& Clean(input) && !OnlyAsks(input) && Strength(input) < 0.42
                     && (input.text.discussion ==> input.failedPrefilter && input.keywordHits == []))
  {
    StrengthIsOrderStrength(input, settings.freshnessDays, now);
  }

  /** How sure the rules are of anything else. */
  lemma OtherConfidence(input: Input, settings: Settings, now: Time)
    requires settings.freshnessDays != 0
    ensures var r := ClassifyRules(input, settings, now);
            match r.verdict
            case Spam => r.confidence == 0.92
            case Vacancy => r.confidence == 0.86
            case Resume => r.confidence == 0.86
            case Partnership => r.confidence == 0.82
            case ServiceAd => r.confidence == 0.88
            case Discussion => r.confidence == if OnlyAsks(input) then 0.76 else 0.72
            case Irrelevant =>
              r.confidence
              == if input.text.empty || (input.failedPrefilter && input.keywordHits == []) then 0.9 else 0.78
            case OrderLabel =>
              r.confidence
              == if Strength(input) < 0.58 then 0.55 else if Strength(input) >= 0.77 then 0.95
                 else Round4(Strength(input) + 0.18)
  {
    StrengthIsOrderStrength(input, settings.freshnessDays, now);
    FourPlaces(9200);
    FourPlaces(8600);
    FourPlaces(8200);
    FourPlaces(8800);
    FourPlaces(7600);
    FourPlaces(7200);
    FourPlaces(9000);
    FourPlaces(7800);
    FourPlaces(5500);
    FourPlaces(9500);
  }

  lemma FourPlaces(k: int)
    ensures Round4(k as real / 10000.0) == k as real / 10000.0
  {
    Round4KeepsThreshold(k as real / 10000.0, k as real / 10000.0, k);
  }

  /** With a band around 0.55 that stops short of 0.72, weak orders are all that is left to manual review. */
  lemma ManualReviewIsForWeakOrders(input: Input, settings: Settings, now: Time)
    requires settings.freshnessDays != 0 && settings.manualMin <= 0.55 <= settings.manualMax < 0.72
    ensures var r := ClassifyRules(input, settings, now);
            r.manualReview <==> r.verdict == OrderLabel && Strength(input) < 0.58
  {
    OrderLabelIff(input, settings, now);
    StrengthIsOrderStrength(input, settings.freshnessDays, now);
  }

  /** Whatever the weights, a score fits its column. */
  lemma RelevanceFits(s: Signals, w: Signals)
    ensures 0 <= RelevanceScore(s, w) <= 100
  {
    RoundAtLeast(Clamp(RawScore(s, w)) * 100.0, 0);
    RoundAtLeast(Clamp(RawScore(s, w)) * 100.0, 101);
  }

  /** In hundredths of the default weights: what a clean message has beyond being a client's. */
  function Points(input: Input, now: Time): real {
    18.0 * If(input.keywordHits != [] || input.text.need)
    + (if input.projectTypes != [] then 30.0
       else if input.text.task then 16.0
       else if input.text.taskObject then 8.0 else 0.0)
    + (if input.budgets == [] then 0.0
       else if input.budgets[0].hasValue && input.budgets[0].negotiable then 7.0 else 14.0)
    + 8.0 * If(input.deadlines != []) + 10.0 * If(input.contacts != []) + FreshnessPoints(now - input.publishedAt)
  }

  /** Eight to begin with, and evenly less with age until none are left after a week. */
  function FreshnessPoints(age: int): real {
    if age <= 0 then 8.0
    else if age >= 7 * 86_400_000_000 then 0.0
    else 8.0 - 8.0 * age as real / 604_800_000_000.0
  }

  lemma WeekOfFreshness(publishedAt: Time, now: Time)
    ensures 8.0 * FreshnessSignal(publishedAt, 7, now) == FreshnessPoints(now - publishedAt)
  {
    var age := now - publishedAt;
    assert AgeInDays(publishedAt, now) / 7.0 == age as real / 604_800_000_000.0;
    if age >= 0 {
      assert Max(0.0, AgeInDays(publishedAt, now)) == AgeInDays(publishedAt, now);
    }
  }

  predicate LooksLikeAnAd(input: Input) {
    input.negativeHits != [] || input.text.serviceAd
  }

  /** In hundredths: how likely a client wrote it, from its markers. */
  function ClientPoints(input: Input): real {
    if LooksLikeAnAd(input) then (if input.text.spam then 0.0 else 3.0)
    else if input.text.vacancy || input.text.resume then 4.2
    else if input.text.spam then 7.8
    else 12.0
  }

  /** Points of a message with those for being a client's, and ten less for an ad and ten less for spam. */
  function TotalPoints(input: Input, now: Time): real {
    Points(input, now) + ClientPoints(input)
    - (if LooksLikeAnAd(input) then 10.0 else 0.0) - (if input.text.spam then 10.0 else 0.0)
  }

  lemma RawInPoints(input: Input, now: Time)
    ensures var s := BuildSignals(input, 7, now);
            RawScore(s, DEFAULTS.weights) * 100.0
            == Points(input, now) + 12.0 * s.pClient - 10.0 * s.ad - 10.0 * s.spam
  {
    WeekOfFreshness(input.publishedAt, now);
  }

  lemma ClampInPoints(raw: real, points: real)
    requires raw * 100.0 == points
    ensures Clamp(raw) * 100.0 == if points < 0.0 then 0.0 else if points > 100.0 then 100.0 else points
  {
  }

  /** With the default weights the score of any message is its total, cut to the range from 0 to 100 and rounded. */
  lemma DefaultScore(input: Input, now: Time)
    ensures var points := TotalPoints(input, now);
            RelevanceScore(BuildSignals(input, 7, now), DEFAULTS.weights)
            == Round(if points < 0.0 then 0.0 else if points > 100.0 then 100.0 else points)
  {
    var s := BuildSignals(input, 7, now);
    RawInPoints(input, now);
    ClientInPoints(input, now);
    ClampInPoints(RawScore(s, DEFAULTS.weights), TotalPoints(input, now));
  }

  lemma ClientInPoints(input: Input, now: Time)
    ensures var s := BuildSignals(input, 7, now);
            && 12.0 * s.pClient == ClientPoints(input)
            && 10.0 * s.ad == (if LooksLikeAnAd(input) then 10.0 else 0.0)
            && 10.0 * s.spam == (if input.text.spam then 10.0 else 0.0)
  {
    var s := BuildSignals(input, 7, now);
    ClientSignal(input.text, s.ad, s.spam);
  }

  lemma ClientSignal(text: Text, ad: real, spam: real)
    requires (ad == 0.0 || ad == 1.0) && (spam == 0.0 || spam == 1.0)
    ensures ClientProbability(text, ad, spam)
            == if ad == 1.0 then (if spam == 1.0 then 0.0 else 0.25)
               else if text.vacancy || text.resume then 0.35
               else if spam == 1.0 then 0.65 else 1.0
  {
  }

  /** With the default weights a clean message has 12 points for being a client's; its relevance is the sum, rounded,
      and reaches 60 with 47.5 more. */
  lemma DefaultRelevance(input: Input, now: Time)
    requires Clean(input)
    ensures var score := RelevanceScore(BuildSignals(input, DEFAULTS.freshnessDays, now), DEFAULTS.weights);
            score == Round(Points(input, now) + 12.0) && (score >= 60 <==> Points(input, now) >= 47.5)
  {
    DefaultScore(input, now);
    RoundAtLeast(Points(input, now) + 12.0, 60);
  }

  lemma RoundIsMonotone(x: real, y: real)
    requires x <= y
    ensures Round(x) <= Round(y)
  {
    RoundAtLeast(x, Round(x));
    RoundAtLeast(y, Round(x));
  }

  lemma FresherHasMorePoints(age: int, newer: int)
    requires newer <= age
    ensures FreshnessPoints(newer) >= FreshnessPoints(age)
  {
    assert newer as real <= age as real;
  }

  lemma ScoreGrowsWithFreshness(s: Signals, t: Signals)
    requires t == s.(freshness := t.freshness) && t.freshness >= s.freshness
    ensures RelevanceScore(t, DEFAULTS.weights) >= RelevanceScore(s, DEFAULTS.weights)
  {
    assert RawScore(t, DEFAULTS.weights) == RawScore(s, DEFAULTS.weights) + 0.08 * (t.freshness - s.freshness);
    RoundIsMonotone(Clamp(RawScore(s, DEFAULTS.weights)) * 100.0, Clamp(RawScore(t, DEFAULTS.weights)) * 100.0);
  }

  lemma OnlyFreshnessDiffers(input: Input, publishedAt: Time, now: Time)
    requires publishedAt >= input.publishedAt
    ensures var s, t := BuildSignals(input, 7, now), BuildSignals(input.(publishedAt := publishedAt), 7, now);
            && t == s.(freshness := t.freshness) && t.freshness >= s.freshness
            && ChooseLabel(input.(publishedAt := publishedAt), t) == ChooseLabel(input, s)
  {
    var s, t := BuildSignals(input, 7, now), BuildSignals(input.(publishedAt := publishedAt), 7, now);
    WeekOfFreshness(input.publishedAt, now);
    WeekOfFreshness(publishedAt, now);
    FresherHasMorePoints(now - input.publishedAt, now - publishedAt);
    assert OrderStrength(t) == OrderStrength(s);
  }

  /** A newer message never has fewer points, and with the default weights is never less relevant. */
  lemma NewerIsNoLessRelevant(input: Input, publishedAt: Time, now: Time)
    requires publishedAt >= input.publishedAt
    ensures Points(input.(publishedAt := publishedAt), now) >= Points(input, now)
    ensures var newer := input.(publishedAt := publishedAt);
            && ClassifyRules(newer, DEFAULTS, now).verdict == ClassifyRules(input, DEFAULTS, now).verdict
            && ClassifyRules(newer, DEFAULTS, now).relevance >= ClassifyRules(input, DEFAULTS, now).relevance
  {
    FresherHasMorePoints(now - input.publishedAt, now - publishedAt);
    OnlyFreshnessDiffers(input, publishedAt, now);
    ScoreGrowsWithFreshness(BuildSignals(input, 7, now), BuildSignals(input.(publishedAt := publishedAt), 7, now));
  }
}
