/**
  The heuristic behind the AI-insights endpoint (`build_ai_insight`) and the
  id lookup table the endpoint builds from the stored list.
 */
module Insights {
  import opened Records

  /**
    The dictionary `build_ai_insight` returns; its `summary` and
    `suggested_note` entries are `advice.Summary()` and `advice.SuggestedNote()`.
   */
  datatype Insight = Insight(
    itemId: string,
    name: string,
    currentStatus: string,
    recommendedStatus: string,
    priority: Priority,
    ownerHint: string,
    confidence: Option<real>,
    advice: Advice)

  /** The `priority` values; `Text` is the string the endpoint sends. */
  datatype Priority = Low | Medium | Elevated | High | Critical {
    function Text(): string {
      match this
      case Low => "low"
      case Medium => "medium"
      case Elevated => "elevated"
      case High => "high"
      case Critical => "critical"
    }
  }

  /**
    The advice of a score band: the `summary` and `suggested_note` texts the
    endpoint sends for it.
   */
  datatype Advice = NoPrediction | Quarantine | Rework | Monitor | Release {
    function Summary(): string {
      match this
      case NoPrediction => "No prediction data available; prompt the lab to classify this image."
      case Quarantine => "Model flags this component as highly likely defective. Quarantine the lot immediately."
      case Rework => "Elevated defect probability; prioritize rework and secondary inspection."
      case Monitor => "Borderline reading; keep under observation and sample additional units."
      case Release => "Low likelihood of defect; release after visual confirmation."
    }

    function SuggestedNote(): string {
      match this
      case NoPrediction => "Item has not been classified yet. Schedule inspection."
      case Quarantine => "Hold shipment, escalate to reliability engineering, and initiate tear-down analysis."
      case Rework => "Route to maintenance for rework and request ultrasonic verification."
      case Monitor => "Add to the monitoring queue and capture more samples from the same batch."
      case Release => "Log QA spot check and release to assembly if no manual defects are found."
    }
  }

  /** Python's `owner or fallback`: the owner unless it is empty. */
  function OwnerOr(owner: string, fallback: string): string {
    if owner != "" then owner else fallback
  }

  /**
    `build_ai_insight`: the starting values assume "no prediction" (or a
    prediction of 0.0 for the owner hint); each score band then overrides some
    of them. `round3` stands for `round(x, 3)` on a float, left abstract.
   */
  function BuildAiInsight(item: Item, round3: real -> real): (r: Insight)
    ensures r.itemId == item.id && r.name == item.name && r.currentStatus == item.status
    ensures r.recommendedStatus in AllowedStatuses
    ensures r.confidence.None? <==> item.score.None?
    ensures r.confidence.Some? ==> r.confidence == Some(round3(item.score.value))
    ensures r.priority != Medium
  {
    var score := if item.score.Some? then item.score.value else 0.0;
    var hasPrediction := item.score.Some?;
    var recommendedStatus := if !hasPrediction then AwaitingReview else InReview;
    var priority := if !hasPrediction then Low else Medium;
    var ownerHint := OwnerOr(item.owner, if score >= 0.6 then "Maintenance" else "Quality");
    var confidence := if hasPrediction then Some(round3(score)) else None;
    if !hasPrediction then
      Insight(item.id, item.name, item.status, recommendedStatus, priority, ownerHint, confidence, NoPrediction)
    else if score >= 0.85 then
      Insight(item.id, item.name, item.status, NeedsAttention, Critical, "Reliability", confidence, Quarantine)
    else if score >= 0.65 then
      Insight(item.id, item.name, item.status, NeedsAttention, High, "Maintenance", confidence, Rework)
    else if score >= 0.45 then
      Insight(item.id, item.name, item.status, InReview, Elevated, ownerHint, confidence, Monitor)
    else
      Insight(item.id, item.name, item.status, Cleared, Low, OwnerOr(item.owner, "Quality"), confidence, Release)
  }

  /**
    The score bands: recommended status, priority, advice and owner hint for
    a missing score and for each band from the top down.
   */
  lemma InsightBands(item: Item, round3: real -> real)
    ensures var r := BuildAiInsight(item, round3);
            && (item.score.None? ==>
                  r.recommendedStatus == AwaitingReview && r.priority == Low && r.advice == NoPrediction
                  && r.ownerHint == OwnerOr(item.owner, "Quality"))
            && (item.score.Some? && item.score.value >= 0.85 ==>
                  r.recommendedStatus == NeedsAttention && r.priority == Critical && r.ownerHint == "Reliability"
                  && r.advice == Quarantine)
            && (item.score.Some? && 0.65 <= item.score.value < 0.85 ==>
                  r.recommendedStatus == NeedsAttention && r.priority == High && r.ownerHint == "Maintenance"
                  && r.advice == Rework)
            && (item.score.Some? && 0.45 <= item.score.value < 0.65 ==>
                  r.recommendedStatus == InReview && r.priority == Elevated && r.advice == Monitor
                  && r.ownerHint == OwnerOr(item.owner, if item.score.value >= 0.6 then "Maintenance" else "Quality"))
            && (item.score.Some? && item.score.value < 0.45 ==>
                  r.recommendedStatus == Cleared && r.priority == Low && r.advice == Release
                  && r.ownerHint == OwnerOr(item.owner, "Quality"))
  {
  }

  /** How urgent a priority is: low < medium < elevated < high < critical. */
  function PriorityRank(priority: Priority): nat {
    match priority
    case Low => 0
    case Medium => 1
    case Elevated => 2
    case High => 3
    case Critical => 4
  }

  /** How severe a recommended status is: cleared < in review < needs attention. */
  function StatusRank(status: string): nat {
    if status == NeedsAttention then 2
    else if status == InReview then 1
    else 0
  }

  /**
    A higher score never yields a less urgent priority nor a milder
    recommended status.
   */
  lemma InsightMonotone(a: Item, b: Item, round3: real -> real)
    requires a.score.Some? && b.score.Some? && a.score.value <= b.score.value
    ensures PriorityRank(BuildAiInsight(a, round3).priority) <= PriorityRank(BuildAiInsight(b, round3).priority)
    ensures StatusRank(BuildAiInsight(a, round3).recommendedStatus) <= StatusRank(BuildAiInsight(b, round3).recommendedStatus)
  {
  }

  /**
    `{item.id: item for item in items}`: every stored id maps to a record
    with that id, and a later duplicate overwrites an earlier one.
   */
  function Index(items: seq<Item>): (m: map<string, Item>)
    ensures forall id :: id in m <==> id in Ids(items)
    ensures forall id :: id in m ==> m[id].id == id
    decreases |items|
  {
    if items == [] then map[]
    else
      var last := items[|items| - 1];
      var init := items[..|items| - 1];
      assert Ids(items) == Ids(init) + [last.id];
      Index(init)[last.id := last]
  }

  /** The table holds, for each id, the last record carrying it. */
  lemma {:induction false} IndexLastWins(items: seq<Item>, k: nat)
    requires k < |items|
    requires forall j :: k < j < |items| ==> items[j].id != items[k].id
    ensures Index(items)[items[k].id] == items[k]
    decreases |items|
  {
    if k < |items| - 1 {
      IndexLastWins(items[..|items| - 1], k);
    }
  }

  /** With unique ids, the table finds each stored record by its id. */
  lemma IndexFindsUnique(items: seq<Item>, k: nat)
    requires UniqueIds(items) && k < |items|
    ensures Index(items)[items[k].id] == items[k]
  {
    IndexLastWins(items, k);
  }

  /** The ids of `insights`, in order. */
  function InsightIds(insights: seq<Insight>): (r: seq<string>)
    ensures |r| == |insights|
    ensures forall k :: 0 <= k < |insights| ==> r[k] == insights[k].itemId
  {
    seq(|insights|, k requires 0 <= k < |insights| => insights[k].itemId)
  }

  /** Adding an insight adds its id at the end. */
  lemma InsightIdsSnoc(insights: seq<Insight>, insight: Insight)
    ensures InsightIds(insights + [insight]) == InsightIds(insights) + [insight.itemId]
  {
  }

  /** Taking one id out of a set of ids, counted as a multiset. */
  lemma MultisetTakeOne(rest: set<string>, id: string)
    requires id in rest
    ensures multiset(rest) == multiset(rest - {id}) + multiset{id}
  {
    assert rest == (rest - {id}) + {id};
  }

  /**
    The contract of the insights endpoint: every requested id lands exactly
    once either in an insight built from its stored record or in `missing`,
    and `missing` holds exactly the requested ids that are not stored.
   */
  predicate InsightsPartition(targets: set<string>, table: map<string, Item>, round3: real -> real,
                              insights: seq<Insight>, missing: seq<string>)
  {
    && multiset(InsightIds(insights)) + multiset(missing) == multiset(targets)
    && (forall k :: 0 <= k < |insights| ==>
          insights[k].itemId in table && insights[k] == BuildAiInsight(table[insights[k].itemId], round3))
    && (forall id :: id in missing ==> id !in table)
  }

  /** The partition puts each requested id in the right place, and nowhere else. */
  lemma PartitionPlacesEachId(targets: set<string>, table: map<string, Item>, round3: real -> real,
                              insights: seq<Insight>, missing: seq<string>, id: string)
    requires InsightsPartition(targets, table, round3, insights, missing)
    ensures id in missing <==> id in targets && id !in table
    ensures id in InsightIds(insights) <==> id in targets && id in table
    ensures multiset(InsightIds(insights))[id] + multiset(missing)[id] == (if id in targets then 1 else 0)
  {
    var ids := InsightIds(insights);
    assert (multiset(ids) + multiset(missing))[id] == multiset(targets)[id];
    if id in ids {
      var k :| 0 <= k < |ids| && ids[k] == id;
      assert insights[k].itemId in table;
    }
  }

  /**
    Read against the stored list: an id is reported missing exactly when it
    was requested and no stored record carries it.
   */
  lemma MissingAgainstStore(items: seq<Item>, targets: set<string>, round3: real -> real,
                            insights: seq<Insight>, missing: seq<string>, id: string)
    requires InsightsPartition(targets, Index(items), round3, insights, missing)
    ensures id in missing <==> id in targets && id !in Ids(items)
  {
    PartitionPlacesEachId(targets, Index(items), round3, insights, missing, id);
  }

  /**
    Each insight's id is stored, and with unique ids the insight is the one
    built from the stored record carrying that id.
   */
  lemma InsightFromStoredRecord(items: seq<Item>, targets: set<string>, round3: real -> real,
                                insights: seq<Insight>, missing: seq<string>, k: nat)
    requires InsightsPartition(targets, Index(items), round3, insights, missing)
    requires k < |insights|
    ensures insights[k].itemId in Ids(items)
    ensures UniqueIds(items) ==>
              forall j :: 0 <= j < |items| && items[j].id == insights[k].itemId ==>
                insights[k] == BuildAiInsight(items[j], round3)
  {
    if UniqueIds(items) {
      forall j | 0 <= j < |items| && items[j].id == insights[k].itemId
        ensures insights[k] == BuildAiInsight(items[j], round3)
      {
        IndexFindsUnique(items, j);
      }
    }
  }
}
