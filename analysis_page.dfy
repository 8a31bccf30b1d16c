/** The decision logic of the analysis page (app/analysis/page.tsx): the
    local aggregate from the browser cache, the server answer that replaces
    it per variant, the all-zero fallback, and the winner rule of the
    comparison table. Rendering and number formatting are not modelled. */
module AnalysisPage {
  import opened Types
  import Metrics
  import Storage

  /** One answer of the analysis endpoint: its status flag, its content type
      header, and its body when that parses. */
  datatype ApiReply = ApiReply(ok: bool, contentType: Option<string>, json: Option<VariantAnalysis>)

  /** The two requests both resolved, or `Promise.all` rejected. */
  datatype ApiOutcome = Answered(replyA: ApiReply, replyB: ApiReply) | Unreachable

  predicate IsJson(contentType: Option<string>) {
    contentType.Some? && Contains(contentType.value, "application/json")
  }

  /** An ok JSON answer whose body parsed. */
  predicate Usable(reply: ApiReply) {
    reply.ok && IsJson(reply.contentType) && reply.json.Some?
  }

  /** `calculateAnalysis` over the cached records of variant `v`. */
  function LocalAnalysis(store: Storage.ClientStorage, v: Variant): (r: VariantAnalysis)
    reads store
    ensures r.variant == v
    ensures r.behaviorMetrics.totalSessions == |store.GetBehaviorsByVariant(v)|
    ensures r.feedbackCount == |store.GetFeedbacksByVariant(v)|
  {
    Metrics.Analyze(v, store.GetBehaviorsByVariant(v), store.GetFeedbacksByVariant(v))
  }

  /** What the page shows for A and for B once `fetchAnalysis` finishes.
      `outerThrows` is a step inside the outer `try` that throws: the cache
      module's dynamic import, or a cached key holding JSON that is not a
      list, which the variant filter cannot walk. */
  function Loaded(store: Storage.ClientStorage, outerThrows: bool, outcome: ApiOutcome)
    : (r: (VariantAnalysis, VariantAnalysis))
    reads store
    ensures outerThrows ==> r == (ZeroAnalysis(A), ZeroAnalysis(B))
    ensures !outerThrows && outcome.Unreachable? ==> r == (LocalAnalysis(store, A), LocalAnalysis(store, B))
    ensures !outerThrows && outcome.Answered? ==>
              r.0 == (if Usable(outcome.replyA) then outcome.replyA.json.value else LocalAnalysis(store, A)) &&
              r.1 == (if Usable(outcome.replyB) then outcome.replyB.json.value else LocalAnalysis(store, B))
  {
    if outerThrows then (ZeroAnalysis(A), ZeroAnalysis(B))
    else
      var localA := LocalAnalysis(store, A);
      var localB := LocalAnalysis(store, B);
      match outcome
      case Unreachable => (localA, localB)
      case Answered(replyA, replyB) =>
        (if Usable(replyA) then replyA.json.value else localA,
         if Usable(replyB) then replyB.json.value else localB)
  }

  /** Each variant's result depends on its own answer only: the answer for B
      never changes what is shown for A, and the other way round. */
  lemma NoMerge(store: Storage.ClientStorage, replyA: ApiReply, replyB1: ApiReply, replyB2: ApiReply)
    ensures Loaded(store, false, Answered(replyA, replyB1)).0 == Loaded(store, false, Answered(replyA, replyB2)).0
    ensures Loaded(store, false, Answered(replyB1, replyA)).1 == Loaded(store, false, Answered(replyB2, replyA)).1
  {
  }

  /** With an empty cache and no server, both variants show all zeros. */
  lemma EmptyCacheNoServer(store: Storage.ClientStorage)
    requires store.GetBehaviors() == [] && store.GetFeedbacks() == []
    ensures Loaded(store, false, Unreachable) == (ZeroAnalysis(A), ZeroAnalysis(B))
  {
    assert store.GetBehaviorsByVariant(A) == [] && store.GetBehaviorsByVariant(B) == [];
    assert store.GetFeedbacksByVariant(A) == [] && store.GetFeedbacksByVariant(B) == [];
  }

  class Page {
    var analysisA: Option<VariantAnalysis>
    var analysisB: Option<VariantAnalysis>
    var loading: bool

    constructor()
      ensures analysisA.None? && analysisB.None? && loading
    {
      analysisA := None;
      analysisB := None;
      loading := true;
    }

    /** `fetchAnalysis`: local results first, each replaced by a usable
        server answer; both set to zeros when the outer step fails. */
    method FetchAnalysis(store: Storage.ClientStorage, outerThrows: bool, outcome: ApiOutcome)
      modifies this
      ensures !loading
      ensures analysisA == Some(Loaded(store, outerThrows, outcome).0)
      ensures analysisB == Some(Loaded(store, outerThrows, outcome).1)
    {
      loading := true;
      if outerThrows {
        analysisA := Some(ZeroAnalysis(A));
        analysisB := Some(ZeroAnalysis(B));
      } else {
        var dataA := LocalAnalysis(store, A);
        var dataB := LocalAnalysis(store, B);
        if outcome.Answered? {
          var replyA, replyB := outcome.replyA, outcome.replyB;
          if replyA.ok && IsJson(replyA.contentType) && replyA.json.Some? {
            dataA := replyA.json.value;
          }
          if replyB.ok && IsJson(replyB.contentType) && replyB.json.Some? {
            dataB := replyB.json.value;
          }
        }
        analysisA := Some(dataA);
        analysisB := Some(dataB);
      }
      loading := false;
    }

    /** The comparison table is drawn only once both results are set. */
    predicate ShowsComparison()
      reads this
    {
      !loading && analysisA.Some? && analysisB.Some?
    }
  }

  /** The rows of the comparison table, in order. */
  datatype Measure = AverageRating | SecondsOnPage | ConversionPercent | EngagementPoints

  datatype Row = Row(measure: Measure, valueA: real, valueB: real)

  /** The four rows; time on page is shown in seconds. */
  function ComparisonRows(a: VariantAnalysis, b: VariantAnalysis): (rows: seq<Row>)
    ensures |rows| == 4
    ensures forall i :: 0 <= i < 4 ==> rows[i].measure == [AverageRating, SecondsOnPage, ConversionPercent, EngagementPoints][i]
  {
    [Row(AverageRating, a.avgRating, b.avgRating),
     Row(SecondsOnPage, a.behaviorMetrics.avgTimeOnPage / 1000.0, b.behaviorMetrics.avgTimeOnPage / 1000.0),
     Row(ConversionPercent, a.behaviorMetrics.conversionRate, b.behaviorMetrics.conversionRate),
     Row(EngagementPoints, a.behaviorMetrics.engagementScore, b.behaviorMetrics.engagementScore)]
  }

  /** `valueA > valueB ? 'A' : 'B'`: A wins only strictly, so a tie goes to B. */
  function Winner(row: Row): (w: Variant)
    ensures w == A <==> row.valueA > row.valueB
    ensures row.valueA == row.valueB ==> w == B
  {
    if row.valueA > row.valueB then A else B
  }

  /** `Math.abs(valueA - valueB)`. */
  function Difference(row: Row): (d: real)
    ensures d >= 0.0
    ensures d == row.valueA - row.valueB || d == row.valueB - row.valueA
  {
    if row.valueA >= row.valueB then row.valueA - row.valueB else row.valueB - row.valueA
  }

  /** Swapping the two sides changes the winner exactly when the values differ. */
  lemma SwapChangesWinner(m: Measure, x: real, y: real)
    ensures Winner(Row(m, x, y)) != Winner(Row(m, y, x)) <==> x != y
    ensures Difference(Row(m, x, y)) == Difference(Row(m, y, x))
  {
  }

  /** Showing time in seconds changes neither the winner nor, beyond the unit,
      the difference. */
  lemma SecondsRowFollowsMilliseconds(a: VariantAnalysis, b: VariantAnalysis)
    ensures Winner(ComparisonRows(a, b)[1]) == A <==> a.behaviorMetrics.avgTimeOnPage > b.behaviorMetrics.avgTimeOnPage
    ensures Difference(ComparisonRows(a, b)[1]) * 1000.0 ==
            Difference(Row(SecondsOnPage, a.behaviorMetrics.avgTimeOnPage, b.behaviorMetrics.avgTimeOnPage))
  {
  }

  /** Two identical analyses give B in every row. */
  lemma IdenticalFavoursB(a: VariantAnalysis)
    ensures forall i :: 0 <= i < 4 ==> Winner(ComparisonRows(a, a)[i]) == B && Difference(ComparisonRows(a, a)[i]) == 0.0
  {
  }
}
