/** The analysis endpoint of the Next app (app/api/feedback/analysis/route.ts).
    It reads the two listings of its own app over HTTP; `behaviors` and
    `feedbacks` are the lists in those answers, `None` when an answer has no
    such field. */
module AnalysisRoute {
  import opened Types
  import opened Seqs
  import Metrics
  import BehaviorRoute
  import FeedbackRoute

  datatype Reply = InvalidVariant | Report(analysis: VariantAnalysis)

  function OrEmpty<T>(list: Option<seq<T>>): (r: seq<T>)
    ensures list.Some? ==> r == list.value
    ensures list.None? ==> r == []
  {
    if list.Some? then list.value else []
  }

  /** `GET ?variant=…`: anything but "A" or "B" is refused; otherwise the
      aggregate of the two listings, a missing listing counting as empty. */
  function AnalyzeRequest(variant: string, behaviors: Option<seq<UserBehavior>>,
                          feedbacks: Option<seq<FeedbackData>>): (r: Reply)
    ensures r.InvalidVariant? <==> !KnownVariant(variant)
    ensures r.Report? ==> r.analysis.variant.Tag() == variant
    ensures r.Report? ==> r.analysis.behaviorMetrics.totalSessions == |OrEmpty(behaviors)|
    ensures r.Report? ==> r.analysis.feedbackCount == |OrEmpty(feedbacks)|
    ensures r.Report? && behaviors.None? && feedbacks.None? ==> r.analysis == ZeroAnalysis(r.analysis.variant)
  {
    match ParseVariant(variant)
    case None => InvalidVariant
    case Some(v) => Report(Metrics.Analyze(v, OrEmpty(behaviors), OrEmpty(feedbacks)))
  }

  /** Served by the Next routes, the analysis of a variant is the aggregate
      of exactly the stored records of that variant: the behaviour listing
      asked for by variant alone and the feedback listing for that variant. */
  lemma EndToEnd(behaviorStore: seq<UserBehavior>, feedbackStore: seq<FeedbackData>, v: Variant)
    ensures AnalyzeRequest(v.Tag(), Some(BehaviorRoute.Select(behaviorStore, "", v.Tag())),
                           Some(FeedbackRoute.Select(feedbackStore, v.Tag()))) ==
            Report(Metrics.Analyze(v, Filter(behaviorStore, BehaviorRoute.VariantIs(v.Tag())),
                                      Filter(feedbackStore, FeedbackRoute.VariantIs(v.Tag()))))
    ensures forall b :: b in Filter(behaviorStore, BehaviorRoute.VariantIs(v.Tag())) <==>
                          b in behaviorStore && b.variant == v.Tag()
  {
    FilterAll(behaviorStore, BehaviorRoute.SessionIs(""));
  }
}
