/** The analysis endpoint as a Netlify function
    (netlify/functions/api-feedback-analysis.ts). It reads only the remote
    tables, asking each for the requested variant; their readers answer every
    failure with an empty list, and there is no in-memory fallback. */
module NetlifyAnalysis {
  import opened Types
  import opened Http
  import Metrics
  import AnalysisRoute
  import Remote

  datatype Response = Preflight | MethodNotAllowed | InvalidVariant | Report(analysis: VariantAnalysis)

  /** `handler`: OPTIONS is answered at once, any other method but GET is
      refused, a variant other than "A" or "B" is refused; otherwise the rows
      of that variant read from the two tables are aggregated when at least
      one list is non-empty, and two empty lists are aggregated when both are
      empty. */
  function Handle(httpMethod: HttpMethod, variant: string,
                  feedbackTable: Remote.Table<FeedbackData>, behaviorTable: Remote.Table<UserBehavior>): (r: Response)
    ensures r == Preflight <==> httpMethod == Options
    ensures r == MethodNotAllowed <==> httpMethod != Options && httpMethod != Get
    ensures r == InvalidVariant <==> httpMethod == Get && !KnownVariant(variant)
    ensures r.Report? ==> r.analysis.variant.Tag() == variant
    ensures r.Report? ==>
              r.analysis == Metrics.Analyze(r.analysis.variant, Remote.ReadBehaviors(behaviorTable, variant),
                                            Remote.ReadFeedbacks(feedbackTable, variant))
    ensures r.Report? && Remote.ReadFeedbacks(feedbackTable, variant) == [] &&
            Remote.ReadBehaviors(behaviorTable, variant) == [] ==>
              r.analysis == ZeroAnalysis(r.analysis.variant)
  {
    if httpMethod == Options then Preflight
    else if httpMethod != Get then MethodNotAllowed
    else match ParseVariant(variant)
      case None => InvalidVariant
      case Some(v) =>
        var remoteFeedbacks := Remote.ReadFeedbacks(feedbackTable, variant);
        var remoteBehaviors := Remote.ReadBehaviors(behaviorTable, variant);
        var (fs, bs) := if |remoteFeedbacks| > 0 || |remoteBehaviors| > 0
                        then (remoteFeedbacks, remoteBehaviors) else ([], []);
        Report(Metrics.Analyze(v, bs, fs))
  }

  /** The report of a variant counts only the rows of that variant: rows of
      any other variant added to either table change nothing in it. */
  lemma OtherVariantsDoNotCount(v: Variant, frows: seq<FeedbackData>, fothers: seq<FeedbackData>,
                                brows: seq<UserBehavior>, bothers: seq<UserBehavior>)
    requires forall f :: f in fothers ==> f.variant != v.Tag()
    requires forall b :: b in bothers ==> b.variant != v.Tag()
    ensures Handle(Get, v.Tag(), Remote.Rows(frows + fothers), Remote.Rows(brows + bothers)) ==
            Handle(Get, v.Tag(), Remote.Rows(frows), Remote.Rows(brows))
  {
    Remote.OtherVariantsAreNotRead(brows, bothers, frows, fothers, v.Tag());
  }

  /** On the same tables, the Netlify function and the Next route fed with
      the lists read from them report the same analysis or refuse the same
      variant. */
  lemma AgreesWithNextRoute(variant: string, feedbackTable: Remote.Table<FeedbackData>,
                            behaviorTable: Remote.Table<UserBehavior>)
    ensures var fs, bs := Remote.ReadFeedbacks(feedbackTable, variant), Remote.ReadBehaviors(behaviorTable, variant);
            var r := Handle(Get, variant, feedbackTable, behaviorTable);
            (r.Report? <==> AnalysisRoute.AnalyzeRequest(variant, Some(bs), Some(fs)).Report?) &&
            (r.Report? ==> r.analysis == AnalysisRoute.AnalyzeRequest(variant, Some(bs), Some(fs)).analysis)
  {
  }
}
