/** The client-side prompt rules, feedback submission and the analysis
    request with its zero fallback (app/behavior/feedback-manager.ts). */
module FeedbackManager {
  import opened Types
  import Storage

  /** The rule list a manager is constructed with: no rule is scoped to a
      variant, and there is no conversion rule. */
  const DefaultTriggers: seq<FeedbackTrigger> := [
    FeedbackTrigger(TimeOnPage, 30000.0, None),
    FeedbackTrigger(ScrollDepth, 50.0, None),
    FeedbackTrigger(ExitIntent, 1.0, None),
    FeedbackTrigger(ClickCount, 5.0, None)
  ]

  /** A rule scoped to a variant is skipped for sessions of another variant. */
  predicate Applies(t: FeedbackTrigger, b: UserBehavior) {
    t.variant.None? || t.variant.value.Tag() == b.variant
  }

  predicate HasExitAtLeast(b: UserBehavior, threshold: real) {
    exists e :: e in b.events && e.kind == Exit && e.timestamp as real >= threshold
  }

  /** The condition of one rule, its threshold compared as a number. */
  predicate Holds(t: FeedbackTrigger, b: UserBehavior) {
    match t.condition
    case TimeOnPage => b.summary.timeOnPage as real >= t.threshold
    case ScrollDepth => b.summary.scrollDepth >= t.threshold
    case ClickCount => b.summary.clickCount as real >= t.threshold
    case ExitIntent => HasExitAtLeast(b, t.threshold)
    case ConversionGoal => HasEvent(b, Conversion)
  }

  /** Some rule of the list applies to `b` and holds of it. */
  predicate Fires(triggers: seq<FeedbackTrigger>, b: UserBehavior) {
    exists i :: 0 <= i < |triggers| && Applies(triggers[i], b) && Holds(triggers[i], b)
  }

  /** `checkFeedbackTriggers`: the rules in order, skipping those scoped to
      another variant, returning at the first one that holds. */
  method CheckFeedbackTriggers(triggers: seq<FeedbackTrigger>, b: UserBehavior) returns (fire: bool)
    ensures fire <==> Fires(triggers, b)
  {
    for i := 0 to |triggers|
      invariant forall j :: 0 <= j < i ==> !(Applies(triggers[j], b) && Holds(triggers[j], b))
    {
      var t := triggers[i];
      if !Applies(t, b) {
        continue;
      }
      if Holds(t, b) {
        return true;
      }
    }
    return false;
  }

  /** With the default list the prompt fires exactly when the page has been
      open 30 seconds, half of it has been scrolled, five clicks were made, or
      an exit event at least 1 ms into its page view was recorded. */
  lemma DefaultRule(b: UserBehavior)
    ensures Fires(DefaultTriggers, b) <==>
              b.summary.timeOnPage >= 30000 || b.summary.scrollDepth >= 50.0 ||
              b.summary.clickCount >= 5 || HasExitAtLeast(b, 1.0)
  {
    var ts := DefaultTriggers;
    assert forall i :: 0 <= i < |ts| ==> Applies(ts[i], b);
    if b.summary.timeOnPage >= 30000 {
      assert Applies(ts[0], b) && Holds(ts[0], b);
    } else if b.summary.scrollDepth >= 50.0 {
      assert Applies(ts[1], b) && Holds(ts[1], b);
    } else if HasExitAtLeast(b, 1.0) {
      assert Applies(ts[2], b) && Holds(ts[2], b);
    } else if b.summary.clickCount >= 5 {
      assert Applies(ts[3], b) && Holds(ts[3], b);
    }
  }

  /** None of the default rules is scoped, so the session's variant never
      changes the outcome. */
  lemma DefaultIgnoresVariant(b: UserBehavior, w: string)
    ensures Fires(DefaultTriggers, b) <==> Fires(DefaultTriggers, b.(variant := w))
  {
    DefaultRule(b);
    DefaultRule(b.(variant := w));
    assert HasExitAtLeast(b, 1.0) <==> HasExitAtLeast(b.(variant := w), 1.0);
  }

  /** A session with nothing on its counters whose only events are
      conversions never prompts: the default list has no conversion rule. */
  lemma ConversionAloneNeverFires(b: UserBehavior)
    requires b.summary.timeOnPage < 30000 && b.summary.scrollDepth < 50.0 && b.summary.clickCount < 5
    requires forall e :: e in b.events ==> e.kind == Conversion
    ensures !Fires(DefaultTriggers, b)
  {
    DefaultRule(b);
  }

  /** An exit event stamped 0 ms into its page view does not meet the exit
      rule's threshold of 1. */
  lemma ExitAtZeroDoesNotFire(b: UserBehavior)
    requires b.summary.timeOnPage < 30000 && b.summary.scrollDepth < 50.0 && b.summary.clickCount < 5
    requires forall e :: e in b.events ==> e.kind == Exit && e.timestamp == 0
    ensures !Fires(DefaultTriggers, b)
  {
    DefaultRule(b);
  }

  /** The time rule's boundary: 29999 ms does not prompt, 30000 ms does. */
  lemma TimeBoundary(b: UserBehavior)
    requires b.summary.scrollDepth == 0.0 && b.summary.clickCount == 0 && b.events == []
    ensures b.summary.timeOnPage == 29999 ==> !Fires(DefaultTriggers, b)
    ensures b.summary.timeOnPage == 30000 ==> Fires(DefaultTriggers, b)
  {
    DefaultRule(b);
  }

  /** The feedback record `collectFeedback` builds from a snapshot. */
  function MakeFeedback(b: UserBehavior, rating: Option<real>, comment: Option<string>,
                        question: Option<string>, now: int): FeedbackData
  {
    FeedbackData(b.sessionId, b.variant, b.summary, FeedbackBody(rating, comment, question, now))
  }

  /** `collectFeedback`: the record is written to the browser cache first,
      then sent to the mock service and the app endpoint, each attempted once
      and its failure caught. Nothing is raised to the caller. */
  method CollectFeedback(store: Storage.ClientStorage, b: UserBehavior, rating: Option<real>,
                         comment: Option<string>, question: Option<string>, now: int,
                         localWriteFails: bool, mockDelivered: bool, apiDelivered: bool)
    returns (data: FeedbackData, attempts: seq<Attempt>)
    modifies store
    ensures data.sessionId == b.sessionId && data.variant == b.variant
    ensures data.behaviorSummary == b.summary && data.feedback.timestamp == now
    ensures data.feedback.rating == rating && data.feedback.comment == comment && data.feedback.question == question
    ensures store.behaviors == old(store.behaviors)
    ensures store.hasWindow && !localWriteFails ==> store.GetFeedbacks() == old(store.GetFeedbacks()) + [data]
    ensures !store.hasWindow || localWriteFails ==> store.feedbacks == old(store.feedbacks)
    ensures attempts == (if store.hasWindow then [Attempt(LocalCache, !localWriteFails), Attempt(MockService, mockDelivered)]
                         else []) + [Attempt(IngestionApi, apiDelivered)]
  {
    data := MakeFeedback(b, rating, comment, question, now);
    attempts := [];
    if store.hasWindow {
      store.SaveFeedback(data, localWriteFails);
      attempts := attempts + [Attempt(LocalCache, !localWriteFails)];
    }
    if store.hasWindow {
      attempts := attempts + [Attempt(MockService, mockDelivered)];
    }
    attempts := attempts + [Attempt(IngestionApi, apiDelivered)];
  }

  /** What the analysis endpoint answered: its status flag, its content type
      header, and its body when that parses as an analysis. */
  datatype HttpReply = HttpReply(ok: bool, contentType: Option<string>, json: Option<VariantAnalysis>)

  /** `fetch` either resolves with a reply or rejects with an error. */
  datatype FetchOutcome = Answered(reply: HttpReply) | Rejected(isTypeError: bool, message: string)

  /** An async call either resolves with a value or raises. */
  datatype Settled<T> = Resolved(value: T) | Raised

  predicate IsHtml(contentType: Option<string>) {
    contentType.Some? && Contains(contentType.value, "text/html")
  }

  /** The rejection a missing server produces: a TypeError about `fetch`. */
  predicate IsNoServer(outcome: FetchOutcome) {
    outcome.Rejected? && outcome.isTypeError && Contains(outcome.message, "fetch")
  }

  /** `analyzeVariantFeedback`. A failed reply served as HTML (a static host)
      and a fetch that fails with a TypeError both fall back to the all-zero
      analysis; a parsed ok reply is returned as it is; everything else raises. */
  function AnalyzeVariantFeedback(v: Variant, outcome: FetchOutcome): (r: Settled<VariantAnalysis>)
    ensures r == Resolved(ZeroAnalysis(v)) <== IsNoServer(outcome) || (outcome.Answered? && !outcome.reply.ok && IsHtml(outcome.reply.contentType))
    ensures outcome.Answered? && outcome.reply.ok ==>
              (r.Resolved? <==> outcome.reply.json.Some?) && (r.Resolved? ==> r.value == outcome.reply.json.value)
    ensures r.Raised? <==> !IsNoServer(outcome) && !(outcome.Answered? && outcome.reply.ok && outcome.reply.json.Some?) &&
                           !(outcome.Answered? && !outcome.reply.ok && IsHtml(outcome.reply.contentType))
  {
    match outcome
    case Rejected(isTypeError, message) =>
      if isTypeError && Contains(message, "fetch") then Resolved(ZeroAnalysis(v)) else Raised
    case Answered(reply) =>
      if !reply.ok then
        if IsHtml(reply.contentType) then Resolved(ZeroAnalysis(v))
        else Raised
      else if reply.json.Some? then Resolved(reply.json.value)
      else Raised
  }
}
