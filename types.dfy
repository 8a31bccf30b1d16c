/** The records exchanged by the recorder, the prompt, the local cache, the
    ingestion endpoints and the aggregator (app/behavior/types.ts). */
module Types {

  datatype Option<T> = None | Some(value: T)

  /** JavaScript truthiness of a string field; a missing or null field is
      modelled as the empty string, which is falsy as well. */
  predicate Truthy(s: string) {
    s != ""
  }

  /** `s.includes(sub)`: `sub` occurs somewhere in `s`. */
  predicate Contains(s: string, sub: string)
    decreases |s|
  {
    sub <= s || (s != [] && Contains(s[1..], sub))
  }

  /** The two treatments of the A/B test. */
  datatype Variant = A | B {
    function Tag(): (s: string)
      ensures |s| == 1 && Truthy(s)
    {
      if this == A then "A" else "B"
    }
  }

  /** A variant field as the source reads it back: only "A" and "B" name a variant. */
  function ParseVariant(s: string): (r: Option<Variant>)
    ensures r.Some? <==> s == "A" || s == "B"
    ensures r.Some? ==> r.value.Tag() == s
  {
    if s == "A" then Some(A) else if s == "B" then Some(B) else None
  }

  /** The declared type of every record's variant field: 'A' | 'B'. */
  predicate KnownVariant(s: string) {
    ParseVariant(s).Some?
  }

  datatype EventKind = Click | Scroll | View | Hover | Exit | Conversion

  /** The free-form `value` of an event: click coordinates, a scroll
      percentage or a conversion goal. */
  datatype EventValue = NoValue | Point(x: int, y: int) | Depth(percent: real) | Goal(name: string)

  /** One interaction; `timestamp` is milliseconds since the current page view began. */
  datatype BehaviorEvent = BehaviorEvent(
    kind: EventKind,
    element: Option<string>,
    timestamp: int,
    value: EventValue,
    pagePath: string)

  datatype DeviceType = Mobile | Desktop | Tablet

  datatype Metadata = Metadata(
    pagePath: string,
    referrer: Option<string>,
    deviceType: DeviceType,
    userAgent: Option<string>,
    timestamp: int)

  /** The per-page-view summary; the same shape serves as a feedback record's
      `behaviorSummary`. */
  datatype Summary = Summary(
    timeOnPage: int,
    scrollDepth: real,
    clickCount: int,
    pagesVisited: seq<string>)

  datatype UserBehavior = UserBehavior(
    sessionId: string,
    userId: Option<string>,
    variant: string,
    events: seq<BehaviorEvent>,
    metadata: Metadata,
    summary: Summary)

  /** `behavior.events.some((e) => e.type === kind)`. */
  predicate HasEvent(b: UserBehavior, kind: EventKind) {
    exists e :: e in b.events && e.kind == kind
  }

  datatype TriggerCondition = TimeOnPage | ScrollDepth | ClickCount | ExitIntent | ConversionGoal

  /** A prompt rule: a condition, a numeric threshold and an optional variant scope. */
  datatype FeedbackTrigger = FeedbackTrigger(
    condition: TriggerCondition,
    threshold: real,
    variant: Option<Variant>)

  /** The user's answer. A rating of `None` stands for an absent, null or NaN number. */
  datatype FeedbackBody = FeedbackBody(
    rating: Option<real>,
    comment: Option<string>,
    question: Option<string>,
    timestamp: int)

  datatype FeedbackData = FeedbackData(
    sessionId: string,
    variant: string,
    behaviorSummary: Summary,
    feedback: FeedbackBody)

  datatype BehaviorMetrics = BehaviorMetrics(
    avgTimeOnPage: real,
    conversionRate: real,
    engagementScore: real,
    totalSessions: nat)

  datatype VariantAnalysis = VariantAnalysis(
    variant: Variant,
    avgRating: real,
    behaviorMetrics: BehaviorMetrics,
    feedbackCount: nat)

  /** The places a record is sent to, in the order the client tries them: the
      browser cache, the hosted mock service, then the app's own endpoint. */
  datatype Sink = LocalCache | MockService | IngestionApi

  /** One delivery attempt and whether it went through. Every failure is
      caught where it happens and goes no further than this flag. */
  datatype Attempt = Attempt(sink: Sink, delivered: bool)

  /** The analysis every fallback path reports: all six numbers zero. */
  function ZeroAnalysis(v: Variant): (r: VariantAnalysis)
    ensures r.variant == v && r.avgRating == 0.0 && r.feedbackCount == 0
    ensures r.behaviorMetrics.avgTimeOnPage == 0.0 && r.behaviorMetrics.conversionRate == 0.0
    ensures r.behaviorMetrics.engagementScore == 0.0 && r.behaviorMetrics.totalSessions == 0
  {
    VariantAnalysis(v, 0.0, BehaviorMetrics(0.0, 0.0, 0.0, 0), 0)
  }
}
