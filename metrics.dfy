/** The per-variant aggregator. The same computation appears three times in
    the source: in the Next analysis route, in the Netlify analysis function
    and as `calculateAnalysis` on the analysis page; this module is that
    computation once. Numbers are reals, and a rating that is absent, null or
    NaN is `None`. */
module Metrics {
  import opened Types
  import opened Seqs

  predicate HasRating(f: FeedbackData) {
    f.feedback.rating.Some?
  }

  function RatingOf(f: FeedbackData): real {
    if f.feedback.rating.Some? then f.feedback.rating.value else 0.0
  }

  /** The ratings that are present, in order. */
  function Ratings(fs: seq<FeedbackData>): seq<real> {
    Map(Filter(fs, HasRating), RatingOf)
  }

  function TimeOf(b: UserBehavior): real {
    b.summary.timeOnPage as real
  }

  /** One session's engagement: ten points a click plus the scroll percentage. */
  function EngagementOf(b: UserBehavior): real {
    b.summary.clickCount as real * 10.0 + b.summary.scrollDepth
  }

  predicate Converted(b: UserBehavior) {
    HasEvent(b, Conversion)
  }

  /** `whole > 0 ? (part / whole) * 100 : 0`. */
  function Percent(part: nat, whole: nat): (r: real)
    requires part <= whole
    ensures 0.0 <= r <= 100.0
    ensures whole == 0 ==> r == 0.0
    ensures part == whole && whole > 0 ==> r == 100.0
  {
    if whole == 0 then 0.0
    else
      FractionAtMostOne(part as real, whole as real);
      part as real / whole as real * 100.0
  }

  lemma FractionAtMostOne(x: real, y: real)
    requires 0.0 <= x <= y && y > 0.0
    ensures 0.0 <= x / y <= 1.0
  {
    assert x / y * y == x;
  }

  /** The analysis of one variant from its behaviour and feedback records:
      mean present rating, mean time on page, percentage of sessions with a
      conversion, mean engagement, and the two record counts. Every mean is 0
      over no values. */
  function Analyze(v: Variant, bs: seq<UserBehavior>, fs: seq<FeedbackData>): (r: VariantAnalysis)
    ensures r.variant == v && r.feedbackCount == |fs| && r.behaviorMetrics.totalSessions == |bs|
    ensures 0.0 <= r.behaviorMetrics.conversionRate <= 100.0
    ensures bs == [] ==> r.behaviorMetrics == BehaviorMetrics(0.0, 0.0, 0.0, 0)
    ensures Filter(fs, HasRating) == [] ==> r.avgRating == 0.0
    ensures bs == [] && fs == [] ==> r == ZeroAnalysis(v)
  {
    var conversions := Filter(bs, Converted);
    VariantAnalysis(
      v,
      Mean(Ratings(fs)),
      BehaviorMetrics(
        Mean(Map(bs, TimeOf)),
        Percent(|conversions|, |bs|),
        Mean(Map(bs, EngagementOf)),
        |bs|),
      |fs|)
  }

  /** When every present rating lies in [lo, hi] and some rating is present,
      so does the mean rating. */
  lemma RatingWithinBounds(v: Variant, bs: seq<UserBehavior>, fs: seq<FeedbackData>, lo: real, hi: real)
    requires forall f :: f in fs && HasRating(f) ==> lo <= f.feedback.rating.value <= hi
    requires exists f :: f in fs && HasRating(f)
    ensures lo <= Analyze(v, bs, fs).avgRating <= hi
  {
    var rated := Filter(fs, HasRating);
    var f :| f in fs && HasRating(f);
    assert f in rated;
    forall i | 0 <= i < |Ratings(fs)|
      ensures lo <= Ratings(fs)[i] <= hi
    {
      assert rated[i] in rated;
    }
    MeanBounds(Ratings(fs), lo, hi);
  }

  /** The analysis does not depend on the order of the records: two
      arrangements of the same records give the same six numbers. */
  lemma OrderIndependent(v: Variant, bs1: seq<UserBehavior>, bs2: seq<UserBehavior>,
                         fs1: seq<FeedbackData>, fs2: seq<FeedbackData>)
    requires multiset(bs1) == multiset(bs2) && multiset(fs1) == multiset(fs2)
    ensures Analyze(v, bs1, fs1) == Analyze(v, bs2, fs2)
  {
    assert |bs1| == |multiset(bs1)| == |bs2|;
    assert |fs1| == |multiset(fs1)| == |fs2|;
    RatingsPermutation(fs1, fs2);
    MeanOfMapPermutation(bs1, bs2, TimeOf);
    MeanOfMapPermutation(bs1, bs2, EngagementOf);
    FilterPermutation(bs1, bs2, Converted);
    assert |Filter(bs1, Converted)| == |multiset(Filter(bs1, Converted))| == |Filter(bs2, Converted)|;
  }

  lemma RatingsPermutation(fs1: seq<FeedbackData>, fs2: seq<FeedbackData>)
    requires multiset(fs1) == multiset(fs2)
    ensures Mean(Ratings(fs1)) == Mean(Ratings(fs2))
  {
    FilterPermutation(fs1, fs2, HasRating);
    MapPermutation(Filter(fs1, HasRating), Filter(fs2, HasRating), RatingOf);
    SumPermutation(Ratings(fs1), Ratings(fs2));
    assert |Ratings(fs1)| == |multiset(Ratings(fs1))| == |Ratings(fs2)|;
  }

  lemma MeanOfMapPermutation(bs1: seq<UserBehavior>, bs2: seq<UserBehavior>, f: UserBehavior -> real)
    requires multiset(bs1) == multiset(bs2)
    ensures Mean(Map(bs1, f)) == Mean(Map(bs2, f))
  {
    MapPermutation(bs1, bs2, f);
    SumPermutation(Map(bs1, f), Map(bs2, f));
    assert |bs1| == |multiset(bs1)| == |bs2|;
  }

  function SessionWith(v: Variant, clicks: int, depth: real, events: seq<BehaviorEvent>): UserBehavior {
    UserBehavior("s", None, v.Tag(), events, Metadata("/", None, Desktop, None, 0), Summary(0, depth, clicks, ["/"]))
  }

  /** Three sessions with 0, 5 and 10 clicks and 0, 50 and 100 percent
      scrolled have engagement mean(0, 100, 200) = 100. */
  lemma EngagementExample()
    ensures Analyze(A, ThreeSessions(), []).behaviorMetrics.engagementScore == 100.0
  {
    ThreeSessionsEngagement();
    MeanOfThree();
  }

  lemma MeanOfThree()
    ensures Mean([0.0, 100.0, 200.0]) == 100.0
  {
    assert DropLast([0.0, 100.0, 200.0]) == [0.0, 100.0];
    assert DropLast([0.0, 100.0]) == [0.0];
    assert Sum([0.0]) == 0.0;
  }

  function ThreeSessions(): seq<UserBehavior> {
    [SessionWith(A, 0, 0.0, []), SessionWith(A, 5, 50.0, []), SessionWith(A, 10, 100.0, [])]
  }

  lemma ThreeSessionsEngagement()
    ensures Map(ThreeSessions(), EngagementOf) == [0.0, 100.0, 200.0]
  {
    var bs, es := ThreeSessions(), Map(ThreeSessions(), EngagementOf);
    assert es[0] == EngagementOf(bs[0]) == 0.0;
    assert es[1] == EngagementOf(bs[1]) == 100.0;
    assert es[2] == EngagementOf(bs[2]) == 200.0;
  }

  /** Two sessions, one with a conversion event and one without, convert at
      50 percent. */
  lemma ConversionExample(e: BehaviorEvent)
    requires e.kind == Conversion
    ensures Analyze(B, [SessionWith(B, 0, 0.0, [e]), SessionWith(B, 0, 0.0, [])], []).behaviorMetrics.conversionRate == 50.0
  {
    var bs := [SessionWith(B, 0, 0.0, [e]), SessionWith(B, 0, 0.0, [])];
    assert Converted(bs[0]) by {
      assert e in bs[0].events;
    }
    assert !Converted(bs[1]);
    assert DropLast(bs) == [bs[0]];
    assert Filter(bs, Converted) == [bs[0]];
  }
}
