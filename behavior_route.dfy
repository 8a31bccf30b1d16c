/** The behaviour ingestion endpoint of the Next app (app/api/behavior/route.ts)
    and its feedback rule, compared with the client's rule. The module-level
    list it appends to (`behaviorStore` of app/lib/storage.ts) is the
    `items` field of `BehaviorStore`. */
module BehaviorRoute {
  import opened Types
  import opened Seqs
  import FeedbackManager

  /** The server's `checkFeedbackTriggers`: five fixed rules, with no
      threshold on the exit rule and a conversion rule. */
  function ShouldRequestFeedback(b: UserBehavior): bool {
    if b.summary.timeOnPage >= 30000 then true
    else if b.summary.scrollDepth >= 50.0 then true
    else if b.summary.clickCount >= 5 then true
    else if HasEvent(b, Exit) then true
    else HasEvent(b, Conversion)
  }

  /** Whenever the client prompts, the server rule agrees. */
  lemma ClientImpliesServer(b: UserBehavior)
    ensures FeedbackManager.Fires(FeedbackManager.DefaultTriggers, b) ==> ShouldRequestFeedback(b)
  {
    FeedbackManager.DefaultRule(b);
    if FeedbackManager.HasExitAtLeast(b, 1.0) {
      var e :| e in b.events && e.kind == Exit && e.timestamp as real >= 1.0;
      assert HasEvent(b, Exit);
    }
  }

  /** The two rules disagree exactly on sessions below every counter
      threshold that have no exit event 1 ms or more into its page view but
      have an earlier exit event or a conversion. */
  lemma WhereRulesDiffer(b: UserBehavior)
    ensures ShouldRequestFeedback(b) && !FeedbackManager.Fires(FeedbackManager.DefaultTriggers, b) <==>
              b.summary.timeOnPage < 30000 && b.summary.scrollDepth < 50.0 && b.summary.clickCount < 5 &&
              !FeedbackManager.HasExitAtLeast(b, 1.0) && (HasEvent(b, Exit) || HasEvent(b, Conversion))
  {
    FeedbackManager.DefaultRule(b);
    ClientImpliesServer(b);
  }

  /** A session whose only event is an exit at 0 ms, or whose only event is a
      conversion, prompts on the server and not on the client. */
  lemma DifferingWitnesses(m: Metadata, k: EventKind)
    requires k == Exit || k == Conversion
    ensures var b := UserBehavior("s", None, "A", [BehaviorEvent(k, None, 0, NoValue, "/")], m, Summary(0, 0.0, 0, ["/"]));
            ShouldRequestFeedback(b) && !FeedbackManager.Fires(FeedbackManager.DefaultTriggers, b)
  {
    var b := UserBehavior("s", None, "A", [BehaviorEvent(k, None, 0, NoValue, "/")], m, Summary(0, 0.0, 0, ["/"]));
    assert b.events[0] in b.events;
    WhereRulesDiffer(b);
  }

  /** The POST body is refused unless both fields are truthy. */
  predicate Acceptable(b: UserBehavior) {
    Truthy(b.sessionId) && Truthy(b.variant)
  }

  datatype PostReply = InvalidBehavior | Accepted(shouldRequestFeedback: bool, storedCount: nat)

  /** A GET query parameter, or the empty string when it is absent, passes a
      record when it is falsy or equal to the record's field. */
  predicate Passes(param: string, field: string) {
    !Truthy(param) || field == param
  }

  function SessionIs(sessionId: string): UserBehavior -> bool {
    (b: UserBehavior) => Passes(sessionId, b.sessionId)
  }

  function VariantIs(variant: string): UserBehavior -> bool {
    (b: UserBehavior) => Passes(variant, b.variant)
  }

  /** Both query parameters pass the record. */
  function Matches(sessionId: string, variant: string): UserBehavior -> bool {
    (b: UserBehavior) => Passes(sessionId, b.sessionId) && Passes(variant, b.variant)
  }

  /** The GET filter: by session when given, then by variant when given. */
  function Select(items: seq<UserBehavior>, sessionId: string, variant: string): (r: seq<UserBehavior>)
    ensures forall b :: b in r <==> b in items && Passes(sessionId, b.sessionId) && Passes(variant, b.variant)
    ensures !Truthy(sessionId) && !Truthy(variant) ==> r == items
  {
    if !Truthy(sessionId) && !Truthy(variant) then
      FilterAll(Filter(items, SessionIs(sessionId)), VariantIs(variant));
      FilterAll(items, SessionIs(sessionId));
      Filter(Filter(items, SessionIs(sessionId)), VariantIs(variant))
    else
      Filter(Filter(items, SessionIs(sessionId)), VariantIs(variant))
  }

  /** The two filters in a row are one filter on both conditions, so the
      listing keeps the store's order. */
  lemma SelectKeepsOrder(items: seq<UserBehavior>, sessionId: string, variant: string)
    ensures Select(items, sessionId, variant) == Filter(items, Matches(sessionId, variant))
  {
    FilterFilter(items, SessionIs(sessionId), VariantIs(variant), Matches(sessionId, variant));
  }

  datatype Listing = Listing(behaviors: seq<UserBehavior>, count: nat)

  class BehaviorStore {
    var items: seq<UserBehavior>

    constructor()
      ensures items == []
    {
      items := [];
    }

    /** `POST`: a record with a falsy session id or variant is refused and
        nothing is stored; otherwise it is appended and the reply carries the
        server's rule and the new length of the store. */
    method Post(b: UserBehavior) returns (reply: PostReply)
      modifies this
      ensures !Acceptable(b) ==> reply == InvalidBehavior && items == old(items)
      ensures Acceptable(b) ==> items == old(items) + [b]
      ensures Acceptable(b) ==> reply == Accepted(ShouldRequestFeedback(b), |items|)
    {
      if !Truthy(b.sessionId) || !Truthy(b.variant) {
        return InvalidBehavior;
      }
      items := items + [b];
      var should := ShouldRequestFeedback(b);
      reply := Accepted(should, |items|);
    }

    /** `GET`: the selected records and their number. */
    function Get(sessionId: string, variant: string): (r: Listing)
      reads this
      ensures r.count == |r.behaviors| <= |items|
      ensures forall b :: b in r.behaviors <==> b in items && Passes(sessionId, b.sessionId) && Passes(variant, b.variant)
      ensures !Truthy(sessionId) && !Truthy(variant) ==> r.behaviors == items
    {
      var selected := Select(items, sessionId, variant);
      Listing(selected, |selected|)
    }
  }
}
