/** The feedback ingestion endpoint of the Next app (app/api/feedback/route.ts).
    Its module-level list (`feedbackStore` of app/lib/storage.ts) is the
    `items` field of `FeedbackStore`. */
module FeedbackRoute {
  import opened Types
  import opened Seqs

  /** The POST body is refused unless both fields are truthy. */
  predicate Acceptable(f: FeedbackData) {
    Truthy(f.sessionId) && Truthy(f.variant)
  }

  datatype PostReply = InvalidFeedback | Accepted(feedbackCount: nat)

  function VariantIs(variant: string): FeedbackData -> bool {
    (f: FeedbackData) => f.variant == variant
  }

  /** The GET filter: by variant when the parameter is truthy. */
  function Select(items: seq<FeedbackData>, variant: string): (r: seq<FeedbackData>)
    ensures forall f :: f in r <==> f in items && (Truthy(variant) ==> f.variant == variant)
    ensures !Truthy(variant) ==> r == items
    ensures Truthy(variant) ==> r == Filter(items, VariantIs(variant))
  {
    if Truthy(variant) then Filter(items, VariantIs(variant)) else items
  }

  /** When every stored variant is 'A' or 'B', the listings for the two
      variants split the store: their lengths add up to its length. */
  lemma {:induction false} SelectSplitsByVariant(items: seq<FeedbackData>)
    requires forall f :: f in items ==> f.variant == "A" || f.variant == "B"
    ensures |Select(items, "A")| + |Select(items, "B")| == |items|
  {
    if items != [] {
      SelectSplitsByVariant(DropLast(items));
      assert Last(items) in items;
      assert forall f :: f in DropLast(items) ==> f in items;
      assert items == DropLast(items) + [Last(items)];
    }
  }

  datatype Listing = Listing(feedbacks: seq<FeedbackData>, count: nat)

  class FeedbackStore {
    var items: seq<FeedbackData>

    constructor()
      ensures items == []
    {
      items := [];
    }

    /** `POST`: a record with a falsy session id or variant is refused and
        nothing is stored; otherwise it is appended and the reply carries the
        new length of the store. */
    method Post(f: FeedbackData) returns (reply: PostReply)
      modifies this
      ensures !Acceptable(f) ==> reply == InvalidFeedback && items == old(items)
      ensures Acceptable(f) ==> items == old(items) + [f] && reply == Accepted(|items|)
    {
      if !Truthy(f.sessionId) || !Truthy(f.variant) {
        return InvalidFeedback;
      }
      items := items + [f];
      reply := Accepted(|items|);
    }

    /** `GET`: the selected records and their number. */
    function Get(variant: string): (r: Listing)
      reads this
      ensures r.count == |r.feedbacks| <= |items|
      ensures forall f :: f in r.feedbacks <==> f in items && (Truthy(variant) ==> f.variant == variant)
      ensures !Truthy(variant) ==> r.feedbacks == items
    {
      var selected := Select(items, variant);
      Listing(selected, |selected|)
    }
  }
}
