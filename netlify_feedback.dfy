/** The feedback endpoint as a Netlify function
    (netlify/functions/api-feedback.ts), with its own in-memory list. As for
    behaviours, the remote reader asks for the requested variant and answers
    every failure with an empty list. */
module NetlifyFeedback {
  import opened Types
  import opened Http
  import opened Seqs
  import FeedbackRoute
  import Remote

  /** A request: its method, the parsed POST body (missing fields are empty
      strings) and the GET `variant` parameter (empty when absent). */
  datatype Request = Request(httpMethod: HttpMethod, body: FeedbackData, variant: string)

  datatype Response =
    | Preflight
    | MethodNotAllowed
    | InvalidFeedback
    | Stored(feedbackCount: nat)
    | Listed(feedbacks: seq<FeedbackData>, count: nat, source: Source)

  /** The GET answer: the remote rows of the requested variant as they came,
      when there are any; else the in-memory list filtered by variant. */
  function ListFeedbacks(memory: seq<FeedbackData>, table: Remote.Table<FeedbackData>, variant: string): (r: Response)
    ensures r.Listed? && r.count == |r.feedbacks|
    ensures r.source == Supabase <==> Remote.ReadFeedbacks(table, variant) != []
    ensures r.source == Supabase ==> r.feedbacks == Remote.ReadFeedbacks(table, variant)
    ensures r.source == Memory ==> r.feedbacks == FeedbackRoute.Select(memory, variant)
  {
    var fetched := Remote.ReadFeedbacks(table, variant);
    if |fetched| > 0 then Listed(fetched, |fetched|, Supabase)
    else
      var filtered := FeedbackRoute.Select(memory, variant);
      Listed(filtered, |filtered|, Memory)
  }

  /** Both sources answer the same query: the listing is what the Next
      route's filter selects from the records of the source it came from, so
      for a given variant it holds only records of that variant. */
  lemma ListingIsTheQuery(memory: seq<FeedbackData>, table: Remote.Table<FeedbackData>, variant: string)
    ensures var r := ListFeedbacks(memory, table, variant);
            r.feedbacks == FeedbackRoute.Select(if r.source == Supabase then table.rows else memory, variant)
    ensures Truthy(variant) ==>
              forall f :: f in ListFeedbacks(memory, table, variant).feedbacks ==> f.variant == variant
  {
    var r := ListFeedbacks(memory, table, variant);
    if r.source == Supabase && Truthy(variant) {
      FilterSame(table.rows, Remote.FeedbackOfVariant(variant), FeedbackRoute.VariantIs(variant));
    }
  }

  class Handler {
    /** The function's module-level `feedbackStore`. */
    var memory: seq<FeedbackData>

    constructor()
      ensures memory == []
    {
      memory := [];
    }

    /** `handler`. OPTIONS is answered at once; a POST is validated and
        appended to memory, its count reported whatever the remote save
        (`remoteSaveFails`) does; a GET is answered by `ListFeedbacks` over
        `table`, what the remote query meets; any other method is refused. */
    method Handle(req: Request, remoteSaveFails: bool, table: Remote.Table<FeedbackData>) returns (resp: Response)
      modifies this
      ensures req.httpMethod != Post ==> memory == old(memory)
      ensures req.httpMethod == Options ==> resp == Preflight
      ensures req.httpMethod == Other ==> resp == MethodNotAllowed
      ensures req.httpMethod == Post && !FeedbackRoute.Acceptable(req.body) ==>
                resp == InvalidFeedback && memory == old(memory)
      ensures req.httpMethod == Post && FeedbackRoute.Acceptable(req.body) ==>
                memory == old(memory) + [req.body] && resp == Stored(|memory|)
      ensures req.httpMethod == Get ==> resp == ListFeedbacks(memory, table, req.variant)
    {
      if req.httpMethod == Options {
        return Preflight;
      }
      if req.httpMethod == Post {
        var f := req.body;
        if !Truthy(f.sessionId) || !Truthy(f.variant) {
          return InvalidFeedback;
        }
        memory := memory + [f];
        return Stored(|memory|);
      }
      if req.httpMethod == Get {
        return ListFeedbacks(memory, table, req.variant);
      }
      return MethodNotAllowed;
    }
  }
}
