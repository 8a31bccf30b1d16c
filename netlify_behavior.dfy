/** The behaviour endpoint as a Netlify function
    (netlify/functions/api-behavior.ts). It keeps its own in-memory list and
    also reads and writes the remote table. The remote reader asks for the
    requested variant and returns an empty list on every failure, so "the
    query failed" and "no row matched" reach the handler as the same empty
    list. */
module NetlifyBehavior {
  import opened Types
  import opened Seqs
  import opened Http
  import BehaviorRoute
  import Remote

  /** A request: its method, the parsed POST body (fields missing from the
      body, or from an empty body, are empty strings) and the GET query
      parameters (empty when absent). */
  datatype Request = Request(httpMethod: HttpMethod, body: UserBehavior, sessionId: string, variant: string)

  datatype Response =
    | Preflight
    | MethodNotAllowed
    | InvalidBehavior
    | Stored(shouldRequestFeedback: bool, storedCount: nat)
    | Listed(behaviors: seq<UserBehavior>, count: nat, source: Source)
  {
    function StatusCode(): (code: int)
      ensures code == 200 <==> Preflight? || Stored? || Listed?
      ensures code == 400 <==> InvalidBehavior?
      ensures code == 405 <==> MethodNotAllowed?
    {
      match this
      case MethodNotAllowed => 405
      case InvalidBehavior => 400
      case _ => 200
    }
  }

  /** The GET answer: the remote rows of the requested variant, filtered by
      session, when there are any; else the in-memory list filtered by
      session and variant. */
  function ListBehaviors(memory: seq<UserBehavior>, table: Remote.Table<UserBehavior>, sessionId: string, variant: string)
    : (r: Response)
    ensures r.Listed? && r.count == |r.behaviors|
    ensures r.source == Supabase <==> Remote.ReadBehaviors(table, variant) != []
    ensures r.source == Supabase ==>
              r.behaviors == Filter(Remote.ReadBehaviors(table, variant), BehaviorRoute.SessionIs(sessionId))
    ensures r.source == Memory ==> r.behaviors == BehaviorRoute.Select(memory, sessionId, variant)
  {
    var fetched := Remote.ReadBehaviors(table, variant);
    if |fetched| > 0 then
      var filtered := Filter(fetched, BehaviorRoute.SessionIs(sessionId));
      Listed(filtered, |filtered|, Supabase)
    else
      var filtered := BehaviorRoute.Select(memory, sessionId, variant);
      Listed(filtered, |filtered|, Memory)
  }

  /** Both sources answer the same query: the listing is what the Next
      route's filter selects from the records of the source it came from, so
      it holds only records of the requested session and variant, in that
      source's order. */
  lemma ListingIsTheQuery(memory: seq<UserBehavior>, table: Remote.Table<UserBehavior>, sessionId: string, variant: string)
    ensures var r := ListBehaviors(memory, table, sessionId, variant);
            r.behaviors == BehaviorRoute.Select(if r.source == Supabase then table.rows else memory, sessionId, variant)
    ensures forall b :: b in ListBehaviors(memory, table, sessionId, variant).behaviors ==>
              BehaviorRoute.Passes(sessionId, b.sessionId) && BehaviorRoute.Passes(variant, b.variant)
  {
    var r := ListBehaviors(memory, table, sessionId, variant);
    if r.source == Supabase {
      var rows := table.rows;
      BehaviorRoute.SelectKeepsOrder(rows, sessionId, variant);
      if Truthy(variant) {
        FilterFilter(rows, Remote.BehaviorOfVariant(variant), BehaviorRoute.SessionIs(sessionId),
                     BehaviorRoute.Matches(sessionId, variant));
      } else {
        FilterSame(rows, BehaviorRoute.SessionIs(sessionId), BehaviorRoute.Matches(sessionId, variant));
      }
    }
  }

  /** When the remote query yields nothing, the listing is what the Next
      route's GET returns for the same memory and parameters. */
  lemma MemoryFallbackMatchesNextRoute(memory: seq<UserBehavior>, table: Remote.Table<UserBehavior>,
                                       sessionId: string, variant: string)
    requires Remote.ReadBehaviors(table, variant) == []
    ensures ListBehaviors(memory, table, sessionId, variant).behaviors == BehaviorRoute.Select(memory, sessionId, variant)
    ensures ListBehaviors(memory, table, sessionId, variant).source == Memory
  {
  }

  class Handler {
    /** The function's module-level `behaviorStore`. */
    var memory: seq<UserBehavior>

    constructor()
      ensures memory == []
    {
      memory := [];
    }

    /** `handler`. OPTIONS is answered at once; a POST is validated, appended
        to memory and then saved remotely, a remote failure (`remoteSaveFails`)
        being caught and changing nothing in the answer; a GET is answered by
        `ListBehaviors` over `table`, what the remote query meets; any other
        method is refused. */
    method Handle(req: Request, remoteSaveFails: bool, table: Remote.Table<UserBehavior>) returns (resp: Response)
      modifies this
      ensures req.httpMethod != Post ==> memory == old(memory)
      ensures req.httpMethod == Options ==> resp == Preflight
      ensures req.httpMethod == Other ==> resp == MethodNotAllowed
      ensures req.httpMethod == Post && !BehaviorRoute.Acceptable(req.body) ==>
                resp == InvalidBehavior && memory == old(memory)
      ensures req.httpMethod == Post && BehaviorRoute.Acceptable(req.body) ==>
                memory == old(memory) + [req.body] &&
                resp == Stored(BehaviorRoute.ShouldRequestFeedback(req.body), |memory|)
      ensures req.httpMethod == Get ==> resp == ListBehaviors(memory, table, req.sessionId, req.variant)
    {
      if req.httpMethod == Options {
        return Preflight;
      }
      if req.httpMethod == Post {
        var b := req.body;
        if !Truthy(b.sessionId) || !Truthy(b.variant) {
          return InvalidBehavior;
        }
        memory := memory + [b];
        var should := BehaviorRoute.ShouldRequestFeedback(b);
        return Stored(should, |memory|);
      }
      if req.httpMethod == Get {
        return ListBehaviors(memory, table, req.sessionId, req.variant);
      }
      return MethodNotAllowed;
    }
  }
}
