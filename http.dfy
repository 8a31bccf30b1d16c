/** What the serverless handlers (netlify/functions/) share: the request
    method they dispatch on and where a listing came from. */
module Http {

  /** `event.httpMethod`; every method the handlers do not name is `Other`. */
  datatype HttpMethod = Get | Post | Options | Other

  /** The `source` field of a listing: the remote table or the function's
      in-memory list. */
  datatype Source = Supabase | Memory
}
