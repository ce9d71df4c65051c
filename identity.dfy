/** The middleware that attaches a client identifier to every request: the
    `X-Client-ID` header if it is truthy, else the `clientId` query
    parameter if it is truthy, else `<X-Forwarded-For>-<User-Agent>` cut
    to at most 100 characters, a missing header counting as "". */
module Identity {
  import opened JsValues

  /** Longest client identifier derived from the connection's metadata. */
  const MaxDerivedLength: nat := 100

  /** The identifier derived from the forwarded origin and the agent string. */
  function DerivedId(forwardedFor: Option<string>, userAgent: Option<string>): string {
    SliceTo(OrEmpty(forwardedFor) + "-" + OrEmpty(userAgent), MaxDerivedLength)
  }

  /** The key under which the request's dialogue is kept. */
  function ClientId(header: Option<string>, query: Option<string>,
                    forwardedFor: Option<string>, userAgent: Option<string>): (r: string)
    ensures Truthy(header) ==> r == header.value
    ensures !Truthy(header) && Truthy(query) ==> r == query.value
    ensures !Truthy(header) && !Truthy(query) ==>
      var joined := OrEmpty(forwardedFor) + "-" + OrEmpty(userAgent);
      && r <= joined
      && |r| <= MaxDerivedLength
      && (r == joined || |r| == MaxDerivedLength)
    ensures r != ""
  {
    if Truthy(header) then header.value
    else if Truthy(query) then query.value
    else DerivedId(forwardedFor, userAgent)
  }
}
