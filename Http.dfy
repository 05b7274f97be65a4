/**
 * The slice of a servlet request that the filters and interceptors read,
 * as a plain record.
 */
module Http {
  import opened Wrappers

  /** Method, request URI, server name, remote address, headers and content type. */
  datatype Request = Request(
    httpMethod: string,
    uri: string,
    serverName: string,
    remoteAddr: string,
    headers: map<string, string>,
    contentType: Option<string>)

  /** getHeader: the header's value, or null when the request does not carry it. */
  function Header(req: Request, name: string): (r: Option<string>)
    ensures r.Some? <==> name in req.headers
    ensures r.Some? ==> r.value == req.headers[name]
  {
    if name in req.headers then Some(req.headers[name]) else None
  }

  const StatusUnauthorized := 401
  const StatusNotFound := 404
  const StatusTooManyRequests := 429
  const StatusServiceUnavailable := 503
}
