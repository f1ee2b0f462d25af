/**
 * The parts of the HTTP listener (System.Net.HttpListener and friends) that
 * the routers read or write. They are collaborators, not part of the router:
 * only the fields the routing code touches are modelled.
 */
module Listener {
  import opened Wrappers

  /** A character encoding, kept as an opaque token named by its web name. */
  datatype Encoding = Encoding(webName: string)

  const UTF8: Encoding := Encoding("utf-8")

  /** The authenticated user of a request, if any. */
  datatype Principal = Anonymous | Authenticated(name: string)

  /**
   * What the routers read of a request: its HTTP method and the segments of
   * its URL (`Uri.Segments`: "/", then each path component with its trailing
   * slash, e.g. ["/", "users/", "42"] for "/users/42").
   */
  datatype Request = Request(httpMethod: string, urlSegments: seq<string>)

  /** The response fields the routers assign. */
  class Response {
    var statusCode: int
    var contentType: Option<string>
    var contentEncoding: Option<Encoding>
    var outputClosed: bool

    constructor ()
      ensures statusCode == 200 && contentType == None && contentEncoding == None
      ensures !outputClosed
    {
      statusCode := 200;
      contentType := None;
      contentEncoding := None;
      outputClosed := false;
    }
  }
}
