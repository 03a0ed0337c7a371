/** The HTTP side of both tools: the requests they send, the tagged JSON reply
    of the curation service in decoded form, and a client that keeps the log
    of everything it has sent. */
module Http {
  import opened Wrappers
  import opened Files

  /** One POST: the URL, the Content-Type header and the body bytes. */
  datatype Request = Request(endpoint: string, contentType: string, body: seq<byte>)

  /** A reply body after JSON decoding. `Tagged` is a value serde reads as
      tagged: an object with a string `status` field, or an array whose first
      element is the tag. It carries the tag and the `error` text when that is
      a string (`None` when it is absent or not a string, which only matters
      under the tag `error`). `Malformed` is anything else: not JSON, the empty
      text of an unreadable body, no tag, a non-string tag. */
  datatype Body = Tagged(status: string, errorField: Option<string>) | Malformed

  /** What sending a request gives: a reply whose body was read, or a failure
      to send (connection, TLS, timeout; for the validator's client also a
      non-success HTTP status). */
  datatype Reply = Delivered(body: Body) | SendFailed(detail: string)

  /** The service's reply, `{"status":"ok"}` or `{"status":"error","error":…}`. */
  datatype ServiceResponse = RespOk | RespError(error: string)

  /** Decoding the internally tagged `ServiceResponse` enum: the tag must be
      `ok`, or `error` together with its string field. */
  function Decode(b: Body): (r: Option<ServiceResponse>)
    ensures r == Some(RespOk) <==> b.Tagged? && b.status == "ok"
    ensures (r.Some? && r.value.RespError?) <==> b.Tagged? && b.status == "error" && b.errorField.Some?
    ensures r.Some? && r.value.RespError? ==> r.value.error == b.errorField.value
    ensures r.None? <==> b.Malformed? || (b.status != "ok" && (b.status != "error" || b.errorField.None?))
  {
    match b
    case Malformed => None
    case Tagged(status, err) =>
      if status == "ok" then Some(RespOk)
      else if status == "error" && err.Some? then Some(RespError(err.value))
      else None
  }

  /** The behaviour of the remote service and the network, as a function of
      everything sent before and the request now sent. */
  type Server = (seq<Request>, Request) -> Reply

  /** An HTTP client. `sent` is the log of every request it has sent, in
      order; `server` decides each reply. */
  class Client {
    var sent: seq<Request>
    const server: Server

    constructor (server: Server)
      ensures this.server == server && sent == []
    {
      this.server := server;
      sent := [];
    }

    /** Sends one request: it is appended to the log and the reply is the
        server's answer given the log so far. */
    method Send(req: Request) returns (reply: Reply)
      modifies this
      ensures sent == old(sent) + [req]
      ensures reply == server(old(sent), req)
    {
      reply := server(sent, req);
      sent := sent + [req];
    }
  }
}
