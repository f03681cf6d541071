/**
 * The Express response object the handlers write to, and the server-sent-event frame
 * (section 9.2 of the WHATWG HTML Living Standard): `data: ` + JSON + a blank line.
 */
module Http {
  import opened Json

  /** One event-stream frame: `data: <json>\n\n`. */
  function Frame(p: Payload): (f: string)
    ensures "data: " <= f
    ensures f[|f| - 2..] == "\n\n"
  {
    "data: " + Stringify(ToObject(p)) + "\n\n"
  }

  function Frames(ps: seq<Payload>): (fs: seq<string>)
    ensures |fs| == |ps|
    ensures forall i :: 0 <= i < |ps| ==> fs[i] == Frame(ps[i])
  {
    seq(|ps|, i requires 0 <= i < |ps| => Frame(ps[i]))
  }

  lemma FramesAppend(a: seq<Payload>, b: seq<Payload>)
    ensures Frames(a + b) == Frames(a) + Frames(b)
  {
  }

  lemma FramesSnoc(ps: seq<Payload>, p: Payload)
    ensures Frames(ps + [p]) == Frames(ps) + [Frame(p)]
  {
    FramesAppend(ps, [p]);
    assert Frames([p]) == [Frame(p)];
  }

  lemma AppendAssoc(a: seq<string>, b: seq<string>, c: seq<string>)
    ensures a + b + c == a + (b + c)
  {
  }

  lemma EmptyAppend(a: seq<string>)
    ensures [] + a == a
  {
  }

  /** The body `res.json` sends for `{ error: 'Failed to get AI response' }`. */
  function ErrorBody(): string {
    Stringify([("error", Str("Failed to get AI response"))])
  }

  /**
   * An Express response: status, the headers set so far, every piece of body written, in
   * order, and whether the response has been ended. Headers go out with the first write.
   */
  class Response {
    var statusCode: int
    var headers: seq<(string, string)>
    var body: seq<string>
    var ended: bool

    constructor ()
      ensures statusCode == 200 && headers == [] && body == [] && !ended
    {
      statusCode := 200;
      headers := [];
      body := [];
      ended := false;
    }

    /** The status line and headers have gone out (after the first write, or at the end). */
    predicate HeadersSent()
      reads this
    {
      body != [] || ended
    }

    /** `res.setHeader(name, value)`, before anything is written. */
    method SetHeader(name: string, value: string)
      requires !HeadersSent()
      modifies this
      ensures headers == old(headers) + [(name, value)]
      ensures statusCode == old(statusCode) && body == old(body) && ended == old(ended)
    {
      headers := headers + [(name, value)];
    }

    /** `res.write(chunk)`: only an open response can be written to. */
    method Write(chunk: string)
      requires !ended
      modifies this
      ensures body == old(body) + [chunk]
      ensures statusCode == old(statusCode) && headers == old(headers) && !ended
    {
      body := body + [chunk];
    }

    /** `res.end()`. */
    method End()
      requires !ended
      modifies this
      ensures ended
      ensures statusCode == old(statusCode) && headers == old(headers) && body == old(body)
    {
      ended := true;
    }

    /**
     * `res.status(status).json(value)`: sends `json` as the whole body and ends the response,
     * unless the headers have already gone out, in which case Express throws and nothing is sent.
     * The `Content-Type`, `Content-Length` and `ETag` headers Express adds are not modelled.
     */
    method SendJson(status: int, json: string) returns (sent: bool)
      modifies this
      ensures sent == !old(HeadersSent())
      ensures sent ==> statusCode == status && body == old(body) + [json] && ended
      ensures !sent ==> statusCode == old(statusCode) && body == old(body) && ended == old(ended)
      ensures headers == old(headers)
    {
      sent := !HeadersSent();
      if sent {
        statusCode := status;
        body := body + [json];
        ended := true;
      }
    }
  }
}
