/** What a handler returns, and the two response shapes the three handlers share:
    the empty preflight answer and the catch-all failure envelope. */
module Handler {
  import opened Wrappers
  import opened Js
  import opened Upstream

  /** The body of an HTTP response: the empty string, or JSON text. */
  datatype Payload = Blank | Text(json: Json)

  /** The status code and body; the fixed CORS headers are not modelled. */
  datatype Response = Response(status: int, body: Payload)

  /** One invocation: the upstream request it sent, if any, and its response. */
  datatype Outcome = Outcome(call: Option<Call>, response: Response)

  predicate IsPreflight(httpMethod: string)
  {
    httpMethod == "OPTIONS"
  }

  /** The answer to a CORS preflight. */
  const Preflight := Response(200, Blank)

  /** `{ statusCode: 500, body: JSON.stringify({ success: false, error: error.message }) }` */
  function Fail(message: string): (r: Response)
    ensures r.status == 500 && r.body.Text?
    ensures Keys(r.body.json) == {"success", "error"}
    ensures Lookup(r.body.json, "success") == Some(JBool(false)) && Lookup(r.body.json, "error") == Some(JStr(message))
  {
    var j := JObj([Member("success", JBool(false)), Member("error", JStr(message))]);
    assert Keys(j) == {"success", "error"} by {
      assert j.members[0].key == "success" && j.members[1].key == "error";
    }
    assert j.members[1..] == [Member("error", JStr(message))];
    assert "error" != "success" by { assert "error"[0] != "success"[0]; }
    assert LookupMember(j.members[1..], "error") == Some(JStr(message));
    Response(500, Text(j))
  }

  /** `{ statusCode: 200, body: JSON.stringify({ success: true, <key>: <value> }) }` */
  function Succeed(key: string, value: Json): (r: Response)
    ensures r.status == 200 && r.body.Text?
    ensures Keys(r.body.json) == {"success", key} + Keys(value)
    ensures Lookup(r.body.json, "success") == Some(JBool(true))
    ensures key != "success" ==> Lookup(r.body.json, key) == Some(value)
  {
    var j := JObj([Member("success", JBool(true)), Member(key, value)]);
    assert Keys(j) == {"success", key} + Keys(value) by {
      assert j.members[0].key == "success" && j.members[1].key == key && j.members[1].value == value;
    }
    assert j.members[1..] == [Member(key, value)];
    assert LookupMember(j.members[1..], key) == Some(value);
    Response(200, Text(j))
  }

  /** The shape of every failure response: status 500, `success: false`, and a message. */
  ghost predicate IsFailure(r: Response)
  {
    exists message :: r == Fail(message)
  }
}
