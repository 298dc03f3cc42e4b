/**
 * One JSON-RPC 2.0 exchange as the client performs it
 * (src/GethApi/GethApi.php:143-177): the request object, the HTTP POST that
 * carries it, and the classification of what comes back.
 */
module Rpc {
  import opened Decimal
  import opened Json

  /**
   * The request object of section 4 of the JSON-RPC 2.0 specification:
   * `jsonrpc` the configured version, `method` the name called, `params`
   * the positional arguments and `id` the request's number, in that order.
   */
  function RequestObject(version: Json, name: string, args: seq<Json>, id: int): (r: Json)
    ensures r.JObject? && Keys(r.members) == ["jsonrpc", "method", "params", "id"]
    ensures Member(r, "jsonrpc") == Some(version)
    ensures Member(r, "method") == Some(JString(name))
    ensures Member(r, "params") == Some(JArray(args))
    ensures Member(r, "id") == Some(JInt(id))
  {
    var ms := [("jsonrpc", version), ("method", JString(name)), ("params", JArray(args)), ("id", JInt(id))];
    FindIsLastOccurrence(ms, "jsonrpc");
    FindIsLastOccurrence(ms, "method");
    FindIsLastOccurrence(ms, "params");
    FindIsLastOccurrence(ms, "id");
    assert LastOccurrence(ms, "jsonrpc", 0);
    assert LastOccurrence(ms, "method", 1);
    assert LastOccurrence(ms, "params", 2);
    assert LastOccurrence(ms, "id", 3);
    JObject(ms)
  }

  /** An HTTP POST: where it goes, its header lines and its body. */
  datatype HttpPost = HttpPost(url: string, headers: seq<string>, body: seq<byte>)

  const ContentLengthName: string := "Content-Length: "

  predicate HasPrefix(s: string, prefix: string) {
    |prefix| <= |s| && s[..|prefix|] == prefix
  }

  /** The value of the first well-formed Content-Length header line, as a receiver reads it. */
  function ContentLength(headers: seq<string>): Option<nat>
  {
    if headers == [] then None
    else
      var h := headers[0];
      if HasPrefix(h, ContentLengthName) && IsDigits(h[|ContentLengthName|..])
      then Some(ParseDecimal(h[|ContentLengthName|..]))
      else ContentLength(headers[1..])
  }

  /**
   * The POST the client sends (src/GethApi/GethApi.php:151-155): the body as
   * given, declared as JSON, with a Content-Length equal to its byte count.
   */
  function Post(url: string, body: seq<byte>): (r: HttpPost)
    ensures r.url == url && r.body == body
    ensures "Content-Type: application/json" in r.headers
    ensures ContentLength(r.headers) == Some(|body|)
  {
    var contentType := "Content-Type: application/json";
    var digits := NatToDecimal(|body|);
    var contentLength := ContentLengthName + digits;
    assert !HasPrefix(contentType, ContentLengthName) by {
      assert contentType[8] != ContentLengthName[8];
    }
    assert contentLength[|ContentLengthName|..] == digits;
    ParseNatToDecimal(|body|);
    HttpPost(url, [contentType, contentLength], body)
  }

  /**
   * What the transport reports after the exchange: curl_exec's output
   * (None where it returned false) and curl_errno / curl_error read just
   * after it.
   */
  datatype CurlReply = CurlReply(output: Option<seq<byte>>, errno: int, error: string)

  /**
   * How one call ends: the two exceptions the client throws, or the value it
   * returns. `TransportError` is the `\RuntimeException` of
   * src/GethApi/GethApi.php:158; `RpcError` is the unqualified `Exception`
   * of :163, which names `GethApi\Exception`
   * and is assumed to take a message and a code as `\Exception` does.
   */
  datatype Outcome =
    | TransportError(curlError: string, curlErrno: int)
    | RpcError(message: Json, code: Json)
    | Returned(value: Json)

  /** PHP truthiness of curl_exec's output: false, "" and "0" are falsy. */
  predicate OutputTruthy(output: Option<seq<byte>>) {
    output.Some? && output.value != [] && output.value != [48 as byte]
  }

  /**
   * The decision on a decoded reply (src/GethApi/GethApi.php:161-168): a set
   * (non-null) `error` member is thrown with its `message` and `code`;
   * otherwise the `result` member is returned, null when it is missing.
   */
  function Interpret(data: Json): (r: Outcome)
    ensures !r.TransportError?
  {
    var err := MemberOrNull(data, "error");
    if err != JNull then RpcError(MemberOrNull(err, "message"), MemberOrNull(err, "code"))
    else match Member(data, "result")
      case None => Returned(JNull)
      case Some(x) => Returned(x)
  }

  /**
   * The whole reply handling (src/GethApi/GethApi.php:156-168): a falsy
   * transport output raises a transport error carrying curl's code and
   * message; otherwise the decoded body is interpreted.
   */
  function Classify(reply: CurlReply, decode: seq<byte> -> Json): (r: Outcome)
    ensures r.TransportError? <==> !OutputTruthy(reply.output)
    ensures !OutputTruthy(reply.output) ==> r == TransportError(reply.error, reply.errno)
    ensures OutputTruthy(reply.output) ==> r == Interpret(decode(reply.output.value))
  {
    if !OutputTruthy(reply.output) then TransportError(reply.error, reply.errno)
    else Interpret(decode(reply.output.value))
  }

  /** A success response object (section 5 of JSON-RPC 2.0). */
  function SuccessResponse(id: Json, result: Json): Json {
    JObject([("jsonrpc", JString("2.0")), ("id", id), ("result", result)])
  }

  /** An error response object (sections 5 and 5.1 of JSON-RPC 2.0). */
  function ErrorResponse(id: Json, code: int, message: string): Json {
    JObject([("jsonrpc", JString("2.0")), ("id", id),
             ("error", JObject([("code", JInt(code)), ("message", JString(message))]))])
  }

  /** On a falsy output nothing is decoded: the outcome is the same whatever the decoder. */
  lemma FalsyOutputIsNotDecoded(reply: CurlReply, d1: seq<byte> -> Json, d2: seq<byte> -> Json)
    requires !OutputTruthy(reply.output)
    ensures Classify(reply, d1) == Classify(reply, d2)
  {
  }

  /** A success response gives back its result unchanged, null included. */
  lemma InterpretSuccess(id: Json, result: Json)
    ensures Interpret(SuccessResponse(id, result)) == Returned(result)
  {
    var ms := [("jsonrpc", JString("2.0")), ("id", id), ("result", result)];
    FindIsLastOccurrence(ms, "error");
    FindIsLastOccurrence(ms, "result");
    assert LastOccurrence(ms, "result", 2);
  }

  /** An error response is raised with the server's message and code, verbatim. */
  lemma InterpretError(id: Json, code: int, message: string)
    ensures Interpret(ErrorResponse(id, code, message)) == RpcError(JString(message), JInt(code))
  {
    var inner := [("code", JInt(code)), ("message", JString(message))];
    var ms := [("jsonrpc", JString("2.0")), ("id", id), ("error", JObject(inner))];
    FindIsLastOccurrence(ms, "error");
    assert LastOccurrence(ms, "error", 2);
    FindIsLastOccurrence(inner, "message");
    assert LastOccurrence(inner, "message", 1);
    FindIsLastOccurrence(inner, "code");
    assert LastOccurrence(inner, "code", 0);
  }

  /** A reply object with neither `result` nor `error` returns null: absence is not a failure. */
  lemma InterpretNoResult(ms: seq<(string, Json)>)
    requires forall i :: 0 <= i < |ms| ==> ms[i].0 != "result" && ms[i].0 != "error"
    ensures Interpret(JObject(ms)) == Returned(JNull)
  {
    FindIsLastOccurrence(ms, "error");
    FindIsLastOccurrence(ms, "result");
  }

  /** A decoded body that is not an associative array (a list, a scalar, or null from a failed decode) returns null. */
  lemma InterpretNonObject(data: Json)
    requires !data.JObject?
    ensures Interpret(data) == Returned(JNull)
  {
  }

  /** A set `error` member wins over any `result` member. */
  lemma {:induction false} ErrorTakesPrecedence(ms: seq<(string, Json)>, result: Json)
    requires MemberOrNull(JObject(ms), "error") != JNull
    ensures Interpret(JObject(ms + [("result", result)])).RpcError?
    ensures Interpret(JObject(ms + [("result", result)])) == Interpret(JObject(ms))
  {
    FindAppend(ms, "result", result, "error");
  }

  /**
   * Without a set `error` member (absent, or null), the `result` member is
   * returned as it stands, wherever it sits among the members; if `result`
   * repeats, its last occurrence is the one returned.
   */
  lemma ResultReturnedUnchanged(ms: seq<(string, Json)>, i: int)
    requires MemberOrNull(JObject(ms), "error") == JNull
    requires LastOccurrence(ms, "result", i)
    ensures Interpret(JObject(ms)) == Returned(ms[i].1)
  {
    FindIsLastOccurrence(ms, "result");
  }

  /** Without a set `error` member (absent, or null) and without a `result` member, the call returns null. */
  lemma ResultMissingReturnsNull(ms: seq<(string, Json)>)
    requires MemberOrNull(JObject(ms), "error") == JNull
    requires forall i :: 0 <= i < |ms| ==> ms[i].0 != "result"
    ensures Interpret(JObject(ms)) == Returned(JNull)
  {
    FindIsLastOccurrence(ms, "result");
  }

  /** Three replies: `"error": null` beside a result (JSON-RPC 1.0 style), a result that is not the last member, and `"error": null` with no result. */
  lemma ResultPlacementExamples()
    ensures Interpret(JObject([("result", JInt(5)), ("error", JNull), ("id", JInt(1))])) == Returned(JInt(5))
    ensures Interpret(JObject([("id", JInt(1)), ("result", JString("0x1")), ("jsonrpc", JString("2.0"))]))
      == Returned(JString("0x1"))
    ensures Interpret(JObject([("error", JNull), ("id", JInt(1))])) == Returned(JNull)
  {
    var a := [("result", JInt(5)), ("error", JNull), ("id", JInt(1))];
    FindIsLastOccurrence(a, "error");
    assert LastOccurrence(a, "error", 1);
    ResultReturnedUnchanged(a, 0);
    var b := [("id", JInt(1)), ("result", JString("0x1")), ("jsonrpc", JString("2.0"))];
    FindIsLastOccurrence(b, "error");
    ResultReturnedUnchanged(b, 1);
    var c := [("error", JNull), ("id", JInt(1))];
    FindIsLastOccurrence(c, "error");
    assert LastOccurrence(c, "error", 0);
    ResultMissingReturnsNull(c);
  }

  /** The error outcome carries the `message` and `code` members of the `error` member, whatever else the reply holds. */
  lemma RpcErrorCarriesMembers(data: Json)
    ensures Interpret(data).RpcError? <==> Member(data, "error").Some? && Member(data, "error").value != JNull
    ensures Interpret(data).RpcError? ==>
      Interpret(data).message == MemberOrNull(Member(data, "error").value, "message") &&
      Interpret(data).code == MemberOrNull(Member(data, "error").value, "code")
  {
  }
}
