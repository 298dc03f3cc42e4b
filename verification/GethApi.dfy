/**
 * The client object (src/GethApi/GethApi.php:67-181): its option record,
 * the address its transport handle is opened on, and the request counter
 * every call advances.
 */
module GethApi {
  import opened Json
  import opened Options
  import opened Rpc

  class GethApi {
    /** The merged option record; set once by the constructor. */
    const options: Config
    /** The address the transport handle was opened on. */
    const url: string
    /** The latest request id issued; 0 before the first call. */
    var id: nat
    /** The ids issued so far, in call order. */
    ghost var issued: seq<nat>

    /**
     * The object invariant: every default key has a value, the handle's
     * address is the one the options give, and the ids issued are exactly
     * 1, 2, ..., id in call order (no repeats, no gaps).
     */
    ghost predicate Valid()
      reads this
    {
      && (forall k :: k in Defaults() ==> k in options)
      && url == Url(options)
      && |issued| == id
      && (forall i :: 0 <= i < |issued| ==> issued[i] == i + 1)
    }

    /** `new GethApi($options)` (src/GethApi/GethApi.php:88-112). */
    constructor (opts: Json)
      ensures Valid()
      ensures options == Configure(opts) && url == Url(Configure(opts))
      ensures id == 0 && issued == []
    {
      options := Configure(opts);
      url := Url(Configure(opts));
      id := 0;
      issued := [];
    }

    /** getLatestId (src/GethApi/GethApi.php:128-131): the latest id issued, with no effect. */
    method LatestId() returns (latest: nat)
      requires Valid()
      ensures latest == id
      ensures issued == [] ==> latest == 0
      ensures issued != [] ==> latest == issued[|issued| - 1]
    {
      latest := id;
    }

    /**
     * `$client->name(...$args)` (src/GethApi/GethApi.php:141-168). The id
     * is raised by one before anything is sent, and stays raised whatever
     * the outcome; the request carries the new id; `encode`, `transport`
     * and `decode` stand for json_encode, curl and json_decode.
     */
    method Invoke(name: string, args: seq<Json>,
                  encode: Json -> seq<byte>, transport: HttpPost -> CurlReply, decode: seq<byte> -> Json)
      returns (sent: HttpPost, outcome: Outcome)
      requires Valid()
      modifies this`id, this`issued
      ensures Valid()
      ensures id == old(id) + 1 && issued == old(issued) + [id]
      ensures sent == Post(url, encode(RequestObject(options["version"], name, args, id)))
      ensures outcome == Classify(transport(sent), decode)
    {
      id := id + 1;
      issued := issued + [id];
      var data := RequestObject(options["version"], name, args, id);
      var json := encode(data);
      sent := Post(url, json);
      var result := transport(sent);
      outcome := Classify(result, decode);
    }
  }

  /** The ids a client has issued are strictly increasing, so no two requests share one, and the last is the latest id. */
  lemma IssuedIdsIncrease(c: GethApi)
    requires c.Valid()
    ensures forall i, j :: 0 <= i < j < |c.issued| ==> c.issued[i] < c.issued[j]
    ensures c.issued != [] ==> c.issued[|c.issued| - 1] == c.id
  {
  }

  /**
   * What a server reading the body receives, given a decoder that reads
   * back the request object the encoder wrote: a request object naming
   * the configured version, the method called, the arguments in order and
   * the request's id, announced with the body's exact length.
   */
  lemma ServerSeesRequest(url: string, version: Json, name: string, args: seq<Json>, id: nat,
                          encode: Json -> seq<byte>, decode: seq<byte> -> Json)
    requires decode(encode(RequestObject(version, name, args, id))) == RequestObject(version, name, args, id)
    ensures var sent := Post(url, encode(RequestObject(version, name, args, id)));
      && Member(decode(sent.body), "jsonrpc") == Some(version)
      && Member(decode(sent.body), "method") == Some(JString(name))
      && Member(decode(sent.body), "params") == Some(JArray(args))
      && Member(decode(sent.body), "id") == Some(JInt(id))
      && ContentLength(sent.headers) == Some(|sent.body|)
  {
    var sent := Post(url, encode(RequestObject(version, name, args, id)));
    assert decode(sent.body) == RequestObject(version, name, args, id);
  }

  /** Three typical replies, as a stub transport would deliver them: a result, an error, and neither. */
  lemma ReplyExamples(reply: CurlReply, decode: seq<byte> -> Json)
    requires OutputTruthy(reply.output)
    ensures decode(reply.output.value) == SuccessResponse(JInt(1), JString("0x4b7")) ==>
      Classify(reply, decode) == Returned(JString("0x4b7"))
    ensures decode(reply.output.value) == ErrorResponse(JInt(1), -32602, "invalid params") ==>
      Classify(reply, decode) == RpcError(JString("invalid params"), JInt(-32602))
    ensures decode(reply.output.value) == JObject([("jsonrpc", JString("2.0")), ("id", JInt(1))]) ==>
      Classify(reply, decode) == Returned(JNull)
  {
    InterpretSuccess(JInt(1), JString("0x4b7"));
    InterpretError(JInt(1), -32602, "invalid params");
    InterpretNoResult([("jsonrpc", JString("2.0")), ("id", JInt(1))]);
  }
}
