# GethApi: a verified model of a JSON-RPC 2.0 client

The PHP class `GethApi` is a client for an Ethereum node's JSON-RPC 2.0 interface.
Its constructor turns one loosely typed argument into an option record:

- nothing;
- a port number;
- a `"host:port"` string;
- a bare host;
- an array merged over the defaults.

It then opens a curl handle on `http://host:port`. Every method call on the object goes through the magic `__call`, which:

1. raises the request counter `$_id` by one;
2. builds the JSON-RPC request object `{jsonrpc, method, params, id}`;
3. POSTs it with a correct `Content-Length`;
4. turns the reply into one of three things: a thrown `\RuntimeException` for a transport error, a thrown `Exception` for an RPC error, or a returned value (null when the reply has no `result`).

The model is split into one module per concern:

- `Decimal`: decimal numerals, covering PHP's integer-to-string conversion and reading digits back.
- `Json`: the PHP values that `json_decode($text, true)` produces, plus three PHP operations on them: truthiness, keyed access and string conversion. When a key repeats, the last occurrence wins.
- `Options`: the constructor's normalisation. The pattern `/^([^\:]+)\:([\d]+)$/` is hand-coded here as a predicate, together with a matcher that is proved to agree with it.
- `Rpc`: the request object, the HTTP POST and its headers, and the classification of the reply.
- `GethApi`: the class. It has the option record and the address as constants, `id` as the only mutable field, and a ghost history of the ids issued so far. `Invoke` is the `__call` entry point.

json_encode, the curl exchange and json_decode are parameters of `Invoke`: `encode`, `transport` and `decode`. The transport's report is a `CurlReply`: the output of curl_exec (`None` for `false`) plus curl_errno and curl_error.

Some behaviours of the code that are easy to miss, all modelled as written:

- A port taken from a `"host:port"` string stays a digit string; it is not converted to an integer.
- PCRE's `$` also matches before one final newline, so `"h:80\n"` yields host `h` and port `"80"`.
- The curl output `"0"` is falsy, so it raises a transport error just as `false` and `""` do. Such an error carries whatever curl_errno and curl_error report, which need not describe a failure.
- A body that json_decode cannot parse decodes to null, and null has no `result` key. So it returns null rather than raising a decode error.

## Model

| member | source | states |
|---|---|---|
| Decimal.ParseNatToDecimal | src/GethApi/GethApi.php:154 | the decimal numeral written for a length reads back as that length |
| Json.FindIsLastOccurrence | src/GethApi/GethApi.php:162-168 | keyed access finds a key exactly when it is present, and yields the value at its last occurrence |
| Json.FindAppend | src/GethApi/GethApi.php:162-168 | a member appended last is the one keyed access sees for its key; other keys are unaffected |
| Json.ToMapAgreesWithFind | src/GethApi/GethApi.php:108 | an array argument, seen as PHP's keyed array, holds exactly the keys keyed access finds, with the same values |
| Options.FirstColon | src/GethApi/GethApi.php:96 | the position found is a colon with no colon before it; none is found only in a colon-free string |
| Options.SplitHostPort | src/GethApi/GethApi.php:96 | whenever groups are returned, the string matches the host:port pattern with those groups |
| Options.SplitHostPortComplete | src/GethApi/GethApi.php:96-97 | whenever the string matches the pattern, the matcher returns exactly its two groups |
| Options.NoColonNoMatch | src/GethApi/GethApi.php:96-100 | a string without a colon never matches the pattern |
| Options.CallerOptions | src/GethApi/GethApi.php:90-107 | a non-array argument contributes at most host and port; a port it sets is a nonzero integer or a non-empty digit string, and a string host it sets is non-empty |
| Options.Configure | src/GethApi/GethApi.php:108 | the merged record always has a value for each default key |
| Options.ConfigureFalsy | src/GethApi/GethApi.php:90-108 | null, false, 0, "", "0" or an empty array give exactly the default record |
| Options.ConfigureInt | src/GethApi/GethApi.php:92-93 | a nonzero integer n gives port n with host 127.0.0.1, version "2.0" and assoc true |
| Options.ConfigureHostPort | src/GethApi/GethApi.php:96-97 | a string matching the pattern with groups h and p gives host h and port p (as digits), other keys default |
| Options.ConfigureBareHost | src/GethApi/GethApi.php:99-100 | any other non-falsy string becomes the host and the port stays 8545 |
| Options.ConfigureTrue | src/GethApi/GethApi.php:95-101 | `true` is matched as "1", does not match, and becomes the host itself |
| Options.ConfigureArray | src/GethApi/GethApi.php:108 | for an array argument, the keys it sets win, the default keys it omits keep their defaults, and no other key appears |
| Options.ConfigureList | src/GethApi/GethApi.php:108 | a list argument, having only integer keys, leaves the string-keyed options at their defaults |
| Options.Url | src/GethApi/GethApi.php:109 | the address starts with http://; when the host is non-empty and colon-free and the port reads as digits, the host:port pattern splits the rest back into exactly that host and port |
| Options.UrlForPort | src/GethApi/GethApi.php:109 | with a positive integer port, the address is http://127.0.0.1: followed by the port's decimal numeral, which reads back as the port |
| Options.UrlForHostPort | src/GethApi/GethApi.php:109 | with "h:p", the address is http://h:p with p's digits verbatim |
| Options.UrlForBareHost | src/GethApi/GethApi.php:109 | with a bare host, the address uses port 8545 |
| Options.PortExample | src/GethApi/GethApi.php:92-93 | 8546 gives port 8546 on host 127.0.0.1 |
| Options.HostPortExample | src/GethApi/GethApi.php:96-97 | "10.0.0.5:9000", with or without a final newline, gives host 10.0.0.5 and port "9000" |
| Options.BareHostExample | src/GethApi/GethApi.php:99-100 | "10.0.0.5" gives host 10.0.0.5 and port 8545 |
| Rpc.RequestObject | src/GethApi/GethApi.php:144-149 | the request object has keys jsonrpc, method, params, id in that order. They hold the configured version, the method name verbatim, the argument list unchanged and the new id |
| Rpc.Post | src/GethApi/GethApi.php:150-155 | the POST carries the body unchanged, is declared application/json, and its Content-Length reads back as the body's byte count |
| Rpc.Interpret | src/GethApi/GethApi.php:160-168 | a decoded reply never yields a transport error |
| Rpc.Classify | src/GethApi/GethApi.php:156-160 | a transport error occurs exactly when curl's output is false, "" or "0". It then carries curl_error and curl_errno; any other output is decoded and its decision is the outcome |
| Rpc.FalsyOutputIsNotDecoded | src/GethApi/GethApi.php:156-160 | on a falsy output the outcome does not depend on the decoder: nothing is decoded |
| Rpc.InterpretSuccess | src/GethApi/GethApi.php:165-168 | a JSON-RPC success response returns its result unchanged, null included |
| Rpc.InterpretError | src/GethApi/GethApi.php:162-163 | a JSON-RPC error response gives the RPC-error outcome, carrying the server's message and code verbatim as they are passed to the exception's constructor |
| Rpc.InterpretNoResult | src/GethApi/GethApi.php:165-166 | a reply object with neither result nor error returns null, not an error |
| Rpc.InterpretNonObject | src/GethApi/GethApi.php:160-166 | a decoded body that is not an associative array (including null from a failed decode) returns null |
| Rpc.ErrorTakesPrecedence | src/GethApi/GethApi.php:162-168 | a set error member raises the error whatever result member is present |
| Rpc.ResultReturnedUnchanged | src/GethApi/GethApi.php:162-168 | with no set error member (absent or null), the result member is returned as it stands wherever it sits among the members; a repeated result gives its last occurrence |
| Rpc.ResultMissingReturnsNull | src/GethApi/GethApi.php:162-166 | with no set error member (absent or null) and no result member, the call returns null |
| Rpc.ResultPlacementExamples | src/GethApi/GethApi.php:162-168 | a result beside `"error": null` is returned, a result that is not the last member is returned, and `"error": null` alone returns null |
| Rpc.RpcErrorCarriesMembers | src/GethApi/GethApi.php:162-163 | an RPC error is raised exactly when the error member is present and non-null. It carries that member's message and code |
| GethApi.GethApi.constructor | src/GethApi/GethApi.php:88-112 | the client stores the merged options, opens its handle on the address they give, and starts with id 0 |
| GethApi.GethApi.LatestId | src/GethApi/GethApi.php:128-131 | getLatestId returns the last id issued (0 before any call) and changes nothing |
| GethApi.GethApi.Invoke | src/GethApi/GethApi.php:141-168 | the id goes up by exactly one before sending, whatever the outcome. The POST carries the request object with the new id. The outcome is the classification of the transport's reply. The issued ids stay exactly 1..id |
| GethApi.IssuedIdsIncrease | src/GethApi/GethApi.php:143 | issued ids strictly increase, so none repeats, and the last one is the latest id |
| GethApi.ServerSeesRequest | src/GethApi/GethApi.php:144-155 | a decoder that reads back the request object the encoder wrote finds in the body the version, method name, argument list (in order) and id; the Content-Length matches the body |
| GethApi.ReplyExamples | src/GethApi/GethApi.php:156-168 | three replies: `"0x4b7"` as result returns "0x4b7"; error -32602 "invalid params" raises that error; a reply with no result returns null |

## Left out

- curl: `curl_init`, `curl_setopt`, `curl_exec`, `curl_error`/`curl_errno`, and `curl_close` in `__destruct` are foreign I/O calls. The exchange is the `transport` parameter of `Invoke`, and the handle is represented only by its address `url`.
- json_encode and json_decode are library serialisation. They are the `encode` and `decode` parameters. json_encode failing (it returns false) is not modelled.
- The `assoc = false` branch (src/GethApi/GethApi.php:170-177) is not modelled separately. It repeats the decision of the `assoc` branch on objects instead of arrays, and `array_key_exists` on an object depends on the PHP version. The single `Json` value covers both.
- Floating-point numbers and PHP objects are not modelled. `Json` holds null, booleans, integers, strings, lists and associative arrays only.
- Options.ConfigureArray: keys are kept as strings. PHP stores a key such as `"5"` as the integer 5, and array_merge renumbers integer keys. In the model such a key stays the string `"5"` in the merged record. The client reads only `version`, `host`, `port` and `assoc`, so no behaviour depends on this. A list argument's integer keys are not kept at all.
- Integers are unbounded. PHP integers are 64-bit: `++$this->_id` turns into a float after PHP_INT_MAX, and json_decode turns out-of-range integers into floats. Counter overflow and out-of-range integers in options, arguments and replies are not modelled.
- GethApi.GethApi.Invoke: the invariant that the issued ids are exactly 1..id holds in PHP only for the first PHP_INT_MAX calls, since the model's counter does not overflow.
- A decoded body that is not an array follows PHP 7, where `array_key_exists` warns and the call returns null. PHP 8 raises a TypeError there instead.
- An `error` member that is not an associative array has its `message` and `code` read as null. PHP's string-offset rules for a string-valued `error` are not modelled.
- Rpc.RpcErrorCarriesMembers: the error carries the raw JSON values of `message` and `code`, the two arguments passed to the exception's constructor. Whatever that constructor does with them, such as coercing them to a string message and an integer code, is not modelled.
- The RPC error is thrown as an unqualified `Exception` (src/GethApi/GethApi.php:163 and :172) inside `namespace GethApi` with no `use` import. PHP therefore resolves it to the class `GethApi\Exception`, whereas the transport error at :158 names `\RuntimeException` explicitly. `GethApi\Exception` is not part of this model. The model assumes it exists and takes `(message, code)` as `\Exception` does. If it were undefined, every RPC error would instead end in PHP's class-not-found `Error`, and the server's message and code would be lost.
- The `@method` catalogue (src/GethApi/GethApi.php:8-65) and src/GethApi/GethApiInterface.php declare method names only. Each of them is a call to `Invoke` with that name.
- Concurrency: PHP runs each request on one thread, and the class takes no locks.
