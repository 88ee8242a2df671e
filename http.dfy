/**
 The request, response and environment shapes shared by the serverless handlers.
 */
module Http {
  import opened Json

  /** An incoming request: the HTTP method (`verb`), the query string and the parsed JSON body
      (a missing body field is a missing key). */
  datatype Request = Request(verb: string, query: map<string, string>, body: map<string, Json>)

  /** `res.json(value)` or `res.end(text)`. */
  datatype Body = Payload(value: Value) | Plain(text: string)

  /** Status code, the `Allow` header (empty when not set) and body. */
  datatype Response = Response(status: nat, allow: seq<string>, body: Body)

  /** Which environment variables are set: the key-value store's URL and token under
      their two names, and the e-mail API key. */
  datatype Vars = Vars(kvUrl: bool, kvToken: bool, upstashUrl: bool, upstashToken: bool, sendKey: bool)

  /** `KV_REST_API_URL || UPSTASH_REDIS_REST_URL` and the same for the token. */
  predicate RedisConfigured(v: Vars) {
    (v.kvUrl || v.upstashUrl) && (v.kvToken || v.upstashToken)
  }

  /** Only the `UPSTASH_REDIS_REST_*` names (as the events and content handlers read them). */
  predicate UpstashConfigured(v: Vars) {
    v.upstashUrl && v.upstashToken
  }

  /** The environment of one handler call: variables, whether the store answers its
      GET and its SET with an ok status, `Date.now()` and `new Date().toISOString()`. */
  datatype Env = Env(vars: Vars, getOk: bool, setOk: bool, now: nat, stamp: string)

  /** `res.status(status).json(value)`. */
  function Reply(status: nat, value: Value): Response {
    Response(status, [], Payload(value))
  }

  /** `{ error: message }` with the given status. */
  function Failure(status: nat, message: string): Response {
    Reply(status, Object(map["error" := JStr(message)]))
  }

  /** `{ success: true, message }` with status 200. */
  function Success(message: string): Response {
    Reply(200, Object(map["success" := JBool(true), "message" := JStr(message)]))
  }

  /** The 405 answer: `Allow` header set and a plain-text body naming the method. */
  function NotAllowed(verb: string, allow: seq<string>): Response {
    Response(405, allow, Plain("Method " + verb + " Not Allowed"))
  }

  /** `!!req.query[k]`. */
  predicate QueryPresent(query: map<string, string>, k: string) {
    k in query && query[k] != ""
  }
}
