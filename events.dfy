/**
 The events document handler: one document holding the recurring and the special
 events, written JSON-encoded twice and read back with a single decode.
 */
module Events {
  import opened Json
  import opened Http
  import opened Kv

  const Key: string := "walk4health:events"
  const Methods: seq<string> := ["GET", "POST"]

  /** What GET answers when nothing is stored: both lists empty. */
  const Default: Json := JObj(map["recurringEvents" := EmptyArray, "specialEvents" := EmptyArray])

  /** Both lists are arrays. */
  predicate ValidBody(body: map<string, Json>) {
    FieldIsArray(body, "recurringEvents") && FieldIsArray(body, "specialEvents")
  }

  /** The document a POST builds: the two lists and a server-side `lastUpdated`. */
  function Document(body: map<string, Json>, stamp: string): Json
    requires ValidBody(body)
  {
    JObj(map[
      "recurringEvents" := body["recurringEvents"],
      "specialEvents" := body["specialEvents"],
      "lastUpdated" := JStr(stamp)
    ])
  }

  /** The value a POST writes: `JSON.stringify(JSON.stringify(document))` stores the
      text of the once-encoded document. */
  function Written(body: map<string, Json>, stamp: string): Value
    requires ValidBody(body)
  {
    Enc(Doc(Document(body, stamp)))
  }

  /** The handler for `/api/events`. It reads only the `UPSTASH_REDIS_REST_*` variables. */
  method Handle(kv: KvStore, req: Request, env: Env) returns (resp: Response)
    modifies kv
    ensures req.verb !in Methods ==>
      resp == NotAllowed(req.verb, Methods) && kv.data == old(kv.data) && kv.log == old(kv.log)
    ensures req.verb == "GET" ==> kv.data == old(kv.data)
    ensures req.verb == "GET" && !UpstashConfigured(env.vars) ==>
      resp == Failure(500, "Redis not configured") && kv.log == old(kv.log)
    ensures req.verb == "GET" && UpstashConfigured(env.vars) ==>
      kv.log == old(kv.log) + [GetCall(Key)]
      && resp == (if !env.getOk then Failure(500, "Failed to read events")
                  else if Key in old(kv.data) then Reply(200, old(kv.data)[Key])
                  else Reply(200, Doc(Default)))
    ensures req.verb == "POST" && !ValidBody(req.body) ==>
      resp == Failure(400, "Invalid data format") && kv.data == old(kv.data) && kv.log == old(kv.log)
    ensures req.verb == "POST" && ValidBody(req.body) && !UpstashConfigured(env.vars) ==>
      resp == Failure(500, "Redis not configured") && kv.data == old(kv.data) && kv.log == old(kv.log)
    ensures req.verb == "POST" && ValidBody(req.body) && UpstashConfigured(env.vars) ==>
      var written := Written(req.body, env.stamp);
      kv.log == old(kv.log) + [SetCall(Key, written)]
      && kv.data == (if env.setOk then old(kv.data)[Key := written] else old(kv.data))
      && resp == (if env.setOk then Success("Events saved successfully") else Failure(500, "Failed to save events"))
  {
    if req.verb == "GET" {
      if !UpstashConfigured(env.vars) {
        return Failure(500, "Redis not configured");
      }
      var o := kv.Get(Key, env.getOk);
      match o
      case Found(v) => resp := Reply(200, v);
      case Absent => resp := Reply(200, Doc(Default));
      case NotOk => resp := Failure(500, "Failed to read events");
    } else if req.verb == "POST" {
      if !ValidBody(req.body) {
        return Failure(400, "Invalid data format");
      }
      var eventsData := Document(req.body, env.stamp);
      if !UpstashConfigured(env.vars) {
        return Failure(500, "Redis not configured");
      }
      var saved := kv.Set(Key, Enc(Doc(eventsData)), env.setOk);
      resp := if saved then Success("Events saved successfully") else Failure(500, "Failed to save events");
    } else {
      resp := NotAllowed(req.verb, Methods);
    }
  }

  /** A successful POST then a GET: the GET answers with the document still encoded
      once, a JSON string, not the events object that was posted. */
  method PostThenGet(kv: KvStore, body: map<string, Json>, env: Env) returns (posted: Response, read: Response)
    requires ValidBody(body) && UpstashConfigured(env.vars) && env.setOk && env.getOk
    modifies kv
    ensures posted == Success("Events saved successfully")
    ensures read == Reply(200, Enc(Doc(Document(body, env.stamp))))
    ensures read.body.value != Doc(Document(body, env.stamp)) && Depth(read.body.value) == 1
  {
    posted := Handle(kv, Request("POST", map[], body), env);
    read := Handle(kv, Request("GET", map[], map[]), env);
  }
}
