/**
 The site-content document handler: the club description and the walking schedule,
 written JSON-encoded twice and read back with a single decode.
 */
module Content {
  import opened Json
  import opened Http
  import opened Kv

  const Key: string := "walk4health:content"
  const Methods: seq<string> := ["GET", "POST"]

  const DefaultDescription: string :=
    "In the Hutt Valley we are blessed with some of the best walking areas in New Zealand with the beautiful river trail, etc."

  /** What GET answers when nothing is stored: the default description, the schedule
      09:00 / 09:30 / 10:00 and the current time. */
  function Default(stamp: string): Json {
    JObj(map[
      "clubDescription" := JStr(DefaultDescription),
      "walkingSchedule" := JObj(map[
        "sundaySummer" := JStr("09:00"),
        "sundayWinter" := JStr("09:30"),
        "tuesday" := JStr("10:00")
      ]),
      "lastUpdated" := JStr(stamp)
    ])
  }

  /** A description and a schedule are both given. */
  predicate ValidBody(body: map<string, Json>) {
    FieldTruthy(body, "clubDescription") && FieldTruthy(body, "walkingSchedule")
  }

  /** The document a POST builds: only the description, the schedule and a server-side
      `lastUpdated`; every other field of the body is dropped. */
  function Document(body: map<string, Json>, stamp: string): Json
    requires ValidBody(body)
  {
    JObj(map[
      "clubDescription" := body["clubDescription"],
      "walkingSchedule" := body["walkingSchedule"],
      "lastUpdated" := JStr(stamp)
    ])
  }

  /** The value a POST writes: the once-encoded document, so the text is encoded twice. */
  function Written(body: map<string, Json>, stamp: string): Value
    requires ValidBody(body)
  {
    Enc(Doc(Document(body, stamp)))
  }

  /** The client's content shape carries `committee` and `walkingStats` but no
      `walkingSchedule`, so the handler rejects it. */
  lemma ClientShapeRejected(body: map<string, Json>)
    requires "committee" in body && "walkingStats" in body && "walkingSchedule" !in body
    ensures !ValidBody(body)
  {
  }

  /** The handler for `/api/content`. It reads only the `UPSTASH_REDIS_REST_*` variables. */
  method Handle(kv: KvStore, req: Request, env: Env) returns (resp: Response)
    modifies kv
    ensures req.verb !in Methods ==>
      resp == NotAllowed(req.verb, Methods) && kv.data == old(kv.data) && kv.log == old(kv.log)
    ensures req.verb == "GET" ==> kv.data == old(kv.data)
    ensures req.verb == "GET" && !UpstashConfigured(env.vars) ==>
      resp == Failure(500, "Redis not configured") && kv.log == old(kv.log)
    ensures req.verb == "GET" && UpstashConfigured(env.vars) ==>
      kv.log == old(kv.log) + [GetCall(Key)]
      && resp == (if !env.getOk then Failure(500, "Failed to read content")
                  else if Key in old(kv.data) then Reply(200, old(kv.data)[Key])
                  else Reply(200, Doc(Default(env.stamp))))
    ensures req.verb == "POST" && !ValidBody(req.body) ==>
      resp == Failure(400, "Missing required fields") && kv.data == old(kv.data) && kv.log == old(kv.log)
    ensures req.verb == "POST" && ValidBody(req.body) && !UpstashConfigured(env.vars) ==>
      resp == Failure(500, "Redis not configured") && kv.data == old(kv.data) && kv.log == old(kv.log)
    ensures req.verb == "POST" && ValidBody(req.body) && UpstashConfigured(env.vars) ==>
      var written := Written(req.body, env.stamp);
      kv.log == old(kv.log) + [SetCall(Key, written)]
      && kv.data == (if env.setOk then old(kv.data)[Key := written] else old(kv.data))
      && resp == (if env.setOk then Success("Content saved successfully") else Failure(500, "Failed to save content"))
  {
    if req.verb == "GET" {
      if !UpstashConfigured(env.vars) {
        return Failure(500, "Redis not configured");
      }
      var o := kv.Get(Key, env.getOk);
      match o
      case Found(v) => resp := Reply(200, v);
      case Absent => resp := Reply(200, Doc(Default(env.stamp)));
      case NotOk => resp := Failure(500, "Failed to read content");
    } else if req.verb == "POST" {
      if !ValidBody(req.body) {
        return Failure(400, "Missing required fields");
      }
      var contentData := Document(req.body, env.stamp);
      if !UpstashConfigured(env.vars) {
        return Failure(500, "Redis not configured");
      }
      var saved := kv.Set(Key, Enc(Doc(contentData)), env.setOk);
      resp := if saved then Success("Content saved successfully") else Failure(500, "Failed to save content");
    } else {
      resp := NotAllowed(req.verb, Methods);
    }
  }

  /** A successful POST then a GET: the GET answers with a JSON string holding the
      document, not the content object itself. */
  method PostThenGet(kv: KvStore, body: map<string, Json>, env: Env) returns (posted: Response, read: Response)
    requires ValidBody(body) && UpstashConfigured(env.vars) && env.setOk && env.getOk
    modifies kv
    ensures posted == Success("Content saved successfully")
    ensures read == Reply(200, Enc(Doc(Document(body, env.stamp))))
    ensures read.body.value != Doc(Document(body, env.stamp)) && Depth(read.body.value) == 1
  {
    posted := Handle(kv, Request("POST", map[], body), env);
    read := Handle(kv, Request("GET", map[], map[]), env);
  }
}
