/**
 The e-mail configuration handler: the address contact-form mail goes to and the
 prefix of its subject, stored JSON-encoded once.
 */
module EmailConfig {
  import opened Json
  import opened Http
  import opened Kv

  const Key: string := "walk4health:email-config"
  const Methods: seq<string> := ["GET", "POST"]

  const DefaultInquiryEmail: string := "admin@walk4health.co.nz"
  const DefaultSubjectPrefix: string := "[Walk4Health]"

  /** What GET answers when nothing is stored. */
  function Default(stamp: string): Json {
    JObj(map[
      "inquiryEmail" := JStr(DefaultInquiryEmail),
      "subjectPrefix" := JStr(DefaultSubjectPrefix),
      "lastUpdated" := JStr(stamp)
    ])
  }

  /** The document a POST stores: the address, the given prefix or the default one,
      and a server-side `lastUpdated`; nothing else from the body. */
  function Document(body: map<string, Json>, stamp: string): Json
    requires FieldTruthy(body, "inquiryEmail")
  {
    JObj(map[
      "inquiryEmail" := body["inquiryEmail"],
      "subjectPrefix" := if FieldTruthy(body, "subjectPrefix") then body["subjectPrefix"] else JStr(DefaultSubjectPrefix),
      "lastUpdated" := JStr(stamp)
    ])
  }

  /** The handler for `/api/email-config`. */
  method Handle(kv: KvStore, req: Request, env: Env) returns (resp: Response)
    modifies kv
    ensures req.verb !in Methods ==>
      resp == NotAllowed(req.verb, Methods) && kv.data == old(kv.data) && kv.log == old(kv.log)
    ensures req.verb == "GET" ==> kv.data == old(kv.data)
    ensures req.verb == "GET" && !RedisConfigured(env.vars) ==>
      resp == Failure(500, "Redis not configured") && kv.log == old(kv.log)
    ensures req.verb == "GET" && RedisConfigured(env.vars) ==>
      kv.log == old(kv.log) + [GetCall(Key)]
      && resp == (if !env.getOk then Failure(500, "Failed to read email config")
                  else if Key in old(kv.data) then Reply(200, old(kv.data)[Key])
                  else Reply(200, Doc(Default(env.stamp))))
    ensures req.verb == "POST" && !FieldTruthy(req.body, "inquiryEmail") ==>
      resp == Failure(400, "Missing required field: inquiryEmail")
      && kv.data == old(kv.data) && kv.log == old(kv.log)
    ensures req.verb == "POST" && FieldTruthy(req.body, "inquiryEmail") && !RedisConfigured(env.vars) ==>
      resp == Failure(500, "Redis not configured") && kv.data == old(kv.data) && kv.log == old(kv.log)
    ensures req.verb == "POST" && FieldTruthy(req.body, "inquiryEmail") && RedisConfigured(env.vars) ==>
      var written := Doc(Document(req.body, env.stamp));
      kv.log == old(kv.log) + [SetCall(Key, written)]
      && kv.data == (if env.setOk then old(kv.data)[Key := written] else old(kv.data))
      && resp == (if env.setOk then Success("Email config saved successfully")
                  else Failure(500, "Failed to save email config"))
  {
    if req.verb == "GET" {
      if !RedisConfigured(env.vars) {
        return Failure(500, "Redis not configured");
      }
      var o := kv.Get(Key, env.getOk);
      match o
      case Found(v) => resp := Reply(200, v);
      case Absent => resp := Reply(200, Doc(Default(env.stamp)));
      case NotOk => resp := Failure(500, "Failed to read email config");
    } else if req.verb == "POST" {
      if !FieldTruthy(req.body, "inquiryEmail") {
        return Failure(400, "Missing required field: inquiryEmail");
      }
      var emailConfigData := Document(req.body, env.stamp);
      if !RedisConfigured(env.vars) {
        return Failure(500, "Redis not configured");
      }
      var saved := kv.Set(Key, Doc(emailConfigData), env.setOk);
      resp := if saved then Success("Email config saved successfully") else Failure(500, "Failed to save email config");
    } else {
      resp := NotAllowed(req.verb, Methods);
    }
  }

  /** A successful POST then a GET: stored single-encoded, so the GET answers with the
      configuration object itself. */
  method PostThenGet(kv: KvStore, body: map<string, Json>, env: Env) returns (posted: Response, read: Response)
    requires FieldTruthy(body, "inquiryEmail") && RedisConfigured(env.vars) && env.setOk && env.getOk
    modifies kv
    ensures posted == Success("Email config saved successfully")
    ensures read == Reply(200, Doc(Document(body, env.stamp)))
    ensures Depth(read.body.value) == 0
  {
    posted := Handle(kv, Request("POST", map[], body), env);
    read := Handle(kv, Request("GET", map[], map[]), env);
  }
}
