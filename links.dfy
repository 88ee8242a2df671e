/**
 The links handler: one document `{ links, lastUpdated }`, stored JSON-encoded once;
 GET answers with the list only.
 */
module Links {
  import opened Json
  import opened Http
  import opened Kv

  const Key: string := "walk4health:links"
  const Field: string := "links"
  const Methods: seq<string> := ["GET", "POST"]

  /** `Array.isArray(links)`. */
  predicate ValidBody(body: map<string, Json>) {
    FieldIsArray(body, Field)
  }

  /** The document a POST stores. */
  function Document(items: Json, stamp: string): Json {
    JObj(map[Field := items, "lastUpdated" := JStr(stamp)])
  }

  /** The GET answer for a stored value `v`: reading `v.links` throws on `null`;
      otherwise the list, or `[]` when it is missing or falsy. */
  function Listing(v: Value): (r: Response)
    ensures r.status == 500 <==> v == Null
    ensures v == Null ==> r == Failure(500, "Failed to read links")
    ensures r.status == 200 ==>
      r.allow == [] && r.body.Payload? && r.body.value.Doc? && r.body.value.doc.JObj?
      && r.body.value.doc.fields.Keys == {Field} && Truthy(r.body.value.doc.fields[Field])
    ensures v != Null ==>
      var p := Property(v, Field);
      r == Reply(200, Object(map[Field := if p.Defined? && Truthy(p.v) then p.v else EmptyArray]))
  {
    var p := Property(v, Field);
    if p.TypeError? then Failure(500, "Failed to read links")
    else Reply(200, Object(map[Field := OrElse(p, EmptyArray)]))
  }

  /** The list a POST stored is the list GET gives back, without `lastUpdated`. */
  lemma ListingOfDocument(items: Json, stamp: string)
    requires items.JArr?
    ensures Listing(Doc(Document(items, stamp))) == Reply(200, Object(map[Field := items]))
  {
  }

  /** The handler for `/api/links`: the store configuration is checked before the method. */
  method Handle(kv: KvStore, req: Request, env: Env) returns (resp: Response)
    modifies kv
    ensures !RedisConfigured(env.vars) ==>
      resp == Failure(500, "Redis not configured") && kv.data == old(kv.data) && kv.log == old(kv.log)
    ensures RedisConfigured(env.vars) && req.verb !in Methods ==>
      resp == NotAllowed(req.verb, Methods) && kv.data == old(kv.data) && kv.log == old(kv.log)
    ensures RedisConfigured(env.vars) && req.verb == "GET" ==>
      kv.data == old(kv.data) && kv.log == old(kv.log) + [GetCall(Key)]
      && resp == (if !env.getOk then Failure(500, "Failed to read links")
                  else if Key in old(kv.data) then Listing(old(kv.data)[Key])
                  else Reply(200, Object(map[Field := EmptyArray])))
    ensures RedisConfigured(env.vars) && req.verb == "POST" && !ValidBody(req.body) ==>
      resp == Failure(400, "Missing required field: links array")
      && kv.data == old(kv.data) && kv.log == old(kv.log)
    ensures RedisConfigured(env.vars) && req.verb == "POST" && ValidBody(req.body) ==>
      var written := Doc(Document(req.body[Field], env.stamp));
      kv.log == old(kv.log) + [SetCall(Key, written)]
      && kv.data == (if env.setOk then old(kv.data)[Key := written] else old(kv.data))
      && resp == (if env.setOk then Success("Links saved successfully") else Failure(500, "Failed to save links"))
  {
    if !RedisConfigured(env.vars) {
      return Failure(500, "Redis not configured");
    }
    if req.verb == "GET" {
      var o := kv.Get(Key, env.getOk);
      match o
      case Found(v) => resp := Listing(v);
      case Absent => resp := Reply(200, Object(map[Field := EmptyArray]));
      case NotOk => resp := Failure(500, "Failed to read links");
    } else if req.verb == "POST" {
      if !ValidBody(req.body) {
        return Failure(400, "Missing required field: links array");
      }
      var payload := Document(req.body[Field], env.stamp);
      var saved := kv.Set(Key, Doc(payload), env.setOk);
      resp := if saved then Success("Links saved successfully") else Failure(500, "Failed to save links");
    } else {
      resp := NotAllowed(req.verb, Methods);
    }
  }

  /** A successful POST then a GET answers with the posted list. */
  method PostThenGet(kv: KvStore, items: seq<Json>, env: Env) returns (posted: Response, read: Response)
    requires RedisConfigured(env.vars) && env.setOk && env.getOk
    modifies kv
    ensures posted == Success("Links saved successfully")
    ensures read == Reply(200, Object(map[Field := JArr(items)]))
  {
    posted := Handle(kv, Request("POST", map[], map[Field := JArr(items)]), env);
    ListingOfDocument(JArr(items), env.stamp);
    read := Handle(kv, Request("GET", map[], map[]), env);
  }
}
