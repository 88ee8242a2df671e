/**
 The photo-gallery collection handler: the whole list of gallery records lives under
 one key and every change reads it, changes it in memory and writes it back whole.
 */
module Galleries {
  import opened Options
  import opened Text
  import opened Json
  import opened Http
  import opened Kv

  const Key: string := "walk4health:galleries"
  const Methods: seq<string> := ["GET", "POST", "PUT", "DELETE"]

  /** The id the server assigns to a new gallery: `gallery-` and the millisecond timestamp. */
  function GalleryId(now: nat): string {
    "gallery-" + NatToString(now)
  }

  /** The id is `gallery-` followed by one or more decimal digits. */
  lemma GalleryIdFormat(now: nat)
    ensures |GalleryId(now)| > 8 && GalleryId(now)[..8] == "gallery-"
    ensures AllDigits(GalleryId(now)[8..])
  {
    assert GalleryId(now)[8..] == NatToString(now);
  }

  /** Galleries created at different instants get different ids. */
  lemma GalleryIdInjective(a: nat, b: nat)
    ensures GalleryId(a) == GalleryId(b) ==> a == b
  {
    assert GalleryId(a)[8..] == NatToString(a);
    assert GalleryId(b)[8..] == NatToString(b);
    NatToStringInjective(a, b);
  }

  /** `gallery.id === galleryId`. */
  predicate HasId(item: Json, id: string) {
    item.JObj? && "id" in item.fields && item.fields["id"] == JStr(id)
  }

  /** The POST body names a title, a description, a date and a location. */
  predicate ValidNew(body: map<string, Json>) {
    FieldTruthy(body, "title") && FieldTruthy(body, "description")
    && FieldTruthy(body, "date") && FieldTruthy(body, "location")
  }

  /** The record a POST creates: id and creation time come from the server, `images`
      defaults to an empty list. */
  function NewGallery(body: map<string, Json>, now: nat, stamp: string): (r: map<string, Json>)
    requires ValidNew(body)
    ensures r.Keys == {"id", "title", "description", "date", "location", "images", "createdAt"}
    ensures HasId(JObj(r), GalleryId(now)) && r["createdAt"] == JStr(stamp)
    ensures forall k :: k in {"title", "description", "date", "location"} ==> r[k] == body[k]
    ensures r["images"] == (if FieldTruthy(body, "images") then body["images"] else EmptyArray)
  {
    map[
      "id" := JStr(GalleryId(now)),
      "title" := body["title"],
      "description" := body["description"],
      "date" := body["date"],
      "location" := body["location"],
      "images" := if FieldTruthy(body, "images") then body["images"] else EmptyArray,
      "createdAt" := JStr(stamp)
    ]
  }

  /** A stored value the list operations can work on: a JSON array. */
  function AsList(v: Value): Option<seq<Json>> {
    if v.Doc? && v.doc.JArr? then Some(v.doc.items) else None
  }

  /** The list a POST, PUT or DELETE starts from: the stored array, or an empty list
      when the key is absent or the store did not answer ok; None when the stored
      value is not an array (`push`, `filter` and `findIndex` then throw). */
  function Existing(o: Outcome): (r: Option<seq<Json>>)
    ensures !o.Found? ==> r == Some([])
    ensures r.None? <==> o.Found? && !(o.value.Doc? && o.value.doc.JArr?)
    ensures o.Found? && r.Some? ==> o.value == Doc(JArr(r.value))
  {
    match o
    case Found(v) => AsList(v)
    case _ => Some([])
  }

  /** The outcome of `findIndex(g => g.id === galleryId)`: the index of the first
      match, no match (-1), or a TypeError from a `null` element met before any match. */
  datatype Search = Hit(index: nat) | Miss | Fault

  function FindIndex(items: seq<Json>, id: string): (r: Search)
    ensures r.Hit? ==> r.index < |items| && HasId(items[r.index], id)
    ensures r.Hit? ==> forall j :: 0 <= j < r.index ==> items[j] != JNull && !HasId(items[j], id)
    ensures r.Miss? <==> forall j :: 0 <= j < |items| ==> items[j] != JNull && !HasId(items[j], id)
    ensures r.Fault? ==> exists j :: 0 <= j < |items| && items[j] == JNull && forall k :: 0 <= k < j ==> !HasId(items[k], id)
    decreases |items|
  {
    if items == [] then Miss
    else if items[0] == JNull then Fault
    else if HasId(items[0], id) then Hit(0)
    else
      match FindIndex(items[1..], id)
      case Hit(i) => Hit(i + 1)
      case Miss => Miss
      case Fault =>
        assert forall k :: 1 <= k < |items| ==> items[k] == items[1..][k - 1];
        Fault
  }

  /** `items.filter(g => g.id !== galleryId)`. */
  function RemoveById(items: seq<Json>, id: string): (r: seq<Json>)
    ensures |r| <= |items|
    ensures forall x :: x in r ==> x in items && !HasId(x, id)
    ensures forall j :: 0 <= j < |items| && !HasId(items[j], id) ==> items[j] in r
    decreases |items|
  {
    if items == [] then []
    else (if HasId(items[0], id) then [] else [items[0]]) + RemoveById(items[1..], id)
  }

  /** Filtering works element by element, so it keeps the order of what it keeps. */
  lemma {:induction false} RemoveByIdConcat(a: seq<Json>, b: seq<Json>, id: string)
    ensures RemoveById(a + b, id) == RemoveById(a, id) + RemoveById(b, id)
    decreases |a|
  {
    if a == [] {
      assert a + b == b;
    } else {
      assert (a + b)[1..] == a[1..] + b;
      RemoveByIdConcat(a[1..], b, id);
    }
  }

  /** Deleting an id nobody has leaves the list exactly as it was. */
  lemma {:induction false} RemoveByIdNoMatch(items: seq<Json>, id: string)
    requires forall j :: 0 <= j < |items| ==> !HasId(items[j], id)
    ensures RemoveById(items, id) == items
    decreases |items|
  {
    if items != [] {
      RemoveByIdNoMatch(items[1..], id);
    }
  }

  /** Deleting twice deletes nothing more. */
  lemma RemoveByIdIdempotent(items: seq<Json>, id: string)
    ensures RemoveById(RemoveById(items, id), id) == RemoveById(items, id)
  {
    var r := RemoveById(items, id);
    assert forall j :: 0 <= j < |r| ==> r[j] in r;
    RemoveByIdNoMatch(r, id);
  }

  /** `{ ...base, ...updates }`: every field of `updates` wins, every other field of
      `base` is kept, and nothing else appears. */
  function Merge(base: map<string, Json>, updates: map<string, Json>): (r: map<string, Json>)
    ensures r.Keys == base.Keys + updates.Keys
    ensures forall k :: k in updates ==> r[k] == updates[k]
    ensures forall k :: k in base && k !in updates ==> r[k] == base[k]
  {
    base + updates
  }

  /** The body of a successful POST: the message and the created record. */
  function Created(gallery: map<string, Json>): Response {
    Reply(200, Object(map[
      "success" := JBool(true),
      "message" := JStr("Gallery created successfully"),
      "gallery" := JObj(gallery)
    ]))
  }

  /** Every record has an id issued by a POST strictly before `now`. */
  ghost predicate IssuedBefore(items: seq<Json>, now: nat) {
    forall i :: 0 <= i < |items| ==>
      items[i].JObj? && "id" in items[i].fields
      && exists t: nat :: t < now && items[i].fields["id"] == JStr(GalleryId(t))
  }

  /** When every existing id was issued earlier, the id a POST assigns now is new. */
  lemma NewIdIsFresh(items: seq<Json>, now: nat)
    requires IssuedBefore(items, now)
    ensures forall i :: 0 <= i < |items| ==> !HasId(items[i], GalleryId(now))
  {
    forall i | 0 <= i < |items|
      ensures !HasId(items[i], GalleryId(now))
    {
      var t: nat :| t < now && items[i].fields["id"] == JStr(GalleryId(t));
      GalleryIdInjective(t, now);
    }
  }

  /** Appending the POST's record keeps every id issued before any later instant. */
  lemma AppendKeepsIssuedBefore(items: seq<Json>, body: map<string, Json>, now: nat, stamp: string, later: nat)
    requires ValidNew(body) && IssuedBefore(items, now) && now < later
    ensures IssuedBefore(items + [JObj(NewGallery(body, now, stamp))], later)
  {
    var after := items + [JObj(NewGallery(body, now, stamp))];
    forall i | 0 <= i < |after|
      ensures after[i].JObj? && "id" in after[i].fields
      ensures exists t: nat :: t < later && after[i].fields["id"] == JStr(GalleryId(t))
    {
      if i < |items| {
        assert after[i] == items[i];
        var t: nat :| t < now && items[i].fields["id"] == JStr(GalleryId(t));
        assert t < later;
      } else {
        assert after[i].fields["id"] == JStr(GalleryId(now));
      }
    }
  }

  /** The handler for `/api/galleries`. */
  method Handle(kv: KvStore, req: Request, env: Env) returns (resp: Response)
    modifies kv
    // Any other method: 405 with the Allow list, the store untouched.
    ensures req.verb !in Methods ==>
      resp == NotAllowed(req.verb, Methods) && kv.data == old(kv.data) && kv.log == old(kv.log)
    // GET: the configuration check comes first; the stored array is returned as it is,
    // `[]` when the key is absent.
    ensures req.verb == "GET" ==> kv.data == old(kv.data)
    ensures req.verb == "GET" && !RedisConfigured(env.vars) ==>
      resp == Failure(500, "Redis not configured") && kv.log == old(kv.log)
    ensures req.verb == "GET" && RedisConfigured(env.vars) ==>
      kv.log == old(kv.log) + [GetCall(Key)]
      && resp == (if !env.getOk then Failure(500, "Failed to read galleries")
                  else if Key in old(kv.data) then Reply(200, old(kv.data)[Key])
                  else Reply(200, Doc(EmptyArray)))
    // POST: validation before any store access, then append one record at the end.
    ensures req.verb == "POST" && !ValidNew(req.body) ==>
      resp == Failure(400, "Missing required fields") && kv.data == old(kv.data) && kv.log == old(kv.log)
    ensures req.verb == "POST" && ValidNew(req.body) && !RedisConfigured(env.vars) ==>
      resp == Failure(500, "Redis not configured") && kv.data == old(kv.data) && kv.log == old(kv.log)
    ensures req.verb == "POST" && ValidNew(req.body) && RedisConfigured(env.vars) ==>
      var before := Existing(Fetch(old(kv.data), Key, env.getOk));
      var gallery := NewGallery(req.body, env.now, env.stamp);
      if before.None? then
        resp == Failure(500, "Failed to create gallery") && kv.data == old(kv.data)
        && kv.log == old(kv.log) + [GetCall(Key)]
      else
        var after := Doc(JArr(before.value + [JObj(gallery)]));
        kv.log == old(kv.log) + [GetCall(Key), SetCall(Key, after)]
        && kv.data == (if env.setOk then old(kv.data)[Key := after] else old(kv.data))
        && resp == (if env.setOk then Created(gallery) else Failure(500, "Failed to create gallery"))
    // DELETE: the id is checked before the configuration; every match is removed.
    ensures req.verb == "DELETE" && !QueryPresent(req.query, "galleryId") ==>
      resp == Failure(400, "Missing gallery ID") && kv.data == old(kv.data) && kv.log == old(kv.log)
    ensures req.verb == "DELETE" && QueryPresent(req.query, "galleryId") && !RedisConfigured(env.vars) ==>
      resp == Failure(500, "Redis not configured") && kv.data == old(kv.data) && kv.log == old(kv.log)
    ensures req.verb == "DELETE" && QueryPresent(req.query, "galleryId") && RedisConfigured(env.vars) ==>
      var before := Existing(Fetch(old(kv.data), Key, env.getOk));
      if before.None? || JNull in before.value then
        resp == Failure(500, "Failed to delete gallery") && kv.data == old(kv.data)
        && kv.log == old(kv.log) + [GetCall(Key)]
      else
        var after := Doc(JArr(RemoveById(before.value, req.query["galleryId"])));
        kv.log == old(kv.log) + [GetCall(Key), SetCall(Key, after)]
        && kv.data == (if env.setOk then old(kv.data)[Key := after] else old(kv.data))
        && resp == (if env.setOk then Success("Gallery deleted successfully")
                    else Failure(500, "Failed to delete gallery"))
    // PUT: 404 without a write when no record matches; otherwise the first match is
    // replaced by its shallow merge with the body.
    ensures req.verb == "PUT" && !QueryPresent(req.query, "galleryId") ==>
      resp == Failure(400, "Missing gallery ID") && kv.data == old(kv.data) && kv.log == old(kv.log)
    ensures req.verb == "PUT" && QueryPresent(req.query, "galleryId") && !RedisConfigured(env.vars) ==>
      resp == Failure(500, "Redis not configured") && kv.data == old(kv.data) && kv.log == old(kv.log)
    ensures req.verb == "PUT" && QueryPresent(req.query, "galleryId") && RedisConfigured(env.vars) ==>
      var before := Existing(Fetch(old(kv.data), Key, env.getOk));
      var found := if before.Some? then FindIndex(before.value, req.query["galleryId"]) else Fault;
      if !found.Hit? then
        resp == (if found.Miss? then Failure(404, "Gallery not found") else Failure(500, "Failed to update gallery"))
        && kv.data == old(kv.data) && kv.log == old(kv.log) + [GetCall(Key)]
      else
        var i := found.index;
        var after := Doc(JArr(before.value[i := JObj(Merge(before.value[i].fields, req.body))]));
        kv.log == old(kv.log) + [GetCall(Key), SetCall(Key, after)]
        && kv.data == (if env.setOk then old(kv.data)[Key := after] else old(kv.data))
        && resp == (if env.setOk then Success("Gallery updated successfully")
                    else Failure(500, "Failed to update gallery"))
  {
    if req.verb == "GET" {
      if !RedisConfigured(env.vars) {
        return Failure(500, "Redis not configured");
      }
      var o := kv.Get(Key, env.getOk);
      match o
      case Found(v) => resp := Reply(200, v);
      case Absent => resp := Reply(200, Doc(EmptyArray));
      case NotOk => resp := Failure(500, "Failed to read galleries");
    } else if req.verb == "POST" {
      if !ValidNew(req.body) {
        return Failure(400, "Missing required fields");
      }
      var gallery := NewGallery(req.body, env.now, env.stamp);
      if !RedisConfigured(env.vars) {
        return Failure(500, "Redis not configured");
      }
      var o := kv.Get(Key, env.getOk);
      var existing: seq<Json> := [];
      if o.Found? {
        var parsed := AsList(o.value);
        if parsed.None? {
          return Failure(500, "Failed to create gallery");
        }
        existing := parsed.value;
      }
      existing := existing + [JObj(gallery)];
      var saved := kv.Set(Key, Doc(JArr(existing)), env.setOk);
      resp := if saved then Created(gallery) else Failure(500, "Failed to create gallery");
    } else if req.verb == "DELETE" {
      if !QueryPresent(req.query, "galleryId") {
        return Failure(400, "Missing gallery ID");
      }
      var galleryId := req.query["galleryId"];
      if !RedisConfigured(env.vars) {
        return Failure(500, "Redis not configured");
      }
      var o := kv.Get(Key, env.getOk);
      var existing: seq<Json> := [];
      if o.Found? {
        var parsed := AsList(o.value);
        if parsed.None? {
          return Failure(500, "Failed to delete gallery");
        }
        existing := parsed.value;
      }
      if JNull in existing {
        return Failure(500, "Failed to delete gallery");
      }
      var updated := RemoveById(existing, galleryId);
      var saved := kv.Set(Key, Doc(JArr(updated)), env.setOk);
      resp := if saved then Success("Gallery deleted successfully") else Failure(500, "Failed to delete gallery");
    } else if req.verb == "PUT" {
      if !QueryPresent(req.query, "galleryId") {
        return Failure(400, "Missing gallery ID");
      }
      var galleryId := req.query["galleryId"];
      if !RedisConfigured(env.vars) {
        return Failure(500, "Redis not configured");
      }
      var o := kv.Get(Key, env.getOk);
      var existing: seq<Json> := [];
      if o.Found? {
        var parsed := AsList(o.value);
        if parsed.None? {
          return Failure(500, "Failed to update gallery");
        }
        existing := parsed.value;
      }
      var found := FindIndex(existing, galleryId);
      if found.Fault? {
        return Failure(500, "Failed to update gallery");
      }
      if found.Miss? {
        return Failure(404, "Gallery not found");
      }
      var i := found.index;
      existing := existing[i := JObj(Merge(existing[i].fields, req.body))];
      var saved := kv.Set(Key, Doc(JArr(existing)), env.setOk);
      resp := if saved then Success("Gallery updated successfully") else Failure(500, "Failed to update gallery");
    } else {
      resp := NotAllowed(req.verb, Methods);
    }
  }
}
