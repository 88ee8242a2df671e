/**
 The browser-side data service. On a production host it talks to the serverless API
 only; on a development host (`localhost`, `127.0.0.1`) it also keeps a copy of the
 data in the browser's local storage and falls back to it when the API fails.
 */
module Client {
  import opened Options
  import opened Text
  import opened Json
  import Galleries

  const EventsKey: string := "walk4health-events"
  const ContentKey: string := "walk4health-content"
  const GalleriesKey: string := "walk4health_galleries"

  /** A local-storage entry: the JSON text of a value, or text that does not parse. */
  datatype Entry = JsonText(value: Value) | OtherText

  /** The answer of one `fetch`: an ok status with the parsed JSON body (None when the
      body is not JSON), or a non-ok status or a network error. */
  datatype Reply = Ok(body: Option<Value>) | Failed

  /** How an async call settles: it resolves with a value or rejects. */
  datatype Completion<T> = Returns(value: T) | Raises

  /** The API answered ok with a JSON body. */
  predicate Parsed(reply: Reply) {
    reply.Ok? && reply.body.Some?
  }

  /** The host is not `localhost`, not `127.0.0.1` and does not contain `localhost`;
      so the development hosts are exactly `127.0.0.1` and the names containing `localhost`. */
  predicate IsProduction(hostname: string)
    ensures !IsProduction(hostname) <==>
      hostname == "127.0.0.1" || exists i :: OccursAt(hostname, "localhost", i)
  {
    ContainsIff(hostname, "localhost");
    assert hostname == "localhost" ==> OccursAt(hostname, "localhost", 0);
    hostname != "localhost" && hostname != "127.0.0.1" && !Contains(hostname, "localhost")
  }

  const EmptyEvents: Json := JObj(map["recurringEvents" := EmptyArray, "specialEvents" := EmptyArray])

  const Committee: Json := JObj(map[
    "title" := JStr("Our Committee 2025/26"),
    "members" := JArr([
      Member("Chairperson", "Lynn Young"),
      Member("Secretary", "Neil Edwards"),
      Member("Treasurer", "Nina Wortman"),
      Member("Membership", "Andrew Young"),
      Member("Website & Sunday", "Dave Morrell"),
      Member("Tuesday walking", "Lyne Morrell, Ian Andrews, Patsie Barltrop"),
      Member("Events", "Kaye Plunket"),
      Member("Financial Reviewer", "Bob Metcalf")
    ])
  ])

  function Member(position: string, name: string): Json {
    JObj(map["position" := JStr(position), "name" := JStr(name)])
  }

  /** The built-in content when neither the API nor the cache has any. */
  function DefaultContent(stamp: string): Json {
    JObj(map[
      "clubDescription" := JStr("In the Hutt Valley we are blessed with some of the best walking areas in New Zealand with the beautiful river trail, etc."),
      "committee" := Committee,
      "walkingStats" := JObj(map["yearsActive" := JStr("24"), "members" := JStr("50+"), "walksPerWeek" := JStr("2")]),
      "clubImageCaption" := JStr("Walking together since 2001"),
      "lastUpdated" := JStr(stamp)
    ])
  }

  /** `stored ? JSON.parse(stored) : null` under a caught parse error: the cached value,
      or `null` when the key is absent or its text does not parse. */
  function FromStorage(storage: map<string, Entry>, key: string): (r: Value)
    ensures r != Null ==> key in storage && storage[key] == JsonText(r)
    ensures key !in storage || storage[key].OtherText? ==> r == Null
    ensures key in storage && storage[key].JsonText? ==> r == storage[key].value
  {
    if key in storage && storage[key].JsonText? then storage[key].value else Null
  }

  /** `getEventsFromStorage`. */
  function EventsFromStorage(storage: map<string, Entry>): (r: Value)
    ensures EventsKey in storage && storage[EventsKey].JsonText? ==> r == storage[EventsKey].value
    ensures !(EventsKey in storage && storage[EventsKey].JsonText?) ==> r == Null
  {
    FromStorage(storage, EventsKey)
  }

  /** `getContentFromStorage`. */
  function ContentFromStorage(storage: map<string, Entry>): (r: Value)
    ensures ContentKey in storage && storage[ContentKey].JsonText? ==> r == storage[ContentKey].value
    ensures !(ContentKey in storage && storage[ContentKey].JsonText?) ==> r == Null
  {
    FromStorage(storage, ContentKey)
  }

  /** A read with the local fallback: the API's answer when it parsed; otherwise, on a
      development host, a truthy cached value; otherwise `fallback`. */
  function ReadThrough(hostname: string, cached: Value, reply: Reply, fallback: Json): (r: Value)
    requires Truthy(fallback)
    ensures Parsed(reply) ==> r == reply.body.value
    ensures !Parsed(reply) ==> TruthyValue(r)
    ensures !Parsed(reply) ==>
      r == (if !IsProduction(hostname) && TruthyValue(cached) then cached else Doc(fallback))
  {
    if Parsed(reply) then reply.body.value
    else if !IsProduction(hostname) && TruthyValue(cached) then cached
    else Doc(fallback)
  }

  /** `getEvents`. */
  function GetEvents(hostname: string, storage: map<string, Entry>, reply: Reply): (r: Value)
    ensures Parsed(reply) ==> r == reply.body.value
    ensures !Parsed(reply) && IsProduction(hostname) ==> r == Doc(EmptyEvents)
    ensures !Parsed(reply) && !IsProduction(hostname) ==>
      r == (if TruthyValue(EventsFromStorage(storage)) then EventsFromStorage(storage) else Doc(EmptyEvents))
  {
    ReadThrough(hostname, EventsFromStorage(storage), reply, EmptyEvents)
  }

  /** `getContent`, with `stamp` the time of the call. */
  function GetContent(hostname: string, storage: map<string, Entry>, reply: Reply, stamp: string): (r: Value)
    ensures Parsed(reply) ==> r == reply.body.value
    ensures !Parsed(reply) && IsProduction(hostname) ==> r == Doc(DefaultContent(stamp))
    ensures !Parsed(reply) && !IsProduction(hostname) ==>
      r == (if TruthyValue(ContentFromStorage(storage)) then ContentFromStorage(storage) else Doc(DefaultContent(stamp)))
  {
    ReadThrough(hostname, ContentFromStorage(storage), reply, DefaultContent(stamp))
  }

  /** On a production host, reads never depend on the cache. */
  lemma ProductionIgnoresCache(hostname: string, s1: map<string, Entry>, s2: map<string, Entry>, reply: Reply, stamp: string)
    requires IsProduction(hostname)
    ensures GetEvents(hostname, s1, reply) == GetEvents(hostname, s2, reply)
    ensures GetContent(hostname, s1, reply, stamp) == GetContent(hostname, s2, reply, stamp)
  {
  }

  /** On a development host, what a save cached is what an offline read returns. */
  lemma CachedEventsAreRead(hostname: string, storage: map<string, Entry>, events: Json)
    requires !IsProduction(hostname) && Truthy(events)
    ensures GetEvents(hostname, storage[EventsKey := JsonText(Doc(events))], Failed) == Doc(events)
  {
  }

  /** `getGalleries`: in production the API's list (an empty list when it fails); in
      development the cached value, or an empty list when there is none or it does not parse. */
  function GetGalleries(hostname: string, storage: map<string, Entry>, reply: Reply): (r: Value)
    ensures IsProduction(hostname) ==> r == (if Parsed(reply) then reply.body.value else Doc(EmptyArray))
    ensures !IsProduction(hostname) && GalleriesKey in storage && storage[GalleriesKey].JsonText? ==>
      r == storage[GalleriesKey].value
    ensures !IsProduction(hostname) && !(GalleriesKey in storage && storage[GalleriesKey].JsonText?) ==>
      r == Doc(EmptyArray)
  {
    if IsProduction(hostname) then
      if Parsed(reply) then reply.body.value else Doc(EmptyArray)
    else if GalleriesKey in storage && storage[GalleriesKey].JsonText? then storage[GalleriesKey].value
    else Doc(EmptyArray)
  }

  /** `result.gallery.id` of the API's answer to a create: reading through a missing or
      `null` object throws; a missing id resolves to `undefined` (None). */
  function CreatedId(body: Value): (r: Completion<Option<Json>>)
    ensures r.Returns? <==> Property(body, "gallery").Defined? && Property(body, "gallery").v != JNull
    ensures r.Returns? ==>
      var id := Property(Doc(Property(body, "gallery").v), "id");
      r.value == (if id.Defined? then Some(id.v) else None)
  {
    match Property(body, "gallery")
    case Defined(g) =>
      (match Property(Doc(g), "id")
       case Defined(id) => Returns(Some(id))
       case Undefined => Returns(None)
       case TypeError => Raises)
    case _ => Raises
  }

  /** The id the client reports is the id the server's POST assigned. */
  lemma CreatedIdOfServerReply(body: map<string, Json>, now: nat, stamp: string)
    requires Galleries.ValidNew(body)
    ensures CreatedId(Galleries.Created(Galleries.NewGallery(body, now, stamp)).body.value)
            == Returns(Some(JStr(Galleries.GalleryId(now))))
  {
  }

  /** The record the development path appends: the given fields, then a fresh id and
      creation time (which win over any given ones). */
  function LocalGallery(gallery: map<string, Json>, now: nat, stamp: string): (r: map<string, Json>)
    ensures r.Keys == gallery.Keys + {"id", "createdAt"}
    ensures Galleries.HasId(JObj(r), Galleries.GalleryId(now)) && r["createdAt"] == JStr(stamp)
    ensures forall k :: k in gallery && k != "id" && k != "createdAt" ==> r[k] == gallery[k]
  {
    Galleries.Merge(gallery, map["id" := JStr(Galleries.GalleryId(now)), "createdAt" := JStr(stamp)])
  }

  /** The client of the API. `storage` is the browser's local storage. */
  class DataService {
    const hostname: string
    var storage: map<string, Entry>

    constructor (hostname: string, storage: map<string, Entry>)
      ensures this.hostname == hostname && this.storage == storage
    {
      this.hostname := hostname;
      this.storage := storage;
    }

    /** The cached gallery list: what the development path of `getGalleries` reads. */
    function CachedGalleries(): Value
      reads this
    {
      GetGalleries(hostname, storage, Failed)
    }

    /** `saveEvents`: production never caches, resolves true when the API took the
        events and rejects otherwise; development always caches and resolves true. */
    method SaveEvents(events: Json, reply: Reply) returns (c: Completion<bool>)
      modifies this
      ensures IsProduction(hostname) ==>
        storage == old(storage) && c == (if Parsed(reply) then Returns(true) else Raises)
      ensures !IsProduction(hostname) ==>
        storage == old(storage)[EventsKey := JsonText(Doc(events))] && c == Returns(true)
    {
      if Parsed(reply) {
        if !IsProduction(hostname) {
          storage := storage[EventsKey := JsonText(Doc(events))];
        }
        return Returns(true);
      }
      if !IsProduction(hostname) {
        storage := storage[EventsKey := JsonText(Doc(events))];
        return Returns(true);
      }
      return Raises;
    }

    /** `saveContent`: as `saveEvents`, except that any ok status counts as success
        (the body is not read). */
    method SaveContent(content: Json, reply: Reply) returns (c: Completion<bool>)
      modifies this
      ensures IsProduction(hostname) ==>
        storage == old(storage) && c == (if reply.Ok? then Returns(true) else Raises)
      ensures !IsProduction(hostname) ==>
        storage == old(storage)[ContentKey := JsonText(Doc(content))] && c == Returns(true)
    {
      if reply.Ok? {
        if !IsProduction(hostname) {
          storage := storage[ContentKey := JsonText(Doc(content))];
        }
        return Returns(true);
      }
      if !IsProduction(hostname) {
        storage := storage[ContentKey := JsonText(Doc(content))];
        return Returns(true);
      }
      return Raises;
    }

    /** `createGallery`. In production the id comes from the API's answer. In development
        the cached list gets the new record appended and its id is returned; a cached
        value that is not a list makes the call reject. */
    method CreateGallery(gallery: map<string, Json>, reply: Reply, now: nat, stamp: string)
      returns (c: Completion<Option<Json>>)
      modifies this
      ensures IsProduction(hostname) ==>
        storage == old(storage) && c == (if Parsed(reply) then CreatedId(reply.body.value) else Raises)
      ensures !IsProduction(hostname) && Galleries.AsList(old(CachedGalleries())).None? ==>
        storage == old(storage) && c == Raises
      ensures !IsProduction(hostname) && Galleries.AsList(old(CachedGalleries())).Some? ==>
        var before := Galleries.AsList(old(CachedGalleries())).value;
        storage == old(storage)[GalleriesKey := JsonText(Doc(JArr(before + [JObj(LocalGallery(gallery, now, stamp))])))]
        && c == Returns(Some(JStr(Galleries.GalleryId(now))))
    {
      if IsProduction(hostname) {
        if Parsed(reply) {
          return CreatedId(reply.body.value);
        }
        return Raises;
      }
      var newGallery := LocalGallery(gallery, now, stamp);
      var existing := Galleries.AsList(GetGalleries(hostname, storage, reply));
      if existing.None? {
        return Raises;
      }
      var updated := existing.value + [JObj(newGallery)];
      storage := storage[GalleriesKey := JsonText(Doc(JArr(updated)))];
      c := Returns(Some(newGallery["id"]));
    }

    /** `deleteGallery`. In production: whether the API answered ok. In development the
        cached list loses every record with that id and the call resolves true; a
        cached value that is not a list, or a `null` record, makes it resolve false
        with nothing written. */
    method DeleteGallery(galleryId: string, reply: Reply) returns (deleted: bool)
      modifies this
      ensures IsProduction(hostname) ==> storage == old(storage) && deleted == reply.Ok?
      ensures !IsProduction(hostname) ==>
        var before := Galleries.AsList(old(CachedGalleries()));
        if before.None? || JNull in before.value then storage == old(storage) && !deleted
        else storage == old(storage)[GalleriesKey := JsonText(Doc(JArr(Galleries.RemoveById(before.value, galleryId))))]
             && deleted
    {
      if IsProduction(hostname) {
        return reply.Ok?;
      }
      var existing := Galleries.AsList(GetGalleries(hostname, storage, reply));
      if existing.None? || JNull in existing.value {
        return false;
      }
      var updated := Galleries.RemoveById(existing.value, galleryId);
      storage := storage[GalleriesKey := JsonText(Doc(JArr(updated)))];
      deleted := true;
    }

    /** `updateGallery`. In production: whether the API answered ok with a JSON body. In
        development the first record with that id is merged with the updates in place
        and the call resolves true; with no such record (or a list it cannot search)
        it resolves false with nothing written. */
    method UpdateGallery(galleryId: string, updates: map<string, Json>, reply: Reply) returns (updated: bool)
      modifies this
      ensures IsProduction(hostname) ==> storage == old(storage) && updated == Parsed(reply)
      ensures !IsProduction(hostname) ==>
        var before := Galleries.AsList(old(CachedGalleries()));
        var found := if before.Some? then Galleries.FindIndex(before.value, galleryId) else Galleries.Fault;
        if found.Hit? then
          var items := before.value;
          storage == old(storage)[GalleriesKey := JsonText(Doc(JArr(
            items[found.index := JObj(Galleries.Merge(items[found.index].fields, updates))])))]
          && updated
        else storage == old(storage) && !updated
    {
      if IsProduction(hostname) {
        return Parsed(reply);
      }
      var existing := Galleries.AsList(GetGalleries(hostname, storage, reply));
      if existing.None? {
        return false;
      }
      var galleries := existing.value;
      var index := Galleries.FindIndex(galleries, galleryId);
      if !index.Hit? {
        return false;
      }
      galleries := galleries[index.index := JObj(Galleries.Merge(galleries[index.index].fields, updates))];
      storage := storage[GalleriesKey := JsonText(Doc(JArr(galleries)))];
      updated := true;
    }
  }

  /** On a development host, a gallery created locally is found again by its id, and
      every record that was cached before is still there, in order. */
  lemma {:induction false} CreatedIsFound(before: seq<Json>, gallery: map<string, Json>, now: nat, stamp: string)
    requires forall j :: 0 <= j < |before| ==> before[j] != JNull && !Galleries.HasId(before[j], Galleries.GalleryId(now))
    ensures var after := before + [JObj(LocalGallery(gallery, now, stamp))];
      Galleries.FindIndex(after, Galleries.GalleryId(now)) == Galleries.Hit(|before|)
      && after[..|before|] == before
    decreases |before|
  {
    var after := before + [JObj(LocalGallery(gallery, now, stamp))];
    if before != [] {
      CreatedIsFound(before[1..], gallery, now, stamp);
      assert after[1..] == before[1..] + [JObj(LocalGallery(gallery, now, stamp))];
    }
    assert after[..|before|] == before;
  }

  /** On a development host, after a local delete no cached record has that id. */
  lemma DeletedIsGone(before: seq<Json>, galleryId: string)
    ensures !Galleries.FindIndex(Galleries.RemoveById(before, galleryId), galleryId).Hit?
    ensures forall j :: 0 <= j < |Galleries.RemoveById(before, galleryId)| ==>
      !Galleries.HasId(Galleries.RemoveById(before, galleryId)[j], galleryId)
  {
    var r := Galleries.RemoveById(before, galleryId);
    assert forall j :: 0 <= j < |r| ==> r[j] in r;
  }
}
