/**
 The image-upload handler: it checks the request, takes the payload out of a data URL
 (or a binary buffer), names the file after the current time and hands it to the blob
 store, whose answer is an input.
 */
module Upload {
  import opened Options
  import opened Text
  import opened Json
  import opened Http

  /** The `image` field: missing, a JSON value, or a binary buffer. */
  datatype Image = NoImage | JsonImage(value: Json) | Buffer(bytes: seq<bv8>)

  /** The request: method, `image`, and the JSON fields `filename` and `contentType`. */
  datatype UploadRequest = UploadRequest(verb: string, image: Image, body: map<string, Json>)

  /** What is uploaded: the base64 text of a data URL (its decoding is not modelled) or
      the buffer's bytes. */
  datatype Content = Base64Text(text: string) | Bytes(bytes: seq<bv8>)

  /** The call to the blob store: path name, content and content type. */
  datatype Put = Put(pathname: string, content: Content, contentType: Json)

  /** The blob store's answer: a public URL and, when reported, a size; or an error. */
  datatype Blob = Stored(url: string, size: Option<int>) | PutFailed

  /** The response and the upload the handler asked for, if any. */
  datatype Outcome = Outcome(response: Response, put: Option<Put>)

  /** How the payload is taken from the image: found, rejected, or the decoding threw. */
  datatype Extracted = Extracted(content: Content) | Invalid | Throws

  const DefaultContentType: Json := JStr("image/jpeg")

  predicate ImageTruthy(image: Image) {
    match image
    case NoImage => false
    case JsonImage(v) => Truthy(v)
    case Buffer(_) => true
  }

  predicate StartsWith(s: string, prefix: string) {
    |prefix| <= |s| && s[..|prefix|] == prefix
  }

  /** A string starting with `data:` yields the text after its first comma (up to the
      next one); without a comma `Buffer.from(undefined)` throws. A buffer is taken as
      it is; anything else is rejected. */
  function Extract(image: Image): (r: Extracted)
    ensures r.Throws? <==> image.JsonImage? && image.value.JStr? && StartsWith(image.value.s, "data:")
                           && ',' !in image.value.s
    ensures r.Invalid? <==> !image.Buffer? && !(image.JsonImage? && image.value.JStr? && StartsWith(image.value.s, "data:"))
    ensures image.Buffer? ==> r == Extracted(Bytes(image.bytes))
    ensures r.Extracted? && image.JsonImage? ==>
      SecondField(image.value.s).Some? && r.content == Base64Text(SecondField(image.value.s).value)
  {
    match image
    case Buffer(bytes) => Extracted(Bytes(bytes))
    case JsonImage(JStr(s)) =>
      if !StartsWith(s, "data:") then Invalid
      else
        (match SecondField(s)
         case None => Throws
         case Some(payload) => Extracted(Base64Text(payload)))
    case _ => Invalid
  }

  /** A data URL `data:<type>,<base64>` yields exactly its base64 part. */
  lemma DataUrlPayload(mediaType: string, payload: string)
    requires ',' !in mediaType && ',' !in payload
    ensures Extract(JsonImage(JStr("data:" + mediaType + "," + payload))) == Extracted(Base64Text(payload))
  {
    var s := "data:" + mediaType + "," + payload;
    assert s == ("data:" + mediaType) + "," + payload + "";
    SecondFieldOf("data:" + mediaType, payload, None);
    assert s[..5] == "data:";
  }

  /** `${Date.now()}-${filename}`. */
  function UniqueName(now: nat, filename: string): (r: string)
    ensures var d := NatToString(now);
      |r| == |d| + 1 + |filename| && r[..|d|] == d && r[|d|] == '-' && r[|d| + 1..] == filename
  {
    NatToString(now) + "-" + filename
  }

  /** The first `-` of a unique name ends its timestamp. */
  lemma DashEndsTimestamp(now: nat, filename: string)
    ensures IndexOf(UniqueName(now, filename), '-') == |NatToString(now)|
  {
    var d := NatToString(now);
    var s := UniqueName(now, filename);
    assert s[..|d|] == d;
    assert s[|d|] == '-';
    assert forall k :: 0 <= k < |d| ==> s[k] == d[k] && IsDigit(s[k]);
  }

  /** Different timestamps or different client names give different unique names. */
  lemma UniqueNameInjective(a: nat, b: nat, f: string, g: string)
    requires UniqueName(a, f) == UniqueName(b, g)
    ensures a == b && f == g
  {
    var s := UniqueName(a, f);
    DashEndsTimestamp(a, f);
    DashEndsTimestamp(b, g);
    var k := |NatToString(a)|;
    assert NatToString(a) == s[..k] == NatToString(b);
    ParseNatToString(a);
    ParseNatToString(b);
    assert f == s[k + 1..] == g;
  }

  /** The success body: `success`, `url`, `filename` and `size` (omitted when undefined). */
  function Uploaded(url: string, pathname: string, size: Option<int>): Value {
    var fields := map["success" := JBool(true), "url" := JStr(url), "filename" := JStr(pathname)];
    Object(if size.Some? then fields["size" := JNum(size.value)] else fields)
  }

  /** The handler for `/api/upload-image` at time `now`, with `blob` the store's answer. */
  function Handle(req: UploadRequest, now: nat, blob: Blob): (r: Outcome)
    ensures req.verb != "POST" ==>
      r == Outcome(Reply(405, Object(map["error" := JStr("Method not allowed")])), None)
    ensures req.verb == "POST" && !(ImageTruthy(req.image) && FieldTruthy(req.body, "filename")) ==>
      r == Outcome(Failure(400, "Missing image or filename"), None)
    ensures r.put.Some? <==>
      req.verb == "POST" && ImageTruthy(req.image) && FieldTruthy(req.body, "filename")
      && Extract(req.image).Extracted?
    ensures r.put.Some? ==>
      r.put.value == Put(UniqueName(now, Render(req.body["filename"])), Extract(req.image).content,
                         if FieldTruthy(req.body, "contentType") then req.body["contentType"] else DefaultContentType)
    ensures r.put.Some? ==>
      r.response == (if blob.Stored? then Reply(200, Uploaded(blob.url, r.put.value.pathname, blob.size))
                     else Failure(500, "Upload failed"))
    ensures r.put.None? && req.verb == "POST" && ImageTruthy(req.image) && FieldTruthy(req.body, "filename") ==>
      r.response == (if Extract(req.image).Invalid? then Failure(400, "Invalid image format")
                     else Failure(500, "Upload failed"))
  {
    if req.verb != "POST" then
      Outcome(Reply(405, Object(map["error" := JStr("Method not allowed")])), None)
    else if !ImageTruthy(req.image) || !FieldTruthy(req.body, "filename") then
      Outcome(Failure(400, "Missing image or filename"), None)
    else
      match Extract(req.image)
      case Invalid => Outcome(Failure(400, "Invalid image format"), None)
      case Throws => Outcome(Failure(500, "Upload failed"), None)
      case Extracted(content) =>
        var name := UniqueName(now, Render(req.body["filename"]));
        var contentType := if FieldTruthy(req.body, "contentType") then req.body["contentType"] else DefaultContentType;
        var put := Put(name, content, contentType);
        match blob
        case Stored(url, size) => Outcome(Reply(200, Uploaded(url, name, size)), Some(put))
        case PutFailed => Outcome(Failure(500, "Upload failed"), Some(put))
  }

  /** The name the response reports is the name the file was stored under, and it
      ends with the client's file name after the timestamp. */
  lemma ResponseEchoesName(req: UploadRequest, now: nat, url: string, size: Option<int>)
    requires Handle(req, now, Stored(url, size)).put.Some?
    ensures var r := Handle(req, now, Stored(url, size));
      r.response.status == 200
      && r.response.body.value.doc.fields["filename"] == JStr(r.put.value.pathname)
      && r.put.value.pathname[|NatToString(now)| + 1..] == Render(req.body["filename"])
  {
  }
}
