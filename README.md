# walk4health in Dafny

A model of the Walk4Health club website's data layer, with proofs about it. The website has two halves:

- the serverless API under `api/`. It covers galleries, events, site content, news, links, the e-mail configuration, the contact form and image upload. The data handlers keep their documents in one remote key-value store (Upstash Redis over REST). The contact form only reads the e-mail configuration from it. Image upload does not use it: images go to a blob store (`@vercel/blob`);
- the browser-side `DataService` in `src/services/dataService.ts`. It calls that API. On a development host it also caches the data in the browser's `localStorage`.

## How the model is laid out

- `options.dfy`, `text.dfy` and `json.dfy` hold the values the code handles:
  - JavaScript values as a `Json` datatype;
  - truthiness;
  - property reads, which throw on `null`;
  - `String()` rendering;
  - the string calls the code makes: `includes` (the client's host test), `split(',')[1]` (the upload payload) and `replace(/\n/g, '<br>')` (the contact HTML body), plus the decimal rendering of a timestamp. `Text.IndexOf` is the model's own helper for `split(',')`: the source never calls `indexOf`.
- A value the store holds is a `Value`. It is either a document, `Doc(json)`, or a string that is itself the JSON text of another value, `Enc(v)`. If the text stored under a key is `JSON.stringify(v)`, a GET followed by one `JSON.parse` yields exactly `v`.
  - The events and content handlers write `JSON.stringify(JSON.stringify(doc))`, that is `Enc(Doc(doc))`.
  - They read back with one `JSON.parse`. Their GET therefore answers with a JSON string, not the posted object.
  - The model keeps that behaviour exactly as the code has it.
- `kv.dfy`: the store is a class `KvStore`.
  - It has a field `data: map<string, Value>`.
  - It has a `log` of every GET and SET request it received, so contracts can say "no store access".
  - Whether the store answers a request with an ok status is an input.
- `http.dfy`: requests, responses, the environment variables (which are set), the two clock readings, and the shared response shapes.
- One module per handler: `galleries.dfy`, `events.dfy`, `content.dfy`, `email_config.dfy`, `news.dfy`, `links.dfy`, `contact.dfy`, `upload.dfy`.
  - Each handler that touches the store is a method over `KvStore`. It follows the source's control flow, early returns and error messages included.
  - Its postcondition gives the response, the new store contents and the requests sent, case by case.
  - The pure steps are functions with their own contracts: gallery `findIndex`, `filter` and the shallow merge, the contact settings resolution, and the upload extraction.
- `data_service.dfy` holds the client.
  - The readers are functions of the host name, the cache and the API's answer.
  - The mutators are methods of a `DataService` class whose `storage` field is the local cache.

## Model

| member | source | states |
|---|---|---|
| Text.NatToString | api/galleries.js:53 | the decimal form of a timestamp is non-empty and all digits |
| Text.ParseNatToString | api/galleries.js:53 | the decimal form of `n` reads back as `n` |
| Text.NatToStringInjective | api/upload-image.js:28-29 | different timestamps render differently |
| Text.ContainsIff | src/services/dataService.ts:55 | `s.includes(part)` holds exactly when `part` occurs at some position of `s` |
| Text.NewlinesToBreaks | api/contact.js:70 | `replace(/\n/g, '<br>')` leaves no newline and adds three characters per newline |
| Text.NewlinesToBreaksLine | api/contact.js:70 | each line feed becomes `<br>`: the text before the first line feed is kept, then `<br>`, then the rewrite of the rest |
| Text.NewlinesToBreaksConcat | api/contact.js:70 | the rewrite works piecewise over concatenation |
| Text.NewlinesToBreaksNoNewline | api/contact.js:70 | text without a newline is left unchanged |
| Text.IndexOf | api/upload-image.js:19 | the result is the first position of the character, or -1 exactly when it does not occur |
| Text.SecondField | api/upload-image.js:19 | `split(',')[1]` is undefined exactly when there is no comma |
| Text.SecondFieldOf | api/upload-image.js:19 | with comma-free parts, the second field of `head,field[,tail]` is `field` |
| Json.Property | api/news.js:41-43 | reading a property throws exactly on null, is defined exactly for an object that has the field, and then gives that field |
| Json.Render | api/contact.js:57-67 | a template literal renders a string as itself, an object as `[object Object]`, an empty array as the empty string, and a one-element array as its element (empty for null) |
| Kv.KvStore.Get | api/galleries.js:16-30 | a GET is logged, changes no data and answers the stored value, absent, or not ok |
| Kv.KvStore.Set | api/galleries.js:89-107 | a SET is logged and replaces the key's value exactly when the store answers ok |
| Kv.KvStore.constructor | api/galleries.js:16-22 | a store starts with the given contents and an empty log |
| Galleries.GalleryIdFormat | api/galleries.js:53 | a server-assigned id is `gallery-` followed by one or more digits |
| Galleries.GalleryIdInjective | api/galleries.js:53 | ids issued at different instants differ |
| Galleries.NewIdIsFresh | api/galleries.js:51-59 | if every stored id was issued before `now`, no record already has the new id |
| Galleries.AppendKeepsIssuedBefore | api/galleries.js:86 | appending the new record keeps every id issued before any later instant |
| Galleries.FindIndex | api/galleries.js:206 | `findIndex` yields the first record with the id, or no match exactly when no record matches and none is null, or a TypeError from a null met before any match |
| Galleries.RemoveById | api/galleries.js:146 | `filter` keeps exactly the records without the id, and nothing new |
| Galleries.RemoveByIdConcat | api/galleries.js:146 | filtering is piecewise, so the order of kept records is preserved |
| Galleries.RemoveByIdNoMatch | api/galleries.js:146-162 | deleting an id nobody has leaves the list as it was (that such a delete still answers success is stated by `Galleries.Handle`) |
| Galleries.RemoveByIdIdempotent | api/galleries.js:146 | deleting the same id twice removes nothing more |
| Galleries.NewGallery | api/galleries.js:51-59 | the new record has exactly id `gallery-<now>`, the four required fields as given, `images` as given when truthy or `[]`, and `createdAt` now |
| Galleries.Existing | api/galleries.js:77-83 | the list a change starts from is `[]` when the key is absent or the read failed, the stored array when there is one, and undefined (the change fails) when the stored value is not an array |
| Galleries.Merge | api/galleries.js:211 | in the shallow merge every update field wins, every other old field is kept, and no other field appears |
| Galleries.Handle | api/galleries.js:1-241 | per method: GET answers the stored list or `[]`. POST validates before any store access, then appends exactly one record (id `gallery-<now>`, `images` defaulting to `[]`) after the unchanged earlier records; an absent key or failed read starts from `[]`. DELETE and PUT check `galleryId` before the configuration. DELETE removes every match. PUT answers 404 without a write when nothing matches, otherwise replaces only the first match by its merge with the body. Any other method answers 405 with Allow GET, POST, PUT, DELETE |
| Events.Handle | api/events.js:1-90 | GET answers the stored value or empty lists; POST answers 400 unless both lists are arrays and writes nothing; it then stores exactly the two lists and `lastUpdated`, encoded twice; without the Upstash variables the answer is 500 before any store access; other methods answer 405 |
| Events.PostThenGet | api/events.js:25-73 | after a successful POST, GET answers a string one decoding away from the document, not the document |
| Content.ClientShapeRejected | api/content.js:50-55 | the client's content shape, which has committee and walkingStats but no walkingSchedule, fails validation |
| Content.Handle | api/content.js:1-95 | GET answers the stored value or the default description with the 09:00/09:30/10:00 schedule; POST answers 400 without a description or schedule; it stores only those two and `lastUpdated`, encoded twice; a failed read or write answers 500; other methods answer 405 |
| Content.PostThenGet | api/content.js:25-78 | after a successful POST, GET answers a string holding the document, not the document |
| EmailConfig.Handle | api/email-config.js:1-91 | GET answers the stored config, or the default address `admin@walk4health.co.nz` and prefix `[Walk4Health]` with `lastUpdated` now; a failed read answers 500; POST without `inquiryEmail` answers 400 and writes nothing; it stores only the address, the given or default prefix, and `lastUpdated`; other methods answer 405 with Allow GET, POST |
| EmailConfig.PostThenGet | api/email-config.js:25-74 | the config is stored encoded once, so a GET after a successful POST answers the stored config itself |
| News.Listing | api/news.js:40-46 | the GET answer is 500 exactly when the stored value is null; otherwise it is `{newsItems}` alone, never `lastUpdated`, holding the stored `newsItems` when that is truthy and `[]` otherwise |
| News.ListingOfDocument | api/news.js:40-74 | the list a POST stored is the list GET answers |
| News.Handle | api/news.js:1-113 | a missing store configuration answers 500 for every method, before dispatch; GET answers the stored list or `[]`; POST answers 400 unless `newsItems` is an array, and otherwise stores `{newsItems, lastUpdated}`; a failed read or write answers 500; other methods answer 405 |
| News.PostThenGet | api/news.js:40-89 | after a successful POST, GET answers the posted newsItems |
| Links.Listing | api/links.js:24-29 | the GET answer is 500 exactly when the stored value is null; otherwise it is `{links}` alone, holding the stored `links` when that is truthy and `[]` otherwise |
| Links.ListingOfDocument | api/links.js:24-46 | the list a POST stored is the list GET answers |
| Links.Handle | api/links.js:1-72 | a missing configuration answers 500 before dispatch; GET answers the stored links or `[]`; POST answers 400 unless `links` is an array, otherwise stores `{links, lastUpdated}`; other methods answer 405 with Allow GET, POST |
| Links.PostThenGet | api/links.js:24-55 | after a successful POST, GET answers the posted links |
| Contact.Resolve | api/contact.js:31-41 | recipient and prefix keep their defaults unless stored config exists and that field is truthy; a failed read keeps both defaults; a stored null throws; the result is always truthy |
| Contact.ResolveStored | api/contact.js:31-41 | a config stored by the e-mail config handler is used as posted |
| Contact.Compose | api/contact.js:57-90 | the mail goes from `noreply@walk4health.co.nz` to the recipient; its subject is prefix, a space, then the subject; the text body has the message verbatim; the HTML body is the newline-to-`<br>` rewrite of that text; the name, e-mail address and subject shown in both bodies are the `String()` renderings of the form's `name`, `email` and `subject` |
| Contact.ComposeSingleLine | api/contact.js:70-86 | a message without line breaks appears identically in both bodies |
| Contact.Handle | api/contact.js:1-113 | non-POST answers 405 with Allow POST; any missing field answers 400 before any store access or delivery; a missing store configuration answers 500; a missing API key answers 500 with no delivery; a failed delivery answers the generic 500; otherwise it answers 200; the store is never written |
| Contact.ConfigureThenContact | api/contact.js:31-41 | after the e-mail config handler stored an address, a contact submission goes to that address |
| Upload.Extract | api/upload-image.js:16-25 | a `data:` string yields `split(',')[1]`, the text between its first and second comma (or the end), and throws exactly when it has no comma; a buffer is used as is; anything else is rejected |
| Upload.DataUrlPayload | api/upload-image.js:17-20 | a data URL `data:<type>,<base64>` yields exactly its base64 part |
| Upload.UniqueName | api/upload-image.js:28-29 | the stored name is the timestamp's digits, a `-`, then the client's file name |
| Upload.DashEndsTimestamp | api/upload-image.js:29 | the first `-` of the stored name ends the timestamp |
| Upload.UniqueNameInjective | api/upload-image.js:28-29 | the stored name determines both the timestamp and the client's file name |
| Upload.Handle | api/upload-image.js:3-56 | non-POST answers 405; a missing image or filename answers 400; an invalid image answers 400; an upload is requested exactly for valid input, under `now-filename`, with the given content type or `image/jpeg`; the 200 answer echoes that name; a failed upload answers 500 |
| Upload.ResponseEchoesName | api/upload-image.js:43-48 | the name in the response is the stored name, which ends with the client's file name |
| Client.IsProduction | src/services/dataService.ts:52-56 | the host is not production exactly when it is `127.0.0.1` or contains `localhost` |
| Client.FromStorage | src/services/dataService.ts:400-416 | the cache reader answers null when the key is absent or its text does not parse, and the cached value when it parses |
| Client.ReadThrough | src/services/dataService.ts:59-185 | a read answers the API's data; if the API fails, it answers the cached value on a development host when that value is truthy, and the default in every other case; the fallback is never null |
| Client.GetEvents | src/services/dataService.ts:59-84 | the API's events; on failure, in production the empty lists, in development the truthy cached events or else the empty lists |
| Client.GetContent | src/services/dataService.ts:141-185 | the API's content; on failure, in production the built-in content, in development the truthy cached content or else the built-in content |
| Client.EventsFromStorage | src/services/dataService.ts:400-407 | the cached events when `walk4health-events` holds parsable text, otherwise null |
| Client.ContentFromStorage | src/services/dataService.ts:409-416 | the cached content when `walk4health-content` holds parsable text, otherwise null |
| Client.ProductionIgnoresCache | src/services/dataService.ts:72-83 | on a production host the reads do not depend on the cache |
| Client.CachedEventsAreRead | src/services/dataService.ts:75-132 | on a development host, what a save cached is what an offline `getEvents` answers |
| Client.GetGalleries | src/services/dataService.ts:231-250 | production answers the API's list or `[]`; development answers the cached value or `[]` |
| Client.CreatedId | src/services/dataService.ts:263-267 | `result.gallery.id` resolves exactly when the answer has a `gallery` field that is not null, to its `id` or to undefined when it has none (a number or string `gallery` gives undefined); it rejects when the answer or its `gallery` is null or missing |
| Client.CreatedIdOfServerReply | src/services/dataService.ts:263-267 | the id the client reports is the id the server assigned |
| Client.LocalGallery | src/services/dataService.ts:271-275 | the local record has the given fields plus id `gallery-<now>` and `createdAt`, which win |
| Client.DataService.constructor | src/services/dataService.ts:50 | the service starts on the given host with the given cache |
| Client.DataService.SaveEvents | src/services/dataService.ts:86-138 | production never writes the cache, answers true on API success and rejects on failure; development always caches the events and answers true |
| Client.DataService.SaveContent | src/services/dataService.ts:187-228 | as for events, under `walk4health-content`; any ok status counts as success |
| Client.DataService.CreateGallery | src/services/dataService.ts:252-287 | production answers the id from the API or rejects; development appends one record to the cached list and answers its id `gallery-<now>`; a cache that is not a list makes it reject |
| Client.DataService.DeleteGallery | src/services/dataService.ts:289-307 | production answers whether the API answered ok; development stores the cached list minus every record with the id and answers true |
| Client.DataService.UpdateGallery | src/services/dataService.ts:309-353 | development merges the updates into the first matching record and answers true; with no match it answers false and leaves the cache unchanged |
| Client.CreatedIsFound | src/services/dataService.ts:271-281 | a gallery created locally is then found by its id, after the unchanged earlier records |
| Client.DeletedIsGone | src/services/dataService.ts:298-301 | after a local delete no cached record has that id, so a later update of it finds nothing |

## Left out

- Network and remote services are left out. That covers `fetch`, the REST URLs and headers, the `result.result` envelope and JSON text itself. A store request's outcome is an input (found, absent, not ok). So is the blob store's answer, and whether the e-mail delivery service answers ok.
- Environment variables are reduced to whether each one is set. `KV_REST_API_*` and `UPSTASH_REDIS_REST_*` are assumed to name the same store.
- The clock readings are inputs: `Date.now()` as `env.now` and `new Date().toISOString()` as `env.stamp`. The two readings of one call are independent inputs.
- The `details` field of error answers is left out, because it echoes exception text.
- The order of keys in JSON objects is left out, because objects are maps.
- Numbers are integers: the handlers only test them for truthiness and render them. Floating-point rendering is left out.
- Request bodies are modelled as JSON objects only. A missing or `null` body, which makes the destructuring throw, is left out. So is a body that is a string, number, boolean or array: it destructures to undefined fields (the validating handlers would answer 400), and in the galleries PUT a string or array body is spread into the merge as index keys (`"0"`, `"1"`, …).
- Base64 decoding (`Buffer.from`) is left out. The upload payload is the base64 text.
- The `@vercel/blob` upload itself is left out. Its answer (URL and an optional size) is an input.
- The Resend API and the fixed HTML and text markup around the form fields are left out. The modelled parts are the sender, the recipient, the subject, the rendered name, e-mail address and subject shown in the bodies, and the message in its HTML and text forms.
- Concurrency is left out. Each handler call is one atomic step, so lost updates between concurrent gallery requests are not modelled.
- `async`/`await` is left out. A client call is one step that resolves or rejects.
- In development, a client `createGallery` whose cached galleries value parses to a string would spread its characters into the list. The model makes that call reject instead.
- `String()` of arrays renders nested arrays with the same comma rule. Edge cases of `String()` on unusual numbers are not modelled.
- A query parameter given twice reaches the handlers as an array, so `gallery.id !== galleryId` never matches it. Query values are modelled as single strings, so that case is left out.
- The following are not part of this model, because they only diagnose the environment or configure styling: `api/test.js`, `api/test-email.js`, `testApiConnection`, `pingApi`, `uno.config.ts` and console logging.
- The client's `uploadImage` and `fileToBase64` (src/services/dataService.ts:356-397) are left out, because they only wrap foreign browser and network calls: `FileReader`, `URL.createObjectURL` and the `fetch` to `/api/upload-image`. The server side of the upload is modelled by `Upload.Handle`.
