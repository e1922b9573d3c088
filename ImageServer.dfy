/** The persistence endpoints of the Express proxy (`server/index.js`): the
    `Image` collection, `POST /api/images/save`, `GET /api/images/user/:userId`,
    and the data URL that `POST /generate-image` answers with. The collection is
    a sequence of records in insertion order; ids, clocks and the success of a
    database round trip are parameters. */
module ImageServer {
  import opened Wrappers
  import Base64
  import DataUrl
  import Gallery

  /** A document of the `Image` collection. `createdAt` is in milliseconds. */
  datatype ImageRecord = ImageRecord(
    id: string, userId: string, prompt: string,
    imageData: seq<Base64.byte>, contentType: string, createdAt: int)

  /** The file part multer puts in `req.file`. */
  datatype UploadedFile = UploadedFile(buffer: seq<Base64.byte>, mimetype: string)

  /** What the save handler reads: `req.body.userId`, `req.body.prompt`, `req.file`;
      `None` is a field the form did not carry. */
  datatype SaveRequest = SaveRequest(userId: Option<string>, prompt: Option<string>, image: Option<UploadedFile>)

  /** An HTTP reply of the proxy: status 200 with a JSON body, 400 or 500 with `{ error }`. */
  datatype Reply<T> = Ok200(body: T) | BadRequest400(error: string) | ServerError500(error: string)

  const MissingFieldsMessage := "Missing required fields: userId, prompt, or image"
  const SaveFailedMessage := "Failed to save image"
  const ListFailedMessage := "Failed to get user images"
  const GenerateFailedMessage := "Internal server error"
  const PngType := "image/png"

  /** JavaScript truthiness of an optional string: present and not empty. */
  predicate Truthy(field: Option<string>)
  {
    field.Some? && field.value != ""
  }

  /** The guard `!userId || !prompt || !imageFile` does not fire. */
  predicate HasRequiredFields(req: SaveRequest)
  {
    Truthy(req.userId) && Truthy(req.prompt) && req.image.Some?
  }

  /** Mongoose's `required` validators: a required String must be non-empty and a
      required Buffer must hold at least one byte. */
  predicate SchemaValid(r: ImageRecord)
  {
    r.userId != "" && r.prompt != "" && |r.imageData| > 0 && r.contentType != ""
  }

  predicate IdTaken(records: seq<ImageRecord>, id: string)
  {
    exists i :: 0 <= i < |records| && records[i].id == id
  }

  /** The `unique: true` index on `id`. */
  predicate IdsUnique(records: seq<ImageRecord>)
  {
    forall i, j :: 0 <= i < j < |records| ==> records[i].id != records[j].id
  }

  /** Every record the collection holds passed the schema and the unique index. */
  predicate CollectionInvariant(records: seq<ImageRecord>)
  {
    IdsUnique(records) && forall i :: 0 <= i < |records| ==> SchemaValid(records[i])
  }

  /** The record `new Image({...})` builds for a request that passed the guard. */
  function NewRecord(req: SaveRequest, id: string, now: int): ImageRecord
    requires HasRequiredFields(req)
  {
    ImageRecord(id, req.userId.value, req.prompt.value, req.image.value.buffer, req.image.value.mimetype, now)
  }

  /** The save handler against the collection `records`: `id` is the uuid the
      schema default draws, `now` the `new Date()` instant and `writeOk` whether
      the database accepts the write. The result is the reply and the new
      collection. `image.save()` fails, and the handler answers 500, when the
      schema rejects the record (empty file or MIME type) or the id is taken. */
  function SaveImage(records: seq<ImageRecord>, req: SaveRequest, id: string, now: int, writeOk: bool)
    : (out: (Reply<string>, seq<ImageRecord>))
    ensures out.0.BadRequest400? <==> !HasRequiredFields(req)
    ensures out.0.BadRequest400? ==> out.0.error == MissingFieldsMessage
    ensures out.0.ServerError500? ==> out.0.error == SaveFailedMessage
    ensures !out.0.Ok200? ==> out.1 == records
    ensures out.0.Ok200? <==>
              HasRequiredFields(req) && SchemaValid(NewRecord(req, id, now)) && !IdTaken(records, id) && writeOk
    ensures out.0.Ok200? ==> out.0.body == id && out.1 == records + [NewRecord(req, id, now)]
    ensures CollectionInvariant(records) ==> CollectionInvariant(out.1)
  {
    if !HasRequiredFields(req) then (BadRequest400(MissingFieldsMessage), records)
    else
      var record := NewRecord(req, id, now);
      if !SchemaValid(record) || IdTaken(records, id) || !writeOk then (ServerError500(SaveFailedMessage), records)
      else (Ok200(record.id), records + [record])
  }

  /** `Image.find({ userId })`: the records of one owner, in collection order. */
  function FindByUser(records: seq<ImageRecord>, userId: string): (found: seq<ImageRecord>)
    ensures forall r :: r in found <==> r in records && r.userId == userId
    ensures |found| <= |records|
  {
    if records == [] then []
    else
      var rest := FindByUser(records[1..], userId);
      assert records == [records[0]] + records[1..];
      if records[0].userId == userId then [records[0]] + rest else rest
  }

  /** One element of the JSON array: the bytes go out as a base64 data URL. */
  function ToJson(r: ImageRecord): (e: Gallery.SavedImage)
  {
    Gallery.SavedImage(r.id, r.userId, r.prompt, DataUrl.Build(r.contentType, r.imageData), r.createdAt)
  }

  function Map(rs: seq<ImageRecord>): (es: seq<Gallery.SavedImage>)
    ensures |es| == |rs| && forall i :: 0 <= i < |rs| ==> es[i] == ToJson(rs[i])
  {
    seq(|rs|, i requires 0 <= i < |rs| => ToJson(rs[i]))
  }

  /** The body of a successful `GET /api/images/user/:userId`. */
  function UserImages(records: seq<ImageRecord>, userId: string): seq<Gallery.SavedImage>
  {
    Map(FindByUser(records, userId))
  }

  /** The list handler: 500 when the query fails, never a partial array. */
  function ListImages(records: seq<ImageRecord>, userId: string, readOk: bool): (reply: Reply<seq<Gallery.SavedImage>>)
    ensures !readOk <==> reply == ServerError500(ListFailedMessage)
    ensures readOk ==> reply.Ok200? && reply.body == UserImages(records, userId)
  {
    if readOk then Ok200(UserImages(records, userId)) else ServerError500(ListFailedMessage)
  }

  /** Exactly the owner's records are listed, each converted by `ToJson`. */
  lemma ListedIffOwned(records: seq<ImageRecord>, userId: string, e: Gallery.SavedImage)
    ensures e in UserImages(records, userId) <==>
            exists r :: r in records && r.userId == userId && e == ToJson(r)
  {
    var found := FindByUser(records, userId);
    var es := UserImages(records, userId);
    if e in es {
      var i :| 0 <= i < |es| && es[i] == e;
      assert found[i] in found;
    }
    if exists r :: r in records && r.userId == userId && e == ToJson(r) {
      var r :| r in records && r.userId == userId && e == ToJson(r);
      var i :| 0 <= i < |found| && found[i] == r;
      assert es[i] == e;
    }
  }

  /** An owner with no records gets the empty array, not an error. */
  lemma {:induction false} UnknownUserListsNothing(records: seq<ImageRecord>, userId: string)
    requires forall r :: r in records ==> r.userId != userId
    ensures ListImages(records, userId, true) == Ok200([])
  {
    if records != [] {
      assert records[0] in records;
      UnknownUserListsNothing(records[1..], userId);
    }
  }

  /** Appending a record adds it to its owner's listing and to no other. */
  lemma {:induction false} FindAfterAppend(records: seq<ImageRecord>, r: ImageRecord, userId: string)
    ensures FindByUser(records + [r], userId) ==
            FindByUser(records, userId) + (if r.userId == userId then [r] else [])
  {
    var added := if r.userId == userId then [r] else [];
    if records == [] {
      assert records + [r] == [r];
      assert [r][1..] == [];
    } else {
      var s := records + [r];
      assert s[0] == records[0] && s[1..] == records[1..] + [r];
      FindAfterAppend(records[1..], r, userId);
      var tail := FindByUser(records[1..], userId);
      if records[0].userId == userId {
        assert FindByUser(s, userId) == [records[0]] + (tail + added);
        assert FindByUser(records, userId) == [records[0]] + tail;
      } else {
        assert FindByUser(s, userId) == tail + added;
        assert FindByUser(records, userId) == tail;
      }
    }
  }

  /** Each listed entry keeps its record's id, owner, prompt and time, and its
      `imageUrl` reads back as the record's MIME type and bytes. */
  lemma ListedEntryDecodes(records: seq<ImageRecord>, userId: string, i: nat)
    requires i < |UserImages(records, userId)|
    ensures var r := FindByUser(records, userId)[i]; var e := UserImages(records, userId)[i];
            e.id == r.id && e.userId == r.userId == userId && e.prompt == r.prompt && e.createdAt == r.createdAt &&
            e.imageUrl == "data:" + r.contentType + ";base64," + Base64.Encode(r.imageData) &&
            (',' !in r.contentType ==> DataUrl.Parse(e.imageUrl) == Some(DataUrl.Content(r.contentType, r.imageData)))
  {
    var r := FindByUser(records, userId)[i];
    assert r in FindByUser(records, userId);
    if ',' !in r.contentType {
      DataUrl.ParseBuild(r.contentType, r.imageData);
    }
  }

  /** An entry's data URL reads back as its record's MIME type and bytes. */
  lemma ToJsonDecodes(r: ImageRecord)
    requires ',' !in r.contentType
    ensures DataUrl.Parse(ToJson(r).imageUrl) == Some(DataUrl.Content(r.contentType, r.imageData))
  {
    DataUrl.ParseBuild(r.contentType, r.imageData);
  }

  /** After a successful save, the owner's listing is the old one plus exactly
      the new record's entry at the end; every other owner's listing is unchanged. */
  lemma SaveThenList(records: seq<ImageRecord>, req: SaveRequest, id: string, now: int, other: string)
    requires SaveImage(records, req, id, now, true).0.Ok200?
    ensures var after := SaveImage(records, req, id, now, true).1;
            && UserImages(after, req.userId.value) == UserImages(records, req.userId.value) + [ToJson(NewRecord(req, id, now))]
            && (other != req.userId.value ==> UserImages(after, other) == UserImages(records, other))
  {
    var r := NewRecord(req, id, now);
    FindAfterAppend(records, r, req.userId.value);
    FindAfterAppend(records, r, other);
  }

  /** Round trip: the entry a save adds carries the new id and the prompt, and its
      data URL reads back as the uploaded MIME type and bytes. */
  lemma SavedEntryRoundTrip(records: seq<ImageRecord>, req: SaveRequest, id: string, now: int)
    requires SaveImage(records, req, id, now, true).0.Ok200?
    requires ',' !in req.image.value.mimetype
    ensures var listed := UserImages(SaveImage(records, req, id, now, true).1, req.userId.value);
            && |listed| == |UserImages(records, req.userId.value)| + 1
            && listed[|listed| - 1].id == id
            && listed[|listed| - 1].prompt == req.prompt.value
            && DataUrl.Parse(listed[|listed| - 1].imageUrl)
               == Some(DataUrl.Content(req.image.value.mimetype, req.image.value.buffer))
  {
    SaveThenList(records, req, id, now, req.userId.value);
    ToJsonDecodes(NewRecord(req, id, now));
  }

  lemma PngUrlParses(png: seq<Base64.byte>)
    ensures DataUrl.Parse("data:image/png;base64," + Base64.Encode(png)) == Some(DataUrl.Content(PngType, png))
  {
    var prefix := "data:image/png;base64,";
    assert "data:" + PngType + ";base64," == prefix;
    assert DataUrl.Build(PngType, png) == prefix + Base64.Encode(png);
    DataUrl.ParseBuild(PngType, png);
  }

  /** The `imageUrl` of `POST /generate-image`: the upstream bytes as a PNG data URL. */
  function GeneratedImageUrl(png: seq<Base64.byte>): (url: string)
    ensures "data:image/png;base64," <= url
    ensures DataUrl.Parse(url) == Some(DataUrl.Content(PngType, png))
  {
    PngUrlParses(png);
    "data:image/png;base64," + Base64.Encode(png)
  }

  /** The parts of an axios error the handler looks at:
      `error.response?.data?.errors?.[0]?.message`, `error.response?.data?.error`
      and `error.message`. */
  datatype UpstreamError = UpstreamError(firstErrorMessage: Option<string>, dataError: Option<string>, message: Option<string>)

  /** The first truthy of the three, else "Internal server error". */
  function GenerateErrorMessage(err: UpstreamError): (m: string)
    ensures m != ""
    ensures Truthy(err.firstErrorMessage) ==> m == err.firstErrorMessage.value
    ensures !Truthy(err.firstErrorMessage) && Truthy(err.dataError) ==> m == err.dataError.value
    ensures !Truthy(err.firstErrorMessage) && !Truthy(err.dataError) && Truthy(err.message) ==> m == err.message.value
    ensures !Truthy(err.firstErrorMessage) && !Truthy(err.dataError) && !Truthy(err.message) ==> m == GenerateFailedMessage
  {
    if Truthy(err.firstErrorMessage) then err.firstErrorMessage.value
    else if Truthy(err.dataError) then err.dataError.value
    else if Truthy(err.message) then err.message.value
    else GenerateFailedMessage
  }

  /** The generate-image handler, given what the inference call produced. */
  function GenerateImage(upstream: Result<seq<Base64.byte>, UpstreamError>): (reply: Reply<string>)
    ensures upstream.Ok? ==> reply.Ok200? && "data:image/png;base64," <= reply.body
    ensures upstream.Ok? ==> DataUrl.Parse(reply.body) == Some(DataUrl.Content(PngType, upstream.value))
    ensures upstream.Err? ==> reply == ServerError500(GenerateErrorMessage(upstream.error))
    ensures upstream.Err? ==> reply.error != ""
  {
    match upstream
    case Ok(png) => Ok200(GeneratedImageUrl(png))
    case Err(e) => ServerError500(GenerateErrorMessage(e))
  }

  /** The `Image` collection of the database the server talks to. */
  class ImageCollection {
    var records: seq<ImageRecord>

    ghost predicate Valid()
      reads this
    {
      CollectionInvariant(records)
    }

    constructor ()
      ensures Valid() && records == []
    {
      records := [];
    }

    /** `POST /api/images/save`. */
    method Save(req: SaveRequest, id: string, now: int, writeOk: bool) returns (reply: Reply<string>)
      requires Valid()
      modifies this
      ensures Valid()
      ensures (reply, records) == SaveImage(old(records), req, id, now, writeOk)
    {
      if !Truthy(req.userId) || !Truthy(req.prompt) || req.image.None? {
        return BadRequest400(MissingFieldsMessage);
      }
      var image := ImageRecord(id, req.userId.value, req.prompt.value, req.image.value.buffer,
                               req.image.value.mimetype, now);
      if !SchemaValid(image) || IdTaken(records, id) || !writeOk {
        return ServerError500(SaveFailedMessage);
      }
      records := records + [image];
      reply := Ok200(image.id);
    }

    /** `GET /api/images/user/:userId`. */
    method List(userId: string, readOk: bool) returns (reply: Reply<seq<Gallery.SavedImage>>)
      ensures reply == ListImages(records, userId, readOk)
    {
      if !readOk {
        return ServerError500(ListFailedMessage);
      }
      reply := Ok200(UserImages(records, userId));
    }
  }
}
