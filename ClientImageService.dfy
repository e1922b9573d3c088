/** The browser client of the proxy (`client/src/services/userImageService.ts`):
    `saveImage` posts a multipart form to `/api/images/save` and returns the new
    id; `getUserImages` fetches `/api/images/user/:userId` and sorts the entries
    newest first. The fetch and compression of the source image, and the network
    exchange itself, are parameters. */
module ClientImageService {
  import opened Wrappers
  import Base64
  import DataUrl
  import Gallery
  import ImageServer

  /** A browser `Blob`: its bytes and its `type`. */
  datatype Blob = Blob(bytes: seq<Base64.byte>, mimeType: string)

  /** One entry of a `FormData`. */
  datatype FormPart = TextField(name: string, value: string) | FilePart(name: string, blob: Blob, filename: string)

  /** A browser `FormData`, filled by `append` calls. */
  class FormData {
    var parts: seq<FormPart>

    constructor ()
      ensures parts == []
    {
      parts := [];
    }

    method Append(name: string, value: string)
      modifies this
      ensures parts == old(parts) + [TextField(name, value)]
    {
      parts := parts + [TextField(name, value)];
    }

    method AppendFile(name: string, blob: Blob, filename: string)
      modifies this
      ensures parts == old(parts) + [FilePart(name, blob, filename)]
    {
      parts := parts + [FilePart(name, blob, filename)];
    }
  }

  /** How a `fetch` settles: rejected (no reply reached the client) or with the proxy's reply. */
  datatype Fetched<T> = NetworkFailure(message: string) | Response(reply: ImageServer.Reply<T>)

  /** The reason phrase of the reply's status. */
  function StatusText<T>(reply: ImageServer.Reply<T>): string
  {
    match reply
    case Ok200(_) => "OK"
    case BadRequest400(_) => "Bad Request"
    case ServerError500(_) => "Internal Server Error"
  }

  /** The form `saveImage` sends: `userId`, `prompt`, and the image as `image.jpg`. */
  function SaveForm(userId: string, prompt: string, image: Blob): seq<FormPart>
  {
    [TextField("userId", userId), TextField("prompt", prompt), FilePart("image", image, "image.jpg")]
  }

  /** What `saveImage` makes of the reply: the `id` of a 200 body; otherwise it throws. */
  function SaveResult(response: Fetched<string>): (r: Result<string, string>)
    ensures r.Ok? <==> response.Response? && response.reply.Ok200?
    ensures r.Ok? ==> r.value == response.reply.body
    ensures response.Response? && !response.reply.Ok200? ==>
              r == Err("Failed to save image: " + StatusText(response.reply))
    ensures response.NetworkFailure? ==> r == Err(response.message)
  {
    match response
    case NetworkFailure(m) => Err(m)
    case Response(reply) =>
      if reply.Ok200? then Ok(reply.body) else Err("Failed to save image: " + StatusText(reply))
  }

  /** `saveImage`. `compressed` is the fetched and compressed source image, or the
      error that fetching or compressing it threw; `response` is how the POST
      settled. `sent` is the form that was posted, `None` when nothing was. */
  method SaveImage(userId: string, prompt: string, compressed: Result<Blob, string>, response: Fetched<string>)
    returns (result: Result<string, string>, sent: Option<seq<FormPart>>)
    ensures compressed.Err? ==> result == Err(compressed.error) && sent == None
    ensures compressed.Ok? ==> sent == Some(SaveForm(userId, prompt, compressed.value))
    ensures compressed.Ok? ==> result == SaveResult(response)
    ensures result.Ok? ==> response.Response? && response.reply.Ok200? && result.value == response.reply.body
  {
    if compressed.Err? {
      return Err(compressed.error), None;
    }
    var formData := new FormData();
    formData.Append("userId", userId);
    formData.Append("prompt", prompt);
    formData.AppendFile("image", compressed.value, "image.jpg");
    assert formData.parts == SaveForm(userId, prompt, compressed.value);
    sent := Some(formData.parts);
    match response {
      case NetworkFailure(m) =>
        result := Err(m);
      case Response(reply) =>
        if !reply.Ok200? {
          result := Err("Failed to save image: " + StatusText(reply));
        } else {
          result := Ok(reply.body);
        }
    }
  }

  /** `getUserImages`: a non-ok reply throws; otherwise the entries, newest first. */
  function GetUserImages(response: Fetched<seq<Gallery.SavedImage>>): (r: Result<seq<Gallery.SavedImage>, string>)
    ensures r.Ok? <==> response.Response? && response.reply.Ok200?
    ensures response.Response? && !response.reply.Ok200? ==>
              r == Err("Failed to get user images: " + StatusText(response.reply))
    ensures response.NetworkFailure? ==> r == Err(response.message)
    ensures r.Ok? ==> Gallery.NewestFirst(r.value)
    ensures r.Ok? ==> multiset(r.value) == multiset(response.reply.body)
    ensures r.Ok? ==> forall t :: Gallery.StampedAt(r.value, t) == Gallery.StampedAt(response.reply.body, t)
  {
    match response
    case NetworkFailure(m) => Err(m)
    case Response(reply) =>
      if !reply.Ok200? then Err("Failed to get user images: " + StatusText(reply))
      else
        var images := reply.body;
        Gallery.SortIsNewestFirst(images);
        Gallery.SortPermutes(images);
        forall t ensures Gallery.StampedAt(Gallery.SortNewestFirst(images), t) == Gallery.StampedAt(images, t) {
          Gallery.SortIsStable(images, t);
        }
        Ok(Gallery.SortNewestFirst(images))
  }

  /** The content type the browser gives a file part: the blob's type, or
      `application/octet-stream` when it has none; multer reports it as `mimetype`. */
  function PartType(blob: Blob): string
  {
    if blob.mimeType == "" then "application/octet-stream" else blob.mimeType
  }

  /** Line breaks written as CR LF only: every CR is followed by LF and every LF
      follows a CR. */
  predicate OnlyCrlf(s: string)
  {
    (|s| > 0 ==> s[0] != '\n' && s[|s| - 1] != '\r')
    && forall i :: 0 <= i < |s| - 1 ==> (s[i] == '\r' <==> s[i + 1] == '\n')
  }

  /** The newline conversion of the `multipart/form-data` encoding of a form's
      text values: a lone CR or a lone LF becomes CR LF, and a CR LF pair stays. */
  function NormalizeNewlines(s: string): (r: string)
    ensures |s| <= |r|
    ensures (forall i :: 0 <= i < |s| ==> s[i] != '\r' && s[i] != '\n') ==> r == s
  {
    if s == [] then []
    else if s[0] == '\r' && |s| > 1 && s[1] == '\n' then "\r\n" + NormalizeNewlines(s[2..])
    else if s[0] == '\r' || s[0] == '\n' then "\r\n" + NormalizeNewlines(s[1..])
    else
      assert forall i :: 0 <= i < |s| - 1 ==> s[1..][i] == s[i + 1];
      [s[0]] + NormalizeNewlines(s[1..])
  }

  lemma CrlfThen(rest: string)
    requires OnlyCrlf(rest)
    ensures OnlyCrlf("\r\n" + rest)
  {
    var s := "\r\n" + rest;
    assert forall i :: 2 <= i < |s| ==> s[i] == rest[i - 2];
  }

  lemma PlainThen(c: char, rest: string)
    requires c != '\r' && c != '\n' && OnlyCrlf(rest)
    ensures OnlyCrlf([c] + rest)
  {
    var s := [c] + rest;
    assert forall i :: 1 <= i < |s| ==> s[i] == rest[i - 1];
  }

  /** After the conversion every line break is a CR LF pair. */
  lemma {:induction false} NormalizeGivesOnlyCrlf(s: string)
    ensures OnlyCrlf(NormalizeNewlines(s))
    decreases |s|
  {
    if s == [] {
    } else if s[0] == '\r' && |s| > 1 && s[1] == '\n' {
      NormalizeGivesOnlyCrlf(s[2..]);
      CrlfThen(NormalizeNewlines(s[2..]));
    } else if s[0] == '\r' || s[0] == '\n' {
      NormalizeGivesOnlyCrlf(s[1..]);
      CrlfThen(NormalizeNewlines(s[1..]));
    } else {
      NormalizeGivesOnlyCrlf(s[1..]);
      PlainThen(s[0], NormalizeNewlines(s[1..]));
    }
  }

  /** Text whose line breaks are already CR LF passes unchanged, so the
      conversion is idempotent. */
  lemma {:induction false} NormalizeKeepsOnlyCrlf(s: string)
    requires OnlyCrlf(s)
    ensures NormalizeNewlines(s) == s
    decreases |s|
  {
    if s == [] {
    } else if s[0] == '\r' {
      assert s[1] == '\n';
      assert forall i :: 0 <= i < |s| - 2 ==> s[2..][i] == s[i + 2];
      NormalizeKeepsOnlyCrlf(s[2..]);
      assert s == "\r\n" + s[2..];
    } else {
      assert forall i :: 0 <= i < |s| - 1 ==> s[1..][i] == s[i + 1];
      NormalizeKeepsOnlyCrlf(s[1..]);
      assert s == [s[0]] + s[1..];
    }
  }

  /** The value of a text field as the server's body parser sees it. */
  function TextFieldValue(parts: seq<FormPart>, name: string): Option<string>
  {
    if parts == [] then None
    else if parts[0].TextField? && parts[0].name == name then Some(NormalizeNewlines(parts[0].value))
    else TextFieldValue(parts[1..], name)
  }

  function FileFieldValue(parts: seq<FormPart>, name: string): Option<ImageServer.UploadedFile>
  {
    if parts == [] then None
    else if parts[0].FilePart? && parts[0].name == name then
      Some(ImageServer.UploadedFile(parts[0].blob.bytes, PartType(parts[0].blob)))
    else FileFieldValue(parts[1..], name)
  }

  /** The request the save handler sees for a posted form. */
  function Received(parts: seq<FormPart>): ImageServer.SaveRequest
  {
    ImageServer.SaveRequest(TextFieldValue(parts, "userId"), TextFieldValue(parts, "prompt"), FileFieldValue(parts, "image"))
  }

  /** The server reads back the three fields `saveImage` appends: the text
      values with their line breaks converted to CR LF, and the file's bytes
      and type. A media type with parameters is excluded, since multer reports
      only its `type/subtype`. */
  lemma ReceivedSaveForm(userId: string, prompt: string, image: Blob)
    requires ';' !in image.mimeType
    ensures Received(SaveForm(userId, prompt, image))
            == ImageServer.SaveRequest(Some(NormalizeNewlines(userId)), Some(NormalizeNewlines(prompt)),
                                       Some(ImageServer.UploadedFile(image.bytes, PartType(image))))
  {
    var form := SaveForm(userId, prompt, image);
    var file := ImageServer.UploadedFile(image.bytes, PartType(image));
    assert form[1..][1..][1..] == [];
    assert TextFieldValue(form, "userId") == Some(NormalizeNewlines(userId));
    assert TextFieldValue(form[1..], "prompt") == Some(NormalizeNewlines(prompt));
    assert FileFieldValue(form[1..][1..], "image") == Some(file);
    assert FileFieldValue(form[1..], "image") == Some(file);
  }

  /** Loading a listing that gained one entry gives a gallery that gained that entry. */
  lemma GalleryGainsEntry(listed: seq<Gallery.SavedImage>, e: Gallery.SavedImage)
    ensures var before := GetUserImages(Response(ImageServer.Ok200(listed)));
            var after := GetUserImages(Response(ImageServer.Ok200(listed + [e])));
            before.Ok? && after.Ok? && |after.value| == |before.value| + 1 && e in after.value
  {
    var before := GetUserImages(Response(ImageServer.Ok200(listed)));
    var after := GetUserImages(Response(ImageServer.Ok200(listed + [e])));
    assert e in multiset(listed + [e]);
    assert |after.value| == |multiset(after.value)| == |multiset(listed + [e])|;
    assert |before.value| == |multiset(before.value)| == |multiset(listed)|;
    assert multiset(listed + [e]) == multiset(listed) + multiset{e};
  }

  /** A user id that reaches the listing route unchanged when pasted, unescaped,
      at the end of `/api/images/user/${userId}`: not empty, not a dot segment,
      free of the characters that end or split a path segment or start an
      escape, free of the tab, LF and CR that the URL parser deletes, and not
      ending in a space or control character, which it strips from the end. */
  predicate RoutableUserId(userId: string)
  {
    userId != "" && userId != "." && userId != ".." && userId[|userId| - 1] > ' '
    && forall i :: 0 <= i < |userId| ==> userId[i] != '/' && userId[i] != '\\' && userId[i] != '?'
                                          && userId[i] != '#' && userId[i] != '%'
                                          && userId[i] != '\t' && userId[i] != '\n' && userId[i] != '\r'
  }

  /** End to end: a form posted by `saveImage` with a routable owner, a non-empty prompt and an
      image, a fresh id and a working database yields that id; loading the
      owner's gallery afterwards yields one more entry, with that id and prompt,
      whose data URL reads back as the posted bytes; the prompt comes back with its line
      breaks as CR LF. */
  lemma SaveThenLoadGallery(records: seq<ImageServer.ImageRecord>, userId: string, prompt: string, image: Blob, id: string, now: int)
    requires RoutableUserId(userId) && prompt != "" && |image.bytes| > 0
    requires !ImageServer.IdTaken(records, id)
    requires ',' !in PartType(image) && ';' !in image.mimeType
    ensures var req := Received(SaveForm(userId, prompt, image));
            var saved := ImageServer.SaveImage(records, req, id, now, true);
            var before := GetUserImages(Response(ImageServer.ListImages(records, userId, true)));
            var after := GetUserImages(Response(ImageServer.ListImages(saved.1, userId, true)));
            && SaveResult(Response(saved.0)) == Ok(id)
            && before.Ok? && after.Ok?
            && |after.value| == |before.value| + 1
            && exists e :: e in after.value && e.id == id && e.prompt == NormalizeNewlines(prompt)
                 && DataUrl.Parse(e.imageUrl) == Some(DataUrl.Content(PartType(image), image.bytes))
  {
    var req := Received(SaveForm(userId, prompt, image));
    ReceivedSaveForm(userId, prompt, image);
    assert NormalizeNewlines(userId) == userId;
    assert ImageServer.HasRequiredFields(req);
    assert ImageServer.SchemaValid(ImageServer.NewRecord(req, id, now));
    var saved := ImageServer.SaveImage(records, req, id, now, true);
    assert saved.0 == ImageServer.Ok200(id);
    ImageServer.SaveThenList(records, req, id, now, userId);
    var e := ImageServer.ToJson(ImageServer.NewRecord(req, id, now));
    ImageServer.ToJsonDecodes(ImageServer.NewRecord(req, id, now));
    GalleryGainsEntry(ImageServer.UserImages(records, userId), e);
    var after := GetUserImages(Response(ImageServer.ListImages(saved.1, userId, true)));
    assert e in after.value && e.id == id && e.prompt == NormalizeNewlines(prompt);
  }
}
