# ArtBlossom AI — a Dafny model of its image persistence and form logic

ArtBlossom AI is a web application that turns a text prompt into an image
through a proxied text-to-image service and keeps a per-user gallery of the
images. This project models the parts of it that decide what is stored,
what is returned and which input is accepted:

- the Express proxy (`server/index.js`). It has three parts:
  - the Mongo `Image` collection with its schema;
  - the save endpoint, which rejects missing fields with 400 and database
    failures with 500;
  - the listing endpoint, which turns each stored buffer into a
    `data:<type>;base64,<payload>` URL, and the data URL that the
    image-generation endpoint answers with.
- the client image service that talks to that proxy
  (`client/src/services/userImageService.ts`): the multipart form it posts,
  its error handling and the newest-first gallery sort;
- the Firebase image service (`src/services/userImageService.ts`). Images go
  to the storage path `user-images/<userId>/<timestamp>.jpg`. Metadata goes
  into the `userImages` collection. Listing queries it by owner and sorts
  newest first.
- the prompt form (`src/components/ImagePromptForm.tsx`): the blank-prompt
  guard, the suggestions and their shortened labels;
- the reset-password page (`src/pages/ResetPassword.tsx`): the zod password
  schema, `validateForm` and the guards of `handleSubmit`;
- the local-storage mock authentication of `src/lib/firebase.ts`.

The modules are:

- **Value modules:**
  - `Wrappers`: `Option` and `Result`.
  - `Base64`: the standard alphabet of RFC 4648 section 4, with a strict
    decoder.
  - `DataUrl`: RFC 2397 data URLs carrying base64.
  - `Decimal`: `Number.prototype.toString` on naturals.
  - `Gallery`: the `SavedImage` entry and the stable newest-first sort.
- **One module per core source file:**
  - `ImageServer`
  - `ClientImageService`
  - `FirebaseImageService`
  - `PromptForm`
  - `ResetPassword`
  - `LocalAuth`

How the models take their inputs:

- **Sources of outside values.** Clocks, uuids, database outcomes and
  network replies are parameters of the operations that consume them.
- **Source code that holds state.** Where the source keeps state (a
  `FormData`, a Mongo collection, Firebase storage, React component state,
  `localStorage`), the model is a class whose methods are specified
  against the pure functions of its module.

## Model

| member | source | states |
|---|---|---|
| Base64.ValueOf | server/index.js:105 | the decoding of a base64 alphabet character is the unique sextet that encodes to it |
| Base64.CharOfInAlphabet | server/index.js:105 | every sextet encodes to an alphabet character that decodes back to it |
| Base64.JoinSplit | server/index.js:105 | regrouping three bytes into four sextets and back gives the three bytes |
| Base64.EncodeLength | server/index.js:140 | `toString('base64')` output has 4 characters per started group of 3 bytes (padding included) |
| Base64.DecodeQuantum | server/index.js:105 | a full four-character group decodes to exactly three bytes |
| Base64.QuantumRoundTrip | server/index.js:105 | an encoded three-byte group is a full group and decodes to those bytes |
| Base64.DecodeEncodeOne | server/index.js:105 | a one-byte tail (`xx==`) decodes back to its byte |
| Base64.DecodeEncodeTwo | server/index.js:105 | a two-byte tail (`xxx=`) decodes back to its bytes |
| Base64.DecodeAfterQuantum | server/index.js:105 | decoding distributes over a leading full group |
| Base64.DecodeEncodeStep | server/index.js:105 | a buffer whose tail after three bytes round-trips round-trips too |
| Base64.DecodeEncode | server/index.js:105 | every buffer's base64 text decodes back to exactly that buffer |
| DataUrl.FirstIndex | server/index.js:105 | the index found is the first occurrence of the character, and none means it does not occur |
| DataUrl.CommaEndsHeader | server/index.js:105 | in `<type>;base64,<payload>` with a comma-free type, the first comma is the one after `;base64` |
| DataUrl.ParseBuild | server/index.js:105 | a data URL built from a comma-free media type and a buffer parses back to that type and buffer |
| Decimal.DigitChar | src/lib/firebase.ts:43 | a digit value below ten becomes a decimal digit character of that value |
| Decimal.FromNat | src/lib/firebase.ts:43 | `Date.now().toString()` is a non-empty string of digits with no leading zero |
| Decimal.ValueFromNat | src/services/userImageService.ts:18-19 | the digits of a timestamp read back as that timestamp |
| Decimal.FromNatInjective | src/lib/firebase.ts:43 | distinct instants give distinct ids |
| Gallery.StampedAt | client/src/services/userImageService.ts:81 | the entries at one instant, in order, are a sub-list of the entries |
| Gallery.Insert | client/src/services/userImageService.ts:81 | inserting one entry gives a permutation of the entry plus the list |
| Gallery.InsertNewestFirst | client/src/services/userImageService.ts:81 | inserting into a newest-first list keeps it newest first |
| Gallery.InsertStable | client/src/services/userImageService.ts:81 | an inserted entry goes before the equal-time entries that follow it |
| Gallery.SortIsNewestFirst | client/src/services/userImageService.ts:81 | the sort's output has non-increasing `createdAt` |
| Gallery.SortPermutes | src/services/userImageService.ts:89 | the sort's output is a permutation of its input |
| Gallery.SortIsStable | src/services/userImageService.ts:89 | entries with equal `createdAt` keep their relative order (`Array.prototype.sort` is stable) |
| ImageServer.SaveImage | server/index.js:65-92 | 400 with the missing-fields message iff userId or prompt is falsy or no file came; 500 with "Failed to save image" when the schema's `required` fields or the unique id index reject the record or the write fails; 200 with the new id otherwise, appending exactly the new record; non-200 leaves the collection unchanged; the schema-and-unique-id invariant of lines 34-60 is preserved |
| ImageServer.FindByUser | server/index.js:98 | `find({ userId })` returns exactly the records of that owner |
| ImageServer.Map | server/index.js:101-107 | the listing has one entry per found record, in order, each that record's JSON form |
| ImageServer.ListImages | server/index.js:95-114 | a failed read gives 500 "Failed to get user images" and only then; otherwise 200 with the owner's records mapped to entries |
| ImageServer.ListedIffOwned | server/index.js:98-107 | an entry is listed for a user iff it is the JSON form of a stored record of that user |
| ImageServer.UnknownUserListsNothing | server/index.js:98 | a user with no records gets an empty 200 listing |
| ImageServer.FindAfterAppend | server/index.js:98 | after appending a record the owner query gains it at the end, and other owners' results are unchanged |
| ImageServer.ListedEntryDecodes | server/index.js:101-107 | each listed entry copies id, owner, prompt and time, and its imageUrl is the data URL of the stored buffer that parses back to its type and bytes |
| ImageServer.ToJsonDecodes | server/index.js:105 | a record's imageUrl parses back to its contentType and imageData |
| ImageServer.SaveThenList | server/index.js:65-114 | a successful save appends the new entry at the end of the owner's listing and changes no other user's listing |
| ImageServer.SavedEntryRoundTrip | server/index.js:65-114 | after a successful save the owner's listing grows by one, and its last entry carries the returned id and the prompt |
| ImageServer.PngUrlParses | server/index.js:140-141 | `data:image/png;base64,` followed by the encoding of some bytes parses back to `image/png` and those bytes |
| ImageServer.GeneratedImageUrl | server/index.js:140-141 | the generated URL starts `data:image/png;base64,` and parses back to the upstream bytes |
| ImageServer.GenerateErrorMessage | server/index.js:146-150 | the reply error is the first truthy of `errors[0].message`, `data.error`, `message`, else "Internal server error", and never empty |
| ImageServer.GenerateImage | server/index.js:117-153 | upstream success gives 200 with a `data:image/png;base64,` URL that parses back to the bytes; failure gives 500 whose error is the `GenerateErrorMessage` cascade of the upstream error, never empty |
| ImageServer.ImageCollection.Save | server/index.js:65-92 | the collection's reply and new contents are those of `SaveImage`, and the invariant is kept |
| ImageServer.ImageCollection.List | server/index.js:95-114 | the reply is that of `ListImages` on the current contents |
| ClientImageService.FormData.Append | client/src/services/userImageService.ts:35-36 | a text field is appended after the existing parts |
| ClientImageService.FormData.AppendFile | client/src/services/userImageService.ts:37 | a file field with its filename is appended after the existing parts |
| ClientImageService.SaveResult | client/src/services/userImageService.ts:40-55 | success iff a 200 reply came, carrying its id; a non-ok reply gives "Failed to save image: " plus the status text; a rejected fetch rethrows its error unchanged |
| ClientImageService.SaveImage | client/src/services/userImageService.ts:12-56 | a compression error is rethrown and nothing is sent; otherwise exactly the userId, prompt and `image.jpg` parts are posted and the result is that of `SaveResult` |
| ClientImageService.GetUserImages | client/src/services/userImageService.ts:58-86 | success iff a 200 reply came; the gallery is then newest first, a permutation of the listing and stable among equal times; a non-ok reply gives "Failed to get user images: " plus the status text; a rejected fetch rethrows its error unchanged |
| ClientImageService.NormalizeNewlines | client/src/services/userImageService.ts:34-44 | the form encoding of a text value never shortens it and leaves text without CR or LF unchanged |
| ClientImageService.NormalizeGivesOnlyCrlf | client/src/services/userImageService.ts:34-44 | after the form encoding every line break of a text value is a CR LF pair |
| ClientImageService.NormalizeKeepsOnlyCrlf | client/src/services/userImageService.ts:34-44 | text whose line breaks are already CR LF is sent unchanged, so the conversion is idempotent |
| ClientImageService.ReceivedSaveForm | client/src/services/userImageService.ts:34-44 | for a blob type without parameters, the server's multipart parser reads back the appended userId and prompt with lone CR or LF turned into CR LF, and the file's bytes with the blob's type (or `application/octet-stream`) |
| ClientImageService.GalleryGainsEntry | client/src/services/userImageService.ts:68-81 | a listing that gained one entry loads as a gallery with one more entry, including it |
| ClientImageService.SaveThenLoadGallery | client/src/services/userImageService.ts:12-86 | for an owner id that the listing URL carries unchanged (no `/`, `\`, `?`, `#`, `%`, tab, LF or CR, not `.` or `..`, not ending in a space or control character), a non-empty prompt, a non-empty image whose type has no parameters, a fresh id and a working database: saving returns the id, and the owner's reloaded gallery gains an entry with that id and the prompt as the form encoding sent it, whose URL decodes to the posted bytes |
| FirebaseImageService.LastIndex | src/services/userImageService.ts:19 | the index found is the last occurrence of the character, and none means it does not occur |
| FirebaseImageService.LastIndexOfSeparator | src/services/userImageService.ts:19 | a separator followed only by text without it is the last occurrence |
| FirebaseImageService.SlashBeforeDigits | src/services/userImageService.ts:19 | in `<userId>/<digits>` the last slash is the one before the digits |
| FirebaseImageService.ParseStoragePathRoundTrip | src/services/userImageService.ts:19 | `user-images/<userId>/<timestamp>.jpg` parses back to the user and the timestamp |
| FirebaseImageService.StoragePathInjective | src/services/userImageService.ts:18-19 | distinct (user, timestamp) pairs give distinct storage path strings |
| FirebaseImageService.UploadedText | src/services/userImageService.ts:22-47 | a `data:` URL is uploaded as is; otherwise the FileReader's string, the "Failed to convert image to base64" error for a non-string result, or the read error |
| FirebaseImageService.DataUrlNeedsNoFetch | src/services/userImageService.ts:22-24 | for a `data:` URL the upload does not depend on any fetch or read |
| FirebaseImageService.OwnedDocs | src/services/userImageService.ts:69-72 | the owner query returns exactly the documents of that owner |
| FirebaseImageService.Copies | src/services/userImageService.ts:77-86 | one gallery entry per document, in order, each that document's copy |
| FirebaseImageService.OwnedCopiesIff | src/services/userImageService.ts:69-86 | an entry is produced iff it copies a document of that owner |
| FirebaseImageService.SnapshotCopiesIff | src/services/userImageService.ts:69-86 | whatever order the query returns the owner's documents in, an entry is produced iff it copies a document of that owner |
| FirebaseImageService.FirebaseBackend.SaveImage | src/services/userImageService.ts:15-65 | each failing stage (read, upload, download URL, addDoc) rejects with its error; the object is stored at the storage path once uploaded; only full success adds the metadata document and returns its id; failure adds no document; ids stay unique |
| FirebaseImageService.FirebaseBackend.GetUserImages | src/services/userImageService.ts:67-94 | a query error is rethrown; otherwise the loop of lines 77-86 copies the owner's documents in query order, and the result is those copies sorted newest first, with membership iff owned and equal times in query order |
| PromptForm.LeadingSpace | src/components/ImagePromptForm.tsx:27 | the count of leading whitespace characters: all of them whitespace, and the next one not |
| PromptForm.TrailingSpace | src/components/ImagePromptForm.tsx:27 | the count of trailing whitespace characters: all of them whitespace, and the one before not |
| PromptForm.Trim | src/components/ImagePromptForm.tsx:27 | `trim()` is a contiguous slice of the prompt with only whitespace cut off either side, and it is empty or starts and ends with non-whitespace, so exactly the edge whitespace is removed |
| PromptForm.BlankIffAllWhitespace | src/components/ImagePromptForm.tsx:27-30 | the guard fires iff the prompt consists only of whitespace (the empty prompt included) |
| PromptForm.SuggestionLabel | src/components/ImagePromptForm.tsx:73 | a suggestion over 30 characters shows its first 30 followed by "..."; a shorter one shows unchanged |
| PromptForm.SuggestionsAreShortened | src/components/ImagePromptForm.tsx:13-19 | all five built-in suggestions exceed 30 characters, so each label is 33 characters |
| PromptForm.PromptFormState.OnChange | src/components/ImagePromptForm.tsx:57 | the prompt becomes the textarea's value |
| PromptForm.PromptFormState.UsePromptSuggestion | src/components/ImagePromptForm.tsx:40-42 | the prompt becomes exactly the suggestion |
| PromptForm.PromptFormState.HandleSubmit | src/components/ImagePromptForm.tsx:24-38 | a blank prompt shows "Please enter a prompt" and does not call `onGenerate`; otherwise `onGenerate` gets the untrimmed prompt, and its failure shows the retry toast |
| ResetPassword.Utf16Length | src/pages/ResetPassword.tsx:14 | the length zod compares is between the code point count and twice it |
| ResetPassword.SchemaIssues | src/pages/ResetPassword.tsx:13-19 | no issues iff the password has at least 6 UTF-16 units and equals the confirmation; a short password's issue comes first; a mismatch issue on `confirmPassword` whenever they differ |
| ResetPassword.ResetPasswordPage.ValidateForm | src/pages/ResetPassword.tsx:32-43 | valid iff the schema passes, clearing the error; otherwise the error is the first issue's message |
| ResetPassword.ResetPasswordPage.HandleSubmit | src/pages/ResetPassword.tsx:45-67 | an invalid form stops at validation; a missing or empty `oobCode` shows "Invalid password reset link"; otherwise the reset is requested with the code and password, success shows the success toast and goes to `/login`, failure shows the failure toast, and loading ends false |
| LocalAuth.DisplayName | src/lib/firebase.ts:46 | `email.split('@')[0]` is the prefix of the email before its first `@`, or the whole email |
| LocalAuth.DisplayNameWithoutAt | src/lib/firebase.ts:46 | an email without `@` is its own display name |
| LocalAuth.LocalAuthStore.SignUp | src/lib/firebase.ts:40-52 | stores and returns an unverified, non-anonymous user whose id is the decimal timestamp |
| LocalAuth.LocalAuthStore.Login | src/lib/firebase.ts:54-67 | accepts any credentials; stores and returns a verified user whose id is the decimal timestamp |
| LocalAuth.LocalAuthStore.GoogleLogin | src/lib/firebase.ts:69-81 | stores and returns the fixed `test@google.com` user with provider `google.com` |
| LocalAuth.LocalAuthStore.Logout | src/lib/firebase.ts:83-85 | the stored user is removed |
| LocalAuth.LocalAuthStore.GetCurrentUser | src/lib/firebase.ts:87-90 | the stored user, or none, and nothing changes |
| LocalAuth.LocalAuthStore.ForgotPassword | src/lib/firebase.ts:92-96 | always reports success and changes nothing |

## Left out

- Timestamps are milliseconds. They are not modelled as strings:
  - `Date` objects, `toISOString()` (server/index.js:106) and its parsing by
    `new Date(...)` (client/src/services/userImageService.ts:77) are taken as
    exact inverses;
  - Firestore's `toDate()` is taken as the identity.
- Express routing, CORS, body parsing, multer's 50 MB limit and JSON
  serialisation of replies are not modelled. A reply is its status and its
  decoded body.
- MongoDB is modelled as a sequence of records, with these simplifications:
  - the collection's natural order is taken to be insertion order;
  - connection errors are folded into the `writeOk`/`readOk` outcome of
    each call;
  - concurrent requests are not modelled.
- The Cloudflare request (URL, token, `num_steps`, the random seed) is not
  modelled. The upstream result is a parameter, because the seed's
  randomness and the network cannot be modelled.
- `imageCompression`, `fetch` of the image and `response.blob()`:
  - the compressed blob, or its error, is a parameter of
    `ClientImageService.SaveImage`;
  - the fetch of a data URL is not modelled byte by byte.
- ClientImageService.SaveImage: the two branches of
  client/src/services/userImageService.ts:18-24 are identical and are
  modelled as one.
- The FileReader, `getDownloadURL` and `addDoc` are not modelled. Their
  outcomes are parameters of `FirebaseImageService.FirebaseBackend.SaveImage`.
  Firestore's own timestamps are not modelled either.
- The gallery sort breaks equal `createdAt` values by the order of its
  input, as `Array.prototype.sort` does. The source has no comparison on
  ids, so none is modelled. For the proxy that input order is the
  collection's order, taken to be insertion order (see the MongoDB item
  above).
- FirebaseImageService.FirebaseBackend.GetUserImages takes the query's
  result order as an input: any arrangement of the owner's documents.
  Firestore returns a query without `orderBy` in ascending document-id
  order, and `addDoc` ids are random, so that order is not insertion order.
  The model does not say which arrangement comes back. Its results for
  equal `createdAt` values are stated relative to the input order.
- FirebaseImageService.FirebaseBackend.SaveImage keys `objects` by the raw
  path string. The Storage SDK's normalisation of `ref` paths is not
  modelled: it drops empty segments, so owners such as `a` and `a/` at the
  same millisecond would share one object.
  `FirebaseImageService.StoragePathInjective` is a statement about path
  strings only.
- ClientImageService.SaveThenLoadGallery only covers owner ids that the
  listing URL carries unchanged. The client pastes `userId` unescaped at the
  end of `/api/images/user/${userId}`, and the URL parser and Express
  routing of that path are not modelled. These ids reach a different route
  or owner, or fail:
  - an id containing `/`, `\`, `?`, `#` or `%`;
  - an id that is `.` or `..`;
  - an id containing a tab, LF or CR, which the URL parser deletes;
  - an id ending in a space or control character, which the URL parser
    strips.
- ClientImageService.ReceivedSaveForm covers blob types without
  parameters (no `;`). multer reports only the `type/subtype` of a part's
  Content-Type, and that reduction is not modelled.
- PromptForm.SuggestionLabel counts characters, not UTF-16 code units. The
  labels it is applied to are ASCII, where the two agree.
- React rendering, `isGenerating`/disabled buttons, the `loading` spinner's
  appearance, `console` logging and `e.preventDefault()` are not modelled.
  Toasts and navigations are recorded as sequences.
- ResetPassword.ResetPasswordPage.HandleSubmit: the `resetPassword` call of
  the auth context is not part of this model. It is recorded as a request,
  and its outcome is a parameter.
- Login, sign-up, Google login, logout and password-reset links:
  - `LocalAuth` stores the user value itself under `auth_user`, not its JSON
    text;
  - the `metadata` field (always `{}`) is left out;
  - the real Firebase authentication objects of src/lib/firebase.ts are not
    part of this model.
