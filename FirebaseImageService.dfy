/** The Firebase variant of the image service (`src/services/userImageService.ts`):
    `saveImage` uploads the image as a data URL to Cloud Storage under a
    per-user path and records its metadata in the Firestore collection
    `userImages`; `getUserImages` queries that collection by owner, copies each
    document into a gallery entry and sorts newest first. What the Firebase SDK,
    `fetch` and `FileReader` answer is passed in. */
module FirebaseImageService {
  import opened Wrappers
  import Decimal
  import Gallery

  /** A document of `userImages`, with its Firestore id; `createdAt` in milliseconds. */
  datatype ImageDoc = ImageDoc(id: string, userId: string, prompt: string, imageUrl: string, createdAt: int)

  /** How reading the fetched image with `FileReader.readAsDataURL` settles:
      a string result, a result that is not a string, or a rejection (a failed
      `fetch` or `reader.onerror`) with its message. */
  datatype ReadOutcome = TextResult(dataUrl: string) | NonTextResult | ReadFailed(message: string)

  const ConvertFailedMessage := "Failed to convert image to base64"
  const PathPrefix := "user-images/"
  const PathSuffix := ".jpg"

  /** `user-images/${userId}/${timestamp}.jpg`, `timestamp` being `Date.now()`. */
  function StoragePath(userId: string, timestamp: nat): string
  {
    PathPrefix + userId + "/" + Decimal.FromNat(timestamp) + PathSuffix
  }

  /** Position of the last occurrence of `c` in `s`. */
  function LastIndex(s: string, c: char): (k: Option<nat>)
    ensures k.Some? ==> k.value < |s| && s[k.value] == c && c !in s[k.value + 1..]
    ensures k.None? ==> c !in s
  {
    if s == [] then None
    else if s[|s| - 1] == c then Some(|s| - 1)
    else
      match LastIndex(s[..|s| - 1], c)
      case None => None
      case Some(j) => assert s[j + 1..] == s[..|s| - 1][j + 1..] + [s[|s| - 1]]; Some(j)
  }

  /** Reads an owner and a timestamp back out of a storage path. */
  function ParseStoragePath(path: string): Option<(string, nat)>
  {
    if |path| < |PathPrefix| + |PathSuffix| || path[..|PathPrefix|] != PathPrefix
       || path[|path| - |PathSuffix|..] != PathSuffix then None
    else
      var middle := path[|PathPrefix|..|path| - |PathSuffix|];
      match LastIndex(middle, '/')
      case None => None
      case Some(k) =>
        var digits := middle[k + 1..];
        if digits != [] && forall i :: 0 <= i < |digits| ==> Decimal.IsDigit(digits[i]) then
          Some((middle[..k], Decimal.Value(digits)))
        else None
  }

  /** A separator followed by text free of it is the last one. */
  lemma {:induction false} LastIndexOfSeparator(p: string, c: char, t: string)
    requires c !in t
    ensures LastIndex(p + [c] + t, c) == Some(|p|)
    decreases |t|
  {
    var s := p + [c] + t;
    if t != [] {
      assert s[|s| - 1] == t[|t| - 1];
      assert t[|t| - 1] in t;
      assert s[..|s| - 1] == p + [c] + t[..|t| - 1];
      LastIndexOfSeparator(p, c, t[..|t| - 1]);
    }
  }

  /** The last slash of `userId/digits` is the one before the digits. */
  lemma SlashBeforeDigits(userId: string, digits: string)
    requires forall i :: 0 <= i < |digits| ==> Decimal.IsDigit(digits[i])
    ensures LastIndex(userId + "/" + digits, '/') == Some(|userId|)
  {
    assert '/' !in digits;
    LastIndexOfSeparator(userId, '/', digits);
  }

  /** Round trip: the owner and timestamp can be read back from the path. */
  lemma ParseStoragePathRoundTrip(userId: string, timestamp: nat)
    ensures ParseStoragePath(StoragePath(userId, timestamp)) == Some((userId, timestamp))
  {
    var path := StoragePath(userId, timestamp);
    var digits := Decimal.FromNat(timestamp);
    assert path[..|PathPrefix|] == PathPrefix;
    assert path[|path| - |PathSuffix|..] == PathSuffix;
    var middle := path[|PathPrefix|..|path| - |PathSuffix|];
    assert middle == userId + "/" + digits;
    SlashBeforeDigits(userId, digits);
    assert middle[|userId| + 1..] == digits && middle[..|userId|] == userId;
    assert digits != [] && forall i :: 0 <= i < |digits| ==> Decimal.IsDigit(digits[i]);
    Decimal.ValueFromNat(timestamp);
    assert ParseStoragePath(path) == Some((middle[..|userId|], Decimal.Value(digits)));
  }

  /** Distinct (owner, millisecond) pairs give distinct path strings. */
  lemma StoragePathInjective(u1: string, t1: nat, u2: string, t2: nat)
    requires StoragePath(u1, t1) == StoragePath(u2, t2)
    ensures u1 == u2 && t1 == t2
  {
    ParseStoragePathRoundTrip(u1, t1);
    ParseStoragePathRoundTrip(u2, t2);
  }

  /** The data URL that gets uploaded: the input itself when it already is one
      (no fetch happens), otherwise what the `FileReader` produced; or the error
      the promise rejects with. */
  function UploadedText(imageUrl: string, read: ReadOutcome): (r: Result<string, string>)
    ensures "data:" <= imageUrl ==> r == Ok(imageUrl)
    ensures !("data:" <= imageUrl) && read.NonTextResult? ==> r == Err(ConvertFailedMessage)
    ensures !("data:" <= imageUrl) && read.ReadFailed? ==> r == Err(read.message)
    ensures !("data:" <= imageUrl) && read.TextResult? ==> r == Ok(read.dataUrl)
  {
    if "data:" <= imageUrl then Ok(imageUrl)
    else
      match read
      case TextResult(t) => Ok(t)
      case NonTextResult => Err(ConvertFailedMessage)
      case ReadFailed(m) => Err(m)
  }

  /** An input that already is a data URL is uploaded unchanged whatever a fetch
      would have produced: the fetch is not consulted. */
  lemma DataUrlNeedsNoFetch(imageUrl: string, read1: ReadOutcome, read2: ReadOutcome)
    requires "data:" <= imageUrl
    ensures UploadedText(imageUrl, read1) == UploadedText(imageUrl, read2) == Ok(imageUrl)
  {
  }

  predicate DocIdsUnique(docs: seq<ImageDoc>)
  {
    forall i, j :: 0 <= i < j < |docs| ==> docs[i].id != docs[j].id
  }

  predicate DocIdTaken(docs: seq<ImageDoc>, id: string)
  {
    exists i :: 0 <= i < |docs| && docs[i].id == id
  }

  /** `query(collection(db, "userImages"), where("userId", "==", userId))`. */
  function OwnedDocs(docs: seq<ImageDoc>, userId: string): (found: seq<ImageDoc>)
    ensures forall d :: d in found <==> d in docs && d.userId == userId
  {
    if docs == [] then []
    else
      var rest := OwnedDocs(docs[1..], userId);
      assert docs == [docs[0]] + docs[1..];
      if docs[0].userId == userId then [docs[0]] + rest else rest
  }

  /** The object the `forEach` callback pushes for one document. */
  function Copy(d: ImageDoc): Gallery.SavedImage
  {
    Gallery.SavedImage(d.id, d.userId, d.prompt, d.imageUrl, d.createdAt)
  }

  function Copies(ds: seq<ImageDoc>): (es: seq<Gallery.SavedImage>)
    ensures |es| == |ds| && forall i :: 0 <= i < |ds| ==> es[i] == Copy(ds[i])
  {
    seq(|ds|, i requires 0 <= i < |ds| => Copy(ds[i]))
  }

  /** The owner's documents, copied: exactly the copies of the owner's documents. */
  lemma OwnedCopiesIff(docs: seq<ImageDoc>, userId: string, e: Gallery.SavedImage)
    ensures e in Copies(OwnedDocs(docs, userId)) <==> exists d :: d in docs && d.userId == userId && e == Copy(d)
  {
    var snapshot := OwnedDocs(docs, userId);
    var images := Copies(snapshot);
    if e in images {
      var k :| 0 <= k < |images| && images[k] == e;
      assert snapshot[k] in snapshot;
    }
    if exists d :: d in docs && d.userId == userId && e == Copy(d) {
      var d :| d in docs && d.userId == userId && e == Copy(d);
      var k :| 0 <= k < |snapshot| && snapshot[k] == d;
      assert images[k] == e;
    }
  }

  /** Whatever order the query returns the owner's documents in, their copies are
      exactly the copies of the owner's documents. */
  lemma SnapshotCopiesIff(snapshot: seq<ImageDoc>, docs: seq<ImageDoc>, userId: string, e: Gallery.SavedImage)
    requires multiset(snapshot) == multiset(OwnedDocs(docs, userId))
    ensures e in Copies(snapshot) <==> exists d :: d in docs && d.userId == userId && e == Copy(d)
  {
    var images := Copies(snapshot);
    if e in images {
      var k :| 0 <= k < |images| && images[k] == e;
      assert snapshot[k] in multiset(snapshot);
      assert snapshot[k] in OwnedDocs(docs, userId);
    }
    if exists d :: d in docs && d.userId == userId && e == Copy(d) {
      var d :| d in docs && d.userId == userId && e == Copy(d);
      assert d in multiset(OwnedDocs(docs, userId));
      assert d in snapshot;
      var k :| 0 <= k < |snapshot| && snapshot[k] == d;
      assert images[k] == e;
    }
  }

  /** Cloud Storage objects and the `userImages` collection. */
  class FirebaseBackend {
    var objects: map<string, string>
    var docs: seq<ImageDoc>

    ghost predicate Valid()
      reads this
    {
      DocIdsUnique(docs)
    }

    constructor ()
      ensures Valid() && objects == map[] && docs == []
    {
      objects := map[];
      docs := [];
    }

    /** `saveImage`. `timestamp` is `Date.now()`; `read` is how reading a fetched
        image settles; `uploadError` is the rejection of `uploadString`, if any;
        `downloadUrl` and `newDocId` are what `getDownloadURL` and `addDoc`
        resolve or reject with; `createdAt` is the `new Date()` of the document.
        `fetched` says whether the image was fetched. */
    method SaveImage(userId: string, prompt: string, imageUrl: string, timestamp: nat,
                     read: ReadOutcome, uploadError: Option<string>,
                     downloadUrl: Result<string, string>, newDocId: Result<string, string>, createdAt: int)
      returns (result: Result<string, string>, fetched: bool)
      requires Valid()
      requires newDocId.Ok? ==> !DocIdTaken(docs, newDocId.value)
      modifies this
      ensures Valid()
      ensures fetched <==> !("data:" <= imageUrl)
      ensures var text := UploadedText(imageUrl, read);
              && (text.Err? ==> result == Err(text.error) && objects == old(objects))
              && (text.Ok? && uploadError.Some? ==> result == Err(uploadError.value) && objects == old(objects))
              && (text.Ok? && uploadError.None? ==>
                    objects == old(objects)[StoragePath(userId, timestamp) := text.value])
              && (text.Ok? && uploadError.None? && downloadUrl.Err? ==> result == Err(downloadUrl.error))
              && (text.Ok? && uploadError.None? && downloadUrl.Ok? ==>
                    if newDocId.Err? then result == Err(newDocId.error)
                    else result == Ok(newDocId.value)
                         && docs == old(docs) + [ImageDoc(newDocId.value, userId, prompt, downloadUrl.value, createdAt)])
      ensures result.Err? ==> docs == old(docs)
    {
      var path := StoragePath(userId, timestamp);
      var text: string;
      fetched := !("data:" <= imageUrl);
      if !fetched {
        text := imageUrl;
      } else {
        match read {
          case TextResult(t) =>
            text := t;
          case NonTextResult =>
            return Err(ConvertFailedMessage), fetched;
          case ReadFailed(m) =>
            return Err(m), fetched;
        }
      }
      if uploadError.Some? {
        return Err(uploadError.value), fetched;
      }
      objects := objects[path := text];
      if downloadUrl.Err? {
        return Err(downloadUrl.error), fetched;
      }
      if newDocId.Err? {
        return Err(newDocId.error), fetched;
      }
      docs := docs + [ImageDoc(newDocId.value, userId, prompt, downloadUrl.value, createdAt)];
      result := Ok(newDocId.value);
    }

    /** `getUserImages`. `query` is how `getDocs` settles: its error, or the
        owner's documents in the order Firestore returns them (any order of
        them; the store's own ordering is not modelled). A failed query is
        rethrown unchanged; otherwise every document of the owner, copied,
        newest first, equal times keeping the query's order. */
    method GetUserImages(userId: string, query: Result<seq<ImageDoc>, string>)
      returns (result: Result<seq<Gallery.SavedImage>, string>)
      requires query.Ok? ==> multiset(query.value) == multiset(OwnedDocs(docs, userId))
      ensures query.Err? ==> result == Err(query.error)
      ensures query.Ok? ==> result == Ok(Gallery.SortNewestFirst(Copies(query.value)))
      ensures result.Ok? ==> Gallery.NewestFirst(result.value)
      ensures result.Ok? ==> forall e :: e in result.value <==> exists d :: d in docs && d.userId == userId && e == Copy(d)
      ensures result.Ok? ==> forall t :: Gallery.StampedAt(result.value, t) == Gallery.StampedAt(Copies(query.value), t)
    {
      if query.Err? {
        return Err(query.error);
      }
      var snapshot := query.value;
      var images: seq<Gallery.SavedImage> := [];
      var i := 0;
      while i < |snapshot|
        invariant 0 <= i <= |snapshot|
        invariant images == Copies(snapshot[..i])
      {
        images := images + [Copy(snapshot[i])];
        i := i + 1;
      }
      assert snapshot[..i] == snapshot;
      var sorted := Gallery.SortNewestFirst(images);
      Gallery.SortIsNewestFirst(images);
      Gallery.SortPermutes(images);
      forall e ensures e in sorted <==> exists d :: d in docs && d.userId == userId && e == Copy(d) {
        assert e in sorted <==> e in multiset(images);
        SnapshotCopiesIff(snapshot, docs, userId, e);
      }
      forall t ensures Gallery.StampedAt(sorted, t) == Gallery.StampedAt(images, t) {
        Gallery.SortIsStable(images, t);
      }
      result := Ok(sorted);
    }
  }
}
