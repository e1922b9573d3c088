/** Data URLs (RFC 2397, section 3): `data:[<mediatype>][;base64],<data>`.
    The server only ever writes the base64 form. `Parse` is a strict reader that
    accepts exactly what `Build` produces (the header split at the first comma,
    a lower-case `;base64` marker, canonical padded base64); it is not the more
    lenient reader of a browser's fetch. */
module DataUrl {
  import opened Wrappers
  import Base64

  /** What a base64 data URL carries: a media type and the bytes. */
  datatype Content = Content(mediaType: string, bytes: seq<Base64.byte>)

  /** `data:${mediaType};base64,${base64(bytes)}`. */
  function Build(mediaType: string, bytes: seq<Base64.byte>): (url: string)
  {
    "data:" + mediaType + ";base64," + Base64.Encode(bytes)
  }

  /** Position of the first occurrence of `c` in `s`. */
  function FirstIndex(s: string, c: char): (k: Option<nat>)
    ensures k.Some? ==> k.value < |s| && s[k.value] == c && c !in s[..k.value]
    ensures k.None? ==> c !in s
  {
    if s == [] then None
    else if s[0] == c then Some(0)
    else match FirstIndex(s[1..], c)
      case None => None
      case Some(j) => Some(j + 1)
  }

  /** Reads a base64 data URL back into its media type and bytes; anything
      else (another scheme, no comma, no `;base64` marker, bad base64) is `None`. */
  function Parse(url: string): Option<Content>
  {
    if !("data:" <= url) then None
    else
      var rest := url[5..];
      match FirstIndex(rest, ',')
      case None => None
      case Some(k) =>
        var header := rest[..k];
        if |header| < 7 || header[|header| - 7..] != ";base64" then None
        else match Base64.Decode(rest[k + 1..])
          case None => None
          case Some(bytes) => Some(Content(header[..|header| - 7], bytes))
  }

  /** The first comma of a built data URL is the one that ends the header,
      provided the media type has none. */
  lemma {:induction false} CommaEndsHeader(mediaType: string, payload: string)
    requires ',' !in mediaType
    ensures FirstIndex(mediaType + ";base64," + payload, ',') == Some(|mediaType| + 7)
  {
    var s := mediaType + ";base64," + payload;
    var n := |mediaType| + 7;
    assert s[..n] == mediaType + ";base64";
    assert s[n] == ',';
  }

  /** Round trip: parsing a built data URL gives back its media type and bytes. */
  lemma ParseBuild(mediaType: string, bytes: seq<Base64.byte>)
    requires ',' !in mediaType
    ensures Parse(Build(mediaType, bytes)) == Some(Content(mediaType, bytes))
  {
    var url := Build(mediaType, bytes);
    var payload := Base64.Encode(bytes);
    var rest := url[5..];
    assert rest == mediaType + ";base64," + payload;
    CommaEndsHeader(mediaType, payload);
    var k := |mediaType| + 7;
    assert rest[..k] == mediaType + ";base64";
    assert rest[k + 1..] == payload;
    Base64.DecodeEncode(bytes);
  }
}
