/**
 Image references as data URIs: the normaliser that validates and re-encodes
 them, and the extractor that takes the payload out again.
 */
module DataUri {
  import opened Wrappers
  import opened Text
  import opened Base64

  datatype Error =
    | TooManyImages(maxImages: nat, found: nat)
    | ImageTooLarge(input: string, sizeBytes: nat, maxBytes: nat)
    | UnsupportedMime(input: string, mime: string)
    | RemoteFetchDisabled(input: string)
    | ImageSourceNotFound(input: string)
    | InvalidMarker(input: string)
    | RemoteFetchFailed(input: string)
    | LocalReadFailed(input: string)

  const ALLOWED_MIMES: seq<string> := ["image/png", "image/jpeg", "image/webp", "image/gif", "image/bmp"]

  function Uri(mime: string, bytes: seq<Byte>): string {
    "data:" + mime + ";base64" + [','] + Encode(bytes)
  }

  /** An allowed type and at most `maxBytes` bytes, else the error the source raises. */
  function Validated(source: string, mime: string, bytes: seq<Byte>, maxBytes: nat): Result<string, Error> {
    if mime !in ALLOWED_MIMES then Err(UnsupportedMime(source, mime))
    else if |bytes| > maxBytes then Err(ImageTooLarge(source, |bytes|, maxBytes))
    else Ok(Uri(mime, bytes))
  }

  /** `trim_start_matches`: every leading copy of the scheme goes. */
  function DropScheme(s: string): string
    decreases |s|
  {
    if StartsWith(s, "data:") then DropScheme(s[5..]) else s
  }

  function MimeOfHeader(header: string): string {
    Lower(Trim(UpTo(DropScheme(header), ';')))
  }

  function Header(source: string): Option<string> {
    match FindChar(source, ',')
    case Some(comma) => Some(source[..comma])
    case None => None
  }

  function Payload(source: string): string {
    match FindChar(source, ',')
    case Some(comma) => Trim(source[comma + 1..])
    case None => ""
  }

  function NormalizeDataUri(source: string, maxBytes: nat): Result<string, Error> {
    match Header(source)
    case None => Err(InvalidMarker(source))
    case Some(header) =>
      if !Contains(header, ";base64") then Err(InvalidMarker(source))
      else
        var mime := MimeOfHeader(header);
        if mime !in ALLOWED_MIMES then Err(UnsupportedMime(source, mime))
        else
          match Decode(Payload(source))
          case None => Err(InvalidMarker(source))
          case Some(bytes) => Validated(source, mime, bytes, maxBytes)
  }

  /** `extract_ollama_image_payload`. */
  function ExtractPayload(ref: string): Option<string> {
    if StartsWith(ref, "data:") then
      match FindChar(ref, ',')
      case None => None
      case Some(comma) => if Trim(ref[comma + 1..]) == "" then None else Some(Trim(ref[comma + 1..]))
    else if Trim(ref) == "" then None
    else Some(Trim(ref))
  }

  // ── Canonical URIs ─────────────────────────────────────────────────────

  /** What the normaliser emits: an allowed type and the strict encoding of few enough bytes. */
  ghost predicate Canonical(u: string, maxBytes: nat) {
    exists mime, bytes: seq<Byte> :: mime in ALLOWED_MIMES && |bytes| <= maxBytes && u == Uri(mime, bytes)
  }

  predicate PlainMime(mime: string) {
    && Solid(mime) && Lower(mime) == mime && mime[0] == 'i'
    && ';' !in mime && ',' !in mime && ']' !in mime && '[' !in mime
  }

  lemma LowerOfFive()
    ensures forall m :: m in ALLOWED_MIMES ==> Lower(m) == m
  {
  }

  lemma AllowedPlain(mime: string)
    requires mime in ALLOWED_MIMES
    ensures PlainMime(mime)
  {
    hide Lower;
    LowerOfFive();
  }

  lemma DropSchemeOnce(rest: string)
    requires rest != "" && rest[0] == 'i'
    ensures DropScheme("data:" + rest) == rest
  {
    assert ("data:" + rest)[0..5] == "data:";
    assert ("data:" + rest)[5..] == rest;
    StartsOtherwise(rest, "data:");
  }

  lemma Base64Header(mime: string)
    requires ',' !in mime
    ensures var h := "data:" + mime + ";base64"; Contains(h, ";base64") && ',' !in h
  {
    var h := "data:" + mime + ";base64";
    assert h[5 + |mime|..5 + |mime| + 7] == ";base64";
    assert OccursAt(h, ";base64", 5 + |mime|);
  }

  lemma MimeOfCanonicalHeader(mime: string)
    requires PlainMime(mime)
    ensures MimeOfHeader("data:" + mime + ";base64") == mime
  {
    hide DropScheme, Strip, FindCharFrom;
    var rest := mime + ";base64";
    assert "data:" + mime + ";base64" == "data:" + rest;
    DropSchemeOnce(rest);
    assert rest == mime + [';'] + "base64";
    FindCharIs(mime, ';', "base64");
    assert rest[..|mime|] == mime;
    TrimFixed(mime);
  }

  lemma EncodingSolid(bytes: seq<Byte>)
    ensures Trimmed(Encode(bytes)) && ',' !in Encode(bytes) && ']' !in Encode(bytes) && '[' !in Encode(bytes)
    ensures bytes != [] ==> Encode(bytes) != ""
  {
    EncodeAlphabet(bytes);
    assert forall c: char :: DigitValue(c).Some? ==> !IsSpace(c);
  }

  lemma UriParts(mime: string, bytes: seq<Byte>)
    requires PlainMime(mime)
    ensures var u := Uri(mime, bytes);
      && Header(u) == Some("data:" + mime + ";base64") && Payload(u) == Encode(bytes)
      && FindChar(u, ',').Some? && u[FindChar(u, ',').value + 1..] == Encode(bytes)
  {
    var h := "data:" + mime + ";base64";
    Base64Header(mime);
    FindCharIs(h, ',', Encode(bytes));
    var u := Uri(mime, bytes);
    assert u == h + [','] + Encode(bytes);
    assert u[..|h|] == h && u[|h| + 1..] == Encode(bytes);
    EncodingSolid(bytes);
    TrimFixed(Encode(bytes));
  }

  /** The normaliser keeps exactly the canonical URIs unchanged. */
  lemma FixedIffCanonical(u: string, maxBytes: nat)
    ensures NormalizeDataUri(u, maxBytes) == Ok(u) <==> Canonical(u, maxBytes)
  {
    if Canonical(u, maxBytes) {
      var mime, bytes: seq<Byte> :| mime in ALLOWED_MIMES && |bytes| <= maxBytes && u == Uri(mime, bytes);
      AllowedPlain(mime);
      UriParts(mime, bytes);
      MimeOfCanonicalHeader(mime);
      Base64Header(mime);
      DecodeEncode(bytes);
    }
  }

  /** Every accepted URI is made canonical, with the same bytes. */
  lemma NormalizedCanonical(source: string, maxBytes: nat)
    requires NormalizeDataUri(source, maxBytes).Ok?
    ensures var u := NormalizeDataUri(source, maxBytes).value;
      && Canonical(u, maxBytes) && NormalizeDataUri(u, maxBytes) == Ok(u)
      && Decode(Payload(u)) == Decode(Payload(source)) && Payload(u) == Payload(source)
  {
    var u := NormalizeDataUri(source, maxBytes).value;
    var mime, bytes := MimeOfHeader(Header(source).value), Decode(Payload(source)).value;
    assert u == Uri(mime, bytes);
    AllowedPlain(mime);
    UriParts(mime, bytes);
    EncodeDecode(Payload(source));
    FixedIffCanonical(u, maxBytes);
  }

  lemma UriShape(mime: string, payload: string)
    requires PlainMime(mime) && Trimmed(payload) && ']' !in payload && '[' !in payload
    ensures var u := "data:" + mime + ";base64" + [','] + payload;
      Solid(u) && ']' !in u && '[' !in u && StartsWith(u, "data:")
  {
    var u := "data:" + mime + ";base64" + [','] + payload;
    assert u[0..5] == "data:";
    assert u[|u| - 1] == if payload == "" then ',' else payload[|payload| - 1];
  }

  /** A canonical URI can stand in a marker: solid, and free of brackets. */
  lemma CanonicalShape(u: string, maxBytes: nat)
    requires Canonical(u, maxBytes)
    ensures Solid(u) && ']' !in u && '[' !in u && StartsWith(u, "data:")
  {
    hide PlainMime, Encode, Decode;
    var mime, bytes: seq<Byte> :| mime in ALLOWED_MIMES && |bytes| <= maxBytes && u == Uri(mime, bytes);
    AllowedPlain(mime);
    EncodingSolid(bytes);
    UriShape(mime, Encode(bytes));
  }

  /** Extracting the payload of a normalised URI and decoding it gives the original bytes. */
  lemma PayloadRecovered(source: string, maxBytes: nat)
    requires NormalizeDataUri(source, maxBytes).Ok?
    ensures var u := NormalizeDataUri(source, maxBytes).value;
      if Payload(source) == "" then ExtractPayload(u) == None
      else ExtractPayload(u).Some? && Decode(ExtractPayload(u).value) == Decode(Payload(source))
  {
    var u := NormalizeDataUri(source, maxBytes).value;
    NormalizedCanonical(source, maxBytes);
    CanonicalShape(u, maxBytes);
  }
}
