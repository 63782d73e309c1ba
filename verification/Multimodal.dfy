/**
 Preparing messages for a provider: every image reference of a user message is
 replaced by a validated data URI. Remote and local reads are parameters.
 */
module Multimodal {
  import opened Wrappers
  import opened Text
  import opened Base64
  import opened DataUri
  import opened ImageMarkers

  datatype Message = Message(role: string, content: string)

  datatype Config = Config(maxImages: nat, maxImageSizeMb: nat, allowRemoteFetch: bool)

  /** A response whose body may fail to arrive. */
  datatype Remote =
    | SendFailed
    | Response(success: bool, contentLength: Option<nat>, contentType: Option<string>, body: Option<seq<Byte>>)

  datatype Local =
    | Missing
    | NoMetadata
    | File(length: nat, extension: Option<string>, bytes: Option<seq<Byte>>)

  datatype Env = Env(fetch: string -> Remote, open: string -> Local)

  datatype Prepared = Prepared(messages: seq<Message>, containsImages: bool)

  function Clamp(x: nat, lo: nat, hi: nat): nat
    requires lo <= hi
  {
    if x < lo then lo else if x > hi then hi else x
  }

  function MaxImages(cfg: Config): nat {
    Clamp(cfg.maxImages, 1, 16)
  }

  function MaxBytes(cfg: Config): nat {
    Clamp(cfg.maxImageSizeMb, 1, 20) * (1024 * 1024)
  }

  // ── MIME detection ─────────────────────────────────────────────────────

  function MimeFromExtension(ext: string): Option<string> {
    var e := Lower(ext);
    if e == "png" then Some("image/png")
    else if e == "jpg" || e == "jpeg" then Some("image/jpeg")
    else if e == "webp" then Some("image/webp")
    else if e == "gif" then Some("image/gif")
    else if e == "bmp" then Some("image/bmp")
    else None
  }

  function MimeFromMagic(b: seq<Byte>): Option<string> {
    if [0x89, 0x50, 0x4E, 0x47, 0x0D, 0x0A, 0x1A, 0x0A] <= b then Some("image/png")
    else if [0xFF, 0xD8, 0xFF] <= b then Some("image/jpeg")
    else if [0x47, 0x49, 0x46, 0x38, 0x37, 0x61] <= b || [0x47, 0x49, 0x46, 0x38, 0x39, 0x61] <= b then Some("image/gif")
    else if |b| >= 12 && [0x52, 0x49, 0x46, 0x46] <= b && b[8..12] == [0x57, 0x45, 0x42, 0x50] then Some("image/webp")
    else if [0x42, 0x4D] <= b then Some("image/bmp")
    else None
  }

  function NormalizeContentType(contentType: string): Option<string> {
    var mime := Lower(Trim(UpTo(contentType, ';')));
    if mime == "" then None else Some(mime)
  }

  function DetectMime(extension: Option<string>, bytes: seq<Byte>, contentType: Option<string>): Option<string> {
    OrElse(if contentType.Some? then NormalizeContentType(contentType.value) else None,
      OrElse(if extension.Some? then MimeFromExtension(extension.value) else None, MimeFromMagic(bytes)))
  }

  /** The URI of bytes that were fetched or read: size first, then type. */
  function UriOfBytes(source: string, maxBytes: nat, mime: Option<string>, bytes: seq<Byte>): Result<string, Error> {
    if |bytes| > maxBytes then Err(ImageTooLarge(source, |bytes|, maxBytes))
    else if mime.None? then Err(UnsupportedMime(source, "unknown"))
    else Validated(source, mime.value, bytes, maxBytes)
  }

  function NormalizeRemote(source: string, maxBytes: nat, r: Remote): Result<string, Error> {
    match r
    case SendFailed => Err(RemoteFetchFailed(source))
    case Response(success, length, contentType, body) =>
      if !success then Err(RemoteFetchFailed(source))
      else if length.Some? && length.value > maxBytes then Err(ImageTooLarge(source, length.value, maxBytes))
      else if body.None? then Err(RemoteFetchFailed(source))
      else UriOfBytes(source, maxBytes, DetectMime(None, body.value, contentType), body.value)
  }

  function NormalizeLocal(source: string, maxBytes: nat, f: Local): Result<string, Error> {
    match f
    case Missing => Err(ImageSourceNotFound(source))
    case NoMetadata => Err(LocalReadFailed(source))
    case File(length, extension, bytes) =>
      if length > maxBytes then Err(ImageTooLarge(source, length, maxBytes))
      else if bytes.None? then Err(LocalReadFailed(source))
      else UriOfBytes(source, maxBytes, DetectMime(extension, bytes.value, None), bytes.value)
  }

  function NormalizeReference(source: string, cfg: Config, env: Env): Result<string, Error> {
    if StartsWith(source, "data:") then NormalizeDataUri(source, MaxBytes(cfg))
    else if StartsWith(source, "http://") || StartsWith(source, "https://") then
      if !cfg.allowRemoteFetch then Err(RemoteFetchDisabled(source))
      else NormalizeRemote(source, MaxBytes(cfg), env.fetch(source))
    else NormalizeLocal(source, MaxBytes(cfg), env.open(source))
  }

  // ── Preparation ────────────────────────────────────────────────────────

  /** All references in order, or the error of the first that fails. */
  function NormalizeAll(refs: seq<string>, cfg: Config, env: Env): (r: Result<seq<string>, Error>)
    ensures r.Ok? ==> |r.value| == |refs|
  {
    if refs == [] then Ok([])
    else
      match NormalizeAll(refs[..|refs| - 1], cfg, env)
      case Err(e) => Err(e)
      case Ok(uris) =>
        match NormalizeReference(refs[|refs| - 1], cfg, env)
        case Err(e) => Err(e)
        case Ok(u) => Ok(uris + [u])
  }

  /** A user message that mentions an image is the only kind that is rewritten. */
  predicate Illustrated(m: Message) {
    m.role == "user" && Parse(m.content).refs != []
  }

  function PrepareMessage(m: Message, cfg: Config, env: Env): Result<Message, Error> {
    if !Illustrated(m) then Ok(m)
    else
      match NormalizeAll(Parse(m.content).refs, cfg, env)
      case Err(e) => Err(e)
      case Ok(uris) => Ok(Message(m.role, Compose(Parse(m.content).cleaned, uris)))
  }

  function PrepareEach(ms: seq<Message>, cfg: Config, env: Env): (r: Result<seq<Message>, Error>)
    ensures r.Ok? ==> |r.value| == |ms|
  {
    if ms == [] then Ok([])
    else
      match PrepareEach(ms[..|ms| - 1], cfg, env)
      case Err(e) => Err(e)
      case Ok(out) =>
        match PrepareMessage(ms[|ms| - 1], cfg, env)
        case Err(e) => Err(e)
        case Ok(m) => Ok(out + [m])
  }

  function CountImageMarkers(ms: seq<Message>): nat {
    if ms == [] then 0
    else
      CountImageMarkers(ms[..|ms| - 1])
      + if ms[|ms| - 1].role == "user" then |Parse(ms[|ms| - 1].content).refs| else 0
  }

  function Prepare(ms: seq<Message>, cfg: Config, env: Env): Result<Prepared, Error> {
    var found := CountImageMarkers(ms);
    if found > MaxImages(cfg) then Err(TooManyImages(MaxImages(cfg), found))
    else if found == 0 then Ok(Prepared(ms, false))
    else
      match PrepareEach(ms, cfg, env)
      case Err(e) => Err(e)
      case Ok(out) => Ok(Prepared(out, true))
  }

  lemma {:induction false} ErrorOfPrefix(ms: seq<Message>, n: nat, cfg: Config, env: Env)
    requires n <= |ms| && PrepareEach(ms[..n], cfg, env).Err?
    ensures PrepareEach(ms, cfg, env) == PrepareEach(ms[..n], cfg, env)
    decreases |ms|
  {
    if n == |ms| {
      assert ms[..n] == ms;
    } else {
      var init := ms[..|ms| - 1];
      assert init[..n] == ms[..n];
      ErrorOfPrefix(init, n, cfg, env);
    }
  }

  lemma {:induction false} ErrorOfPrefixRefs(refs: seq<string>, n: nat, cfg: Config, env: Env)
    requires n <= |refs| && NormalizeAll(refs[..n], cfg, env).Err?
    ensures NormalizeAll(refs, cfg, env) == NormalizeAll(refs[..n], cfg, env)
    decreases |refs|
  {
    if n == |refs| {
      assert refs[..n] == refs;
    } else {
      var init := refs[..|refs| - 1];
      assert init[..n] == refs[..n];
      ErrorOfPrefixRefs(init, n, cfg, env);
    }
  }

  method NormalizeReferences(refs: seq<string>, cfg: Config, env: Env) returns (r: Result<seq<string>, Error>)
    ensures r == NormalizeAll(refs, cfg, env)
  {
    hide NormalizeReference;
    var uris := [];
    for i := 0 to |refs|
      invariant NormalizeAll(refs[..i], cfg, env) == Ok(uris)
    {
      assert refs[..i + 1][..i] == refs[..i];
      match NormalizeReference(refs[i], cfg, env) {
        case Err(e) =>
          ErrorOfPrefixRefs(refs, i + 1, cfg, env);
          return Err(e);
        case Ok(u) =>
          uris := uris + [u];
      }
    }
    assert refs[..|refs|] == refs;
    r := Ok(uris);
  }

  method PrepareMessagesForProvider(ms: seq<Message>, cfg: Config, env: Env) returns (r: Result<Prepared, Error>)
    ensures r == Prepare(ms, cfg, env)
  {
    hide Parse, Compose, NormalizeAll;
    var found := CountImageMarkers(ms);
    if found > MaxImages(cfg) {
      return Err(TooManyImages(MaxImages(cfg), found));
    }
    if found == 0 {
      return Ok(Prepared(ms, false));
    }
    var normalized := [];
    for i := 0 to |ms|
      invariant PrepareEach(ms[..i], cfg, env) == Ok(normalized)
    {
      assert ms[..i + 1][..i] == ms[..i];
      var m := ms[i];
      if m.role != "user" {
        normalized := normalized + [m];
        continue;
      }
      var parsed := Parse(m.content);
      if parsed.refs == [] {
        normalized := normalized + [m];
        continue;
      }
      var uris := NormalizeReferences(parsed.refs, cfg, env);
      match uris {
        case Err(e) =>
          ErrorOfPrefix(ms, i + 1, cfg, env);
          return Err(e);
        case Ok(us) =>
          normalized := normalized + [Message(m.role, Compose(parsed.cleaned, us))];
      }
    }
    assert ms[..|ms|] == ms;
    r := Ok(Prepared(normalized, true));
  }
}
