/** Canonical arXiv identifiers: many spellings, one lower-case id without a version. */
module ArxivIds {
  import opened Wrappers
  import opened Text

  /** What Python's `str.strip` removes: white space and the four separator controls. */
  predicate IsPySpace(c: char) {
    IsSpace(c) || 0x1C <= c as int <= 0x1F
  }

  predicate IsSlash(c: char) {
    c == '/'
  }

  predicate IsControlOrSpace(c: char) {
    c as int <= 0x20
  }

  // ── Percent decoding and URL splitting ─────────────────────────────────

  function HexValue(c: char): Option<nat> {
    if '0' <= c <= '9' then Some(c as int - '0' as int)
    else if 'a' <= c <= 'f' then Some(c as int - 'a' as int + 10)
    else if 'A' <= c <= 'F' then Some(c as int - 'A' as int + 10)
    else None
  }

  /** Percent escapes of ASCII characters decoded; any other escaped byte shows as U+FFFD. */
  function Unquote(s: string): string {
    if s == "" then ""
    else if s[0] == '%' && |s| >= 3 && HexValue(s[1]).Some? && HexValue(s[2]).Some? then
      var b := HexValue(s[1]).value * 16 + HexValue(s[2]).value;
      [if b < 0x80 then b as char else '\U{FFFD}'] + Unquote(s[3..])
    else [s[0]] + Unquote(s[1..])
  }

  predicate IsSchemeChar(c: char) {
    IsLetter(c) || IsDigit(c) || c in "+-."
  }

  predicate IsBreak(c: char) {
    c == '\t' || c == '\r' || c == '\n'
  }

  function WithoutBreaks(s: string): string {
    if s == "" then ""
    else (if IsBreak(s[0]) then "" else [s[0]]) + WithoutBreaks(s[1..])
  }

  predicate IsSplitter(c: char) {
    c == '/' || c == '?' || c == '#'
  }

  /** The text up to the first character of the class. */
  function UntilClass(s: string, stop: char -> bool): string {
    if s == "" || stop(s[0]) then "" else [s[0]] + UntilClass(s[1..], stop)
  }

  datatype Url = Url(scheme: string, netloc: string, path: string)

  function UrlSplit(raw: string): Url {
    var url := WithoutBreaks(StripStart(raw, IsControlOrSpace));
    var colon := FindChar(url, ':');
    if colon.Some? && colon.value > 0 && IsLetter(url[0]) && All(url[..colon.value], IsSchemeChar)
    then SplitRest(Lower(url[..colon.value]), url[colon.value + 1..])
    else SplitRest("", url)
  }

  /** The authority, if there is one, then the path without query and fragment. */
  function SplitRest(scheme: string, rest: string): Url {
    if StartsWith(rest, "//") then
      var netloc := UntilClass(rest[2..], IsSplitter);
      UntilClassPrefix(rest[2..], IsSplitter);
      Url(scheme, netloc, UpTo(UpTo(rest[2 + |netloc|..], '#'), '?'))
    else Url(scheme, "", UpTo(UpTo(rest, '#'), '?'))
  }

  lemma {:induction false} UntilClassPrefix(s: string, stop: char -> bool)
    ensures |UntilClass(s, stop)| <= |s|
    decreases |s|
  {
    if s != "" {
      UntilClassPrefix(s[1..], stop);
    }
  }

  // ── The canonical form ─────────────────────────────────────────────────

  function DropPrefix(s: string, prefix: string): string {
    if StartsWith(Lower(s), prefix) then s[|prefix|..] else s
  }

  function DropFirstOf(path: string): string {
    if StartsWith(Lower(path), "abs/") then path[4..]
    else if StartsWith(Lower(path), "pdf/") then path[4..]
    else if StartsWith(Lower(path), "format/") then path[7..]
    else path
  }

  function DropPdf(s: string): string {
    if EndsWith(Lower(s), ".pdf") then s[..|s| - 4] else s
  }

  /** The length of the text before its trailing digits. */
  function BeforeDigits(s: string): (r: nat)
    ensures r <= |s| && (forall i :: r <= i < |s| ==> IsDigit(s[i])) && (r > 0 ==> !IsDigit(s[r - 1]))
  {
    if s != "" && IsDigit(s[|s| - 1]) then
      BeforeDigits(s[..|s| - 1])
    else |s|
  }

  /** `v\d+$` removed, in either case. */
  function DropVersion(s: string): string {
    var r := BeforeDigits(s);
    if 0 < r < |s| && LowerChar(s[r - 1]) == 'v' then s[..r - 1] else s
  }

  /** The pattern's `$` also matches before one final line break. */
  function DropVersionSuffix(s: string): string {
    if s != "" && s[|s| - 1] == '\n' then DropVersion(s[..|s| - 1]) + "\n" else DropVersion(s)
  }

  predicate IsModern(s: string) {
    && |s| in {9, 10} && s[4] == '.'
    && forall i :: 0 <= i < |s| && i != 4 ==> IsDigit(s[i])
  }

  predicate IsArchiveChar(c: char) {
    'a' <= c <= 'z' || IsDigit(c) || c == '.' || c == '-'
  }

  predicate IsLegacy(s: string) {
    && |s| >= 9 && 'a' <= s[0] <= 'z' && s[|s| - 8] == '/'
    && (forall i :: 0 <= i < |s| - 8 ==> IsArchiveChar(s[i]))
    && (forall i :: |s| - 7 <= i < |s| ==> IsDigit(s[i]))
  }

  predicate IsCanonical(s: string) {
    IsModern(s) || IsLegacy(s)
  }

  function StripSlashes(s: string): string {
    Strip(Strip(s, IsPySpace), IsSlash)
  }

  /** The path of an http URL without its leading route; any other text as it is. */
  function Located(raw: string): string {
    var url := UrlSplit(raw);
    if url.scheme in {"http", "https"} && url.netloc != "" then DropFirstOf(Strip(url.path, IsSlash)) else raw
  }

  /** What is left of a location once every optional part is removed. */
  function Bare(located: string): string {
    var raw := StripSlashes(UpTo(UpTo(located, '?'), '#'));
    var named := DropPrefix(DropPrefix(raw, "oai:arxiv.org:"), "arxiv:");
    Lower(StripSlashes(DropVersionSuffix(DropPdf(named))))
  }

  function CanonicalId(value: Option<string>): (r: Option<string>)
    ensures r.Some? ==> IsCanonical(r.value)
  {
    if value.None? then None
    else
      var raw := Strip(Unquote(value.value), IsPySpace);
      if raw == "" then None
      else
        var id := Bare(Located(raw));
        if IsCanonical(id) then Some(id) else None
  }

  // ── Spellings of one identifier ────────────────────────────────────────

  datatype Form =
    | Plain
    | Labelled
    | Oai
    | AbsUrl(secure: bool)
    | PdfUrl(secure: bool, extension: bool)

  function Scheme(secure: bool): string {
    if secure then "https" else "http"
  }

  function Spelled(form: Form, body: string): string {
    match form
    case Plain => body
    case Labelled => "arXiv:" + body
    case Oai => "oai:arXiv.org:" + body
    case AbsUrl(secure) => Scheme(secure) + "://arxiv.org/abs/" + body
    case PdfUrl(secure, extension) => Scheme(secure) + "://arxiv.org/pdf/" + body + if extension then ".pdf" else ""
  }

  /** An optional version: nothing, or `v` in either case and a number. */
  predicate IsVersion(v: string) {
    v == "" || (|v| >= 2 && LowerChar(v[0]) == 'v' && All(v[1..], IsDigit))
  }

  predicate IsIdChar(c: char) {
    IsLetter(c) || IsDigit(c) || c == '.' || c == '-' || c == '/'
  }

  /** Characters that mean nothing to any of the steps before the version. */
  predicate PlainBody(s: string) {
    && s != "" && All(s, IsIdChar)
    && (IsLetter(s[0]) || IsDigit(s[0])) && IsDigit(s[|s| - 1])
  }

  lemma BeforeDigitsIs(s: string, k: nat)
    requires k <= |s| && (forall i :: k <= i < |s| ==> IsDigit(s[i])) && (k > 0 ==> !IsDigit(s[k - 1]))
    ensures BeforeDigits(s) == k
  {
  }

  /** In a canonical id a dot or a slash stands before the trailing digits. */
  lemma CanonicalChars(id: string)
    requires IsCanonical(id)
    ensures PlainBody(id)
    ensures 0 < BeforeDigits(id) < |id| && id[BeforeDigits(id) - 1] in "./"
  {
    BeforeDigitsIs(id, if IsModern(id) then 5 else |id| - 7);
  }

  /** A text that every trimming and cutting step leaves alone. */
  predicate Tidy(t: string) {
    && t != "" && '?' !in t && '#' !in t && '%' !in t
    && !IsPySpace(t[0]) && t[0] != '/' && !IsPySpace(t[|t| - 1]) && t[|t| - 1] != '/'
  }

  lemma {:induction false} UnquotePlain(s: string)
    requires '%' !in s
    ensures Unquote(s) == s
    decreases |s|
  {
    if s != "" {
      UnquotePlain(s[1..]);
    }
  }

  lemma UpToPlain(s: string, c: char)
    requires c !in s
    ensures UpTo(s, c) == s
  {
  }

  lemma TidyKept(t: string)
    requires Tidy(t)
    ensures Strip(Unquote(t), IsPySpace) == t && StripSlashes(UpTo(UpTo(t, '?'), '#')) == t
  {
    UnquotePlain(t);
    UpToPlain(t, '?');
    UpToPlain(t, '#');
    StripFixed(t, IsPySpace);
    StripFixed(t, IsSlash);
  }

  lemma BodyTidy(body: string, suffix: string)
    requires PlainBody(body) && suffix in {"", ".pdf"}
    ensures Tidy(body + suffix)
  {
  }

  // ── Locating the id ────────────────────────────────────────────────────

  lemma {:induction false} WithoutBreaksPlain(s: string)
    requires NoBreaks(s)
    ensures WithoutBreaks(s) == s
    decreases |s|
  {
    if s != "" {
      WithoutBreaksPlain(s[1..]);
    }
  }

  lemma {:induction false} UntilClassIs(a: string, c: char, rest: string, stop: char -> bool)
    requires (forall i :: 0 <= i < |a| ==> !stop(a[i])) && stop(c)
    ensures UntilClass(a + [c] + rest, stop) == a
    decreases |a|
  {
    var s := a + [c] + rest;
    if a != "" {
      assert s[1..] == a[1..] + [c] + rest;
      UntilClassIs(a[1..], c, rest, stop);
    }
  }

  predicate NoBreaks(s: string) {
    forall i :: 0 <= i < |s| ==> !IsBreak(s[i])
  }

  lemma NoBreaksAppend(a: string, b: string)
    requires NoBreaks(a) && NoBreaks(b)
    ensures NoBreaks(a + b)
  {
  }

  /** A text with a scheme splits at its first colon. */
  lemma SplitScheme(scheme: string, rest: string)
    requires scheme != "" && All(scheme, IsLetter) && NoBreaks(rest)
    ensures UrlSplit(scheme + ":" + rest) == SplitRest(Lower(scheme), rest)
  {
    hide SplitRest, FindChar, Lower;
    var url := scheme + ":" + rest;
    assert url[0] == scheme[0] && StripStart(url, IsControlOrSpace) == url;
    NoBreaksAppend(scheme, ":");
    NoBreaksAppend(scheme + ":", rest);
    WithoutBreaksPlain(url);
    assert ':' !in scheme;
    FindCharIs(scheme, ':', rest);
    assert url[..|scheme|] == scheme && url[|scheme| + 1..] == rest;
  }

  lemma SplitArxiv(scheme: string, path: string)
    requires '#' !in path && '?' !in path
    ensures SplitRest(scheme, "//arxiv.org/" + path) == Url(scheme, "arxiv.org", "/" + path)
  {
    hide UntilClass, UpTo;
    var rest := "//arxiv.org/" + path;
    assert rest[0..2] == "//" && rest[2..] == "arxiv.org" + ['/'] + path;
    UntilClassIs("arxiv.org", '/', path, IsSplitter);
    assert rest[2 + 9..] == "/" + path;
    UpToPlain("/" + path, '#');
    UpToPlain("/" + path, '?');
  }

  lemma ArxivUrl(secure: bool, path: string)
    requires NoBreaks(path) && '#' !in path && '?' !in path
    ensures UrlSplit(Scheme(secure) + "://arxiv.org/" + path) == Url(Scheme(secure), "arxiv.org", "/" + path)
  {
    hide UrlSplit, SplitRest;
    var scheme, rest := Scheme(secure), "//arxiv.org/" + path;
    assert scheme + "://arxiv.org/" + path == scheme + ":" + rest;
    NoBreaksAppend("//arxiv.org/", path);
    SplitScheme(scheme, rest);
    assert Lower(scheme) == scheme;
    SplitArxiv(scheme, path);
  }

  lemma SchemeOf(scheme: string, rest: string)
    requires scheme != "" && All(scheme, IsLetter) && NoBreaks(rest)
    ensures UrlSplit(scheme + ":" + rest).scheme == Lower(scheme)
  {
    hide UrlSplit;
    SplitScheme(scheme, rest);
  }

  lemma RouteDropped(route: string, t: string)
    requires route in {"abs/", "pdf/"} && Tidy(t)
    ensures DropFirstOf(Strip("/" + route + t, IsSlash)) == t
  {
    hide Strip, Tidy;
    var path := route + t;
    RouteStripped(route, t);
    assert Lower(path)[0..4] == route;
    assert path[4..] == t;
    if route == "pdf/" { StartsOtherwise(Lower(path), "abs/"); }
  }

  lemma RouteStripped(route: string, t: string)
    requires route in {"abs/", "pdf/"} && Tidy(t)
    ensures Strip("/" + route + t, IsSlash) == route + t
  {
    var path := route + t;
    assert path[0] == route[0] && path[|path| - 1] == t[|t| - 1];
    assert "/" + route + t == "/" + path + "";
    StripUnique("/", path, "", IsSlash);
  }

  /** Where the id stands in each form: after the route of a URL, else the text itself. */
  function LocatedIn(form: Form, body: string): string {
    match form
    case AbsUrl(_) => body
    case PdfUrl(_, extension) => body + if extension then ".pdf" else ""
    case _ => Spelled(form, body)
  }

  lemma BodyNoBreaks(body: string, suffix: string)
    requires PlainBody(body) && suffix in {"", ".pdf"}
    ensures NoBreaks(body + suffix) && ':' !in body + suffix && '#' !in body + suffix && '?' !in body + suffix
  {
  }

  lemma NoSchemeOf(t: string)
    requires ':' !in t && NoBreaks(t)
    ensures UrlSplit(t).scheme == ""
  {
    var pre := StripStartSplit(t, IsControlOrSpace);
    var u := StripStart(t, IsControlOrSpace);
    assert forall i :: 0 <= i < |u| ==> u[i] == t[|pre| + i];
    WithoutBreaksPlain(u);
  }

  lemma LocatedUrl(secure: bool, route: string, t: string)
    requires route in {"abs/", "pdf/"} && Tidy(t) && NoBreaks(t)
    ensures Located(Scheme(secure) + "://arxiv.org/" + route + t) == t
  {
    hide Tidy, UrlSplit, DropFirstOf;
    var path := route + t;
    assert NoBreaks(path);
    assert Scheme(secure) + "://arxiv.org/" + route + t == Scheme(secure) + "://arxiv.org/" + path;
    TidyRoute(route, t);
    ArxivUrl(secure, path);
    RouteDropped(route, t);
    assert "/" + route + t == "/" + path;
  }

  lemma TidyRoute(route: string, t: string)
    requires route in {"abs/", "pdf/"} && Tidy(t)
    ensures '#' !in route + t && '?' !in route + t
  {
  }

  lemma LocatedText(form: Form, body: string)
    requires PlainBody(body) && !form.AbsUrl? && !form.PdfUrl?
    ensures Located(Spelled(form, body)) == Spelled(form, body)
  {
    hide UrlSplit, PlainBody, DropFirstOf;
    BodyNoBreaks(body, "");
    assert body + "" == body;
    match form {
      case Plain =>
        NoSchemeOf(body);
      case Labelled =>
        assert "arXiv:" + body == "arXiv" + ":" + body;
        SchemeOf("arXiv", body);
        assert Lower("arXiv")[0] == 'a';
      case Oai =>
        assert "oai:arXiv.org:" + body == "oai" + ":" + ("arXiv.org:" + body);
        SchemeOf("oai", "arXiv.org:" + body);
        assert Lower("oai")[0] == 'o';
    }
  }

  lemma LocatedForm(form: Form, body: string)
    requires PlainBody(body)
    ensures Located(Spelled(form, body)) == LocatedIn(form, body)
  {
    hide Located, PlainBody, Tidy;
    if form.AbsUrl? || form.PdfUrl? {
      var suffix := if form.PdfUrl? && form.extension then ".pdf" else "";
      var route := if form.AbsUrl? then "abs/" else "pdf/";
      BodyTidy(body, suffix);
      BodyNoBreaks(body, suffix);
      assert body + "" == body;
      assert Spelled(form, body) == Scheme(form.secure) + "://arxiv.org/" + route + (body + suffix);
      LocatedUrl(form.secure, route, body + suffix);
    } else {
      LocatedText(form, body);
    }
  }

  // ── From a location to the id ──────────────────────────────────────────

  lemma LowerStarts(a: string, b: string)
    ensures Lower(a + b)[0..|a|] == Lower(a)
  {
  }

  /** A label is dropped in any letter case; an id with none of its own is kept. */
  lemma LabelDropped(label_: string, body: string)
    ensures DropPrefix(label_ + body, Lower(label_)) == body
  {
    LowerStarts(label_, body);
    assert (label_ + body)[|label_|..] == body;
  }

  lemma LabelAbsent(t: string, prefix: string)
    requires ':' !in t && ':' in prefix
    ensures DropPrefix(t, prefix) == t
  {
    var i :| 0 <= i < |prefix| && prefix[i] == ':';
    PrefixAgrees(Lower(t), prefix, i);
  }

  lemma PrefixAgrees(s: string, p: string, i: nat)
    requires i < |p|
    ensures StartsWith(s, p) ==> i < |s| && s[i] == p[i]
  {
    if |p| <= |s| { assert s[0..|p|][i] == s[i]; }
  }

  lemma SuffixAgrees(s: string, p: string)
    requires p != ""
    ensures EndsWith(s, p) ==> s != "" && s[|s| - 1] == p[|p| - 1]
  {
    if |p| <= |s| { assert s[|s| - |p|..|s|][|p| - 1] == s[|s| - 1]; }
  }

  lemma LabelOther(t: string, prefix: string)
    requires t != "" && prefix != "" && LowerChar(t[0]) != prefix[0]
    ensures DropPrefix(t, prefix) == t
  {
    StartsOtherwise(Lower(t), prefix);
  }

  lemma PdfDropped(body: string)
    ensures DropPdf(body + ".pdf") == body
  {
    var t := body + ".pdf";
    assert Lower(t)[|t| - 4..|t|] == ".pdf";
    assert t[..|t| - 4] == body;
  }

  lemma PdfAbsent(body: string)
    requires PlainBody(body)
    ensures DropPdf(body) == body
  {
    SuffixAgrees(Lower(body), ".pdf");
  }

  /** Labels and extension gone, the body is left. */
  lemma BareBody(form: Form, body: string)
    requires PlainBody(body)
    ensures Bare(LocatedIn(form, body)) == Lower(StripSlashes(DropVersionSuffix(body)))
  {
    hide PlainBody, StripSlashes, DropPrefix, DropPdf, DropVersionSuffix, Lower, Tidy, UpTo;
    var suffix := if form.PdfUrl? && form.extension then ".pdf" else "";
    BodyTidy(body, suffix);
    BodyNoBreaks(body, suffix);
    PdfDropped(body);
    PdfAbsent(body);
    assert body + "" == body;
    var t := body + suffix;
    LabelAbsent(t, "oai:arxiv.org:");
    LabelAbsent(t, "arxiv:");
    match form {
      case Labelled =>
        TidyLabelled("arXiv:", body);
        TidyKept("arXiv:" + body);
        LabelOther("arXiv:" + body, "oai:arxiv.org:");
        LowerLabels();
        LabelDropped("arXiv:", body);
      case Oai =>
        TidyLabelled("oai:arXiv.org:", body);
        TidyKept("oai:arXiv.org:" + body);
        LowerLabels();
        LabelDropped("oai:arXiv.org:", body);
      case _ =>
        TidyKept(t);
    }
  }

  lemma LowerLabels()
    ensures Lower("arXiv:") == "arxiv:" && Lower("oai:arXiv.org:") == "oai:arxiv.org:"
  {
  }

  lemma TidyLabelled(label_: string, body: string)
    requires PlainBody(body) && label_ in {"arXiv:", "oai:arXiv.org:"}
    ensures Tidy(label_ + body) && label_ + body != ""
  {
    BodyTidy(body, "");
    assert body + "" == body;
  }

  lemma LowerDigits(s: string)
    ensures BeforeDigits(Lower(s)) == BeforeDigits(s)
  {
    BeforeDigitsIs(Lower(s), BeforeDigits(s));
  }

  /** The version is dropped, and without one nothing is. */
  lemma VersionDropped(s: string, v: string)
    requires IsCanonical(Lower(s)) && IsVersion(v)
    ensures DropVersionSuffix(s + v) == s
  {
    hide IsCanonical;
    var t := s + v;
    CanonicalChars(Lower(s));
    LowerDigits(s);
    if v == "" {
      assert t == s;
      var r := BeforeDigits(s);
      assert Lower(s)[r - 1] == LowerChar(s[r - 1]);
    } else {
      BeforeDigitsIs(t, |s| + 1);
      assert t[|s|] == v[0] && t[..|s|] == s;
    }
  }

  lemma BodyPlain(s: string, v: string)
    requires IsCanonical(Lower(s)) && IsVersion(v)
    ensures PlainBody(s + v) && PlainBody(s)
  {
    hide IsCanonical;
    CanonicalChars(Lower(s));
    assert forall i :: 0 <= i < |s| ==> IsIdChar(Lower(s)[i]);
  }

  /**
   Every supported spelling of an id, in any letter case and with or without a
   version, has that id as its canonical form.
   */
  lemma SpellingCanonical(form: Form, s: string, v: string)
    requires IsCanonical(Lower(s)) && IsVersion(v)
    ensures CanonicalId(Some(Spelled(form, s + v))) == Some(Lower(s))
  {
    hide IsCanonical, Bare, Located, Lower, PlainBody, Tidy, StripSlashes, DropVersionSuffix;
    var body := s + v;
    BodyPlain(s, v);
    SpelledTidy(form, body);
    TidyKept(Spelled(form, body));
    LocatedForm(form, body);
    BareBody(form, body);
    VersionDropped(s, v);
    TidyBody(s);
    TidyKept(s);
    UpToBody(s);
  }

  lemma UpToBody(s: string)
    requires PlainBody(s)
    ensures UpTo(UpTo(s, '?'), '#') == s
  {
    UpToPlain(s, '?');
    UpToPlain(s, '#');
  }

  lemma TidyBody(s: string)
    requires PlainBody(s)
    ensures Tidy(s)
  {
    BodyTidy(s, "");
    assert s + "" == s;
  }

  function Lead(form: Form): string {
    match form
    case Plain => ""
    case Labelled => "arXiv:"
    case Oai => "oai:arXiv.org:"
    case AbsUrl(secure) => Scheme(secure) + "://arxiv.org/abs/"
    case PdfUrl(secure, _) => Scheme(secure) + "://arxiv.org/pdf/"
  }

  function Extension(form: Form): string {
    if form.PdfUrl? && form.extension then ".pdf" else ""
  }

  lemma SpelledParts(form: Form, body: string)
    ensures Spelled(form, body) == Lead(form) + (body + Extension(form))
  {
    assert body + "" == body;
  }

  predicate IsLeadChar(c: char) {
    IsLetter(c) || c == ':' || c == '/' || c == '.'
  }

  lemma AllAppend(a: string, b: string)
    requires All(a, IsLeadChar) && All(b, IsLeadChar)
    ensures All(a + b, IsLeadChar)
  {
  }

  lemma LeadClean(form: Form)
    ensures var lead := Lead(form); All(lead, IsLeadChar) && (lead != "" ==> IsLetter(lead[0]))
  {
    match form {
      case AbsUrl(secure) =>
        assert All("://arxiv.org/abs/", IsLeadChar) && All(Scheme(secure), IsLeadChar);
        AllAppend(Scheme(secure), "://arxiv.org/abs/");
      case PdfUrl(secure, _) =>
        assert All("://arxiv.org/pdf/", IsLeadChar) && All(Scheme(secure), IsLeadChar);
        AllAppend(Scheme(secure), "://arxiv.org/pdf/");
      case _ =>
    }
  }

  lemma SpelledTidy(form: Form, body: string)
    requires PlainBody(body)
    ensures Tidy(Spelled(form, body)) && Spelled(form, body) != ""
  {
    hide PlainBody, Lead, Spelled;
    BodyTidy(body, Extension(form));
    SpelledParts(form, body);
    LeadClean(form);
    TidyAfter(Lead(form), body + Extension(form));
  }

  lemma TidyAfter(lead: string, t: string)
    requires Tidy(t) && All(lead, IsLeadChar)
    requires lead != "" ==> IsLetter(lead[0])
    ensures Tidy(lead + t)
  {
  }

  /** An id is its own canonical form exactly when it has the canonical shape. */
  lemma CanonicalFixedIff(id: string)
    ensures CanonicalId(Some(id)) == Some(id) <==> IsCanonical(id)
  {
    hide IsCanonical, Bare, Located;
    if IsCanonical(id) {
      CanonicalLower(id);
      SpellingCanonical(Plain, id, "");
      assert id + "" == id;
    }
  }

  lemma CanonicalLower(id: string)
    requires IsCanonical(id)
    ensures Lower(id) == id
  {
  }

  /** So canonicalising twice changes nothing. */
  lemma CanonicalIdempotent(value: Option<string>)
    ensures CanonicalId(value).Some? ==> CanonicalId(CanonicalId(value)) == CanonicalId(value)
  {
    if CanonicalId(value).Some? {
      CanonicalFixedIff(CanonicalId(value).value);
    }
  }

  /** The exact values a corpus is searched for. */
  function Variants(id: string): seq<string> {
    match CanonicalId(Some(id))
    case None => []
    case Some(c) => [c, "arXiv:" + c, "https://arxiv.org/abs/" + c, "http://arxiv.org/abs/" + c]
  }

  lemma SpelledVariants(c: string)
    ensures Spelled(Plain, c) == c && Spelled(Labelled, c) == "arXiv:" + c
    ensures Spelled(AbsUrl(true), c) == "https://arxiv.org/abs/" + c
    ensures Spelled(AbsUrl(false), c) == "http://arxiv.org/abs/" + c
  {
  }

  /** Every variant denotes the id it was made from. */
  lemma VariantsDenote(id: string)
    ensures forall x :: x in Variants(id) ==> CanonicalId(Some(x)) == CanonicalId(Some(id))
  {
    hide Bare, Located, IsCanonical, Spelled, CanonicalId;
    if CanonicalId(Some(id)).Some? {
      var c := CanonicalId(Some(id)).value;
      assert IsCanonical(c);
      CanonicalLower(c);
      assert c + "" == c;
      SpellingCanonical(Plain, c, "");
      SpellingCanonical(Labelled, c, "");
      SpellingCanonical(AbsUrl(true), c, "");
      SpellingCanonical(AbsUrl(false), c, "");
      SpelledVariants(c);
    }
  }
}
