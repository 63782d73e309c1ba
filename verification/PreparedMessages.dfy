/**
 Preparing messages twice: what a prepared conversation keeps of the original,
 and exactly when preparing it again changes nothing.
 */
module PreparedMessages {
  import opened Wrappers
  import opened Text
  import opened Base64
  import opened DataUri
  import opened ImageMarkers
  import opened Multimodal

  ghost predicate AllCanonical(us: seq<string>, maxBytes: nat) {
    forall i :: 0 <= i < |us| ==> Canonical(us[i], maxBytes)
  }

  lemma ValidatedCanonical(source: string, mime: string, bytes: seq<Byte>, maxBytes: nat)
    requires Validated(source, mime, bytes, maxBytes).Ok?
    ensures Canonical(Validated(source, mime, bytes, maxBytes).value, maxBytes)
  {
  }

  lemma BytesCanonical(source: string, mime: Option<string>, bytes: seq<Byte>, maxBytes: nat)
    requires UriOfBytes(source, maxBytes, mime, bytes).Ok?
    ensures Canonical(UriOfBytes(source, maxBytes, mime, bytes).value, maxBytes)
  {
    ValidatedCanonical(source, mime.value, bytes, maxBytes);
  }

  /** Whatever the source, an accepted reference becomes a canonical data URI. */
  lemma ReferenceCanonical(source: string, cfg: Config, env: Env)
    requires NormalizeReference(source, cfg, env).Ok?
    ensures Canonical(NormalizeReference(source, cfg, env).value, MaxBytes(cfg))
  {
    hide StartsWith, NormalizeDataUri, UriOfBytes, DetectMime, Canonical, MaxBytes;
    var max := MaxBytes(cfg);
    if StartsWith(source, "data:") {
      NormalizedCanonical(source, max);
    } else if StartsWith(source, "http://") || StartsWith(source, "https://") {
      var r := env.fetch(source);
      BytesCanonical(source, DetectMime(None, r.body.value, r.contentType), r.body.value, max);
    } else {
      var f := env.open(source);
      BytesCanonical(source, DetectMime(f.extension, f.bytes.value, None), f.bytes.value, max);
    }
  }

  lemma {:induction false} AllBecomeCanonical(refs: seq<string>, cfg: Config, env: Env)
    ensures NormalizeAll(refs, cfg, env).Ok? ==> AllCanonical(NormalizeAll(refs, cfg, env).value, MaxBytes(cfg))
    decreases |refs|
  {
    hide NormalizeReference, Canonical;
    if refs != [] && NormalizeAll(refs, cfg, env).Ok? {
      AllBecomeCanonical(refs[..|refs| - 1], cfg, env);
      ReferenceCanonical(refs[|refs| - 1], cfg, env);
    }
  }

  lemma CanonicalKept(u: string, cfg: Config, env: Env)
    requires Canonical(u, MaxBytes(cfg))
    ensures NormalizeReference(u, cfg, env) == Ok(u)
  {
    hide NormalizeDataUri;
    CanonicalShape(u, MaxBytes(cfg));
    FixedIffCanonical(u, MaxBytes(cfg));
  }

  /** Canonical references after others are kept, wherever the others come from. */
  lemma {:induction false} CanonicalTailKept(refs: seq<string>, us: seq<string>, cfg: Config, env: Env)
    requires AllCanonical(us, MaxBytes(cfg))
    ensures NormalizeAll(refs + us, cfg, env) ==
      if NormalizeAll(refs, cfg, env).Ok? then Ok(NormalizeAll(refs, cfg, env).value + us) else NormalizeAll(refs, cfg, env)
    decreases |us|
  {
    hide NormalizeReference, Canonical;
    if us == [] {
      assert refs + us == refs;
      if NormalizeAll(refs, cfg, env).Ok? {
        assert NormalizeAll(refs, cfg, env).value + [] == NormalizeAll(refs, cfg, env).value;
      }
    } else {
      var init, u := us[..|us| - 1], us[|us| - 1];
      assert (refs + us)[..|refs + us| - 1] == refs + init;
      CanonicalTailKept(refs, init, cfg, env);
      CanonicalKept(u, cfg, env);
      if NormalizeAll(refs, cfg, env).Ok? {
        assert NormalizeAll(refs, cfg, env).value + init + [u] == NormalizeAll(refs, cfg, env).value + us;
      }
    }
  }

  lemma CanonicalValid(us: seq<string>, maxBytes: nat)
    requires AllCanonical(us, maxBytes)
    ensures ValidRefs(us)
  {
    forall i | 0 <= i < |us|
      ensures ValidRef(us[i])
    {
      CanonicalShape(us[i], maxBytes);
    }
  }

  // ── One message ────────────────────────────────────────────────────────

  /** The text an illustrated message keeps is safe to print references after. */
  predicate Settled(m: Message) {
    Illustrated(m) ==> Inert(Parse(m.content).cleaned)
  }

  lemma ParseTrimmed(s: string)
    ensures Trim(Parse(s).cleaned) == Parse(s).cleaned
  {
    TrimTrimmed(Scan(s).cleaned);
  }

  /** A settled message keeps its text and its number of references, and is prepared once and for all. */
  lemma SettledMessage(m: Message, cfg: Config, env: Env, again: Env)
    requires Illustrated(m) && Inert(Parse(m.content).cleaned) && PrepareMessage(m, cfg, env).Ok?
    ensures var out := PrepareMessage(m, cfg, env).value;
      && Parse(out.content).cleaned == Parse(m.content).cleaned
      && |Parse(out.content).refs| == |Parse(m.content).refs|
      && PrepareMessage(out, cfg, again) == Ok(out)
  {
    hide Parse, Inert, Compose, NormalizeAll;
    var p := Parse(m.content);
    var us := NormalizeAll(p.refs, cfg, env).value;
    AllBecomeCanonical(p.refs, cfg, env);
    CanonicalValid(us, MaxBytes(cfg));
    ParseTrimmed(m.content);
    RoundTripIffInert(p.cleaned, us);
    NothingToNormalize(cfg, again);
    CanonicalTailKept([], us, cfg, again);
    assert [] + us == us;
  }

  lemma NothingToNormalize(cfg: Config, env: Env)
    ensures NormalizeAll([], cfg, env) == Ok([])
  {
  }

  // ── Printing different references gives different text ─────────────────

  lemma {:induction false} MarkersAppend(a: seq<string>, b: seq<string>)
    requires a != [] && b != []
    ensures Markers(a + b) == Markers(a) + "\n" + Markers(b)
    decreases |b|
  {
    hide Marker;
    var init, u := b[..|b| - 1], b[|b| - 1];
    assert (a + b)[..|a + b| - 1] == a + init;
    if init == [] {
      assert a + init == a;
      Assoc(Markers(a), "\n", Marker(u));
    } else {
      MarkersAppend(a, init);
      Assoc(Markers(a) + "\n", Markers(init), "\n");
      Assoc(Markers(a) + "\n", Markers(init) + "\n", Marker(u));
    }
  }

  lemma MarkersEnd(us: seq<string>)
    requires us != []
    ensures Markers(us) != "" && Markers(us)[|Markers(us)| - 1] == ']'
  {
  }

  /** A bracket before the last line break, against a break there. */
  lemma BracketOrBreak(x: string, t: string, suffix: string)
    requires x != "" && x[|x| - 1] == ']'
    ensures x + "\n" + suffix != t + "\n\n" + suffix
  {
    var a, b := x + "\n" + suffix, t + "\n\n" + suffix;
    assert |a| == |b| ==> a[|x| - 1] == ']' && b[|x| - 1] == '\n';
  }

  lemma HeadingThenMarkers(text: string, us: seq<string>)
    requires us != []
    ensures Compose(text, us) != "" && Compose(text, us)[|Compose(text, us)| - 1] == ']'
  {
    MarkersEnd(us);
  }

  /** Live markers of the text, once printed, are separated by one break only. */
  lemma ClosedTextChanges(text: string, us: seq<string>, cleaned: string, more: seq<string>)
    requires us != [] && more != [] && Trim(text) != ""
    ensures Compose(cleaned, more + us) != Compose(text, us)
  {
    hide Markers, Trim;
    MarkersAppend(more, us);
    HeadingThenMarkers(cleaned, more);
    Assoc(Heading(cleaned), Markers(more), "\n");
    Assoc(Heading(cleaned), Markers(more) + "\n", Markers(us));
    assert Compose(cleaned, more + us) == Compose(cleaned, more) + "\n" + Markers(us);
    BracketOrBreak(Compose(cleaned, more), Trim(text), Markers(us));
  }

  /** Where the last opening bracket is tells how long the last reference is. */
  lemma LastMarkerEqual(a: string, u: string, b: string, w: string)
    requires '[' !in u && '[' !in w && a + Marker(u) == b + Marker(w)
    ensures a == b
  {
    var s := a + Marker(u);
    assert s[|a|] == '[' && s[|b|] == '[';
    assert forall k :: |a| < k < |s| ==> s[k] != '[';
    assert forall k :: |b| < k < |s| ==> s[k] != '[';
    assert |a| == |b|;
    assert a == s[..|a|] && b == s[..|b|];
  }

  /** Everything printed before the last-but-`rest` marker. */
  function Before(text: string, us: seq<string>): string {
    if us == [] then Heading(text) else Compose(text, us) + "\n"
  }

  lemma ComposeSplit(text: string, before: seq<string>, us: seq<string>)
    requires us != []
    ensures Compose(text, before + us) == Before(text, before) + Marker(us[0]) + AfterFirst(us)
  {
    hide Markers, Marker, Trim, AfterFirst;
    MarkersFront(us);
    if before == [] {
      assert before + us == us;
    } else {
      MarkersAppend(before, us);
      Assoc(Heading(text), Markers(before), "\n");
      Assoc(Heading(text), Markers(before) + "\n", Markers(us));
    }
    Assoc(Before(text, before), Marker(us[0]), AfterFirst(us));
  }

  lemma CancelSuffix(a: string, b: string, suffix: string)
    requires a + suffix == b + suffix
    ensures a == b
  {
    assert |a| == |b|;
    assert a == (a + suffix)[..|a|] && b == (b + suffix)[..|b|];
  }

  /** A swallowed first reference leaves less text than there was. */
  lemma OpenTextChanges(text: string, us: seq<string>, cleaned: string, more: seq<string>, w: string)
    requires us != [] && Trim(text) != "" && |cleaned| < |Trim(text)|
    requires '[' !in us[0] && '[' !in w
    ensures Compose(cleaned, more + ([w] + us[1..])) != Compose(text, us)
  {
    hide Markers, Marker;
    var vs := [w] + us[1..];
    ComposeSplit(cleaned, more, vs);
    ComposeSplit(text, [], us);
    assert [] + us == us;
    assert vs[1..] == us[1..] && |vs| == |us|;
    assert AfterFirst(vs) == AfterFirst(us);
    if Compose(cleaned, more + vs) == Compose(text, us) {
      CancelSuffix(Before(cleaned, more) + Marker(w), Heading(text) + Marker(us[0]), AfterFirst(us));
      LastMarkerEqual(Before(cleaned, more), w, Heading(text), us[0]);
      BeforeDiffers(text, cleaned, more);
    }
  }

  lemma BeforeDiffers(text: string, cleaned: string, more: seq<string>)
    requires Trim(text) != "" && |cleaned| < |Trim(text)|
    ensures Before(cleaned, more) != Heading(text)
  {
    hide Markers, Trim;
    TrimShorter(cleaned);
    if more != [] {
      HeadingThenMarkers(cleaned, more);
      assert Compose(cleaned, more) + "\n" + "" == Compose(cleaned, more) + "\n";
      assert Trim(text) + "\n\n" + "" == Trim(text) + "\n\n";
      BracketOrBreak(Compose(cleaned, more), Trim(text), "");
    }
  }

  /** An unsettled message changes again when it is prepared again. */
  lemma UnsettledMessage(m: Message, cfg: Config, env: Env, again: Env)
    requires Illustrated(m) && !Inert(Parse(m.content).cleaned) && PrepareMessage(m, cfg, env).Ok?
    ensures var out := PrepareMessage(m, cfg, env).value;
      Illustrated(out) && PrepareMessage(out, cfg, again) != Ok(out)
  {
    hide Parse, Inert, Compose, NormalizeAll, Scan, Trim;
    var p := Parse(m.content);
    var t := p.cleaned;
    var us := NormalizeAll(p.refs, cfg, env).value;
    AllBecomeCanonical(p.refs, cfg, env);
    CanonicalValid(us, MaxBytes(cfg));
    ParseTrimmed(m.content);
    InertIff(t);
    NoPrefixInEmpty();
    var out := PrepareMessage(m, cfg, env).value;
    var q := Parse(out.content);
    if AllClosed(t) {
      ComposeClosed(t, us);
      CanonicalTailKept(Scan(t).refs, us, cfg, again);
      if PrepareMessage(out, cfg, again).Ok? {
        ClosedTextChanges(t, us, q.cleaned, NormalizeAll(Scan(t).refs, cfg, again).value);
      }
    } else {
      var kept, w := ComposeOpen(t, us);
      TrimShorter(kept);
      UnsettledOpen(out, us, Scan(t).refs, w, cfg, again);
      if PrepareMessage(out, cfg, again).Ok? {
        var more, v := UnsettledUris(Scan(t).refs, w, us[1..], cfg, again);
        CanonicalShape(us[0], MaxBytes(cfg));
        OpenTextChanges(t, us, q.cleaned, more, v);
      }
    }
  }

  lemma NoPrefixInEmpty()
    ensures Inert("")
  {
  }

  lemma UnsettledOpen(out: Message, us: seq<string>, before: seq<string>, w: string, cfg: Config, again: Env)
    requires out.role == "user" && us != [] && Parse(out.content).refs == before + ([w] + us[1..])
    ensures Illustrated(out)
  {
    assert |Parse(out.content).refs| > 0;
  }

  /** The URIs of some references, one more, and canonical ones after it. */
  lemma UnsettledUris(before: seq<string>, w: string, us: seq<string>, cfg: Config, env: Env)
    returns (more: seq<string>, v: string)
    requires AllCanonical(us, MaxBytes(cfg)) && NormalizeAll(before + ([w] + us), cfg, env).Ok?
    ensures NormalizeAll(before + ([w] + us), cfg, env).value == more + ([v] + us) && '[' !in v
  {
    hide NormalizeReference, Canonical;
    assert before + ([w] + us) == (before + [w]) + us;
    CanonicalTailKept(before + [w], us, cfg, env);
    assert (before + [w])[..|before|] == before;
    more, v := NormalizeAll(before, cfg, env).value, NormalizeReference(w, cfg, env).value;
    assert (more + [v]) + us == more + ([v] + us);
    ReferenceCanonical(w, cfg, env);
    CanonicalShape(v, MaxBytes(cfg));
  }

  // ── The whole conversation ─────────────────────────────────────────────

  lemma {:induction false} PreparedAt(ms: seq<Message>, i: nat, cfg: Config, env: Env)
    requires i < |ms| && PrepareEach(ms, cfg, env).Ok?
    ensures PrepareMessage(ms[i], cfg, env) == Ok(PrepareEach(ms, cfg, env).value[i])
    decreases |ms|
  {
    hide PrepareMessage;
    if i < |ms| - 1 {
      PreparedAt(ms[..|ms| - 1], i, cfg, env);
    }
  }

  lemma {:induction false} PreparedFrom(ms: seq<Message>, out: seq<Message>, cfg: Config, env: Env)
    requires |out| == |ms| && forall i :: 0 <= i < |ms| ==> PrepareMessage(ms[i], cfg, env) == Ok(out[i])
    ensures PrepareEach(ms, cfg, env) == Ok(out)
    decreases |ms|
  {
    hide PrepareMessage;
    if ms != [] {
      PreparedFrom(ms[..|ms| - 1], out[..|ms| - 1], cfg, env);
      assert out[..|ms| - 1] + [out[|ms| - 1]] == out;
    }
  }

  function RefCount(m: Message): nat {
    if m.role == "user" then |Parse(m.content).refs| else 0
  }

  lemma {:induction false} SameCount(ms: seq<Message>, out: seq<Message>)
    requires |out| == |ms| && forall i :: 0 <= i < |ms| ==> RefCount(out[i]) == RefCount(ms[i])
    ensures CountImageMarkers(out) == CountImageMarkers(ms)
    decreases |ms|
  {
    hide Parse;
    if ms != [] {
      SameCount(ms[..|ms| - 1], out[..|ms| - 1]);
      assert RefCount(out[|ms| - 1]) == RefCount(ms[|ms| - 1]);
    }
  }

  lemma {:induction false} CountAtLeast(ms: seq<Message>, i: nat)
    requires i < |ms|
    ensures RefCount(ms[i]) <= CountImageMarkers(ms)
    decreases |ms|
  {
    hide Parse;
    if i < |ms| - 1 {
      CountAtLeast(ms[..|ms| - 1], i);
    }
  }

  /** Preparing keeps the number of messages, their roles, and every message without a user's image. */
  lemma PreparedKeeps(ms: seq<Message>, cfg: Config, env: Env)
    requires Prepare(ms, cfg, env).Ok?
    ensures var out := Prepare(ms, cfg, env).value.messages;
      && |out| == |ms|
      && (forall i :: 0 <= i < |ms| ==> out[i].role == ms[i].role)
      && (forall i :: 0 <= i < |ms| && !Illustrated(ms[i]) ==> out[i] == ms[i])
  {
    hide Parse, PrepareEach;
    var out := Prepare(ms, cfg, env).value.messages;
    if CountImageMarkers(ms) > 0 {
      forall i | 0 <= i < |ms|
        ensures out[i].role == ms[i].role && (!Illustrated(ms[i]) ==> out[i] == ms[i])
      {
        PreparedAt(ms, i, cfg, env);
      }
    }
  }

  lemma NoneIllustrated(ms: seq<Message>, i: nat)
    requires CountImageMarkers(ms) == 0 && i < |ms|
    ensures !Illustrated(ms[i])
  {
    CountAtLeast(ms, i);
  }

  /** With every message settled, the prepared conversation keeps the image count and is prepared for good. */
  lemma SettledConversation(ms: seq<Message>, cfg: Config, env: Env, again: Env)
    requires Prepare(ms, cfg, env).Ok? && forall i :: 0 <= i < |ms| ==> Settled(ms[i])
    ensures var p := Prepare(ms, cfg, env).value;
      Prepare(p.messages, cfg, again) == Ok(p) && CountImageMarkers(p.messages) == CountImageMarkers(ms)
  {
    hide Parse, Inert, PrepareEach, PrepareMessage;
    var out := Prepare(ms, cfg, env).value.messages;
    if CountImageMarkers(ms) > 0 {
      forall i | 0 <= i < |ms|
        ensures RefCount(out[i]) == RefCount(ms[i]) && PrepareMessage(out[i], cfg, again) == Ok(out[i])
      {
        PreparedAt(ms, i, cfg, env);
        SettledAt(ms[i], cfg, env, again);
      }
      SameCount(ms, out);
      PreparedFrom(out, out, cfg, again);
    }
  }

  lemma SettledAt(m: Message, cfg: Config, env: Env, again: Env)
    requires Settled(m) && PrepareMessage(m, cfg, env).Ok?
    ensures var out := PrepareMessage(m, cfg, env).value;
      RefCount(out) == RefCount(m) && PrepareMessage(out, cfg, again) == Ok(out)
  {
    hide Parse, Inert;
    if Illustrated(m) {
      SettledMessage(m, cfg, env, again);
    }
  }

  /**
   Preparing a prepared conversation changes nothing, whatever the second
   environment, exactly when the text kept by every illustrated message has
   only closed blank markers.
   */
  lemma PreparedIffSettled(ms: seq<Message>, cfg: Config, env: Env, again: Env)
    requires Prepare(ms, cfg, env).Ok?
    ensures var p := Prepare(ms, cfg, env).value;
      Prepare(p.messages, cfg, again) == Ok(p) <==> forall i :: 0 <= i < |ms| ==> Settled(ms[i])
  {
    hide Parse, Inert, PrepareEach, PrepareMessage, CountImageMarkers;
    var p := Prepare(ms, cfg, env).value;
    if forall i :: 0 <= i < |ms| ==> Settled(ms[i]) {
      SettledConversation(ms, cfg, env, again);
    } else {
      var i :| 0 <= i < |ms| && !Settled(ms[i]);
      if CountImageMarkers(ms) == 0 {
        NoneIllustrated(ms, i);
      }
      PreparedAt(ms, i, cfg, env);
      UnsettledMessage(ms[i], cfg, env, again);
      CountAtLeast(p.messages, i);
      if Prepare(p.messages, cfg, again) == Ok(p) {
        PreparedAt(p.messages, i, cfg, again);
      }
    }
  }

  // ── A message that is prepared but not settled ─────────────────────────

  /** Deleting the inner marker splices the rest into another. */
  const SPLICED: string := "[IM[IMAGE:a]AGE:b]"

  lemma NoPrefixBefore(j: nat)
    requires j < 3
    ensures !OccursAt(SPLICED, PREFIX, j)
  {
    var s := SPLICED;
    assert s[0] == '[' && s[1] == 'I' && s[2] == 'M' && s[3] == '[';
    assert s[0..7][3] == s[3];
    assert s[j..j + 7][0] == s[j];
  }

  lemma SplicedMarker()
    ensures FirstMarker(SPLICED) == Closed(3, 11) && Reference(SPLICED, Closed(3, 11)) == "a"
  {
    hide OccursAt;
    forall j: nat | j < 3
      ensures !OccursAt(SPLICED, PREFIX, j)
    {
      NoPrefixBefore(j);
    }
    assert OccursAt(SPLICED, PREFIX, 3) by { SplicedPrefix(); }
    FindIs(SPLICED, PREFIX, 3);
    assert SPLICED[10..] == "a" + [']'] + "AGE:b]";
    FindCharIs("a", ']', "AGE:b]");
    assert SPLICED[10..11] == "a";
    TrimFixed("a");
  }

  lemma SplicedPrefix()
    ensures OccursAt(SPLICED, PREFIX, 3)
  {
    assert SPLICED[3..10] == PREFIX;
  }

  lemma SplicedRest()
    ensures Scan("AGE:b]") == Parsed("AGE:b]", [])
  {
    var s := "AGE:b]";
    assert forall i: nat :: i <= |s| ==> !OccursAt(s, PREFIX, i);
    assert Find(s, PREFIX).None?;
  }

  lemma SplicedParse()
    ensures Parse(SPLICED) == Parsed("[IMAGE:b]", ["a"])
  {
    hide FirstMarker, Reference;
    SplicedMarker();
    SplicedRest();
    ScanUnfold(SPLICED);
    assert SPLICED[12..] == "AGE:b]" && SPLICED[..3] + "AGE:b]" == "[IMAGE:b]";
    assert ["a"] + [] == ["a"];
    MarkerNotInert();
  }

  /** A user message with an image that some provider set-up prepares, and prepares differently the second time. */
  lemma UnsettledExists(again: Env)
    ensures var m, cfg := Message("user", SPLICED), Config(1, 1, false);
      var env := Env(_ => SendFailed, _ => File(0, Some("png"), Some([])));
      && !Settled(m) && Prepare([m], cfg, env).Ok?
      && var p := Prepare([m], cfg, env).value; Prepare(p.messages, cfg, again) != Ok(p)
  {
    hide Parse, Inert, NormalizeReference, Compose;
    var m, cfg := Message("user", SPLICED), Config(1, 1, false);
    var env := Env(_ => SendFailed, _ => File(0, Some("png"), Some([])));
    SplicedParse();
    MarkerNotInert();
    assert [m][..0] == [] && ["a"][..0] == [];
    LocalPrepared(cfg, env);
    assert CountImageMarkers([m]) == CountImageMarkers([m][..0]) + 1;
    assert NormalizeAll(["a"][..0], cfg, env) == Ok([]);
    assert NormalizeAll(["a"], cfg, env).Ok?;
    assert PrepareMessage(m, cfg, env).Ok?;
    assert PrepareEach([m][..0], cfg, env) == Ok([]);
    assert PrepareEach([m], cfg, env).Ok?;
    assert MaxImages(cfg) == 1;
    assert [m][0] == m && !Settled(m);
    PreparedIffSettled([m], cfg, env, again);
  }

  lemma LocalPrepared(cfg: Config, env: Env)
    requires env.open("a") == File(0, Some("png"), Some([]))
    ensures NormalizeReference("a", cfg, env).Ok?
  {
    var ext := "png";
    assert Lower(ext) == "png";
    assert !StartsWith("a", "data:") && !StartsWith("a", "http://") && !StartsWith("a", "https://");
  }
}
