/**
 Image markers `[IMAGE:reference]` inside message text: the parser that takes
 them out, the printer that puts them back, and when the two are inverse.
 */
module ImageMarkers {
  import opened Wrappers
  import opened Text

  const PREFIX: string := "[IMAGE:"

  datatype Parsed = Parsed(cleaned: string, refs: seq<string>)

  // ── The marker grammar ─────────────────────────────────────────────────

  /** Where the first marker prefix is, and the closing bracket after it. */
  datatype Cut =
    | NoMarker
    | Unclosed(start: nat)
    | Closed(start: nat, end: nat)

  function FirstMarker(s: string): (r: Cut)
    ensures r.Closed? ==> r.start + |PREFIX| <= r.end < |s| && s[r.end] == ']'
    ensures r.Unclosed? ==> r.start + |PREFIX| <= |s|
  {
    match Find(s, PREFIX)
    case None => NoMarker
    case Some(start) =>
      match FindChar(s[start + |PREFIX|..], ']')
      case None => Unclosed(start)
      case Some(e) => Closed(start, start + |PREFIX| + e)
  }

  /** The reference inside a closed marker. */
  function Reference(s: string, m: Cut): string
    requires m.Closed? && m.start + |PREFIX| <= m.end < |s|
  {
    Trim(s[m.start + |PREFIX|..m.end])
  }

  /**
   Text outside markers is kept; a closed marker yields its trimmed reference,
   or is kept whole when that is blank; an unclosed one is kept to the end.
   */
  function Scan(s: string): Parsed
    decreases |s|
  {
    var m := FirstMarker(s);
    if !m.Closed? then Parsed(s, []) else ScanStep(s, m, Scan(s[m.end + 1..]))
  }

  function ScanStep(s: string, m: Cut, rest: Parsed): Parsed
    requires m.Closed? && m.start + |PREFIX| <= m.end < |s|
  {
    if Reference(s, m) == "" then Parsed(s[..m.end + 1] + rest.cleaned, rest.refs)
    else Parsed(s[..m.start] + rest.cleaned, [Reference(s, m)] + rest.refs)
  }

  lemma ScanUnfold(s: string)
    ensures var m := FirstMarker(s);
      Scan(s) == if m.Closed? then ScanStep(s, m, Scan(s[m.end + 1..])) else Parsed(s, [])
  {
  }

  function Parse(s: string): Parsed {
    Parsed(Trim(Scan(s).cleaned), Scan(s).refs)
  }

  /** The loop has taken `cleaned` and `refs` from the content before `cursor`. */
  ghost predicate Taken(content: string, cleaned: string, refs: seq<string>, cursor: nat)
    requires cursor <= |content|
  {
    && Scan(content).cleaned == cleaned + Scan(content[cursor..]).cleaned
    && Scan(content).refs == refs + Scan(content[cursor..]).refs
  }

  lemma TakeNothing(content: string)
    ensures Taken(content, "", [], 0)
  {
    assert content[0..] == content;
  }

  lemma TakeMarker(content: string, cleaned: string, refs: seq<string>, cursor: nat)
    requires cursor <= |content| && Taken(content, cleaned, refs, cursor) && FirstMarker(content[cursor..]).Closed?
    ensures var tail := content[cursor..];
      var m := FirstMarker(tail);
      if Reference(tail, m) == "" then Taken(content, cleaned + tail[..m.end + 1], refs, cursor + m.end + 1)
      else Taken(content, cleaned + tail[..m.start], refs + [Reference(tail, m)], cursor + m.end + 1)
  {
    hide Scan, FirstMarker;
    var tail := content[cursor..];
    var m := FirstMarker(tail);
    var rest := Scan(tail[m.end + 1..]);
    ScanUnfold(tail);
    assert content[cursor + m.end + 1..] == tail[m.end + 1..];
    Assoc(cleaned, tail[..m.end + 1], rest.cleaned);
    Assoc(cleaned, tail[..m.start], rest.cleaned);
    Assoc(refs, [Reference(tail, m)], rest.refs);
  }

  lemma TakeRest(content: string, cleaned: string, refs: seq<string>, cursor: nat)
    requires cursor <= |content| && Taken(content, cleaned, refs, cursor) && !FirstMarker(content[cursor..]).Closed?
    ensures Scan(content) == Parsed(cleaned + content[cursor..], refs)
  {
  }

  method ParseImageMarkers(content: string) returns (r: Parsed)
    ensures r == Parse(content)
  {
    hide Scan, Reference, FirstMarker, Taken;
    var cleaned, refs, cursor := "", [], 0;
    TakeNothing(content);
    while true
      invariant cursor <= |content| && Taken(content, cleaned, refs, cursor)
      decreases |content| - cursor
    {
      var tail := content[cursor..];
      var m := FirstMarker(tail);
      if !m.Closed? {
        // Either no marker is left, or the last one is never closed.
        TakeRest(content, cleaned, refs, cursor);
        cleaned := cleaned + tail;
        break;
      }
      TakeMarker(content, cleaned, refs, cursor);
      var candidate := Reference(tail, m);
      if candidate == "" {
        cleaned := cleaned + tail[..m.end + 1];
      } else {
        cleaned := cleaned + tail[..m.start];
        refs := refs + [candidate];
      }
      cursor := cursor + m.end + 1;
    }
    r := Parsed(Trim(cleaned), refs);
  }

  // ── The printer ────────────────────────────────────────────────────────

  function Marker(uri: string): string {
    PREFIX + uri + "]"
  }

  function Markers(uris: seq<string>): string {
    if uris == [] then ""
    else if |uris| == 1 then Marker(uris[0])
    else Markers(uris[..|uris| - 1]) + "\n" + Marker(uris[|uris| - 1])
  }

  function Heading(text: string): string {
    if Trim(text) == "" then "" else Trim(text) + "\n\n"
  }

  function Compose(text: string, uris: seq<string>): string {
    Heading(text) + Markers(uris)
  }

  method ComposeMultimodalMessage(text: string, uris: seq<string>) returns (content: string)
    ensures content == Compose(text, uris)
  {
    content := "";
    var trimmed := Trim(text);
    if trimmed != "" {
      content := content + trimmed;
      content := content + "\n\n";
    }
    assert content == Heading(text);
    hide Trim, Marker;
    for i := 0 to |uris|
      invariant content == Heading(text) + Markers(uris[..i])
    {
      assert uris[..i + 1][..i] == uris[..i];
      if i > 0 {
        Assoc(Heading(text), Markers(uris[..i]), "\n");
        content := content + "\n";
        Assoc(Heading(text), Markers(uris[..i]) + "\n", Marker(uris[i]));
      }
      content := content + Marker(uris[i]);
    }
    assert uris[..|uris|] == uris;
  }

  // ── Scanning a concatenation ───────────────────────────────────────────

  /** No marker of the text is left open. */
  predicate AllClosed(s: string)
    decreases |s|
  {
    var m := FirstMarker(s);
    if m.Closed? then AllClosed(s[m.end + 1..]) else m.NoMarker?
  }

  /** Every marker of the text is closed and blank, so that it survives as text. */
  predicate Inert(s: string)
    decreases |s|
  {
    var m := FirstMarker(s);
    if m.Closed? then Reference(s, m) == "" && Inert(s[m.end + 1..]) else m.NoMarker?
  }

  lemma {:induction false} InertIff(s: string)
    ensures Inert(s) <==> AllClosed(s) && Scan(s).refs == []
    ensures Scan(s).refs == [] ==> Scan(s).cleaned == s
    decreases |s|
  {
    var m := FirstMarker(s);
    if m.Closed? {
      InertIff(s[m.end + 1..]);
      assert s == s[..m.end + 1] + s[m.end + 1..];
    }
  }

  /** A line break on either side keeps a marker prefix from spanning the seam. */
  predicate Seam(a: string, b: string) {
    a == "" || b == "" || a[|a| - 1] == '\n' || b[0] == '\n'
  }

  lemma PrefixAt(s: string, i: nat, k: nat)
    requires OccursAt(s, PREFIX, i) && i <= k < i + |PREFIX|
    ensures s[k] != '\n'
  {
    assert s[k] == s[i..i + |PREFIX|][k - i];
  }

  lemma OccursAcross(a: string, b: string, i: nat)
    requires Seam(a, b)
    ensures OccursAt(a + b, PREFIX, i) <==>
      if i < |a| then OccursAt(a, PREFIX, i) else OccursAt(b, PREFIX, i - |a|)
  {
    var s := a + b;
    if i + |PREFIX| <= |a| {
      assert s[i..i + |PREFIX|] == a[i..i + |PREFIX|];
    } else if i >= |a| {
      if i + |PREFIX| <= |s| { assert s[i..i + |PREFIX|] == b[i - |a|..i - |a| + |PREFIX|]; }
    } else if OccursAt(s, PREFIX, i) {
      PrefixAt(s, i, |a| - 1);
      PrefixAt(s, i, |a|);
      assert false;
    }
  }

  function Shift(m: Cut, n: nat): Cut {
    match m
    case NoMarker => NoMarker
    case Unclosed(start) => Unclosed(n + start)
    case Closed(start, end) => Closed(n + start, n + end)
  }

  lemma FirstMarkerLeft(a: string, b: string)
    requires Seam(a, b) && FirstMarker(a).Closed?
    ensures FirstMarker(a + b) == FirstMarker(a)
  {
    var s, m := a + b, FirstMarker(a);
    forall i: nat | i <= m.start
      ensures OccursAt(s, PREFIX, i) <==> i == m.start
    {
      OccursAcross(a, b, i);
    }
    FindIs(s, PREFIX, m.start);
    var tail, whole := a[m.start + |PREFIX|..], s[m.start + |PREFIX|..];
    assert forall k :: 0 <= k < |tail| ==> whole[k] == tail[k];
    assert FindChar(whole, ']') == FindChar(tail, ']');
  }

  lemma FindRight(a: string, b: string)
    requires Seam(a, b) && Find(a, PREFIX).None?
    ensures Find(a + b, PREFIX) == if Find(b, PREFIX).Some? then Some(|a| + Find(b, PREFIX).value) else None
  {
    forall i: nat
      ensures OccursAt(a + b, PREFIX, i) <==> i >= |a| && OccursAt(b, PREFIX, i - |a|)
    {
      OccursAcross(a, b, i);
    }
    FindShifted(a + b, b, |a|);
  }

  lemma FirstMarkerRight(a: string, b: string)
    requires Seam(a, b) && FirstMarker(a).NoMarker?
    ensures FirstMarker(a + b) == Shift(FirstMarker(b), |a|)
  {
    hide OccursAt, Find, FindChar;
    FindRight(a, b);
    if Find(b, PREFIX).Some? {
      var k := Find(b, PREFIX).value;
      assert (a + b)[|a| + k + |PREFIX|..] == b[k + |PREFIX|..];
    }
  }

  lemma FindShifted(s: string, b: string, n: nat)
    requires forall i: nat :: OccursAt(s, PREFIX, i) <==> i >= n && OccursAt(b, PREFIX, i - n)
    ensures Find(s, PREFIX) == if Find(b, PREFIX).Some? then Some(n + Find(b, PREFIX).value) else None
  {
    if Find(b, PREFIX).Some? {
      assert OccursAt(s, PREFIX, n + Find(b, PREFIX).value);
    }
  }

  /** After text whose markers are all closed, scanning starts afresh at a seam. */
  lemma {:induction false} ScanAppend(a: string, b: string)
    requires AllClosed(a) && Seam(a, b)
    ensures Scan(a + b).cleaned == Scan(a).cleaned + Scan(b).cleaned
    ensures Scan(a + b).refs == Scan(a).refs + Scan(b).refs
    ensures AllClosed(a + b) <==> AllClosed(b)
    decreases |a|
  {
    hide Scan, ScanStep, FirstMarker;
    var m := FirstMarker(a);
    if m.Closed? {
      FirstMarkerLeft(a, b);
      var tail := a[m.end + 1..];
      assert (a + b)[m.end + 1..] == tail + b;
      assert AllClosed(a + b) == AllClosed(tail + b);
      ScanAppend(tail, b);
      StepAppend(a, b, m, Scan(tail), Scan(b));
      ScanUnfold(a);
      ScanUnfold(a + b);
    } else {
      FirstMarkerRight(a, b);
      ScanAfterPlain(a, b);
      ScanUnfold(a);
    }
  }

  lemma SliceAcross(a: string, b: string, i: nat, j: nat)
    requires i <= j <= |b|
    ensures (a + b)[|a| + i..|a| + j] == b[i..j]
    ensures (a + b)[|a| + j..] == b[j..]
    ensures (a + b)[..|a| + j] == a + b[..j]
  {
  }

  lemma StepAppend(a: string, b: string, m: Cut, rest: Parsed, more: Parsed)
    requires m.Closed? && m.start + |PREFIX| <= m.end < |a|
    ensures var step := ScanStep(a + b, m, Parsed(rest.cleaned + more.cleaned, rest.refs + more.refs));
      && step.cleaned == ScanStep(a, m, rest).cleaned + more.cleaned
      && step.refs == ScanStep(a, m, rest).refs + more.refs
  {
    Assoc(a[..m.end + 1], rest.cleaned, more.cleaned);
    Assoc(a[..m.start], rest.cleaned, more.cleaned);
    Assoc([Reference(a, m)], rest.refs, more.refs);
    assert (a + b)[m.start + |PREFIX|..m.end] == a[m.start + |PREFIX|..m.end];
    assert (a + b)[..m.end + 1] == a[..m.end + 1] && (a + b)[..m.start] == a[..m.start];
  }

  lemma StepAfterPlain(a: string, b: string, n: Cut, rest: Parsed)
    requires n.Closed? && n.start + |PREFIX| <= n.end < |b|
    ensures ScanStep(a + b, Shift(n, |a|), rest).cleaned == a + ScanStep(b, n, rest).cleaned
    ensures ScanStep(a + b, Shift(n, |a|), rest).refs == ScanStep(b, n, rest).refs
  {
    SliceAcross(a, b, n.start + |PREFIX|, n.end);
    SliceAcross(a, b, n.start, n.end + 1);
    SliceAcross(a, b, n.start, n.start);
  }

  lemma ScanAfterPlain(a: string, b: string)
    requires FirstMarker(a + b) == Shift(FirstMarker(b), |a|)
    ensures Scan(a + b).cleaned == a + Scan(b).cleaned
    ensures Scan(a + b).refs == Scan(b).refs
    ensures AllClosed(a + b) <==> AllClosed(b)
  {
    hide Scan, ScanStep, FirstMarker;
    ScanUnfold(b);
    ScanUnfold(a + b);
    var n := FirstMarker(b);
    if n.Closed? {
      SliceAcross(a, b, n.start, n.end + 1);
      StepAfterPlain(a, b, n, Scan(b[n.end + 1..]));
    }
  }

  // ── Printed markers read back ──────────────────────────────────────────

  /** A reference that can stand inside a marker. */
  predicate ValidRef(u: string) {
    Solid(u) && ']' !in u
  }

  predicate ValidRefs(us: seq<string>) {
    forall i :: 0 <= i < |us| ==> ValidRef(us[i])
  }

  lemma ScanMarker(u: string)
    requires ValidRef(u)
    ensures Scan(Marker(u)).cleaned == "" && Scan(Marker(u)).refs == [u] && AllClosed(Marker(u))
  {
    var s := Marker(u);
    FindIs(s, PREFIX, 0);
    var tail := s[|PREFIX|..];
    assert tail == u + "]";
    assert tail[|u|] == ']' && forall k :: 0 <= k < |u| ==> tail[k] == u[k];
    assert FindChar(tail, ']') == Some(|u|);
    assert s[|PREFIX|..|s| - 1] == u;
    TrimFixed(u);
    assert s[|s|..] == "";
  }

  function Breaks(n: nat): string {
    seq(n, _ => '\n')
  }

  lemma ScanBreaks(n: nat)
    ensures Scan(Breaks(n)) == Parsed(Breaks(n), []) && AllClosed(Breaks(n))
  {
    forall i: nat
      ensures !OccursAt(Breaks(n), PREFIX, i)
    {
      if OccursAt(Breaks(n), PREFIX, i) { PrefixAt(Breaks(n), i, i); }
    }
  }

  lemma ScanSeparated(a: string, u: string)
    requires AllClosed(a) && ValidRef(u)
    ensures Scan(a + "\n" + Marker(u)).cleaned == Scan(a).cleaned + "\n"
    ensures Scan(a + "\n" + Marker(u)).refs == Scan(a).refs + [u]
    ensures AllClosed(a + "\n" + Marker(u))
  {
    hide ScanStep;
    ScanMarker(u);
    ScanBreaks(1);
    assert Breaks(1) == "\n";
    ScanAppend(a, "\n");
    ScanAppend(a + "\n", Marker(u));
  }

  /** A printed list of references is read back, its separators left as text. */
  lemma {:induction false} ScanMarkers(us: seq<string>)
    requires us != [] && ValidRefs(us)
    ensures Scan(Markers(us)).cleaned == Breaks(|us| - 1) && Scan(Markers(us)).refs == us && AllClosed(Markers(us))
    decreases |us|
  {
    hide Scan, ScanStep;
    var last := us[|us| - 1];
    ScanMarker(last);
    if |us| == 1 {
      assert us == [last];
    } else {
      var init := us[..|us| - 1];
      ScanMarkers(init);
      ScanSeparated(Markers(init), last);
      assert us == init + [last];
    }
  }

  // ── When printing and parsing are inverse ──────────────────────────────

  /** What follows the first marker of a printed list. */
  function AfterFirst(us: seq<string>): string
    requires us != []
  {
    if |us| == 1 then "" else "\n" + Markers(us[1..])
  }

  lemma MarkersOne(u: string)
    ensures Markers([u]) == Marker(u)
  {
  }

  lemma MarkersSnoc(init: seq<string>, u: string)
    requires init != []
    ensures Markers(init + [u]) == Markers(init) + "\n" + Marker(u)
  {
    assert (init + [u])[..|init|] == init;
  }

  lemma AfterFirstMore(init: seq<string>, u: string)
    requires init != []
    ensures AfterFirst(init + [u]) == AfterFirst(init) + "\n" + Marker(u)
  {
    hide Marker, Markers;
    var us := init + [u];
    if |init| == 1 {
      assert us[1..] == [u];
      MarkersOne(u);
    } else {
      assert us[1..] == init[1..] + [u];
      MarkersSnoc(init[1..], u);
      Assoc("\n", Markers(init[1..]), "\n");
      Assoc("\n", Markers(init[1..]) + "\n", Marker(u));
    }
  }

  lemma {:induction false} MarkersFront(us: seq<string>)
    requires us != []
    ensures Markers(us) == Marker(us[0]) + AfterFirst(us)
    decreases |us|
  {
    hide Marker, AfterFirst;
    if |us| > 1 {
      var init, u := us[..|us| - 1], us[|us| - 1];
      assert us == init + [u];
      MarkersFront(init);
      AfterFirstMore(init, u);
      Assoc(Marker(us[0]), AfterFirst(init), "\n");
      Assoc(Marker(us[0]), AfterFirst(init) + "\n", Marker(u));
    } else {
      AfterFirstOne(us);
    }
  }

  lemma AfterFirstOne(us: seq<string>)
    requires |us| == 1
    ensures Marker(us[0]) + AfterFirst(us) == Marker(us[0])
  {
  }

  lemma ScanAfterFirst(us: seq<string>)
    requires us != [] && ValidRefs(us)
    ensures Scan(AfterFirst(us)) == Parsed(Breaks(|us| - 1), us[1..])
  {
    hide Scan, FirstMarker, Markers;
    if |us| == 1 {
      ScanBreaks(0);
      assert Breaks(0) == "";
    } else {
      ScanBreaks(1);
      assert Breaks(1) == "\n";
      ScanMarkers(us[1..]);
      ScanAppend("\n", Markers(us[1..]));
      assert "\n" + Breaks(|us| - 2) == Breaks(|us| - 1);
    }
  }

  lemma EndsInSpace(s: string, suf: string)
    requires All(suf, IsSpace)
    ensures suf != "" ==> IsSpace((s + suf)[|s + suf| - 1])
  {
  }

  /** The text between an open prefix and the bracket of the first printed marker. */
  function Swallowed(tail: string, u: string): string {
    tail + "\n\n" + PREFIX + u
  }

  lemma ReferenceLonger(tail: string, u: string)
    requires Solid(u)
    ensures |Trim(Swallowed(tail, u))| > |u|
  {
    var s := tail + "\n\n" + PREFIX + u;
    var pre, suf := StripSplit(s, IsSpace);
    var bracket := |tail| + 2;
    assert s[bracket] == '[' && s[|s| - 1] == u[|u| - 1];
    assert forall k :: 0 <= k < |pre| ==> IsSpace(s[k]);
    EndsInSpace(pre + Trim(s), suf);
    assert |pre| <= bracket;
  }

  lemma PrefixStays(text: string, b: string)
    requires Seam(text, b) && Find(text, PREFIX).Some?
    ensures Find(text + b, PREFIX) == Find(text, PREFIX)
  {
    var start := Find(text, PREFIX).value;
    forall i: nat | i <= start
      ensures OccursAt(text + b, PREFIX, i) <==> i == start
    {
      OccursAcross(text, b, i);
    }
    FindIs(text + b, PREFIX, start);
  }

  lemma SplitAtPrefix(text: string, start: nat, b: string)
    requires start + |PREFIX| <= |text|
    ensures (text + b)[start + |PREFIX|..] == text[start + |PREFIX|..] + b
  {
  }

  lemma SwallowedShape(tail: string, u: string, rest: string)
    requires ']' !in tail && ']' !in u
    ensures tail + ("\n\n" + Marker(u) + rest) == Swallowed(tail, u) + [']'] + rest
    ensures ']' !in Swallowed(tail, u)
  {
  }

  lemma UnclosedEnd(text: string, u: string, rest: string)
    requires FirstMarker(text).Unclosed? && ValidRef(u)
    ensures var start, s := FirstMarker(text).start, text + ("\n\n" + Marker(u) + rest);
      && FirstMarker(s) == Closed(start, |s| - |rest| - 1)
      && s[start + |PREFIX|..|s| - |rest| - 1] == Swallowed(text[start + |PREFIX|..], u)
  {
    hide OccursAt, Marker, Swallowed;
    var start, b := FirstMarker(text).start, "\n\n" + Marker(u) + rest;
    var tail := text[start + |PREFIX|..];
    PrefixStays(text, b);
    SplitAtPrefix(text, start, b);
    SwallowedShape(tail, u, rest);
    FindCharIs(Swallowed(tail, u), ']', rest);
  }

  /** An unclosed marker of the text swallows the heading break and the first printed marker. */
  lemma UnclosedSwallows(text: string, u: string, rest: string)
    requires FirstMarker(text).Unclosed? && ValidRef(u)
    ensures var start, s := FirstMarker(text).start, text + ("\n\n" + Marker(u) + rest);
      && FirstMarker(s) == Closed(start, |s| - |rest| - 1)
      && |Reference(s, FirstMarker(s))| > |u|
  {
    hide FirstMarker, Trim;
    UnclosedEnd(text, u, rest);
    ReferenceLonger(text[FirstMarker(text).start + |PREFIX|..], u);
  }

  /** With an open marker in the text, the first printed reference is lost in a longer one. */
  lemma {:induction false} OpenSwallows(text: string, u: string, rest: string) returns (kept: string, w: string)
    requires !AllClosed(text) && ValidRef(u)
    ensures var s := text + ("\n\n" + Marker(u) + rest);
      && Scan(s).cleaned == kept + Scan(rest).cleaned
      && Scan(s).refs == Scan(text).refs + ([w] + Scan(rest).refs)
    ensures |w| > |u| && |kept| + |PREFIX| <= |text|
    decreases |text|
  {
    hide Scan, ScanStep, FirstMarker, Marker;
    var m, b := FirstMarker(text), "\n\n" + Marker(u) + rest;
    var s := text + b;
    ScanUnfold(text);
    ScanUnfold(s);
    if m.Closed? {
      FirstMarkerLeft(text, b);
      var tail := text[m.end + 1..];
      assert s[m.end + 1..] == tail + b;
      kept, w := OpenSwallows(tail, u, rest);
      StepAppend(text, b, m, Parsed(kept, Scan(tail).refs), Parsed(Scan(rest).cleaned, [w] + Scan(rest).refs));
      StepRefs(text, m, Parsed(kept, Scan(tail).refs), Scan(tail));
      kept := ScanStep(text, m, Parsed(kept, Scan(tail).refs)).cleaned;
    } else {
      UnclosedSwallows(text, u, rest);
      var n := FirstMarker(s);
      assert s[n.end + 1..] == rest;
      assert s[..n.start] == text[..n.start];
      kept, w := text[..n.start], Reference(s, n);
      StepTaken(s, n, Scan(rest));
    }
  }

  lemma StepRefs(s: string, m: Cut, p: Parsed, q: Parsed)
    requires m.Closed? && m.start + |PREFIX| <= m.end < |s| && p.refs == q.refs
    ensures ScanStep(s, m, p).refs == ScanStep(s, m, q).refs
    ensures |ScanStep(s, m, p).cleaned| <= m.end + 1 + |p.cleaned|
  {
  }

  lemma StepTaken(s: string, m: Cut, rest: Parsed)
    requires m.Closed? && m.start + |PREFIX| <= m.end < |s| && Reference(s, m) != ""
    ensures ScanStep(s, m, rest) == Parsed(s[..m.start] + rest.cleaned, [Reference(s, m)] + rest.refs)
  {
  }

  lemma EmptyClosed()
    ensures AllClosed("")
  {
  }

  lemma LongerFirstDiffers(before: seq<string>, w: string, us: seq<string>)
    requires us != [] && |w| > |us[0]|
    ensures before + ([w] + us[1..]) != us
  {
    assert |before + ([w] + us[1..])| == |before| + |us|;
    assert before == [] ==> (before + ([w] + us[1..]))[0] == w;
  }

  lemma TrimBreaks(text: string, n: nat)
    ensures Trim(text + Breaks(n)) == Trim(text)
  {
    var pre, suf := StripSplit(text, IsSpace);
    assert text + Breaks(n) == pre + Trim(text) + (suf + Breaks(n));
    StripUnique(pre, Trim(text), suf + Breaks(n), IsSpace);
  }

  /** Printing to text without open markers appends the references to those it holds. */
  lemma ComposeClosed(text: string, us: seq<string>)
    requires us != [] && ValidRefs(us) && AllClosed(Trim(text))
    ensures Parse(Compose(text, us)).refs == Scan(Trim(text)).refs + us
    ensures Parse(Compose(text, us)).cleaned == Trim(Scan(Trim(text)).cleaned)
  {
    hide Scan, FirstMarker, Markers, Trim;
    var t := Trim(text);
    ScanMarkers(us);
    if t == "" {
      assert Heading(text) + Markers(us) == Markers(us);
      ScanBreaks(0);
      assert Breaks(0) == "" && "" + Breaks(|us| - 1) == Breaks(|us| - 1);
      TrimBreaks("", |us| - 1);
    } else {
      ScanBreaks(2);
      assert Breaks(2) == "\n\n";
      ScanAppend(t, "\n\n");
      ScanAppend(Heading(text), Markers(us));
      Assoc(Scan(t).cleaned, Breaks(2), Breaks(|us| - 1));
      assert Breaks(2) + Breaks(|us| - 1) == Breaks(|us| + 1);
      TrimBreaks(Scan(t).cleaned, |us| + 1);
    }
  }

  lemma ComposeOpen(text: string, us: seq<string>) returns (kept: string, w: string)
    requires us != [] && ValidRefs(us) && !AllClosed(Trim(text))
    ensures Parse(Compose(text, us)).refs == Scan(Trim(text)).refs + ([w] + us[1..])
    ensures Parse(Compose(text, us)).cleaned == Trim(kept)
    ensures |w| > |us[0]| && |kept| + |PREFIX| <= |Trim(text)|
  {
    hide Scan, FirstMarker, Markers, Trim, Marker;
    var t := Trim(text);
    EmptyClosed();
    MarkersFront(us);
    kept, w := OpenSwallows(t, us[0], AfterFirst(us));
    ScanAfterFirst(us);
    TrimBreaks(kept, |us| - 1);
    Assoc("\n\n", Marker(us[0]), AfterFirst(us));
    Assoc(t, "\n\n", Markers(us));
  }

  /**
   Printing references after a text and parsing gives both back exactly when
   every marker the text itself contains is closed and blank.
   */
  lemma RoundTripIffInert(text: string, us: seq<string>)
    requires us != [] && ValidRefs(us)
    ensures Parse(Compose(text, us)) == Parsed(Trim(text), us) <==> Inert(Trim(text))
  {
    hide Scan, FirstMarker, Markers, Trim, Compose;
    var t := Trim(text);
    InertIff(t);
    TrimTrimmed(text);
    if AllClosed(t) {
      ComposeClosed(text, us);
    } else {
      var _, w := ComposeOpen(text, us);
      LongerFirstDiffers(Scan(t).refs, w, us);
    }
  }

  lemma NoPrefixInert(text: string)
    requires !Contains(text, PREFIX)
    ensures Inert(text)
  {
    assert forall i: nat :: i <= |text| ==> !OccursAt(text, PREFIX, i);
    assert Find(text, PREFIX).None?;
  }

  /** In particular for every text without a marker prefix, also with no reference at all. */
  lemma RoundTripPlain(text: string, us: seq<string>)
    requires !Contains(Trim(text), PREFIX) && ValidRefs(us)
    ensures Parse(Compose(text, us)) == Parsed(Trim(text), us)
  {
    NoPrefixInert(Trim(text));
    if us != [] {
      RoundTripIffInert(text, us);
    } else {
      var t := Trim(text);
      InertIff(t);
      ScanBreaks(if t == "" then 0 else 2);
      assert Breaks(2) == "\n\n" && Breaks(0) == "";
      ScanAppend(t, "\n\n");
      TrimBreaks(t, 2);
      TrimTrimmed(text);
      assert Heading(text) + "" == Heading(text);
    }
  }

  /** Some text is not inert: it holds a marker with a reference of its own. */
  lemma MarkerNotInert()
    ensures !Inert("[IMAGE:b]") && Trim("[IMAGE:b]") == "[IMAGE:b]"
  {
    var s := "[IMAGE:b]";
    assert s[0..7] == PREFIX;
    FindIs(s, PREFIX, 0);
    assert s[7..] == "b" + [']'] + "";
    FindCharIs("b", ']', "");
    assert s[7..8] == "b";
    TrimFixed("b");
    TrimFixed(s);
  }
}
