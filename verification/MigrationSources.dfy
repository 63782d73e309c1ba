/**
 Where migrated entries come from: database rows and markdown files, merged and
 de-duplicated by a text signature.
 */
module MigrationSources {
  import opened Wrappers
  import opened Text
  import opened Migration

  // ── Keys and categories ────────────────────────────────────────────────

  function NormalizeKey(key: string, idx: nat): (r: string)
    ensures Solid(r)
  {
    TrimTrimmed(key);
    if Trim(key) == "" then "openclaw_" + Numeral(idx) else Trim(key)
  }

  function ParseCategory(raw: string): Category {
    var name := Lower(Trim(raw));
    if name == "core" || name == "" then Core
    else if name == "daily" then Daily
    else if name == "conversation" then Conversation
    else Custom(name)
  }

  function Display(c: Category): string {
    match c
    case Core => "core"
    case Daily => "daily"
    case Conversation => "conversation"
    case Custom(name) => name
  }

  /** A custom category never bears the name of a built-in one. */
  predicate Proper(c: Category) {
    c.Custom? ==> c.name !in {"core", "daily", "conversation", ""}
  }

  lemma ParsedProper(raw: string)
    ensures Proper(ParseCategory(raw))
  {
  }

  // ── Database rows ──────────────────────────────────────────────────────

  /** A row whose columns may be missing or of the wrong type. */
  datatype Row = Row(key: Option<string>, content: Option<string>, category: Option<string>)

  function OrDefault(x: Option<string>, d: string): string {
    if x.Some? then x.value else d
  }

  /** Blank rows are skipped and do not advance the fallback index. */
  function RowEntries(rows: seq<Row>): seq<SourceEntry> {
    if rows == [] then []
    else
      var before := RowEntries(rows[..|rows| - 1]);
      var row := rows[|rows| - 1];
      var content := Trim(OrDefault(row.content, ""));
      if content == "" then before
      else
        var key := OrDefault(row.key, "openclaw_sqlite_" + Numeral(|before|));
        before + [SourceEntry(NormalizeKey(key, |before|), content, ParseCategory(OrDefault(row.category, "core")))]
  }

  method ReadRows(rows: seq<Row>) returns (entries: seq<SourceEntry>)
    ensures entries == RowEntries(rows)
  {
    hide NormalizeKey, ParseCategory;
    entries := [];
    var idx := 0;
    for i := 0 to |rows|
      invariant entries == RowEntries(rows[..i]) && idx == |entries|
    {
      assert rows[..i + 1][..i] == rows[..i];
      var key := OrDefault(rows[i].key, "openclaw_sqlite_" + Numeral(idx));
      var content := OrDefault(rows[i].content, "");
      var category := OrDefault(rows[i].category, "core");
      if Trim(content) == "" {
        continue;
      }
      entries := entries + [SourceEntry(NormalizeKey(key, idx), Trim(content), ParseCategory(category))];
      idx := idx + 1;
    }
    assert rows[..|rows|] == rows;
  }

  function NonBlank(rows: seq<Row>): nat {
    if rows == [] then 0
    else NonBlank(rows[..|rows| - 1]) + if Trim(OrDefault(rows[|rows| - 1].content, "")) == "" then 0 else 1
  }

  lemma {:induction false} RowsCounted(rows: seq<Row>)
    ensures |RowEntries(rows)| == NonBlank(rows)
    decreases |rows|
  {
    hide Trim, NormalizeKey, ParseCategory, Numeral;
    if rows != [] {
      RowsCounted(rows[..|rows| - 1]);
    }
  }

  /** Each row with content yields one entry, in order, numbered by the rows with content before it; no other row does. */
  lemma {:induction false} RowsConserved(rows: seq<Row>, k: nat)
    requires k < |rows| && Trim(OrDefault(rows[k].content, "")) != ""
    ensures |RowEntries(rows)| == NonBlank(rows)
    ensures var n := NonBlank(rows[..k]);
      n < |RowEntries(rows)| && RowEntries(rows)[n] == SourceEntry(
        NormalizeKey(OrDefault(rows[k].key, "openclaw_sqlite_" + Numeral(n)), n),
        Trim(OrDefault(rows[k].content, "")), ParseCategory(OrDefault(rows[k].category, "core")))
    decreases |rows|
  {
    hide Trim, NormalizeKey, ParseCategory, Numeral, OrDefault;
    RowsCounted(rows);
    var init := rows[..|rows| - 1];
    if k < |init| {
      RowsConserved(init, k);
      assert init[..k] == rows[..k];
    } else {
      RowsCounted(init);
    }
  }

  // ── Markdown files ─────────────────────────────────────────────────────

  function DropReturn(line: string): string {
    if line != "" && line[|line| - 1] == '\r' then line[..|line| - 1] else line
  }

  /** `str::lines`. */
  function Lines(s: string): seq<string>
    decreases |s|
  {
    if s == "" then []
    else
      match FindChar(s, '\n')
      case None => [s]
      case Some(i) => [DropReturn(s[..i])] + Lines(s[i + 1..])
  }

  function DropPrefix(s: string, p: string): string {
    if StartsWith(s, p) then s[|p|..] else s
  }

  /** A line of the form `**key**: value` with both parts non-blank. */
  function ParseStructured(line: string): Option<(string, string)> {
    if !StartsWith(line, "**") then None
    else
      var rest := line[2..];
      match Find(rest, "**:")
      case None => None
      case Some(i) =>
        var key, value := Trim(rest[..i]), Trim(rest[i + 3..]);
        if key == "" || value == "" then None else Some((key, value))
  }

  /** What one line contributes; headings and blank lines nothing. */
  function LineEntry(raw: string, idx: nat, category: Category, stem: string): Option<SourceEntry> {
    var trimmed := Trim(raw);
    if trimmed == "" || StartsWith(trimmed, "#") then None
    else
      var line := DropPrefix(trimmed, "- ");
      var parsed := ParseStructured(line);
      var key := if parsed.Some? then NormalizeKey(parsed.value.0, idx) else "openclaw_" + stem + "_" + Numeral(idx + 1);
      var text := Trim(if parsed.Some? then parsed.value.1 else line);
      if text == "" then None else Some(SourceEntry(key, text, category))
  }

  function LineEntries(lines: seq<string>, category: Category, stem: string): seq<SourceEntry> {
    if lines == [] then []
    else
      var last := |lines| - 1;
      var entry := LineEntry(lines[last], last, category, stem);
      LineEntries(lines[..last], category, stem) + if entry.Some? then [entry.value] else []
  }

  method ParseMarkdownFile(content: string, category: Category, stem: string) returns (entries: seq<SourceEntry>)
    ensures entries == LineEntries(Lines(content), category, stem)
  {
    hide LineEntry;
    entries := [];
    var lines := Lines(content);
    for idx := 0 to |lines|
      invariant entries == LineEntries(lines[..idx], category, stem)
    {
      assert lines[..idx + 1][..idx] == lines[..idx];
      var entry := LineEntry(lines[idx], idx, category, stem);
      if entry.Some? {
        entries := entries + [entry.value];
      }
    }
    assert lines[..|lines|] == lines;
  }

  // ── Reading back what the markdown backend writes ──────────────────────

  function EntryLine(key: string, content: string): string {
    "- **" + key + "**: " + content
  }

  predicate SolidLine(s: string) {
    Solid(s) && '\n' !in s
  }

  lemma MarkerAfterKey(key: string, content: string, i: nat)
    requires i < |key|
    ensures OccursAt(key + "**: " + content, "**:", i) <==> OccursAt(key, "**:", i)
  {
    var s := key + "**: " + content;
    if i + 3 <= |key| {
      assert s[i..i + 3] == key[i..i + 3];
    } else {
      assert s[i..i + 3][2] == '*';
    }
  }

  lemma FindKeyEnd(key: string, content: string)
    ensures Find(key + "**: " + content, "**:") == if Find(key, "**:").Some? then Find(key, "**:") else Some(|key|)
  {
    var s := key + "**: " + content;
    assert s[|key|..|key| + 3] == "**:";
    forall i: nat | i < |key|
      ensures OccursAt(s, "**:", i) <==> OccursAt(key, "**:", i)
    {
      MarkerAfterKey(key, content, i);
    }
    if Find(key, "**:").Some? {
      FindIs(s, "**:", Find(key, "**:").value);
    } else {
      FindIs(s, "**:", |key|);
    }
  }

  lemma StructuredOf(key: string, content: string)
    ensures StartsWith("**" + key + "**: " + content, "**")
    ensures ("**" + key + "**: " + content)[2..] == key + "**: " + content
  {
    var line := "**" + key + "**: " + content;
    assert line[0..2] == "**";
  }

  lemma TrimSpaceBefore(content: string)
    requires Trimmed(content)
    ensures Trim(" " + content) == content
  {
    assert " " + content + "" == " " + content;
    StripUnique(" ", content, "", IsSpace);
  }

  /** A written line gives its key and content back exactly when the key holds no key end. */
  lemma StructuredIff(key: string, content: string)
    requires Solid(key) && Solid(content)
    ensures ParseStructured("**" + key + "**: " + content) == Some((key, content)) <==> !Contains(key, "**:")
  {
    hide Trim, OccursAt;
    var rest := key + "**: " + content;
    StructuredOf(key, content);
    FindKeyEnd(key, content);
    match Find(key, "**:")
    case None =>
      assert rest[..|key|] == key && rest[|key| + 3..] == " " + content;
      TrimFixed(key);
      TrimSpaceBefore(content);
    case Some(i) =>
      assert i <= |key| && OccursAt(key, "**:", i);
      assert |rest[..i]| < |key|;
      TrimShorter(rest[..i]);
  }

  lemma EntryLineShape(key: string, content: string)
    requires Solid(content)
    ensures var line := EntryLine(key, content);
      && Trim(line) == line && line != "" && !StartsWith(line, "#")
      && DropPrefix(line, "- ") == "**" + key + "**: " + content
  {
    var line := EntryLine(key, content);
    assert line[|line| - 1] == content[|content| - 1];
    TrimFixed(line);
    assert line[0..1] == "-" && line[0..2] == "- ";
    assert line[2..] == "**" + key + "**: " + content;
  }

  /** The written line always gives one entry, and the one written exactly when its key holds no key end. */
  lemma EntryLineIff(key: string, content: string, idx: nat, category: Category, stem: string)
    requires Solid(key) && Solid(content)
    ensures var found := LineEntry(EntryLine(key, content), idx, category, stem);
      found.Some? && (found == Some(SourceEntry(key, content, category)) <==> !Contains(key, "**:"))
  {
    hide ParseStructured, Trim, EntryLine, Contains, StartsWith, DropPrefix, Numeral;
    var line := "**" + key + "**: " + content;
    EntryLineShape(key, content);
    StructuredIff(key, content);
    StructuredTrimmed(line);
    assert line[0] == '*' && line[|line| - 1] == content[|content| - 1];
    TrimFixed(line);
  }

  lemma StructuredTrimmed(line: string)
    ensures var parsed := ParseStructured(line); parsed.Some? ==>
      && parsed.value.0 != "" && Trim(parsed.value.0) == parsed.value.0
      && parsed.value.1 != "" && Trim(parsed.value.1) == parsed.value.1
  {
    hide Trim;
    if ParseStructured(line).Some? {
      var rest := line[2..];
      var i := Find(rest, "**:").value;
      TrimTrimmed(rest[..i]);
      TrimTrimmed(rest[i + 3..]);
    }
  }

  /** The file the markdown backend builds, one entry appended at a time. */
  function FileOf(header: string, entries: seq<SourceEntry>): string {
    if entries == [] then ""
    else
      var last := entries[|entries| - 1];
      var line := EntryLine(last.key, last.content);
      if |entries| == 1 then "# " + header + "\n\n" + line + "\n"
      else FileOf(header, entries[..|entries| - 1]) + "\n" + line + "\n"
  }

  predicate Writable(e: SourceEntry) {
    SolidLine(e.key) && SolidLine(e.content) && !Contains(e.key, "**:")
  }

  predicate EndsLine(s: string) {
    s != "" && s[|s| - 1] == '\n'
  }

  lemma NoLines()
    ensures Lines("") == []
  {
  }

  lemma LinesCut(s: string)
    requires FindChar(s, '\n').Some?
    ensures var i := FindChar(s, '\n').value; Lines(s) == [DropReturn(s[..i])] + Lines(s[i + 1..])
  {
    hide DropReturn;
  }

  lemma FirstLineKept(a: string, b: string)
    requires EndsLine(a)
    ensures FindChar(a, '\n').Some? && FindChar(a + b, '\n') == FindChar(a, '\n')
    ensures var i := FindChar(a, '\n').value;
      (a + b)[..i] == a[..i] && (a + b)[i + 1..] == a[i + 1..] + b && (a[i + 1..] == "" || EndsLine(a[i + 1..]))
  {
    var i := FindChar(a, '\n').value;
    assert forall k :: 0 <= k <= i ==> (a + b)[k] == a[k];
  }

  lemma {:induction false} LinesAppend(a: string, b: string)
    requires a == "" || EndsLine(a)
    ensures Lines(a + b) == Lines(a) + Lines(b)
    decreases |a|
  {
    hide Lines, DropReturn, FindChar;
    if a == "" {
      assert a + b == b;
      NoLines();
    } else {
      FirstLineKept(a, b);
      var i := FindChar(a, '\n').value;
      LinesAppend(a[i + 1..], b);
      LinesCut(a);
      LinesCut(a + b);
      Assoc([DropReturn(a[..i])], Lines(a[i + 1..]), Lines(b));
    }
  }

  lemma OneLine(s: string)
    requires '\n' !in s
    ensures Lines(s + "\n") == [DropReturn(s)]
  {
    assert s + "\n" == s + ['\n'] + "";
    FindCharIs(s, '\n', "");
    assert (s + "\n")[..|s|] == s && (s + "\n")[|s| + 1..] == "";
  }

  lemma {:induction false} LineEntriesAppend(a: seq<string>, b: seq<string>, category: Category, stem: string)
    requires |b| == 2 && LineEntry(b[0], |a|, category, stem).None?
    ensures LineEntries(a + b, category, stem) == LineEntries(a, category, stem) +
      (var e := LineEntry(b[1], |a| + 1, category, stem); if e.Some? then [e.value] else [])
  {
    hide LineEntry;
    assert (a + b)[..|a| + 1] == a + [b[0]];
    assert (a + [b[0]])[..|a|] == a;
    assert LineEntries(a + [b[0]], category, stem) == LineEntries(a, category, stem) + [];
  }

  lemma EntryLineOneLine(e: SourceEntry)
    requires SolidEntry(e)
    ensures '\n' !in EntryLine(e.key, e.content) && DropReturn(EntryLine(e.key, e.content)) == EntryLine(e.key, e.content)
  {
    var line := EntryLine(e.key, e.content);
    assert line[|line| - 1] == e.content[|e.content| - 1];
  }

  lemma HeadingGivesNothing(header: string, category: Category, stem: string)
    ensures LineEntry(DropReturn("# " + header), 0, category, stem).None? && DropReturn("") == ""
  {
    HeadingSkipped(DropReturn("# " + header));
  }

  lemma HeadOf(r: string, suf: string)
    requires r + suf != ""
    ensures (r + suf)[0] == if r == "" then suf[0] else r[0]
  {
  }

  lemma HeadingSkipped(h: string)
    requires h != "" && h[0] == '#'
    ensures Trim(h) != "" && StartsWith(Trim(h), "#")
  {
    assert StripStart(h, IsSpace) == h;
    var suf := StripEndSplit(h, IsSpace);
    var r := StripEnd(h, IsSpace);
    HeadOf(r, suf);
    assert r[0..1] == "#";
  }

  predicate SolidEntry(e: SourceEntry) {
    SolidLine(e.key) && SolidLine(e.content)
  }

  /** What the line written for the entry at position `i` of a file is read as. */
  function ReadEntry(e: SourceEntry, i: nat, category: Category, stem: string): Option<SourceEntry> {
    LineEntry(EntryLine(e.key, e.content), 2 * i + 2, category, stem)
  }

  /** The lines of the file: the heading, then a blank line and a line for each entry. */
  function FileLines(header: string, entries: seq<SourceEntry>): seq<string> {
    if entries == [] then [DropReturn("# " + header)]
    else
      var last := entries[|entries| - 1];
      FileLines(header, entries[..|entries| - 1]) + ["", EntryLine(last.key, last.content)]
  }

  /** A blank line and a line of text after a text that ends a line. */
  lemma TwoMoreLines(file: string, line: string)
    requires (file == "" || EndsLine(file)) && '\n' !in line && DropReturn(line) == line
    ensures Lines(file + "\n" + line + "\n") == Lines(file) + ["", line]
    ensures EndsLine(file + "\n" + line + "\n")
  {
    hide Lines;
    OneLine("");
    OneLine(line);
    assert "" + "\n" == "\n" && DropReturn("") == "";
    LinesAppend("\n", line + "\n");
    assert "\n" + (line + "\n") == "\n" + line + "\n";
    LinesAppend(file, "\n" + line + "\n");
    assert file + ("\n" + line + "\n") == file + "\n" + line + "\n";
    assert [""] + [line] == ["", line];
  }

  lemma {:induction false} FileLinesAre(header: string, entries: seq<SourceEntry>)
    requires entries != [] && '\n' !in header
    requires forall i :: 0 <= i < |entries| ==> SolidEntry(entries[i])
    ensures EndsLine(FileOf(header, entries)) && Lines(FileOf(header, entries)) == FileLines(header, entries)
    decreases |entries|
  {
    hide EntryLine, Lines, DropReturn;
    var init, last := entries[..|entries| - 1], entries[|entries| - 1];
    var line := EntryLine(last.key, last.content);
    EntryLineOneLine(last);
    if init == [] {
      var head := "# " + header;
      OneLine(head);
      TwoMoreLines(head + "\n", line);
      assert head + "\n" + "\n" + line + "\n" == FileOf(header, entries);
      assert FileLines(header, init) == [DropReturn(head)];
    } else {
      FileLinesAre(header, init);
      TwoMoreLines(FileOf(header, init), line);
    }
  }

  lemma {:induction false} FileLinesRead(header: string, entries: seq<SourceEntry>, category: Category, stem: string)
    requires forall i :: 0 <= i < |entries| ==> SolidEntry(entries[i])
    ensures |FileLines(header, entries)| == 2 * |entries| + 1
    ensures var found := LineEntries(FileLines(header, entries), category, stem);
      && |found| == |entries|
      && forall i :: 0 <= i < |entries| ==> ReadEntry(entries[i], i, category, stem) == Some(found[i])
    decreases |entries|
  {
    hide LineEntry, EntryLine, SolidLine;
    if entries == [] {
      HeadingGivesNothing(header, category, stem);
      assert FileLines(header, entries)[..0] == [];
    } else {
      var init, last := entries[..|entries| - 1], entries[|entries| - 1];
      var lines, line := FileLines(header, init), EntryLine(last.key, last.content);
      FileLinesRead(header, init, category, stem);
      SolidParts(last);
      EntryLineIff(last.key, last.content, 2 * |init| + 2, category, stem);
      BlankLine(|lines|, category, stem);
      LineEntriesAppend(lines, ["", line], category, stem);
    }
  }

  lemma SolidParts(e: SourceEntry)
    requires SolidEntry(e)
    ensures Solid(e.key) && Solid(e.content)
  {
  }

  /** A file of one-line entries is read as one entry for each. */
  lemma FileRead(header: string, entries: seq<SourceEntry>, category: Category, stem: string)
    requires entries != [] && '\n' !in header
    requires forall i :: 0 <= i < |entries| ==> SolidEntry(entries[i])
    ensures var found := LineEntries(Lines(FileOf(header, entries)), category, stem);
      && |found| == |entries|
      && forall i :: 0 <= i < |entries| ==> ReadEntry(entries[i], i, category, stem) == Some(found[i])
  {
    hide FileOf, Lines, FileLines, LineEntries, ReadEntry, SolidEntry;
    FileLinesAre(header, entries);
    FileLinesRead(header, entries, category, stem);
  }

  /** A file written by the markdown backend is migrated back into the entries written. */
  lemma FileRoundTrip(header: string, entries: seq<SourceEntry>, category: Category, stem: string)
    requires entries != [] && '\n' !in header
    requires forall i :: 0 <= i < |entries| ==> Writable(entries[i]) && entries[i].category == category
    ensures LineEntries(Lines(FileOf(header, entries)), category, stem) == entries
  {
    hide LineEntry, EntryLine, Lines, Contains, FileOf;
    FileRead(header, entries, category, stem);
    forall i | 0 <= i < |entries|
      ensures ReadEntry(entries[i], i, category, stem) == Some(entries[i])
    {
      EntryLineIff(entries[i].key, entries[i].content, 2 * i + 2, category, stem);
    }
  }

  lemma {:induction false} LinesOneLine(s: string)
    ensures forall i :: 0 <= i < |Lines(s)| ==> '\n' !in Lines(s)[i]
    decreases |s|
  {
    if s != "" && FindChar(s, '\n').Some? {
      LinesOneLine(s[FindChar(s, '\n').value + 1..]);
    }
  }

  lemma TrimInside(s: string, c: char)
    ensures c !in s ==> c !in Trim(s)
  {
    var pre, suf := StripSplit(s, IsSpace);
  }

  lemma StructuredInside(line: string)
    requires '\n' !in line && ParseStructured(line).Some?
    ensures SolidLine(ParseStructured(line).value.0) && SolidLine(ParseStructured(line).value.1)
  {
    hide Trim;
    var rest := line[2..];
    var i := Find(rest, "**:").value;
    TrimInside(rest[..i], '\n');
    TrimInside(rest[i + 3..], '\n');
    TrimTrimmed(rest[..i]);
    TrimTrimmed(rest[i + 3..]);
  }

  lemma DefaultKeySolid(stem: string, n: nat)
    requires '\n' !in stem
    ensures SolidLine("openclaw_" + stem + "_" + Numeral(n))
  {
    var key := "openclaw_" + stem + "_" + Numeral(n);
    assert key[0] == 'o' && key[|key| - 1] == Numeral(n)[|Numeral(n)| - 1];
    assert forall k :: 0 <= k < |Numeral(n)| ==> IsDigit(Numeral(n)[k]);
  }

  /** Whatever the line, what is read of it is trimmed, of one line and of the file's category. */
  lemma LineEntrySolid(raw: string, idx: nat, category: Category, stem: string)
    requires '\n' !in raw && '\n' !in stem
    ensures var e := LineEntry(raw, idx, category, stem); e.Some? ==> SolidEntry(e.value) && e.value.category == category
  {
    hide Trim, ParseStructured, Numeral;
    var line := DropPrefix(Trim(raw), "- ");
    TrimInside(raw, '\n');
    TrimInside(line, '\n');
    TrimTrimmed(line);
    DefaultKeySolid(stem, idx + 1);
    if ParseStructured(line).Some? {
      StructuredInside(line);
      TrimFixed(ParseStructured(line).value.0);
      TrimFixed(ParseStructured(line).value.1);
    }
  }

  lemma {:induction false} LineEntriesSolid(lines: seq<string>, category: Category, stem: string)
    requires '\n' !in stem && forall i :: 0 <= i < |lines| ==> '\n' !in lines[i]
    ensures forall i :: 0 <= i < |LineEntries(lines, category, stem)| ==>
      SolidEntry(LineEntries(lines, category, stem)[i]) && LineEntries(lines, category, stem)[i].category == category
    decreases |lines|
  {
    hide LineEntry, SolidEntry;
    if lines != [] {
      LineEntriesSolid(lines[..|lines| - 1], category, stem);
      LineEntrySolid(lines[|lines| - 1], |lines| - 1, category, stem);
    }
  }

  /**
   The file is read back as it was written exactly when every entry is of the
   file's category and of one trimmed line without a key end inside its key.
   */
  lemma FileRoundTripIff(header: string, entries: seq<SourceEntry>, category: Category, stem: string)
    requires entries != [] && '\n' !in header && '\n' !in stem
    ensures LineEntries(Lines(FileOf(header, entries)), category, stem) == entries <==>
      forall i :: 0 <= i < |entries| ==> Writable(entries[i]) && entries[i].category == category
  {
    hide LineEntry, EntryLine, LineEntries, Lines, Contains, FileOf;
    if forall i :: 0 <= i < |entries| ==> Writable(entries[i]) && entries[i].category == category {
      FileRoundTrip(header, entries, category, stem);
    }
    if LineEntries(Lines(FileOf(header, entries)), category, stem) == entries {
      LinesOneLine(FileOf(header, entries));
      LineEntriesSolid(Lines(FileOf(header, entries)), category, stem);
      FileRead(header, entries, category, stem);
      forall i | 0 <= i < |entries|
        ensures Writable(entries[i])
      {
        EntryLineIff(entries[i].key, entries[i].content, 2 * i + 2, category, stem);
      }
    }
  }

  /** An entry whose content has two lines is not read back. */
  lemma TwoLinesNotBack(header: string, category: Category, stem: string)
    requires '\n' !in header && '\n' !in stem
    ensures var entries := [SourceEntry("k", "a\nb", category)]; LineEntries(Lines(FileOf(header, entries)), category, stem) != entries
  {
    hide LineEntries, Lines, FileOf;
    var e := SourceEntry("k", "a\nb", category);
    assert e.content[1] == '\n';
    assert !Writable([e][0]);
    FileRoundTripIff(header, [e], category, stem);
  }

  lemma BlankLine(idx: nat, category: Category, stem: string)
    ensures LineEntry("", idx, category, stem).None?
  {
  }

  // ── De-duplication ─────────────────────────────────────────────────────

  function Signature(e: SourceEntry): string {
    e.key + ['\0'] + (e.content + ['\0'] + Display(e.category))
  }

  function Signatures(entries: seq<SourceEntry>): set<string> {
    set i | 0 <= i < |entries| :: Signature(entries[i])
  }

  /** The first entry of each signature, in order. */
  function Retained(entries: seq<SourceEntry>): seq<SourceEntry> {
    if entries == [] then []
    else
      var init, last := entries[..|entries| - 1], entries[|entries| - 1];
      if Signature(last) in Signatures(init) then Retained(init) else Retained(init) + [last]
  }

  method RetainFirst(entries: seq<SourceEntry>) returns (kept: seq<SourceEntry>)
    ensures kept == Retained(entries)
  {
    hide Signature;
    kept := [];
    var seen: set<string> := {};
    for i := 0 to |entries|
      invariant kept == Retained(entries[..i]) && seen == Signatures(entries[..i])
    {
      assert entries[..i + 1][..i] == entries[..i];
      var signature := Signature(entries[i]);
      if signature !in seen {
        kept := kept + [entries[i]];
      }
      assert Signatures(entries[..i + 1]) == Signatures(entries[..i]) + {signature};
      seen := seen + {signature};
    }
    assert entries[..|entries|] == entries;
  }

  predicate NulFree(e: SourceEntry) {
    '\0' !in e.key && '\0' !in e.content && Proper(e.category)
  }

  lemma SplitUnique(a: string, b: string, x: string, y: string)
    requires '\0' !in a && '\0' !in b && a + ['\0'] + x == b + ['\0'] + y
    ensures a == b && x == y
  {
    FindCharIs(a, '\0', x);
    FindCharIs(b, '\0', y);
    var s := a + ['\0'] + x;
    assert s[..|a|] == a && s[..|b|] == b && s[|a| + 1..] == x && s[|b| + 1..] == y;
  }

  lemma DisplayInjective(c: Category, d: Category)
    requires Proper(c) && Proper(d) && Display(c) == Display(d)
    ensures c == d
  {
  }

  /** Without NUL characters in keys and contents, equal signatures mean equal entries. */
  lemma SignatureInjective(e: SourceEntry, f: SourceEntry)
    requires NulFree(e) && NulFree(f) && Signature(e) == Signature(f)
    ensures e == f
  {
    hide Display, Proper;
    SplitUnique(e.key, f.key, e.content + ['\0'] + Display(e.category), f.content + ['\0'] + Display(f.category));
    SplitUnique(e.content, f.content, Display(e.category), Display(f.category));
    DisplayInjective(e.category, f.category);
  }

  /** What is retained comes from the source, one entry for each of its signatures. */
  lemma {:induction false} RetainedOnce(entries: seq<SourceEntry>)
    ensures forall e :: e in Retained(entries) ==> e in entries
    ensures Signatures(Retained(entries)) == Signatures(entries)
    ensures forall i, j :: 0 <= i < j < |Retained(entries)| ==> Signature(Retained(entries)[i]) != Signature(Retained(entries)[j])
    decreases |entries|
  {
    hide Signature, Signatures;
    if entries != [] {
      var init, last := entries[..|entries| - 1], entries[|entries| - 1];
      RetainedOnce(init);
      assert entries == init + [last];
      SignaturesSnoc(init, last);
      SignaturesSnoc(Retained(init), last);
    }
  }

  lemma SignaturesSnoc(entries: seq<SourceEntry>, e: SourceEntry)
    ensures Signatures(entries + [e]) == Signatures(entries) + {Signature(e)}
    ensures Signature(e) in Signatures(entries) ==> Signatures(entries + [e]) == Signatures(entries)
    ensures forall k :: 0 <= k < |entries| ==> Signature(entries[k]) in Signatures(entries)
  {
    hide Signature;
    var all := entries + [e];
    forall s | s in Signatures(entries) + {Signature(e)}
      ensures s in Signatures(all)
    {
      if s in Signatures(entries) {
        var i :| 0 <= i < |entries| && Signature(entries[i]) == s;
        assert Signature(all[i]) == s;
      } else {
        assert Signature(all[|entries|]) == s;
      }
    }
  }

  /** Two entries that cannot be told apart by their signatures are the same entry. */
  ghost predicate SignaturesTell(entries: seq<SourceEntry>) {
    forall i, j :: 0 <= i < |entries| && 0 <= j < |entries| && Signature(entries[i]) == Signature(entries[j]) ==> entries[i] == entries[j]
  }

  /** Every entry of the source is retained exactly when no two different entries share a signature. */
  lemma RetainedIff(entries: seq<SourceEntry>)
    ensures (forall e :: e in entries ==> e in Retained(entries)) <==> SignaturesTell(entries)
  {
    hide Signature, Retained;
    RetainedOnce(entries);
    var kept := Retained(entries);
    if forall e :: e in entries ==> e in kept {
      forall i, j | 0 <= i < |entries| && 0 <= j < |entries| && Signature(entries[i]) == Signature(entries[j])
        ensures entries[i] == entries[j]
      {
        assert entries[i] in kept && entries[j] in kept;
        var k :| 0 <= k < |kept| && kept[k] == entries[i];
        var l :| 0 <= l < |kept| && kept[l] == entries[j];
        assert k == l;
      }
    }
    if SignaturesTell(entries) {
      forall e | e in entries
        ensures e in kept
      {
        var i :| 0 <= i < |entries| && entries[i] == e;
        assert Signature(entries[i]) in Signatures(entries);
        var k :| 0 <= k < |kept| && Signature(kept[k]) == Signature(e);
        assert kept[k] in entries;
        var j :| 0 <= j < |entries| && entries[j] == kept[k];
      }
    }
  }

  /** So when no NUL is involved exactly the distinct entries are retained, each once. */
  lemma RetainedComplete(entries: seq<SourceEntry>)
    requires forall i :: 0 <= i < |entries| ==> NulFree(entries[i])
    ensures forall e :: e in Retained(entries) <==> e in entries
    ensures forall i, j :: 0 <= i < j < |Retained(entries)| ==> Retained(entries)[i] != Retained(entries)[j]
  {
    hide Signature, Retained, NulFree;
    RetainedOnce(entries);
    forall i, j | 0 <= i < |entries| && 0 <= j < |entries| && Signature(entries[i]) == Signature(entries[j])
      ensures entries[i] == entries[j]
    {
      SignatureInjective(entries[i], entries[j]);
    }
    RetainedIff(entries);
  }

  /** With a NUL in each, two different entries can share a signature, and the second is lost. */
  lemma NulLosesEntry()
    ensures var e, f := SourceEntry("a", "b\0c", Core), SourceEntry("a\0b", "c", Core);
      e != f && Retained([e, f]) == [e]
  {
    var e, f := SourceEntry("a", "b\0c", Core), SourceEntry("a\0b", "c", Core);
    assert Signature(e) == "a\0b\0c\0core" == Signature(f);
    assert [e, f][..1] == [e] && [e][..0] == [];
    assert Signature([e][0]) in Signatures([e]);
    assert Retained([]) == [] && Retained([e]) == [e];
  }
}
