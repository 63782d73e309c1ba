/**
 The in-memory log: a bounded store of numbered lines and the writer that cuts
 a byte stream into them.
 */
module RuntimeLogs {
  import opened Wrappers
  import opened Text
  import AnsiStripper

  type Byte = b: int | 0 <= b < 256
  type Bytes = seq<Byte>

  const NEWLINE: Byte := 10

  datatype Entry = Entry(id: nat, line: string)

  // ── What a push does to the store's contents ───────────────────────────

  /** The stored contents and the last id given out. */
  datatype Log = Log(capacity: nat, lastId: nat, entries: seq<Entry>) {
    predicate Valid() {
      1 <= capacity && |entries| <= capacity
    }
  }

  function CleanLine(text: string): string {
    Trim(AnsiStripper.Strip(text))
  }

  function Push(log: Log, text: string): Log {
    var line := CleanLine(text);
    if line == "" then log
    else log.(lastId := log.lastId + 1, entries := LastOf(log.entries + [Entry(log.lastId + 1, line)], log.capacity))
  }

  function PushAll(log: Log, texts: seq<string>): Log {
    if texts == [] then log else Push(PushAll(log, texts[..|texts| - 1]), texts[|texts| - 1])
  }

  /** The lines that survive cleaning, in order. */
  function Kept(texts: seq<string>): seq<string> {
    if texts == [] then []
    else
      var line := CleanLine(texts[|texts| - 1]);
      Kept(texts[..|texts| - 1]) + if line == "" then [] else [line]
  }

  function Numbered(from: nat, lines: seq<string>): seq<Entry> {
    seq(|lines|, i requires 0 <= i < |lines| => Entry(from + i, lines[i]))
  }

  /** Pushing keeps the last `capacity` non-blank cleaned lines, numbered consecutively. */
  lemma {:induction false} PushAllKeepsLast(log: Log, texts: seq<string>)
    requires log.Valid()
    ensures var r := PushAll(log, texts);
      && r.Valid() && r.capacity == log.capacity && r.lastId == log.lastId + |Kept(texts)|
      && r.entries == LastOf(log.entries + Numbered(log.lastId + 1, Kept(texts)), log.capacity)
    decreases |texts|
  {
    hide CleanLine, LastOf, Numbered;
    NumberedEmpty(log.lastId + 1);
    LastOfAll(log.entries, log.capacity);
    if texts == [] {
      assert log.entries + Numbered(log.lastId + 1, []) == log.entries;
    } else {
      var init, line := texts[..|texts| - 1], CleanLine(texts[|texts| - 1]);
      PushAllKeepsLast(log, init);
      if line != "" {
        var earlier := Numbered(log.lastId + 1, Kept(init));
        var entry := Entry(log.lastId + 1 + |Kept(init)|, line);
        NumberedSnoc(log.lastId + 1, Kept(init), line);
        Assoc(log.entries, earlier, [entry]);
        LastOfAppend(log.entries + earlier, entry, log.capacity);
      } else {
        assert Kept(init) + [] == Kept(init);
      }
    }
  }

  lemma NumberedEmpty(from: nat)
    ensures Numbered(from, []) == []
  {
  }

  lemma NumberedSnoc(from: nat, lines: seq<string>, line: string)
    ensures Numbered(from, lines + [line]) == Numbered(from, lines) + [Entry(from + |lines|, line)]
  {
  }

  lemma LastOfAll<T>(s: seq<T>, n: nat)
    requires |s| <= n
    ensures LastOf(s, n) == s
  {
  }

  lemma LastOfAppend<T>(s: seq<T>, x: T, n: nat)
    requires n >= 1
    ensures LastOf(LastOf(s, n) + [x], n) == LastOf(s + [x], n)
  {
  }

  // ── Cutting a byte stream into lines ───────────────────────────────────

  /** Complete lines with their newline, and the unterminated rest. */
  datatype Cut = Cut(lines: seq<Bytes>, rest: Bytes)

  function FirstNewline(b: Bytes): (r: int)
    ensures -1 <= r < |b|
    ensures r >= 0 ==> b[r] == NEWLINE && forall i :: 0 <= i < r ==> b[i] != NEWLINE
    ensures r < 0 ==> forall i :: 0 <= i < |b| ==> b[i] != NEWLINE
  {
    if b == [] then -1
    else if b[0] == NEWLINE then 0
    else
      var r := FirstNewline(b[1..]);
      assert forall i :: 1 <= i < |b| ==> b[i] == b[1..][i - 1];
      if r < 0 then -1 else r + 1
  }

  function CutLines(b: Bytes): Cut
    decreases |b|
  {
    var i := FirstNewline(b);
    if i < 0 then Cut([], b)
    else
      var more := CutLines(b[i + 1..]);
      Cut([b[..i + 1]] + more.lines, more.rest)
  }

  lemma CutNothing(b: Bytes)
    requires FirstNewline(b) < 0
    ensures CutLines(b) == Cut([], b) && Concat(CutLines(b).lines) + b == b && NEWLINE !in b
  {
  }

  lemma CutUnfold(b: Bytes)
    requires FirstNewline(b) >= 0
    ensures var i := FirstNewline(b); var more := CutLines(b[i + 1..]);
      CutLines(b) == Cut([b[..i + 1]] + more.lines, more.rest)
  {
    hide FirstNewline;
  }

  /** What is left has no newline, and nothing is lost. */
  lemma {:induction false} CutConserves(b: Bytes)
    ensures Concat(CutLines(b).lines) + CutLines(b).rest == b && NEWLINE !in CutLines(b).rest
    decreases |b|
  {
    hide FirstNewline, Concat, CutLines;
    var i := FirstNewline(b);
    if i < 0 {
      CutNothing(b);
    } else {
      var line, more := b[..i + 1], CutLines(b[i + 1..]);
      CutConserves(b[i + 1..]);
      CutUnfold(b);
      ConcatCons(line, more.lines);
      Assoc(line, Concat(more.lines), more.rest);
      assert b == line + b[i + 1..];
    }
  }

  function Concat(chunks: seq<Bytes>): Bytes {
    if chunks == [] then [] else chunks[0] + Concat(chunks[1..])
  }

  lemma ConcatCons(first: Bytes, chunks: seq<Bytes>)
    ensures Concat([first] + chunks) == first + Concat(chunks)
  {
    assert ([first] + chunks)[1..] == chunks;
  }

  /** Cutting a stream in two cuts the same lines, the rest being carried over. */
  lemma FirstNewlineKept(a: Bytes, b: Bytes)
    requires FirstNewline(a) >= 0
    ensures FirstNewline(a + b) == FirstNewline(a)
  {
    var i := FirstNewline(a);
    assert forall k :: 0 <= k <= i ==> (a + b)[k] == a[k];
  }

  lemma {:induction false} CutAppend(a: Bytes, b: Bytes)
    ensures var x := CutLines(a); var y := CutLines(x.rest + b);
      CutLines(a + b).lines == x.lines + y.lines && CutLines(a + b).rest == y.rest
    decreases |a|
  {
    hide CutLines, FirstNewline;
    var i := FirstNewline(a);
    if i >= 0 {
      var tail := a[i + 1..];
      FirstNewlineKept(a, b);
      assert (a + b)[..i + 1] == a[..i + 1];
      assert (a + b)[i + 1..] == tail + b;
      CutAppend(tail, b);
      CutUnfold(a);
      CutUnfold(a + b);
      Assoc([a[..i + 1]], CutLines(tail).lines, CutLines(CutLines(tail).rest + b).lines);
    } else {
      CutNothing(a);
      assert [] + CutLines(a + b).lines == CutLines(a + b).lines;
    }
  }

  // ── The writer ─────────────────────────────────────────────────────────

  predicate IsLineEnd(c: char) {
    c == '\r' || c == '\n'
  }

  predicate IsReturn(c: char) {
    c == '\r'
  }

  /** The text of each complete line, its line end dropped. */
  function LineTexts(decode: Bytes -> string, lines: seq<Bytes>): seq<string> {
    if lines == [] then []
    else LineTexts(decode, lines[..|lines| - 1]) + [StripEnd(decode(lines[|lines| - 1]), IsLineEnd)]
  }

  datatype Writer = Writer(log: Log, pending: Bytes)

  function Consume(decode: Bytes -> string, w: Writer, bytes: Bytes): Writer {
    var cut := CutLines(w.pending + bytes);
    Writer(PushAll(w.log, LineTexts(decode, cut.lines)), cut.rest)
  }

  function Flush(decode: Bytes -> string, w: Writer): Writer {
    if w.pending == [] then w
    else Writer(Push(w.log, StripEnd(decode(w.pending), IsReturn)), [])
  }

  function ConsumeAll(decode: Bytes -> string, w: Writer, chunks: seq<Bytes>): Writer {
    if chunks == [] then w
    else Consume(decode, ConsumeAll(decode, w, chunks[..|chunks| - 1]), chunks[|chunks| - 1])
  }

  lemma {:induction false} PushAllAppend(log: Log, a: seq<string>, b: seq<string>)
    ensures PushAll(log, a + b) == PushAll(PushAll(log, a), b)
    decreases |b|
  {
    if b == [] {
      assert a + b == a;
    } else {
      assert (a + b)[..|a + b| - 1] == a + b[..|b| - 1];
      PushAllAppend(log, a, b[..|b| - 1]);
    }
  }

  lemma {:induction false} LineTextsAppend(decode: Bytes -> string, a: seq<Bytes>, b: seq<Bytes>)
    ensures LineTexts(decode, a + b) == LineTexts(decode, a) + LineTexts(decode, b)
    decreases |b|
  {
    if b == [] {
      assert a + b == a;
    } else {
      assert (a + b)[..|a + b| - 1] == a + b[..|b| - 1];
      LineTextsAppend(decode, a, b[..|b| - 1]);
    }
  }

  lemma NoMoreLines(b: Bytes)
    requires FirstNewline(b) < 0
    ensures CutLines(b) == Cut([], b)
  {
  }

  lemma NothingPushed(decode: Bytes -> string, log: Log)
    ensures PushAll(log, LineTexts(decode, [])) == log
  {
  }

  lemma PushedLine(decode: Bytes -> string, log: Log, done: seq<Bytes>, line: Bytes)
    ensures PushAll(log, LineTexts(decode, done + [line])) ==
      Push(PushAll(log, LineTexts(decode, done)), StripEnd(decode(line), IsLineEnd))
  {
    var texts, text := LineTexts(decode, done), StripEnd(decode(line), IsLineEnd);
    assert (done + [line])[..|done|] == done;
    assert (texts + [text])[..|texts|] == texts;
  }

  lemma ConsumeTwice(decode: Bytes -> string, w: Writer, a: Bytes, b: Bytes)
    ensures Consume(decode, Consume(decode, w, a), b) == Consume(decode, w, a + b)
  {
    var x := CutLines(w.pending + a);
    var y := CutLines(x.rest + b);
    Assoc(w.pending, a, b);
    CutAppend(w.pending + a, b);
    LineTextsAppend(decode, x.lines, y.lines);
    PushAllAppend(w.log, LineTexts(decode, x.lines), LineTexts(decode, y.lines));
  }

  lemma {:induction false} ConcatSnoc(chunks: seq<Bytes>, last: Bytes)
    ensures Concat(chunks + [last]) == Concat(chunks) + last
    decreases |chunks|
  {
    if chunks == [] {
      assert (chunks + [last])[1..] == [];
    } else {
      assert (chunks + [last])[1..] == chunks[1..] + [last];
      ConcatSnoc(chunks[1..], last);
      Assoc(chunks[0], Concat(chunks[1..]), last);
    }
  }

  /** Any way of cutting the stream into writes leaves what one write would. */
  lemma {:induction false} ChunkingIndependent(decode: Bytes -> string, log: Log, chunks: seq<Bytes>)
    ensures ConsumeAll(decode, Writer(log, []), chunks) == Consume(decode, Writer(log, []), Concat(chunks))
    decreases |chunks|
  {
    if chunks == [] {
      assert CutLines([]) == Cut([], []);
    } else {
      var init, last := chunks[..|chunks| - 1], chunks[|chunks| - 1];
      assert chunks == init + [last];
      ChunkingIndependent(decode, log, init);
      ConcatSnoc(init, last);
      ConsumeTwice(decode, Writer(log, []), Concat(init), last);
    }
  }

  /** The texts a whole stream contributes once it has been flushed. */
  function StreamTexts(decode: Bytes -> string, b: Bytes): seq<string> {
    var cut := CutLines(b);
    LineTexts(decode, cut.lines) + if cut.rest == [] then [] else [StripEnd(decode(cut.rest), IsReturn)]
  }

  /**
   Writing a stream in any chunks and flushing once leaves the last `capacity`
   of the old entries and the stream's non-blank lines, numbered consecutively.
   */
  lemma StreamStored(decode: Bytes -> string, log: Log, chunks: seq<Bytes>)
    requires log.Valid()
    ensures var lines := Kept(StreamTexts(decode, Concat(chunks)));
      var w := Flush(decode, ConsumeAll(decode, Writer(log, []), chunks));
      && w.pending == []
      && w.log == Log(log.capacity, log.lastId + |lines|, LastOf(log.entries + Numbered(log.lastId + 1, lines), log.capacity))
  {
    ChunkingIndependent(decode, log, chunks);
    var b := Concat(chunks);
    assert [] + b == b;
    var cut := CutLines(b);
    var texts := LineTexts(decode, cut.lines);
    if cut.rest == [] {
      assert texts + [] == texts;
    } else {
      var last := StripEnd(decode(cut.rest), IsReturn);
      assert (texts + [last])[..|texts|] == texts;
    }
    PushAllKeepsLast(log, StreamTexts(decode, b));
  }

  // ── The source's objects ───────────────────────────────────────────────

  class RuntimeLogStore {
    const capacity: nat
    var lastId: nat
    var entries: seq<Entry>

    ghost predicate Valid()
      reads this
    {
      View().Valid()
    }

    ghost function View(): Log
      reads this
    {
      Log(capacity, lastId, entries)
    }

    constructor (capacity: nat)
      ensures Valid() && View() == Log(if capacity < 1 then 1 else capacity, 0, [])
    {
      this.capacity := if capacity < 1 then 1 else capacity;
      lastId, entries := 0, [];
    }

    method PushLine(text: string)
      requires Valid()
      modifies this
      ensures Valid() && View() == Push(old(View()), text)
    {
      var stripped := AnsiStripper.StripAnsiSequences(text);
      var line := Trim(stripped);
      if line == "" {
        return;
      }
      lastId := lastId + 1;
      var entry := Entry(lastId, line);
      if |entries| >= capacity {
        entries := entries[1..];
      }
      entries := entries + [entry];
    }

    method Clear() returns (removed: nat)
      requires Valid()
      modifies this`entries
      ensures Valid() && entries == [] && removed == |old(entries)|
    {
      removed := |entries|;
      entries := [];
    }

    /** The most recent entries, at least one and at most the capacity asked for. */
    method Tail(limit: nat) returns (tail: seq<Entry>)
      requires Valid()
      ensures tail == LastOf(entries, if limit < 1 then 1 else limit)
    {
      var atLeastOne := if limit < 1 then 1 else limit;
      var bounded := if atLeastOne > capacity then capacity else atLeastOne;
      var start := if |entries| > bounded then |entries| - bounded else 0;
      tail := entries[start..];
    }
  }

  class RuntimeLogWriter {
    const store: RuntimeLogStore
    const decode: Bytes -> string
    var pending: Bytes

    ghost predicate Valid()
      reads this, store
    {
      store.Valid()
    }

    ghost function View(): Writer
      reads this, store
    {
      Writer(store.View(), pending)
    }

    constructor (store: RuntimeLogStore, decode: Bytes -> string)
      requires store.Valid()
      ensures Valid() && this.store == store && this.decode == decode && View() == Writer(store.View(), [])
    {
      this.store, this.decode, pending := store, decode, [];
    }

    method ConsumeBytes(bytes: Bytes)
      requires Valid()
      modifies this, store
      ensures Valid() && View() == Consume(decode, old(View()), bytes)
    {
      hide CutLines, LineTexts, PushAll, Push, FirstNewline;
      ghost var log := store.View();
      NothingPushed(decode, log);
      pending := pending + bytes;
      ghost var whole := pending;
      ghost var done: seq<Bytes> := [];
      var pos := FirstNewline(pending);
      while pos >= 0
        invariant Valid() && pos == FirstNewline(pending)
        invariant CutLines(whole).lines == done + CutLines(pending).lines
        invariant CutLines(whole).rest == CutLines(pending).rest
        invariant store.View() == PushAll(log, LineTexts(decode, done))
        decreases |pending|
      {
        var line := pending[..pos + 1];
        CutUnfold(pending);
        PushedLine(decode, log, done, line);
        pending := pending[pos + 1..];
        Assoc(done, [line], CutLines(pending).lines);
        store.PushLine(StripEnd(decode(line), IsLineEnd));
        done := done + [line];
        pos := FirstNewline(pending);
      }
      NoMoreLines(pending);
      assert done + [] == done;
    }

    method FlushPending()
      requires Valid()
      modifies this, store
      ensures Valid() && View() == Flush(decode, old(View()))
    {
      if pending != [] {
        var rest := pending;
        pending := [];
        store.PushLine(StripEnd(decode(rest), IsReturn));
      }
    }
  }

  // ── Concurrent pushers ─────────────────────────────────────────────────

  /** A pusher takes its id before it takes the lock, so the two are separate steps. */
  datatype Action = TakeId(line: string) | Append(index: nat) | ClearAll

  datatype Shared = Shared(log: Log, waiting: seq<Entry>)

  function Step(s: Shared, a: Action): Shared {
    match a
    case TakeId(line) =>
      var id := s.log.lastId + 1;
      Shared(s.log.(lastId := id), s.waiting + [Entry(id, line)])
    case Append(i) =>
      if i < |s.waiting| then
        Shared(s.log.(entries := LastOf(s.log.entries + [s.waiting[i]], s.log.capacity)), s.waiting[..i] + s.waiting[i + 1..])
      else s
    case ClearAll => Shared(s.log.(entries := []), s.waiting)
  }

  function Run(s: Shared, actions: seq<Action>): Shared {
    if actions == [] then s else Step(Run(s, actions[..|actions| - 1]), actions[|actions| - 1])
  }

  predicate DistinctIds(entries: seq<Entry>) {
    forall i, j :: 0 <= i < j < |entries| ==> entries[i].id != entries[j].id
  }

  /** Within capacity, and no id is both given out twice and still around. */
  ghost predicate Safe(s: Shared) {
    && s.log.Valid()
    && DistinctIds(s.log.entries + s.waiting)
    && forall e :: e in s.log.entries + s.waiting ==> e.id <= s.log.lastId
  }

  lemma StepSafe(s: Shared, a: Action)
    requires Safe(s)
    ensures Safe(Step(s, a))
  {
    var t := Step(s, a);
    var all, next := s.log.entries + s.waiting, t.log.entries + t.waiting;
    match a {
      case TakeId(line) =>
        assert next == all + [Entry(s.log.lastId + 1, line)];
      case Append(i) =>
        if i < |s.waiting| {
          AppendKeepsDistinct(s, i);
        }
      case ClearAll =>
        assert next == s.waiting;
        assert forall k :: 0 <= k < |s.waiting| ==> s.waiting[k] == all[|s.log.entries| + k];
    }
  }

  /** Where entry `k` stood before the one at `n + i` moved to `n`. */
  function Place(n: nat, i: nat, k: int): int {
    if k < n then k else if k == n then n + i else if k <= n + i then k - 1 else k
  }

  lemma MoveKeepsDistinct(entries: seq<Entry>, waiting: seq<Entry>, i: nat)
    requires i < |waiting| && DistinctIds(entries + waiting)
    ensures DistinctIds(entries + [waiting[i]] + (waiting[..i] + waiting[i + 1..]))
    ensures forall e :: e in entries + [waiting[i]] + (waiting[..i] + waiting[i + 1..]) ==> e in entries + waiting
  {
    var all, moved := entries + waiting, entries + [waiting[i]] + (waiting[..i] + waiting[i + 1..]);
    var n := |entries|;
    assert forall k :: 0 <= k < |moved| ==> 0 <= Place(n, i, k) < |all| && moved[k] == all[Place(n, i, k)];
    forall j, k | 0 <= j < k < |moved|
      ensures moved[j].id != moved[k].id
    {
      assert Place(n, i, j) != Place(n, i, k);
    }
  }

  /** Moving a waiting entry into the store only permutes and drops entries. */
  lemma AppendKeepsDistinct(s: Shared, i: nat)
    requires Safe(s) && i < |s.waiting|
    ensures Safe(Step(s, Append(i)))
  {
    var t := Step(s, Append(i));
    var stored := s.log.entries + [s.waiting[i]];
    var others := s.waiting[..i] + s.waiting[i + 1..];
    MoveKeepsDistinct(s.log.entries, s.waiting, i);
    var moved := stored + others;
    var drop := |stored| - |t.log.entries|;
    assert t.log.entries == stored[drop..];
    assert t.log.entries + t.waiting == moved[drop..];
    assert forall e :: e in moved[drop..] ==> e in moved;
  }

  /** Over every interleaving the store stays within capacity and its ids stay distinct. */
  lemma {:induction false} RunSafe(s: Shared, actions: seq<Action>)
    requires Safe(s)
    ensures Safe(Run(s, actions))
    decreases |actions|
  {
    if actions != [] {
      RunSafe(s, actions[..|actions| - 1]);
      StepSafe(Run(s, actions[..|actions| - 1]), actions[|actions| - 1]);
    }
  }

  // ── When the stored ids stay in order ──────────────────────────────────

  predicate Ascending(entries: seq<Entry>) {
    forall i, j :: 0 <= i < j < |entries| ==> entries[i].id < entries[j].id
  }

  /** An append in order: nothing else is left in the store, or its newest id is lower. */
  predicate InOrder(s: Shared, a: Action) {
    a.Append? && a.index < |s.waiting| ==>
      || s.log.entries == [] || s.log.capacity == 1
      || s.log.entries[|s.log.entries| - 1].id < s.waiting[a.index].id
  }

  lemma LastAscending(entries: seq<Entry>, e: Entry, capacity: nat)
    requires Ascending(entries) && 1 <= capacity && |entries| <= capacity
    requires forall k :: 0 <= k < |entries| ==> entries[k].id != e.id
    ensures Ascending(LastOf(entries + [e], capacity)) <==>
      entries == [] || capacity == 1 || entries[|entries| - 1].id < e.id
  {
    var n, next := |entries|, LastOf(entries + [e], capacity);
    var drop := n + 1 - |next|;
    assert forall k :: 0 <= k < |next| - 1 ==> next[k] == entries[k + drop];
    assert next[|next| - 1] == e;
    if n > 0 && capacity > 1 {
      assert next[|next| - 2] == entries[n - 1];
    }
  }

  /** From an ascending store, exactly the appends out of order break the order. */
  lemma StepAscendingIff(s: Shared, a: Action)
    requires Safe(s) && Ascending(s.log.entries)
    ensures Ascending(Step(s, a).log.entries) <==> InOrder(s, a)
  {
    hide LastOf;
    if a.Append? && a.index < |s.waiting| {
      var e := s.waiting[a.index];
      var all := s.log.entries + s.waiting;
      forall k | 0 <= k < |s.log.entries|
        ensures s.log.entries[k].id != e.id
      {
        assert all[k] == s.log.entries[k] && all[|s.log.entries| + a.index] == e;
      }
      LastAscending(s.log.entries, e, s.log.capacity);
    }
  }

  ghost predicate AlwaysAscending(s: Shared, actions: seq<Action>) {
    forall k :: 0 <= k <= |actions| ==> Ascending(Run(s, actions[..k]).log.entries)
  }

  ghost predicate AlwaysInOrder(s: Shared, actions: seq<Action>) {
    forall k :: 0 <= k < |actions| ==> InOrder(Run(s, actions[..k]), actions[k])
  }

  lemma AscendingSnoc(s: Shared, actions: seq<Action>)
    requires actions != []
    ensures var init := actions[..|actions| - 1];
      && (AlwaysAscending(s, actions) <==> AlwaysAscending(s, init) && Ascending(Run(s, actions).log.entries))
      && (AlwaysAscending(s, init) ==> Ascending(Run(s, init).log.entries))
  {
    hide Run, Ascending;
    var init := actions[..|actions| - 1];
    assert forall k :: 0 <= k <= |init| ==> actions[..k] == init[..k];
    assert init[..|init|] == init && actions[..|actions|] == actions;
  }

  lemma InOrderSnoc(s: Shared, actions: seq<Action>)
    requires actions != []
    ensures var init := actions[..|actions| - 1];
      AlwaysInOrder(s, actions) <==> AlwaysInOrder(s, init) && InOrder(Run(s, init), actions[|actions| - 1])
  {
    hide Run, InOrder;
    var init := actions[..|actions| - 1];
    assert forall k :: 0 <= k < |init| ==> actions[..k] == init[..k] && actions[k] == init[k];
  }

  lemma NothingYet(s: Shared)
    requires Ascending(s.log.entries)
    ensures AlwaysAscending(s, []) && AlwaysInOrder(s, [])
  {
    hide Ascending;
    var none: seq<Action> := [];
    assert none[..0] == none;
    assert Run(s, none) == s;
  }

  /**
   Over every interleaving of id-taking, appending and clearing, the stored ids
   ascend at every moment exactly when every append is in order.
   */
  lemma {:induction false} AscendingIffInOrder(s: Shared, actions: seq<Action>)
    requires Safe(s) && Ascending(s.log.entries)
    ensures AlwaysAscending(s, actions) <==> AlwaysInOrder(s, actions)
    decreases |actions|
  {
    hide Step, Safe, Ascending, InOrder, AlwaysAscending, AlwaysInOrder;
    if actions == [] {
      NothingYet(s);
    } else {
      var init, last := actions[..|actions| - 1], actions[|actions| - 1];
      AscendingIffInOrder(s, init);
      RunSafe(s, init);
      AscendingSnoc(s, actions);
      InOrderSnoc(s, actions);
      if AlwaysAscending(s, init) {
        StepAscendingIff(Run(s, init), last);
      }
    }
  }

  /** Pushers append in the order in which they took their ids. */
  predicate FirstComeFirst(actions: seq<Action>) {
    forall k :: 0 <= k < |actions| && actions[k].Append? ==> actions[k].index == 0
  }

  lemma AscendingRest(entries: seq<Entry>, drop: nat)
    requires Ascending(entries) && drop <= |entries|
    ensures Ascending(entries[drop..])
  {
  }

  lemma AscendingMore(entries: seq<Entry>, e: Entry)
    requires Ascending(entries) && forall k :: 0 <= k < |entries| ==> entries[k].id < e.id
    ensures Ascending(entries + [e])
  {
  }

  lemma StepFirstCome(s: Shared, a: Action)
    requires Safe(s) && Ascending(s.log.entries + s.waiting) && (a.Append? ==> a.index == 0)
    ensures Ascending(Step(s, a).log.entries + Step(s, a).waiting)
  {
    hide Ascending;
    var all, t := s.log.entries + s.waiting, Step(s, a);
    match a {
      case TakeId(line) =>
        assert t.log.entries + t.waiting == all + [Entry(s.log.lastId + 1, line)];
        AscendingMore(all, Entry(s.log.lastId + 1, line));
      case Append(i) =>
        if s.waiting != [] {
          FrontAppended(s.log.entries, s.waiting, s.log.capacity);
          AscendingRest(all, |all| - |t.log.entries + t.waiting|);
        }
      case ClearAll =>
        assert t.log.entries + t.waiting == all[|s.log.entries|..];
        AscendingRest(all, |s.log.entries|);
    }
  }

  lemma FrontAppended(entries: seq<Entry>, waiting: seq<Entry>, capacity: nat)
    requires waiting != []
    ensures var next := LastOf(entries + [waiting[0]], capacity) + (waiting[..0] + waiting[1..]);
      |next| <= |entries + waiting| && next == (entries + waiting)[|entries + waiting| - |next|..]
  {
    var stored := entries + [waiting[0]];
    assert stored + waiting[1..] == entries + waiting;
    assert waiting[..0] + waiting[1..] == waiting[1..];
    var drop := |stored| - |LastOf(stored, capacity)|;
    assert LastOf(stored, capacity) == stored[drop..];
    DropOfAppend(stored, waiting[1..], drop);
  }

  /** Then the stored ids ascend, those still waiting above them. */
  lemma {:induction false} FirstComeAscends(s: Shared, actions: seq<Action>)
    requires Safe(s) && Ascending(s.log.entries + s.waiting) && FirstComeFirst(actions)
    ensures Ascending(Run(s, actions).log.entries + Run(s, actions).waiting)
    ensures Ascending(Run(s, actions).log.entries)
    decreases |actions|
  {
    hide Step, Safe;
    if actions != [] {
      var init, last := actions[..|actions| - 1], actions[|actions| - 1];
      assert forall k :: 0 <= k < |init| ==> init[k] == actions[k];
      FirstComeAscends(s, init);
      RunSafe(s, init);
      StepFirstCome(Run(s, init), last);
    }
    var t := Run(s, actions);
    assert forall k :: 0 <= k < |t.log.entries| ==> t.log.entries[k] == (t.log.entries + t.waiting)[k];
  }

  /** Out of order it can go wrong: two pushers, the later id stored first. */
  lemma OrderNotKept()
    ensures var s := Run(Shared(Log(2, 0, []), []), [TakeId("a"), TakeId("b"), Append(1), Append(0)]);
      s.log.entries == [Entry(2, "b"), Entry(1, "a")]
  {
    var a := [TakeId("a"), TakeId("b"), Append(1), Append(0)];
    var s := Shared(Log(2, 0, []), []);
    assert a[..3] == [TakeId("a"), TakeId("b"), Append(1)] && a[..3][..2] == [TakeId("a"), TakeId("b")];
    assert a[..3][..2][..1] == [TakeId("a")] && a[..3][..2][..1][..0] == [];
    var s1 := Run(s, [TakeId("a")]);
    assert s1.waiting == [Entry(1, "a")];
    var s2 := Run(s, a[..3][..2]);
    assert s2.waiting == [Entry(1, "a"), Entry(2, "b")];
    var s3 := Run(s, a[..3]);
    assert s3.log.entries == [Entry(2, "b")] && s3.waiting == [Entry(1, "a")];
  }
}
