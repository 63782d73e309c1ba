/**
 Importing memory entries into a key-value store without ever overwriting one:
 a key that holds something else is given a numbered name.
 */
module Migration {
  import opened Wrappers
  import opened Text

  datatype Category = Core | Daily | Conversation | Custom(name: string)

  datatype SourceEntry = SourceEntry(key: string, content: string, category: Category)

  datatype Stored = Stored(content: string, category: Category)

  type Store = map<string, Stored>

  datatype Stats = Stats(imported: nat, skippedUnchanged: nat, renamedConflicts: nat)

  const MAX_SUFFIX: nat := 10_000

  // ── Fresh names ────────────────────────────────────────────────────────

  function Candidate(base: string, i: nat): string {
    base + "__openclaw_" + Numeral(i)
  }

  function FreshFrom(store: Store, base: string, i: nat): (r: Option<nat>)
    requires 1 <= i <= MAX_SUFFIX + 1
    ensures r.Some? ==> i <= r.value <= MAX_SUFFIX && Candidate(base, r.value) !in store
    ensures r.Some? ==> forall k :: i <= k < r.value ==> Candidate(base, k) in store
    ensures r.None? ==> forall k :: i <= k <= MAX_SUFFIX ==> Candidate(base, k) in store
    decreases MAX_SUFFIX + 1 - i
  {
    if i > MAX_SUFFIX then None
    else if Candidate(base, i) !in store then Some(i)
    else FreshFrom(store, base, i + 1)
  }

  /** The least suffix whose name is free. */
  function FreshIndex(store: Store, base: string): (r: Option<nat>)
    ensures r.Some? ==> 1 <= r.value <= MAX_SUFFIX && Candidate(base, r.value) !in store
    ensures r.Some? ==> forall k :: 1 <= k < r.value ==> Candidate(base, k) in store
  {
    FreshFrom(store, base, 1)
  }

  lemma CandidateInjective(base: string, i: nat, j: nat)
    requires Candidate(base, i) == Candidate(base, j)
    ensures i == j
  {
    var prefix := base + "__openclaw_";
    assert Candidate(base, i)[|prefix|..] == Numeral(i) && Candidate(base, j)[|prefix|..] == Numeral(j);
    NumeralInjective(i, j);
  }

  ghost function Candidates(base: string, n: nat): set<string> {
    set i | 1 <= i <= n :: Candidate(base, i)
  }

  lemma {:induction false} CandidatesCount(base: string, n: nat)
    ensures |Candidates(base, n)| == n
    decreases n
  {
    if n > 0 {
      CandidatesCount(base, n - 1);
      assert Candidates(base, n) == Candidates(base, n - 1) + {Candidate(base, n)};
      if Candidate(base, n) in Candidates(base, n - 1) {
        var i :| 1 <= i <= n - 1 && Candidate(base, i) == Candidate(base, n);
        CandidateInjective(base, i, n);
      }
    }
  }

  lemma SubsetSize<T>(a: set<T>, b: set<T>)
    requires a <= b
    ensures |a| <= |b|
  {
    assert b == a + (b - a);
  }

  /** A free name exists whenever the store holds fewer entries than there are suffixes. */
  lemma FreshExists(store: Store, base: string)
    requires |store| < MAX_SUFFIX
    ensures FreshIndex(store, base).Some?
  {
    if FreshIndex(store, base).None? {
      CandidatesCount(base, MAX_SUFFIX);
      SubsetSize(Candidates(base, MAX_SUFFIX), store.Keys);
    }
  }

  // ── Importing ──────────────────────────────────────────────────────────

  function TargetKey(e: SourceEntry, idx: nat): string {
    if Trim(e.key) == "" then "openclaw_" + Numeral(idx) else Trim(e.key)
  }

  datatype Progress = Progress(store: Store, stats: Stats)

  predicate SameContent(stored: Stored, e: SourceEntry) {
    Trim(stored.content) == Trim(e.content)
  }

  /** One entry: skipped, stored under its key, or stored under a fresh name. */
  function ImportOne(p: Progress, e: SourceEntry, idx: nat): Option<Progress> {
    var key := TargetKey(e, idx);
    var value := Stored(e.content, e.category);
    if key !in p.store then
      Some(Progress(p.store[key := value], p.stats.(imported := p.stats.imported + 1)))
    else if SameContent(p.store[key], e) then
      Some(p.(stats := p.stats.(skippedUnchanged := p.stats.skippedUnchanged + 1)))
    else
      match FreshIndex(p.store, key)
      case None => None
      case Some(i) =>
        Some(Progress(p.store[Candidate(key, i) := value],
          p.stats.(imported := p.stats.imported + 1, renamedConflicts := p.stats.renamedConflicts + 1)))
  }

  function ImportAll(store: Store, entries: seq<SourceEntry>): Option<Progress> {
    if entries == [] then Some(Progress(store, Stats(0, 0, 0)))
    else
      match ImportAll(store, entries[..|entries| - 1])
      case None => None
      case Some(p) => ImportOne(p, entries[|entries| - 1], |entries| - 1)
  }

  ghost predicate Preserves(before: Store, after: Store) {
    forall k :: k in before ==> k in after && after[k] == before[k]
  }

  /** The entry's content is found under its key or under one of its numbered names. */
  ghost predicate Found(store: Store, e: SourceEntry, idx: nat) {
    var key := TargetKey(e, idx);
    || (key in store && SameContent(store[key], e))
    || exists i :: 1 <= i <= MAX_SUFFIX && Candidate(key, i) in store && SameContent(store[Candidate(key, i)], e)
  }

  lemma ImportOneKeeps(p: Progress, e: SourceEntry, idx: nat)
    requires ImportOne(p, e, idx).Some?
    ensures var q := ImportOne(p, e, idx).value;
      && Preserves(p.store, q.store) && Found(q.store, e, idx) && TargetKey(e, idx) in q.store
      && |q.store| - |p.store| == q.stats.imported - p.stats.imported
      && q.stats.imported + q.stats.skippedUnchanged == p.stats.imported + p.stats.skippedUnchanged + 1
      && q.stats.imported - p.stats.imported >= q.stats.renamedConflicts - p.stats.renamedConflicts
      && q.stats.renamedConflicts - p.stats.renamedConflicts == (if Conflicts(q.store, e, idx) then 1 else 0)
  {
    hide Trim;
  }

  lemma PreservesTrans(a: Store, b: Store, c: Store)
    ensures Preserves(a, a)
    ensures Preserves(a, b) && Preserves(b, c) ==> Preserves(a, c)
  {
  }

  lemma FoundPersists(before: Store, after: Store, e: SourceEntry, idx: nat)
    requires Preserves(before, after) && Found(before, e, idx)
    ensures Found(after, e, idx)
  {
    hide Candidate, TargetKey;
  }

  lemma ImportNothing(store: Store)
    ensures ImportAll(store, []) == Some(Progress(store, Stats(0, 0, 0)))
  {
  }

  lemma ImportSnoc(store: Store, entries: seq<SourceEntry>)
    requires entries != [] && ImportAll(store, entries).Some?
    ensures var init, last := entries[..|entries| - 1], |entries| - 1;
      && ImportAll(store, init).Some?
      && ImportAll(store, entries) == ImportOne(ImportAll(store, init).value, entries[last], last)
  {
    hide ImportOne;
  }

  /**
   A completed import accounts for every source entry, adds exactly what it
   counts as imported, changes no entry that was there, and loses no content.
   */
  lemma {:induction false} ImportConserves(store: Store, entries: seq<SourceEntry>)
    requires ImportAll(store, entries).Some?
    ensures var p := ImportAll(store, entries).value;
      && Preserves(store, p.store)
      && p.stats.imported + p.stats.skippedUnchanged == |entries|
      && p.stats.renamedConflicts <= p.stats.imported
      && |p.store| == |store| + p.stats.imported
      && forall i :: 0 <= i < |entries| ==> Found(p.store, entries[i], i)
    decreases |entries|
  {
    hide ImportOne, ImportAll, Found, Preserves, TargetKey, Conflicts;
    if entries == [] {
      ImportNothing(store);
      PreservesTrans(store, store, store);
    } else {
      var init, last := entries[..|entries| - 1], |entries| - 1;
      ImportSnoc(store, entries);
      ImportConserves(store, init);
      var p, q := ImportAll(store, init).value, ImportAll(store, entries).value;
      ImportOneKeeps(p, entries[last], last);
      PreservesTrans(store, p.store, q.store);
      forall i | 0 <= i < last
        ensures Found(q.store, entries[i], i)
      {
        FoundPersists(p.store, q.store, init[i], i);
      }
    }
  }

  /** With room for every suffix, an import always completes. */
  lemma {:induction false} ImportCompletes(store: Store, entries: seq<SourceEntry>)
    requires |store| + |entries| <= MAX_SUFFIX
    ensures ImportAll(store, entries).Some?
    decreases |entries|
  {
    if entries != [] {
      var init, last := entries[..|entries| - 1], |entries| - 1;
      ImportCompletes(store, init);
      ImportConserves(store, init);
      FreshExists(ImportAll(store, init).value.store, TargetKey(entries[last], last));
    }
  }

  // ── Running the migration again ────────────────────────────────────────

  /** The entry's key holds other content, so it can only be imported under another name. */
  predicate Conflicts(store: Store, e: SourceEntry, idx: nat) {
    TargetKey(e, idx) in store && !SameContent(store[TargetKey(e, idx)], e)
  }

  function ConflictCount(store: Store, entries: seq<SourceEntry>): (r: nat)
    ensures r <= |entries|
  {
    if entries == [] then 0
    else
      ConflictCount(store, entries[..|entries| - 1])
      + if Conflicts(store, entries[|entries| - 1], |entries| - 1) then 1 else 0
  }

  lemma {:induction false} ConflictsPersist(before: Store, after: Store, entries: seq<SourceEntry>)
    requires Preserves(before, after)
    requires forall i :: 0 <= i < |entries| ==> TargetKey(entries[i], i) in before
    ensures ConflictCount(after, entries) == ConflictCount(before, entries)
    decreases |entries|
  {
    if entries != [] {
      ConflictsPersist(before, after, entries[..|entries| - 1]);
      assert TargetKey(entries[|entries| - 1], |entries| - 1) in before;
    }
  }

  /** After an import every key is taken, and exactly the renamed entries conflict with theirs. */
  lemma {:induction false} ImportConflicts(store: Store, entries: seq<SourceEntry>)
    requires ImportAll(store, entries).Some?
    ensures var p := ImportAll(store, entries).value;
      && (forall i :: 0 <= i < |entries| ==> TargetKey(entries[i], i) in p.store)
      && ConflictCount(p.store, entries) == p.stats.renamedConflicts
    decreases |entries|
  {
    hide ImportOne, TargetKey;
    if entries != [] {
      var init, last := entries[..|entries| - 1], |entries| - 1;
      ImportConflicts(store, init);
      var p, q := ImportAll(store, init).value, ImportAll(store, entries).value;
      ImportOneKeeps(p, entries[last], last);
      ConflictsPersist(p.store, q.store, init);
      forall i | 0 <= i < last
        ensures TargetKey(entries[i], i) in q.store
      {
        assert TargetKey(init[i], i) in p.store;
      }
    }
  }

  /** Where every key is taken, exactly the conflicting entries are imported, each under a new name. */
  lemma {:induction false} ImportTaken(store: Store, entries: seq<SourceEntry>)
    requires forall i :: 0 <= i < |entries| ==> TargetKey(entries[i], i) in store
    requires ImportAll(store, entries).Some?
    ensures var c := ConflictCount(store, entries);
      ImportAll(store, entries).value.stats == Stats(c, |entries| - c, c)
    decreases |entries|
  {
    if entries != [] {
      var init, last := entries[..|entries| - 1], |entries| - 1;
      ImportTaken(store, init);
      ImportConserves(store, init);
      assert TargetKey(entries[last], last) in store;
    }
  }

  /**
   A second run over the same source imports exactly the entries the first one
   renamed, again under new names, and skips all others.
   */
  lemma RerunImportsRenamed(store: Store, entries: seq<SourceEntry>)
    requires ImportAll(store, entries).Some?
    ensures var p := ImportAll(store, entries).value;
      ImportAll(p.store, entries).Some? ==>
        var q := ImportAll(p.store, entries).value;
        && q.stats.imported == q.stats.renamedConflicts == p.stats.renamedConflicts
        && q.stats.skippedUnchanged + p.stats.renamedConflicts == |entries|
  {
    var p := ImportAll(store, entries).value;
    ImportConflicts(store, entries);
    if ImportAll(p.store, entries).Some? {
      ImportTaken(p.store, entries);
    }
  }

  lemma UnchangedSkipped(p: Progress, e: SourceEntry, idx: nat)
    requires TargetKey(e, idx) in p.store && !Conflicts(p.store, e, idx)
    ensures ImportOne(p, e, idx) == Some(p.(stats := p.stats.(skippedUnchanged := p.stats.skippedUnchanged + 1)))
  {
    hide Trim, FreshIndex;
  }

  lemma {:induction false} NoConflictsNoChange(store: Store, entries: seq<SourceEntry>)
    requires forall i :: 0 <= i < |entries| ==> TargetKey(entries[i], i) in store
    requires ConflictCount(store, entries) == 0
    ensures ImportAll(store, entries) == Some(Progress(store, Stats(0, |entries|, 0)))
    decreases |entries|
  {
    hide ImportOne, TargetKey, Conflicts;
    if entries != [] {
      var last := |entries| - 1;
      NoConflictsNoChange(store, entries[..last]);
      UnchangedSkipped(Progress(store, Stats(0, last, 0)), entries[last], last);
    }
  }

  /** So re-running leaves the store as it is exactly when the first run renamed nothing. */
  lemma RerunStableIff(store: Store, entries: seq<SourceEntry>)
    requires ImportAll(store, entries).Some?
    ensures var p := ImportAll(store, entries).value;
      (ImportAll(p.store, entries).Some? && ImportAll(p.store, entries).value.store == p.store)
        <==> p.stats.renamedConflicts == 0
  {
    var p := ImportAll(store, entries).value;
    ImportConflicts(store, entries);
    if p.stats.renamedConflicts == 0 {
      NoConflictsNoChange(p.store, entries);
    } else if ImportAll(p.store, entries).Some? {
      RerunImportsRenamed(store, entries);
      ImportConserves(p.store, entries);
    }
  }

  // ── The source's loop over a store that may fail ───────────────────────

  /** The target backend: an upserting map each of whose operations may fail. */
  class Memory {
    var entries: Store
    var faults: seq<bool>

    constructor (entries: Store, faults: seq<bool>)
      ensures this.entries == entries && this.faults == faults
    {
      this.entries, this.faults := entries, faults;
    }

    method NextFault() returns (fails: bool)
      modifies this`faults
      ensures fails ==> old(faults) != []
      ensures old(faults) == [] ==> faults == []
    {
      fails := false;
      if faults != [] {
        fails := faults[0];
        faults := faults[1..];
      }
    }

    method Get(key: string) returns (r: Result<Option<Stored>, string>)
      modifies this`faults
      ensures r.Ok? ==> r.value == if key in entries then Some(entries[key]) else None
      ensures old(faults) == [] ==> r.Ok? && faults == []
    {
      var fails := NextFault();
      r := if fails then Err("get failed") else Ok(if key in entries then Some(entries[key]) else None);
    }

    method Put(key: string, value: Stored) returns (r: Result<(), string>)
      modifies this
      ensures r.Ok? ==> entries == old(entries)[key := value]
      ensures r.Err? ==> entries == old(entries)
      ensures old(faults) == [] ==> r.Ok? && faults == []
    {
      var fails := NextFault();
      if fails {
        r := Err("store failed");
      } else {
        entries := entries[key := value];
        r := Ok(());
      }
    }
  }

  method NextAvailableKey(memory: Memory, base: string) returns (r: Result<string, string>)
    modifies memory`faults
    ensures r.Ok? ==> FreshIndex(memory.entries, base).Some? && r.value == Candidate(base, FreshIndex(memory.entries, base).value)
    ensures old(memory.faults) == [] ==> memory.faults == [] && (r.Ok? <==> FreshIndex(memory.entries, base).Some?)
  {
    for i := 1 to MAX_SUFFIX + 1
      invariant FreshIndex(memory.entries, base) == FreshFrom(memory.entries, base, i)
      invariant old(memory.faults) == [] ==> memory.faults == []
    {
      var candidate := Candidate(base, i);
      var found := memory.Get(candidate);
      match found {
        case Err(e) => return Err(e);
        case Ok(None) => return Ok(candidate);
        case Ok(Some(_)) =>
      }
    }
    r := Err("Unable to allocate non-conflicting key");
  }

  /** Any prefix of the source, imported completely. */
  ghost predicate ImportedPrefix(before: Store, entries: seq<SourceEntry>, after: Store) {
    exists n :: 0 <= n <= |entries| && ImportAll(before, entries[..n]).Some? && ImportAll(before, entries[..n]).value.store == after
  }

  method MigrateEntries(memory: Memory, entries: seq<SourceEntry>) returns (r: Result<Stats, string>)
    modifies memory
    ensures r.Ok? ==> ImportAll(old(memory.entries), entries) == Some(Progress(memory.entries, r.value))
    ensures ImportedPrefix(old(memory.entries), entries, memory.entries)
    ensures old(memory.faults) == [] ==> (r.Ok? <==> ImportAll(old(memory.entries), entries).Some?)
  {
    hide FreshIndex, SameContent, TargetKey;
    var stats := Stats(0, 0, 0);
    for idx := 0 to |entries|
      invariant ImportAll(old(memory.entries), entries[..idx]) == Some(Progress(memory.entries, stats))
      invariant old(memory.faults) == [] ==> memory.faults == []
    {
      var entry := entries[idx];
      assert entries[..idx + 1][..idx] == entries[..idx];
      assert ImportAll(old(memory.entries), entries[..idx + 1]) == ImportOne(Progress(memory.entries, stats), entry, idx);
      assert ImportedPrefix(old(memory.entries), entries, memory.entries);
      if ImportAll(old(memory.entries), entries[..idx + 1]).None? {
        FailureSpreads(old(memory.entries), entries, idx + 1);
      }
      var key := TargetKey(entry, idx);
      var existing := memory.Get(key);
      if existing.Err? {
        return Err(existing.error);
      }
      if existing.value.Some? {
        if SameContent(existing.value.value, entry) {
          stats := stats.(skippedUnchanged := stats.skippedUnchanged + 1);
          continue;
        }
        var renamed := NextAvailableKey(memory, key);
        if renamed.Err? {
          return Err(renamed.error);
        }
        key := renamed.value;
        stats := stats.(renamedConflicts := stats.renamedConflicts + 1);
      }
      var stored := memory.Put(key, Stored(entry.content, entry.category));
      if stored.Err? {
        return Err(stored.error);
      }
      stats := stats.(imported := stats.imported + 1);
    }
    assert entries[..|entries|] == entries;
    r := Ok(stats);
  }

  lemma {:induction false} FailureSpreads(store: Store, entries: seq<SourceEntry>, n: nat)
    requires n <= |entries| && ImportAll(store, entries[..n]).None?
    ensures ImportAll(store, entries).None?
    decreases |entries| - n
  {
    if n == |entries| {
      assert entries[..n] == entries;
    } else {
      assert entries[..n + 1][..n] == entries[..n];
      FailureSpreads(store, entries, n + 1);
    }
  }

  /** On any outcome, complete or not, no entry that was there has changed. */
  lemma NeverOverwrites(before: Store, entries: seq<SourceEntry>, after: Store)
    requires ImportedPrefix(before, entries, after)
    ensures Preserves(before, after)
  {
    var n :| 0 <= n <= |entries| && ImportAll(before, entries[..n]).Some? && ImportAll(before, entries[..n]).value.store == after;
    ImportConserves(before, entries[..n]);
  }

  /** Some import does rename: the key is taken by other content, and a second run adds the entry once more. */
  lemma RenamingExists()
    ensures var store, entries := map["k" := Stored("x", Core)], [SourceEntry("k", "y", Core)];
      && ImportAll(store, entries).Some? && ImportAll(store, entries).value.stats == Stats(1, 0, 1)
      && var p := ImportAll(store, entries).value;
         ImportAll(p.store, entries).Some? && |ImportAll(p.store, entries).value.store| == 3
  {
    hide FreshIndex, Candidate;
    var e := SourceEntry("k", "y", Core);
    var store, entries := map["k" := Stored("x", Core)], [e];
    TrimFixed("k");
    TrimFixed("x");
    TrimFixed("y");
    assert entries[..0] == [];
    FreshExists(store, "k");
    assert ImportAll(store, entries[..0]) == Some(Progress(store, Stats(0, 0, 0)));
    ImportCompletes(store, entries);
    ImportConserves(store, entries);
    var p := ImportAll(store, entries).value;
    assert |store| == 1;
    ImportCompletes(p.store, entries);
    ImportConserves(p.store, entries);
    RerunImportsRenamed(store, entries);
  }
}
