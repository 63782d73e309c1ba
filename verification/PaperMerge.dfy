/** Merging search results: one record per canonical id, newest first, topics united. */
module PaperMerge {
  import opened Wrappers
  import opened ArxivIds

  /** A record; `rest` stands for every field the merge only copies. */
  datatype Paper = Paper(id: Option<string>, arxivId: Option<string>, published: string, topics: seq<string>, rest: nat)

  // ── Lexicographic order ────────────────────────────────────────────────

  predicate Less(a: string, b: string) {
    b != "" && (a == "" || a[0] < b[0] || (a[0] == b[0] && Less(a[1..], b[1..])))
  }

  lemma {:induction false} LessTotal(a: string, b: string)
    ensures Less(a, b) || a == b || Less(b, a)
    decreases |a|
  {
    if a != "" && b != "" && a[0] == b[0] {
      LessTotal(a[1..], b[1..]);
      assert a == [a[0]] + a[1..] && b == [b[0]] + b[1..];
    }
  }

  lemma {:induction false} LessTransitive(a: string, b: string, c: string)
    requires Less(a, b) && Less(b, c)
    ensures Less(a, c)
    decreases |a|
  {
    if a != "" && a[0] == b[0] && b[0] == c[0] {
      LessTransitive(a[1..], b[1..], c[1..]);
    }
  }

  lemma {:induction false} LessIrreflexive(a: string)
    ensures !Less(a, a)
    decreases |a|
  {
    if a != "" {
      LessIrreflexive(a[1..]);
    }
  }

  // ── Sorted topic sets ──────────────────────────────────────────────────

  predicate Ascending(s: seq<string>) {
    forall i, j :: 0 <= i < j < |s| ==> Less(s[i], s[j])
  }

  function Elements(s: seq<string>): set<string> {
    set x | x in s
  }

  /** `x` in its place, once. */
  function Insert(s: seq<string>, x: string): seq<string> {
    if s == [] then [x]
    else if s[0] == x then s
    else if Less(x, s[0]) then [x] + s
    else [s[0]] + Insert(s[1..], x)
  }

  /** Below every element. */
  ghost predicate Below(x: string, elements: set<string>) {
    forall e :: e in elements ==> Less(x, e)
  }

  lemma PrependSorted(x: string, s: seq<string>)
    requires Ascending(s) && Below(x, Elements(s))
    ensures Ascending([x] + s) && Elements([x] + s) == Elements(s) + {x}
  {
    hide Less;
    var all := [x] + s;
    forall i, j | 0 <= i < j < |all|
      ensures Less(all[i], all[j])
    {
      assert all[j] == s[j - 1] && s[j - 1] in Elements(s);
      if i > 0 { assert all[i] == s[i - 1]; }
    }
    PrependElements(x, s);
  }

  lemma PrependElements(x: string, s: seq<string>)
    ensures Elements([x] + s) == Elements(s) + {x}
  {
    var all := [x] + s;
    forall e | e in Elements(s)
      ensures e in Elements(all)
    {
      var k :| 0 <= k < |s| && s[k] == e;
      assert all[k + 1] == e;
    }
    assert all[0] == x;
  }

  lemma HeadLess(s: seq<string>, x: string)
    requires Ascending(s) && s != [] && Less(x, s[0])
    ensures Below(x, Elements(s))
  {
    forall j | 0 <= j < |s|
      ensures Less(x, s[j])
    {
      if j > 0 { LessTransitive(x, s[0], s[j]); }
    }
  }

  lemma HeadBelow(s: seq<string>)
    requires Ascending(s) && s != []
    ensures Ascending(s[1..]) && Below(s[0], Elements(s[1..])) && Elements(s) == Elements(s[1..]) + {s[0]}
  {
    hide Less;
    var rest := s[1..];
    assert forall k :: 0 <= k < |rest| ==> rest[k] == s[k + 1];
    PrependElements(s[0], rest);
    assert [s[0]] + rest == s;
  }

  lemma {:induction false} InsertSorted(s: seq<string>, x: string)
    requires Ascending(s)
    ensures Ascending(Insert(s, x)) && Elements(Insert(s, x)) == Elements(s) + {x}
    decreases |s|
  {
    hide Less, Ascending, Elements;
    if s == [] {
      OneSorted(x);
    } else {
      HeadBelow(s);
      if s[0] != x {
        LessTotal(x, s[0]);
        if Less(x, s[0]) {
          HeadLess(s, x);
          PrependSorted(x, s);
        } else {
          InsertSorted(s[1..], x);
          PrependSorted(s[0], Insert(s[1..], x));
        }
      }
    }
  }

  lemma OneSorted(x: string)
    ensures Ascending([x]) && Elements([x]) == {x} && Elements([]) == {}
  {
    assert [x][0] in Elements([x]);
  }

  /** `sorted(set(topics))`. */
  function SortedSet(topics: seq<string>): seq<string> {
    if topics == [] then [] else Insert(SortedSet(topics[..|topics| - 1]), topics[|topics| - 1])
  }

  lemma {:induction false} SortedSetIs(topics: seq<string>)
    ensures Ascending(SortedSet(topics)) && Elements(SortedSet(topics)) == Elements(topics)
    decreases |topics|
  {
    if topics != [] {
      SortedSetIs(topics[..|topics| - 1]);
      InsertSorted(SortedSet(topics[..|topics| - 1]), topics[|topics| - 1]);
      assert topics == topics[..|topics| - 1] + [topics[|topics| - 1]];
    }
  }

  lemma NonEmptyElements(s: seq<string>)
    ensures s != [] ==> Elements(s) != {}
  {
    if s != [] { assert s[0] in Elements(s); }
  }

  /** A set has one ascending listing. */
  lemma {:induction false} AscendingUnique(a: seq<string>, b: seq<string>)
    requires Ascending(a) && Ascending(b) && Elements(a) == Elements(b)
    ensures a == b
    decreases |a|
  {
    NonEmptyElements(b);
    if a != [] {
      assert a[0] in Elements(b) && b != [];
      assert b[0] in Elements(a);
      var i :| 0 <= i < |b| && b[i] == a[0];
      var j :| 0 <= j < |a| && a[j] == b[0];
      HeadsEqual(a, b, i, j);
      forall x
        ensures x in Elements(a[1..]) <==> x in Elements(b[1..])
      {
        TailElements(a, x);
        TailElements(b, x);
      }
      AscendingUnique(a[1..], b[1..]);
      assert a == [a[0]] + a[1..] && b == [b[0]] + b[1..];
    }
  }

  lemma HeadsEqual(a: seq<string>, b: seq<string>, i: nat, j: nat)
    requires Ascending(a) && Ascending(b) && i < |b| && j < |a| && b[i] == a[0] && a[j] == b[0]
    ensures a[0] == b[0]
  {
    if i > 0 && j > 0 {
      LessTransitive(a[0], b[0], a[0]);
      LessIrreflexive(a[0]);
    }
  }

  lemma TailElements(a: seq<string>, x: string)
    requires a != [] && Ascending(a)
    ensures x in Elements(a[1..]) <==> x in Elements(a) && x != a[0]
  {
    LessIrreflexive(a[0]);
    if x in a[1..] {
      var k :| 0 <= k < |a| - 1 && a[1..][k] == x;
      assert Less(a[0], a[k + 1]);
    }
    assert a == [a[0]] + a[1..];
  }

  // ── Records in the order they were first seen ──────────────────────────

  /** The record a first paper of an id becomes. */
  function Recorded(p: Paper, id: string): Paper {
    p.(id := Some(id), arxivId := Some(id), topics := SortedSet(p.topics))
  }

  function IndexOf(acc: seq<Paper>, id: string): (r: int)
    ensures -1 <= r < |acc|
    ensures r >= 0 ==> acc[r].id == Some(id)
    ensures r < 0 ==> forall i :: 0 <= i < |acc| ==> acc[i].id != Some(id)
  {
    if acc == [] then -1
    else if acc[|acc| - 1].id == Some(id) then |acc| - 1
    else IndexOf(acc[..|acc| - 1], id)
  }

  function MergeOne(acc: seq<Paper>, p: Paper): seq<Paper> {
    match CanonicalId(p.arxivId)
    case None => acc
    case Some(id) =>
      var i := IndexOf(acc, id);
      if i < 0 then acc + [Recorded(p, id)]
      else acc[i := acc[i].(topics := SortedSet(acc[i].topics + p.topics))]
  }

  function MergeSeen(papers: seq<Paper>): seq<Paper> {
    if papers == [] then [] else MergeOne(MergeSeen(papers[..|papers| - 1]), papers[|papers| - 1])
  }

  /** Newest first; among equal dates the greater id first. */
  predicate Before(a: Paper, b: Paper)
    requires a.id.Some? && b.id.Some?
  {
    Less(b.published, a.published) || (a.published == b.published && Less(b.id.value, a.id.value))
  }

  predicate Identified(ps: seq<Paper>) {
    forall i :: 0 <= i < |ps| ==> ps[i].id.Some?
  }

  function InsertPaper(s: seq<Paper>, p: Paper): seq<Paper>
    requires Identified(s) && p.id.Some?
  {
    if s == [] then [p]
    else if Before(p, s[0]) then [p] + s
    else [s[0]] + InsertPaper(s[1..], p)
  }

  function Sorted(ps: seq<Paper>): (r: seq<Paper>)
    requires Identified(ps)
    ensures Identified(r) && |r| == |ps| && forall p :: p in r <==> p in ps
  {
    if ps == [] then []
    else
      var before := Sorted(ps[..|ps| - 1]);
      InsertedPapers(before, ps[|ps| - 1]);
      assert ps == ps[..|ps| - 1] + [ps[|ps| - 1]];
      InsertPaper(before, ps[|ps| - 1])
  }

  lemma {:induction false} InsertedPapers(s: seq<Paper>, p: Paper)
    requires Identified(s) && p.id.Some?
    ensures var r := InsertPaper(s, p);
      Identified(r) && |r| == |s| + 1 && forall q :: q in r <==> q in s || q == p
    decreases |s|
  {
    if s != [] {
      InsertedPapers(s[1..], p);
      assert s == [s[0]] + s[1..];
    }
  }

  function Flatten(results: seq<seq<Paper>>): seq<Paper> {
    if results == [] then [] else Flatten(results[..|results| - 1]) + results[|results| - 1]
  }

  function Merge(results: seq<seq<Paper>>): seq<Paper> {
    SeenIdentified(Flatten(results));
    Sorted(MergeSeen(Flatten(results)))
  }

  lemma NothingSeen()
    ensures Flatten([]) == [] && MergeSeen([]) == []
  {
  }

  lemma FlattenSnoc(results: seq<seq<Paper>>, i: nat)
    requires i < |results|
    ensures Flatten(results[..i + 1]) == Flatten(results[..i]) + results[i]
  {
    assert results[..i + 1][..i] == results[..i];
  }

  lemma SeenSnoc(flat: seq<Paper>, papers: seq<Paper>, k: nat)
    requires k < |papers|
    ensures MergeSeen(flat + papers[..k + 1]) == MergeOne(MergeSeen(flat + papers[..k]), papers[k])
  {
    hide MergeOne;
    var all := flat + papers[..k + 1];
    assert all[..|all| - 1] == flat + papers[..k] && all[|all| - 1] == papers[k];
  }

  method MergePapers(results: seq<seq<Paper>>) returns (merged: seq<Paper>)
    ensures merged == Merge(results)
  {
    hide CanonicalId, SortedSet, IndexOf, Recorded, MergeSeen, Flatten;
    var acc: seq<Paper> := [];
    NothingSeen();
    assert results[..0] == [];
    for i := 0 to |results|
      invariant acc == MergeSeen(Flatten(results[..i]))
    {
      var papers := results[i];
      ghost var flat := Flatten(results[..i]);
      FlattenSnoc(results, i);
      assert flat + papers[..0] == flat;
      for k := 0 to |papers|
        invariant acc == MergeSeen(flat + papers[..k])
      {
        SeenSnoc(flat, papers, k);
        var paper := papers[k];
        var id := CanonicalId(paper.arxivId);
        if id.None? {
          continue;
        }
        var at := IndexOf(acc, id.value);
        if at < 0 {
          acc := acc + [Recorded(paper, id.value)];
        } else {
          acc := acc[at := acc[at].(topics := SortedSet(acc[at].topics + paper.topics))];
        }
      }
      assert papers[..|papers|] == papers;
    }
    assert results[..|results|] == results;
    SeenIdentified(Flatten(results));
    merged := Sorted(acc);
  }

  // ── What a merge returns ───────────────────────────────────────────────

  /** The papers that denote an id. */
  predicate Denotes(p: Paper, id: string) {
    CanonicalId(p.arxivId) == Some(id)
  }

  /** All topics under which an id was found. */
  function TopicsOf(papers: seq<Paper>, id: string): set<string> {
    if papers == [] then {}
    else
      TopicsOf(papers[..|papers| - 1], id)
      + if Denotes(papers[|papers| - 1], id) then Elements(papers[|papers| - 1].topics) else {}
  }

  /** The first paper found for an id. */
  function FirstOf(papers: seq<Paper>, id: string): Option<Paper> {
    if papers == [] then None
    else
      match FirstOf(papers[..|papers| - 1], id)
      case Some(p) => Some(p)
      case None => if Denotes(papers[|papers| - 1], id) then Some(papers[|papers| - 1]) else None
  }

  /** The one record an id should have: its first paper, under the id, with all its topics. */
  ghost predicate IsRecordOf(r: Paper, papers: seq<Paper>, id: string) {
    && FirstOf(papers, id).Some?
    && r == FirstOf(papers, id).value.(id := Some(id), arxivId := Some(id), topics := r.topics)
    && Ascending(r.topics) && Elements(r.topics) == TopicsOf(papers, id)
  }

  ghost predicate RecordsOf(acc: seq<Paper>, papers: seq<Paper>) {
    && (forall i :: 0 <= i < |acc| ==> acc[i].id.Some? && IsRecordOf(acc[i], papers, acc[i].id.value))
    && (forall i, j :: 0 <= i < j < |acc| ==> acc[i].id != acc[j].id)
    && (forall id :: FirstOf(papers, id).Some? ==> IndexOf(acc, id) >= 0)
  }

  lemma {:induction false} NoTopicsUnseen(papers: seq<Paper>, id: string)
    requires FirstOf(papers, id).None?
    ensures TopicsOf(papers, id) == {}
    decreases |papers|
  {
    hide Denotes;
    if papers != [] {
      NoTopicsUnseen(papers[..|papers| - 1], id);
    }
  }

  lemma IndexFound(acc: seq<Paper>, i: nat, id: string)
    requires i < |acc| && acc[i].id == Some(id)
    ensures IndexOf(acc, id) >= 0
  {
  }

  lemma FirstMore(init: seq<Paper>, p: Paper, id: string)
    ensures FirstOf(init + [p], id) ==
      if FirstOf(init, id).Some? then FirstOf(init, id) else if Denotes(p, id) then Some(p) else None
    ensures TopicsOf(init + [p], id) == TopicsOf(init, id) + if Denotes(p, id) then Elements(p.topics) else {}
  {
    assert (init + [p])[..|init|] == init;
  }

  lemma ElementsAppend(a: seq<string>, b: seq<string>)
    ensures Elements(a + b) == Elements(a) + Elements(b)
  {
  }

  lemma MergeOneRecords(acc: seq<Paper>, init: seq<Paper>, p: Paper)
    requires RecordsOf(acc, init)
    ensures RecordsOf(MergeOne(acc, p), init + [p])
  {
    hide SortedSet, Denotes, CanonicalId, FirstOf, TopicsOf, Elements, Ascending;
    var next, papers := MergeOne(acc, p), init + [p];
    forall id
      ensures FirstOf(papers, id) ==
        if FirstOf(init, id).Some? then FirstOf(init, id) else if Denotes(p, id) then Some(p) else None
      ensures TopicsOf(papers, id) == TopicsOf(init, id) + if Denotes(p, id) then Elements(p.topics) else {}
    {
      FirstMore(init, p, id);
    }
    forall i | 0 <= i < |next|
      ensures next[i].id.Some? && IsRecordOf(next[i], papers, next[i].id.value)
    {
      MergedRecord(acc, init, p, i);
    }
    forall i, j | 0 <= i < j < |next|
      ensures next[i].id != next[j].id
    {
      MergedIds(acc, init, p, i);
      MergedIds(acc, init, p, j);
    }
    forall id | FirstOf(papers, id).Some?
      ensures IndexOf(next, id) >= 0
    {
      MergedIndex(acc, init, p, id);
    }
  }

  /** A merge keeps every id in place, and may add the paper's own at the end. */
  lemma MergedIds(acc: seq<Paper>, init: seq<Paper>, p: Paper, i: nat)
    requires RecordsOf(acc, init) && i < |MergeOne(acc, p)|
    ensures i < |acc| ==> MergeOne(acc, p)[i].id == acc[i].id
    ensures i >= |acc| ==> i == |acc| && MergeOne(acc, p)[i].id == CanonicalId(p.arxivId)
    ensures i >= |acc| ==> forall k :: 0 <= k < |acc| ==> acc[k].id != CanonicalId(p.arxivId)
  {
    hide SortedSet, CanonicalId, IsRecordOf;
  }

  lemma MergedIndex(acc: seq<Paper>, init: seq<Paper>, p: Paper, id: string)
    requires RecordsOf(acc, init) && (FirstOf(init, id).Some? || Denotes(p, id))
    ensures IndexOf(MergeOne(acc, p), id) >= 0
  {
    hide SortedSet, CanonicalId, IsRecordOf, FirstOf;
    var k := IndexOf(acc, id);
    if k >= 0 {
      MergedIds(acc, init, p, k);
      IndexFound(MergeOne(acc, p), k, id);
    } else {
      IndexFound(MergeOne(acc, p), |acc|, id);
    }
  }

  lemma MergedRecord(acc: seq<Paper>, init: seq<Paper>, p: Paper, i: nat)
    requires RecordsOf(acc, init) && i < |MergeOne(acc, p)|
    ensures var r := MergeOne(acc, p)[i]; r.id.Some? && IsRecordOf(r, init + [p], r.id.value)
  {
    hide SortedSet, CanonicalId, FirstOf, TopicsOf, Elements, Ascending;
    MergedIds(acc, init, p, i);
    if i < |acc| {
      var id := acc[i].id.value;
      FirstMore(init, p, id);
      SortedSetIs(acc[i].topics + p.topics);
      ElementsAppend(acc[i].topics, p.topics);
      IndexFound(acc, i, id);
    } else {
      var id := CanonicalId(p.arxivId).value;
      FirstMore(init, p, id);
      assert FirstOf(init, id).Some? ==> IndexOf(acc, id) >= 0;
      NoTopicsUnseen(init, id);
      SortedSetIs(p.topics);
    }
  }

  lemma {:induction false} SeenRecords(papers: seq<Paper>)
    ensures RecordsOf(MergeSeen(papers), papers)
    decreases |papers|
  {
    hide MergeOne, IsRecordOf, CanonicalId;
    if papers != [] {
      var init, last := papers[..|papers| - 1], papers[|papers| - 1];
      SeenRecords(init);
      MergeOneRecords(MergeSeen(init), init, last);
      assert papers == init + [last];
    }
  }

  lemma {:induction false} SeenIdentified(papers: seq<Paper>)
    ensures Identified(MergeSeen(papers))
    decreases |papers|
  {
    hide CanonicalId, SortedSet;
    if papers != [] {
      SeenIdentified(papers[..|papers| - 1]);
    }
  }

  // ── Order ──────────────────────────────────────────────────────────────

  lemma BeforeTotal(a: Paper, b: Paper)
    requires a.id.Some? && b.id.Some? && a.id != b.id
    ensures Before(a, b) || Before(b, a)
  {
    LessTotal(a.published, b.published);
    LessTotal(a.id.value, b.id.value);
  }

  lemma BeforeTransitive(a: Paper, b: Paper, c: Paper)
    requires a.id.Some? && b.id.Some? && c.id.Some? && Before(a, b) && Before(b, c)
    ensures Before(a, c)
  {
    if Less(b.published, a.published) && Less(c.published, b.published) {
      LessTransitive(c.published, b.published, a.published);
    } else if a.published == b.published == c.published {
      LessTransitive(c.id.value, b.id.value, a.id.value);
    }
  }

  lemma BeforeAsymmetric(a: Paper, b: Paper)
    requires a.id.Some? && b.id.Some? && Before(a, b)
    ensures !Before(b, a)
  {
    LessIrreflexive(a.published);
    LessIrreflexive(a.id.value);
    if Before(b, a) { BeforeTransitive(a, b, a); }
  }

  predicate Descending(ps: seq<Paper>)
    requires Identified(ps)
  {
    forall i, j :: 0 <= i < j < |ps| ==> Before(ps[i], ps[j])
  }

  predicate DistinctIds(ps: seq<Paper>) {
    forall i, j :: 0 <= i < j < |ps| ==> ps[i].id != ps[j].id
  }

  lemma {:induction false} InsertDescending(s: seq<Paper>, p: Paper)
    requires Identified(s) && p.id.Some? && Descending(s)
    requires forall i :: 0 <= i < |s| ==> s[i].id != p.id
    ensures Identified(InsertPaper(s, p)) && Descending(InsertPaper(s, p))
    decreases |s|
  {
    hide Before;
    InsertedPapers(s, p);
    if s != [] {
      BeforeTotal(p, s[0]);
      if Before(p, s[0]) {
        forall j | 0 <= j < |s|
          ensures Before(p, s[j])
        {
          if j > 0 { BeforeTransitive(p, s[0], s[j]); }
        }
      } else {
        var tail := InsertPaper(s[1..], p);
        InsertDescending(s[1..], p);
        InsertedPapers(s[1..], p);
        forall j | 0 <= j < |tail|
          ensures Before(s[0], tail[j])
        {
          assert tail[j] in tail;
          if tail[j] != p {
            var k :| 0 <= k < |s| - 1 && s[1..][k] == tail[j];
            assert s[k + 1] == tail[j];
          }
        }
      }
    }
  }

  lemma {:induction false} SortedDescending(ps: seq<Paper>)
    requires Identified(ps) && DistinctIds(ps)
    ensures Descending(Sorted(ps))
    decreases |ps|
  {
    hide Before, InsertPaper;
    if ps != [] {
      var init, last := ps[..|ps| - 1], ps[|ps| - 1];
      SortedDescending(init);
      forall i | 0 <= i < |Sorted(init)|
        ensures Sorted(init)[i].id != last.id
      {
        assert Sorted(init)[i] in init;
        var k :| 0 <= k < |init| && init[k] == Sorted(init)[i];
        assert ps[k].id != last.id;
      }
      InsertDescending(Sorted(init), last);
    }
  }

  lemma {:induction false} InsertDistinct(s: seq<Paper>, p: Paper)
    requires Identified(s) && p.id.Some? && DistinctIds(s)
    requires forall i :: 0 <= i < |s| ==> s[i].id != p.id
    ensures DistinctIds(InsertPaper(s, p))
    decreases |s|
  {
    hide Before;
    if s != [] && !Before(p, s[0]) {
      var tail := InsertPaper(s[1..], p);
      InsertDistinct(s[1..], p);
      InsertedPapers(s[1..], p);
      forall j | 0 <= j < |tail|
        ensures tail[j].id != s[0].id
      {
        assert tail[j] in tail;
        if tail[j] != p {
          var k :| 0 <= k < |s| - 1 && s[1..][k] == tail[j];
          assert s[k + 1] == tail[j];
        }
      }
    }
  }

  lemma {:induction false} SortedDistinct(ps: seq<Paper>)
    requires Identified(ps) && DistinctIds(ps)
    ensures DistinctIds(Sorted(ps))
    decreases |ps|
  {
    hide Before, InsertPaper;
    if ps != [] {
      var init, last := ps[..|ps| - 1], ps[|ps| - 1];
      SortedDistinct(init);
      forall i | 0 <= i < |Sorted(init)|
        ensures Sorted(init)[i].id != last.id
      {
        assert Sorted(init)[i] in init;
        var k :| 0 <= k < |init| && init[k] == Sorted(init)[i];
        assert ps[k].id != last.id;
      }
      InsertDistinct(Sorted(init), last);
    }
  }

  lemma {:induction false} InsertLast(s: seq<Paper>, p: Paper)
    requires Identified(s) && p.id.Some? && forall i :: 0 <= i < |s| ==> Before(s[i], p)
    ensures InsertPaper(s, p) == s + [p]
    decreases |s|
  {
    hide Before;
    if s != [] {
      BeforeAsymmetric(s[0], p);
      InsertLast(s[1..], p);
      assert [s[0]] + (s[1..] + [p]) == s + [p];
    }
  }

  lemma {:induction false} SortedFixed(ps: seq<Paper>)
    requires Identified(ps) && Descending(ps)
    ensures Sorted(ps) == ps
    decreases |ps|
  {
    hide Before, InsertPaper;
    if ps != [] {
      SortedFixed(ps[..|ps| - 1]);
      InsertLast(ps[..|ps| - 1], ps[|ps| - 1]);
      assert ps[..|ps| - 1] + [ps[|ps| - 1]] == ps;
    }
  }

  // ── Main results ───────────────────────────────────────────────────────

  /**
   A merge returns exactly one record for each id found, in strictly descending
   order: the first paper found for the id, under the id, with the ascending
   list of every topic it was found under.
   */
  lemma MergeRecords(results: seq<seq<Paper>>)
    ensures var out, papers := Merge(results), Flatten(results);
      && Identified(out) && Descending(out) && DistinctIds(out)
      && (forall i :: 0 <= i < |out| ==> IsRecordOf(out[i], papers, out[i].id.value))
      && (forall id :: FirstOf(papers, id).Some? <==> exists i :: 0 <= i < |out| && out[i].id == Some(id))
  {
    hide MergeSeen, IsRecordOf, Descending, FirstOf;
    var papers := Flatten(results);
    SeenIdentified(papers);
    SeenRecords(papers);
    var acc, out := MergeSeen(papers), Merge(results);
    SortedDescending(acc);
    SortedDistinct(acc);
    forall i | 0 <= i < |out|
      ensures IsRecordOf(out[i], papers, out[i].id.value)
    {
      assert out[i] in acc;
    }
    forall id
      ensures FirstOf(papers, id).Some? <==> exists i :: 0 <= i < |out| && out[i].id == Some(id)
    {
      if FirstOf(papers, id).Some? {
        var k := IndexOf(acc, id);
        assert acc[k] in out;
      }
      if i :| 0 <= i < |out| && out[i].id == Some(id) {
        RecordFound(out[i], papers, id);
      }
    }
  }

  lemma RecordFound(r: Paper, papers: seq<Paper>, id: string)
    ensures IsRecordOf(r, papers, id) ==> FirstOf(papers, id).Some?
  {
  }

  lemma {:induction false} FirstDenotes(papers: seq<Paper>, id: string)
    ensures FirstOf(papers, id).Some? ==> Denotes(FirstOf(papers, id).value, id) && IsCanonical(id)
    decreases |papers|
  {
    hide CanonicalId;
    if papers != [] {
      FirstDenotes(papers[..|papers| - 1], id);
    }
  }

  /** A merged record is recorded as itself. */
  lemma RecordStable(r: Paper, papers: seq<Paper>)
    requires r.id.Some? && IsRecordOf(r, papers, r.id.value)
    ensures CanonicalId(r.arxivId) == r.id && Recorded(r, r.id.value) == r
  {
    hide CanonicalId, SortedSet, IsCanonical;
    var id := r.id.value;
    FirstDenotes(papers, id);
    CanonicalFixedIff(id);
    SortedSetIs(r.topics);
    AscendingUnique(SortedSet(r.topics), r.topics);
  }

  lemma {:induction false} MergeSeenFixed(out: seq<Paper>, papers: seq<Paper>)
    requires Identified(out) && DistinctIds(out)
    requires forall i :: 0 <= i < |out| ==> IsRecordOf(out[i], papers, out[i].id.value)
    ensures MergeSeen(out) == out
    decreases |out|
  {
    hide CanonicalId, Recorded, IsRecordOf;
    if out != [] {
      var init, last := out[..|out| - 1], out[|out| - 1];
      MergeSeenFixed(init, papers);
      RecordStable(last, papers);
      assert IndexOf(init, last.id.value) < 0;
      assert init + [last] == out;
    }
  }

  /** Merging a merge's own output changes nothing. */
  lemma MergeIdempotent(results: seq<seq<Paper>>)
    ensures Merge([Merge(results)]) == Merge(results)
  {
    hide MergeSeen, IsRecordOf, Descending, Sorted;
    var out := Merge(results);
    MergeRecords(results);
    MergeSeenFixed(out, Flatten(results));
    assert [out][..0] == [];
    assert Flatten([out]) == [] + out == out;
    SortedFixed(out);
  }
}
