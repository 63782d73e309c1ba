/**
 The release-tag guard: parsing version tags, the transition checks on one tag,
 and what they mean for a whole history of published tags.
 */
module ReleaseGuard {
  import opened Wrappers
  import opened Text

  datatype Stage = Alpha | Beta | Rc | Stable

  function Rank(s: Stage): nat {
    match s
    case Alpha => 1
    case Beta => 2
    case Rc => 3
    case Stable => 4
  }

  function StageName(s: Stage): string {
    match s
    case Alpha => "alpha"
    case Beta => "beta"
    case Rc => "rc"
    case Stable => "stable"
  }

  /** The stage a stage must follow. */
  function RequiredPrevious(s: Stage): Option<Stage> {
    match s
    case Alpha => None
    case Beta => Some(Alpha)
    case Rc => Some(Beta)
    case Stable => Some(Rc)
  }

  /** A parsed tag; a stable tag has no number. */
  datatype Release = Release(version: string, stage: Stage, number: Option<nat>)

  // ── Parsing tags ───────────────────────────────────────────────────────

  predicate IsNumeral(s: string) {
    s != "" && All(s, IsDigit)
  }

  /** `\d+\.\d+\.\d+`. */
  predicate IsVersion(s: string) {
    match FindChar(s, '.')
    case None => false
    case Some(i) =>
      match FindChar(s[i + 1..], '.')
      case None => false
      case Some(j) => IsNumeral(s[..i]) && IsNumeral(s[i + 1..][..j]) && IsNumeral(s[i + 1..][j + 1..])
  }

  function ParseStage(s: string): Option<Stage> {
    if s == "alpha" then Some(Alpha)
    else if s == "beta" then Some(Beta)
    else if s == "rc" then Some(Rc)
    else None
  }

  /** `vX.Y.Z` or `vX.Y.Z-stage.N`. */
  function ParseTag(tag: string): Option<Release> {
    if !StartsWith(tag, "v") then None
    else
      var body := tag[1..];
      match FindChar(body, '-')
      case None => if IsVersion(body) then Some(Release(body, Stable, None)) else None
      case Some(dash) =>
        var version, suffix := body[..dash], body[dash + 1..];
        match FindChar(suffix, '.')
        case None => None
        case Some(dot) =>
          var stage, number := ParseStage(suffix[..dot]), suffix[dot + 1..];
          if IsVersion(version) && stage.Some? && IsNumeral(number)
          then Some(Release(version, stage.value, Some(DigitsValue(number)))) else None
  }

  /** The order of releases of one version. */
  function Key(r: Release): (nat, nat) {
    (Rank(r.stage), if r.number.Some? then r.number.value else 0)
  }

  predicate Below(a: (nat, nat), b: (nat, nat)) {
    a.0 < b.0 || (a.0 == b.0 && a.1 < b.1)
  }

  /** Two different tags never denote the same stable release. */
  lemma StableTagUnique(a: string, b: string)
    requires ParseTag(a).Some? && ParseTag(b).Some?
    requires ParseTag(a).value.stage.Stable? && ParseTag(a).value == ParseTag(b).value
    ensures a == b
  {
    hide IsVersion;
    assert a[0..1] == "v" && b[0..1] == "v";
    assert a == "v" + a[1..] && b == "v" + b[1..];
  }

  lemma NumberIffNotStable(tag: string)
    requires ParseTag(tag).Some?
    ensures ParseTag(tag).value.stage.Stable? <==> ParseTag(tag).value.number.None?
  {
    hide IsVersion, IsNumeral;
  }

  // ── The guard ──────────────────────────────────────────────────────────

  /** What the guard learns outside the tag list. */
  datatype Facts = Facts(policyOk: bool, resolves: bool, reachable: bool, cargoReadable: bool, cargoVersion: string)

  datatype Violation =
    | PolicyViolation
    | Unresolvable
    | NotOnMain
    | NumberNotIncreasing
    | MissingPrerequisite(stage: Stage)
    | StageRegression
    | CargoUnreadable
    | CargoMismatch

  /** The tags matching the glob `v{version}*`, which is a prefix match. */
  function Listed(tags: seq<string>, version: string): seq<string> {
    if tags == [] then []
    else
      var last := tags[|tags| - 1];
      Listed(tags[..|tags| - 1], version) + if StartsWith(last, "v" + version) then [last] else []
  }

  /** The listed tags that parse, without the tag under test, whatever their version. */
  function Siblings(listed: seq<string>, tag: string): seq<Release> {
    if listed == [] then []
    else
      var last := listed[|listed| - 1];
      Siblings(listed[..|listed| - 1], tag) + if last != tag && ParseTag(last).Some? then [ParseTag(last).value] else []
  }

  function HighestKey(rs: seq<Release>): (r: Option<(nat, nat)>)
    ensures r.None? <==> rs == []
    ensures r.Some? ==> (exists i :: 0 <= i < |rs| && Key(rs[i]) == r.value) && forall i :: 0 <= i < |rs| ==> !Below(r.value, Key(rs[i]))
  {
    if rs == [] then None
    else
      var last := Key(rs[|rs| - 1]);
      match HighestKey(rs[..|rs| - 1])
      case None => Some(last)
      case Some(k) =>
        assert forall i :: 0 <= i < |rs| - 1 ==> rs[..|rs| - 1][i] == rs[i];
        if Below(k, last) then Some(last) else Some(k)
  }

  method HighestStageEntry(rs: seq<Release>) returns (best: Option<Release>)
    ensures best.None? <==> rs == []
    ensures best.Some? ==> best.value in rs && HighestKey(rs) == Some(Key(best.value))
  {
    best := None;
    for i := 0 to |rs|
      invariant best.None? <==> i == 0
      invariant best.Some? ==> best.value in rs && HighestKey(rs[..i]) == Some(Key(best.value))
    {
      assert rs[..i + 1][..i] == rs[..i];
      if best.None? || Below(Key(best.value), Key(rs[i])) {
        best := Some(rs[i]);
      }
    }
    assert rs[..|rs|] == rs;
  }

  predicate HasStage(rs: seq<Release>, s: Stage) {
    exists i :: 0 <= i < |rs| && rs[i].stage == s
  }

  predicate NumberTooLow(rs: seq<Release>, r: Release) {
    r.number.Some? && exists i :: 0 <= i < |rs| && rs[i].stage == r.stage && rs[i].number.Some? && r.number.value <= rs[i].number.value
  }

  predicate HigherStageExists(rs: seq<Release>, r: Release) {
    HighestKey(rs).Some? && HighestKey(rs).value.0 > Rank(r.stage)
  }

  lemma HigherStageIff(rs: seq<Release>, r: Release)
    ensures HigherStageExists(rs, r) <==> exists i :: 0 <= i < |rs| && Rank(rs[i].stage) > Rank(r.stage)
  {
    forall i | 0 <= i < |rs|
      ensures Key(rs[i]).0 == Rank(rs[i].stage)
    {
    }
  }

  /** All violations of a tag, in the order reported; none for a tag that does not parse. */
  function Violations(tags: seq<string>, tag: string, facts: Facts): Option<seq<Violation>> {
    match ParseTag(tag)
    case None => None
    case Some(r) =>
      var siblings := Siblings(Listed(tags, r.version), tag);
      var previous := RequiredPrevious(r.stage);
      Some(
        (if !facts.policyOk then [PolicyViolation] else [])
        + (if !facts.resolves then [Unresolvable] else if !facts.reachable then [NotOnMain] else [])
        + (if NumberTooLow(siblings, r) then [NumberNotIncreasing] else [])
        + (if previous.Some? && !HasStage(siblings, previous.value) then [MissingPrerequisite(previous.value)] else [])
        + (if HigherStageExists(siblings, r) then [StageRegression] else [])
        + (if !facts.resolves then []
           else if !facts.cargoReadable then [CargoUnreadable]
           else if facts.cargoVersion != "" && facts.cargoVersion != r.version then [CargoMismatch] else []))
  }

  predicate Publishable(tags: seq<string>, tag: string, facts: Facts) {
    Violations(tags, tag, facts) == Some([])
  }

  lemma PublishableMeans(tags: seq<string>, tag: string, facts: Facts)
    requires ParseTag(tag).Some?
    ensures var r := ParseTag(tag).value;
      var siblings := Siblings(Listed(tags, r.version), tag);
      Publishable(tags, tag, facts) <==>
        && facts.policyOk && facts.resolves && facts.reachable && facts.cargoReadable
        && (facts.cargoVersion == "" || facts.cargoVersion == r.version)
        && !NumberTooLow(siblings, r) && !HigherStageExists(siblings, r)
        && (RequiredPrevious(r.stage).Some? ==> HasStage(siblings, RequiredPrevious(r.stage).value))
  {
    hide Siblings, Listed, ParseTag, NumberTooLow, HigherStageExists, HasStage;
    var r := ParseTag(tag).value;
    var siblings := Siblings(Listed(tags, r.version), tag);
    var previous := RequiredPrevious(r.stage);
    NoneOfSix(
      if !facts.policyOk then [PolicyViolation] else [],
      if !facts.resolves then [Unresolvable] else if !facts.reachable then [NotOnMain] else [],
      if NumberTooLow(siblings, r) then [NumberNotIncreasing] else [],
      if previous.Some? && !HasStage(siblings, previous.value) then [MissingPrerequisite(previous.value)] else [],
      if HigherStageExists(siblings, r) then [StageRegression] else [],
      if !facts.resolves then []
      else if !facts.cargoReadable then [CargoUnreadable]
      else if facts.cargoVersion != "" && facts.cargoVersion != r.version then [CargoMismatch] else []);
  }

  lemma NoneOfSix(a: seq<Violation>, b: seq<Violation>, c: seq<Violation>, d: seq<Violation>, e: seq<Violation>, f: seq<Violation>)
    ensures a + b + c + d + e + f == [] <==> a == [] && b == [] && c == [] && d == [] && e == [] && f == []
  {
    assert |a + b + c + d + e + f| == |a| + |b| + |c| + |d| + |e| + |f|;
  }

  lemma {:induction false} ListedIff(tags: seq<string>, version: string, t: string)
    ensures t in Listed(tags, version) <==> t in tags && StartsWith(t, "v" + version)
    decreases |tags|
  {
    hide StartsWith;
    if tags != [] {
      var init, last := tags[..|tags| - 1], tags[|tags| - 1];
      ListedIff(init, version, t);
      assert tags == init + [last];
    }
  }

  lemma {:induction false} SiblingsIff(listed: seq<string>, tag: string, r: Release)
    ensures r in Siblings(listed, tag) <==> exists t :: t in listed && t != tag && ParseTag(t) == Some(r)
    decreases |listed|
  {
    hide ParseTag;
    if listed != [] {
      var init, last := listed[..|listed| - 1], listed[|listed| - 1];
      SiblingsIff(init, tag, r);
      assert listed == init + [last];
    }
  }

  /** The siblings of a tag: every other listed release whose tag extends the version, as text. */
  lemma SiblingOf(tags: seq<string>, version: string, tag: string, r: Release)
    ensures r in Siblings(Listed(tags, version), tag) <==>
      exists t :: t in tags && StartsWith(t, "v" + version) && t != tag && ParseTag(t) == Some(r)
  {
    hide Siblings, Listed, ParseTag, StartsWith;
    SiblingsIff(Listed(tags, version), tag, r);
    forall t
      ensures t in Listed(tags, version) <==> t in tags && StartsWith(t, "v" + version)
    {
      ListedIff(tags, version, t);
    }
  }

  lemma VersionPrefixesTag(tag: string)
    requires ParseTag(tag).Some?
    ensures StartsWith(tag, "v" + ParseTag(tag).value.version)
  {
    hide IsVersion, IsNumeral;
    var version := ParseTag(tag).value.version;
    assert tag[0..1] == "v" && tag == "v" + tag[1..];
    assert tag[1..][..|version|] == version;
    assert tag[0..1 + |version|] == "v" + version;
  }

  // ── Printing a tag ─────────────────────────────────────────────────────

  function TagOf(version: string, stage: Stage, number: nat): string {
    if stage.Stable? then "v" + version else "v" + version + "-" + StageName(stage) + "." + Numeral(number)
  }

  predicate VersionChar(c: char) {
    IsDigit(c) || c == '.'
  }

  lemma VersionChars(version: string)
    requires IsVersion(version)
    ensures All(version, VersionChar)
  {
    var i := FindChar(version, '.').value;
    var rest := version[i + 1..];
    var j := FindChar(rest, '.').value;
    forall k | 0 <= k < |version|
      ensures VersionChar(version[k])
    {
      if k < i { assert IsDigit(version[..i][k]); }
      if k > i {
        assert version[k] == rest[k - i - 1];
        if k - i - 1 < j { assert IsDigit(rest[..j][k - i - 1]); }
        if k - i - 1 > j { assert IsDigit(rest[j + 1..][k - i - 1 - j - 1]); }
      }
    }
  }

  lemma NoDash(version: string)
    requires All(version, VersionChar)
    ensures '-' !in version
  {
  }

  lemma SplitTag(version: string, suffix: string)
    requires '-' !in version
    ensures var tag := "v" + version + "-" + suffix;
      && StartsWith(tag, "v") && FindChar(tag[1..], '-') == Some(|version|)
      && tag[1..][..|version|] == version && tag[1..][|version| + 1..] == suffix
  {
    var tag := "v" + version + "-" + suffix;
    assert tag[0..1] == "v";
    assert tag[1..] == version + ['-'] + suffix;
    FindCharIs(version, '-', suffix);
  }

  lemma SplitSuffix(name: string, number: string)
    requires '.' !in name
    ensures var suffix := name + "." + number;
      FindChar(suffix, '.') == Some(|name|) && suffix[..|name|] == name && suffix[|name| + 1..] == number
  {
    FindCharIs(name, '.', number);
  }

  lemma SplitStable(version: string)
    requires '-' !in version
    ensures StartsWith("v" + version, "v") && ("v" + version)[1..] == version && FindChar(version, '-').None?
  {
    assert ("v" + version)[0..1] == "v";
  }

  /** A printed tag parses to what was printed. */
  lemma ParseTagOf(version: string, stage: Stage, number: nat)
    requires IsVersion(version)
    ensures ParseTag(TagOf(version, stage, number)) == Some(Release(version, stage, if stage.Stable? then None else Some(number)))
  {
    hide IsVersion, IsNumeral, Numeral, FindChar, StartsWith, DigitsValue;
    VersionChars(version);
    NoDash(version);
    if stage.Stable? {
      SplitStable(version);
    } else {
      var name, digits := StageName(stage), Numeral(number);
      var suffix := name + "." + digits;
      assert TagOf(version, stage, number) == "v" + version + "-" + suffix;
      SplitTag(version, suffix);
      SplitSuffix(name, digits);
      NumeralIsNumeral(number);
      NumeralValue(number);
    }
  }

  lemma NumeralIsNumeral(n: nat)
    ensures IsNumeral(Numeral(n))
  {
  }
}
