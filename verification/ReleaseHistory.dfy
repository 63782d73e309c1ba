/** What the release guard guarantees about whole histories of tags. */
module ReleaseHistory {
  import opened Wrappers
  import opened Text
  import opened ReleaseGuard

  // ── Publishing in a repository where tags are only added ───────────────

  datatype Step = AddTag(tag: string) | Publish(tag: string, facts: Facts)

  datatype Repo = Repo(tags: seq<string>, published: seq<string>)

  /** A tag is published only if it exists and the guard finds no violation. */
  function Apply(r: Repo, s: Step): Repo {
    match s
    case AddTag(tag) => Repo(r.tags + [tag], r.published)
    case Publish(tag, facts) =>
      if tag in r.tags && Publishable(r.tags, tag, facts) then Repo(r.tags, r.published + [tag]) else r
  }

  function Run(steps: seq<Step>): Repo {
    if steps == [] then Repo([], []) else Apply(Run(steps[..|steps| - 1]), steps[|steps| - 1])
  }

  /** Later publications of a version are of a higher stage, or a higher number of the same stage. */
  ghost predicate InOrder(published: seq<string>) {
    && (forall i :: 0 <= i < |published| ==> ParseTag(published[i]).Some?)
    && forall i, j :: 0 <= i < j < |published| && published[i] != published[j] ==>
         var a, b := ParseTag(published[i]).value, ParseTag(published[j]).value;
         a.version == b.version ==> Below(Key(a), Key(b))
  }

  /** A publishable tag is above every other tag of its version that exists. */
  lemma PublishedAbove(tags: seq<string>, tag: string, facts: Facts, other: string)
    requires Publishable(tags, tag, facts) && other in tags && other != tag
    requires ParseTag(tag).Some? && ParseTag(other).Some? && ParseTag(other).value.version == ParseTag(tag).value.version
    ensures Below(Key(ParseTag(other).value), Key(ParseTag(tag).value))
  {
    hide ParseTag, Siblings, Listed, Violations;
    PublishableParses(tags, tag, facts);
    var r, o := ParseTag(tag).value, ParseTag(other).value;
    var siblings := Siblings(Listed(tags, r.version), tag);
    PublishableMeans(tags, tag, facts);
    VersionPrefixesTag(other);
    SiblingOf(tags, r.version, tag, o);
    var i :| 0 <= i < |siblings| && siblings[i] == o;
    HigherStageIff(siblings, r);
    assert Rank(o.stage) <= Rank(r.stage);
    if o.stage == r.stage {
      SameStageNumbers(tag, other);
    }
  }

  lemma SameStageNumbers(tag: string, other: string)
    requires ParseTag(tag).Some? && ParseTag(other).Some? && tag != other
    requires ParseTag(tag).value.version == ParseTag(other).value.version
    requires ParseTag(tag).value.stage == ParseTag(other).value.stage
    ensures ParseTag(tag).value.number.Some? && ParseTag(other).value.number.Some?
  {
    hide ParseTag;
    NumberIffNotStable(tag);
    NumberIffNotStable(other);
    if ParseTag(tag).value.stage.Stable? {
      StableTagUnique(tag, other);
    }
  }

  lemma {:induction false} PublishedOrdered(steps: seq<Step>)
    ensures var r := Run(steps); InOrder(r.published) && forall t :: t in r.published ==> t in r.tags
    decreases |steps|
  {
    hide ParseTag, Publishable;
    if steps != [] {
      var before, s := Run(steps[..|steps| - 1]), steps[|steps| - 1];
      PublishedOrdered(steps[..|steps| - 1]);
      if s.Publish? && s.tag in before.tags && Publishable(before.tags, s.tag, s.facts) {
        PublishableParses(before.tags, s.tag, s.facts);
        var after := before.published + [s.tag];
        forall i | 0 <= i < |before.published| && before.published[i] != s.tag
          ensures var a, b := ParseTag(after[i]).value, ParseTag(s.tag).value;
            a.version == b.version ==> Below(Key(a), Key(b))
        {
          assert ParseTag(before.published[i]).Some?;
          if ParseTag(after[i]).value.version == ParseTag(s.tag).value.version {
            PublishedAbove(before.tags, s.tag, s.facts, after[i]);
          }
        }
      }
    }
  }

  lemma PublishableParses(tags: seq<string>, tag: string, facts: Facts)
    requires Publishable(tags, tag, facts)
    ensures ParseTag(tag).Some?
  {
    hide ParseTag;
  }

  // ── Releasing: a tag stays only if the guard accepts it ────────────────

  datatype Attempt = Attempt(tag: string, facts: Facts)

  function Release(tags: seq<string>, a: Attempt): seq<string> {
    if Publishable(tags + [a.tag], a.tag, a.facts) then tags + [a.tag] else tags
  }

  function Released(attempts: seq<Attempt>): seq<string> {
    if attempts == [] then [] else Release(Released(attempts[..|attempts| - 1]), attempts[|attempts| - 1])
  }

  /** Every released tag parses, and was accepted when the tags before it were there. */
  ghost predicate Accepted(tags: seq<string>) {
    forall i :: 0 <= i < |tags| ==> AcceptedAt(tags, i)
  }

  ghost predicate AcceptedAt(tags: seq<string>, i: nat)
    requires i < |tags|
  {
    ParseTag(tags[i]).Some? && exists facts :: AcceptedWith(tags, i, facts)
  }

  predicate AcceptedWith(tags: seq<string>, i: nat, facts: Facts)
    requires i < |tags|
  {
    Publishable(tags[..i + 1], tags[i], facts)
  }

  lemma {:induction false} ReleasedAccepted(attempts: seq<Attempt>)
    ensures Accepted(Released(attempts))
    decreases |attempts|
  {
    hide Publishable, ParseTag;
    if attempts != [] {
      var before, a := Released(attempts[..|attempts| - 1]), attempts[|attempts| - 1];
      var after := Released(attempts);
      ReleasedAccepted(attempts[..|attempts| - 1]);
      forall i | 0 <= i < |after|
        ensures AcceptedAt(after, i)
      {
        if i < |before| {
          assert AcceptedAt(before, i);
          var facts :| AcceptedWith(before, i, facts);
          assert after[..i + 1] == before[..i + 1];
          assert AcceptedWith(after, i, facts);
        } else {
          assert after[..i + 1] == after;
          assert AcceptedWith(after, i, a.facts);
          PublishableParses(after, a.tag, a.facts);
        }
      }
    }
  }

  /** The tag was cut for this version and stage. */
  predicate IsTag(tag: string, version: string, stage: Stage) {
    ParseTag(tag).Some? && ParseTag(tag).value.version == version && ParseTag(tag).value.stage == stage
  }

  /** No tag is of a different version that begins with this one. */
  ghost predicate NoExtension(tags: seq<string>, version: string) {
    forall t :: t in tags && ParseTag(t).Some? && version <= ParseTag(t).value.version ==> ParseTag(t).value.version == version
  }

  lemma GlobMatchesExtensions(tag: string, version: string)
    requires ParseTag(tag).Some? && StartsWith(tag, "v" + version) && '-' !in version
    ensures version <= ParseTag(tag).value.version
  {
    hide IsVersion, IsNumeral;
    var own := ParseTag(tag).value.version;
    assert tag[0..1 + |version|] == "v" + version;
    assert forall k :: 0 <= k < |version| ==> tag[1 + k] == version[k];
    assert forall k :: 0 <= k < |version| ==> tag[1..][k] != '-';
    assert |version| <= |own|;
    assert own == tag[1..][..|own|];
    assert version == own[..|version|];
  }

  lemma ParsedVersion(tag: string)
    requires ParseTag(tag).Some?
    ensures IsVersion(ParseTag(tag).value.version) && '-' !in ParseTag(tag).value.version
  {
    var version := ParseTag(tag).value.version;
    VersionChars(version);
    NoDash(version);
  }

  /** The prerequisite of a released tag was released before it, unless another version present by then was mistaken for it. */
  lemma PrerequisiteBefore(tags: seq<string>, i: nat, version: string, stage: Stage)
    requires i < |tags| && AcceptedAt(tags, i) && NoExtension(tags[..i], version)
    requires IsTag(tags[i], version, stage) && RequiredPrevious(stage).Some?
    ensures exists j :: 0 <= j < i && IsTag(tags[j], version, RequiredPrevious(stage).value)
  {
    hide ParseTag, Siblings, Listed, Violations, IsVersion;
    var previous := RequiredPrevious(stage).value;
    var upTo, tag := tags[..i + 1], tags[i];
    var facts :| AcceptedWith(tags, i, facts);
    PublishableMeans(upTo, tag, facts);
    var siblings := Siblings(Listed(upTo, version), tag);
    var k :| 0 <= k < |siblings| && siblings[k].stage == previous;
    assert siblings[k] in siblings;
    SiblingOf(upTo, version, tag, siblings[k]);
    var t :| t in upTo && StartsWith(t, "v" + version) && t != tag && ParseTag(t) == Some(siblings[k]);
    ParsedVersion(tag);
    GlobMatchesExtensions(t, version);
    var j :| 0 <= j <= i && upTo[j] == t;
    assert tags[j] == t && j < i;
    assert tags[..i][j] == t;
  }

  /** A stable release is preceded by an rc, a beta and an alpha of its version, in that order. */
  lemma StableNeedsChain(attempts: seq<Attempt>, version: string, i: nat)
    ensures var t := Released(attempts);
      i < |t| && IsTag(t[i], version, Stable) && NoExtension(t[..i], version) ==> ChainBefore(t, version, i)
  {
    hide IsTag, Released, NoExtension, AcceptedAt;
    ReleasedAccepted(attempts);
    var tags := Released(attempts);
    if i < |tags| && IsTag(tags[i], version, Stable) && NoExtension(tags[..i], version) {
      ChainOf(tags, version, i);
    }
  }

  ghost predicate ChainBefore(t: seq<string>, version: string, i: nat)
    requires i < |t|
  {
    exists a, b, c :: 0 <= a < b < c < i && IsTag(t[a], version, Alpha) && IsTag(t[b], version, Beta) && IsTag(t[c], version, Rc)
  }

  lemma FewerTags(tags: seq<string>, n: nat, i: nat, version: string)
    requires n <= i <= |tags| && NoExtension(tags[..i], version)
    ensures NoExtension(tags[..n], version)
  {
    forall t | t in tags[..n]
      ensures t in tags[..i]
    {
      var k :| 0 <= k < n && tags[..n][k] == t;
      assert tags[..i][k] == t;
    }
  }

  lemma ChainOf(tags: seq<string>, version: string, i: nat)
    requires Accepted(tags) && i < |tags| && NoExtension(tags[..i], version)
    requires IsTag(tags[i], version, Stable)
    ensures ChainBefore(tags, version, i)
  {
    hide IsTag, NoExtension, AcceptedAt;
    PrerequisiteBefore(tags, i, version, Stable);
    var c :| 0 <= c < i && IsTag(tags[c], version, Rc);
    FewerTags(tags, c, i, version);
    PrerequisiteBefore(tags, c, version, Rc);
    var b :| 0 <= b < c && IsTag(tags[b], version, Beta);
    FewerTags(tags, b, i, version);
    PrerequisiteBefore(tags, b, version, Beta);
    var a :| 0 <= a < b && IsTag(tags[a], version, Alpha);
  }

  // ── Versions that extend each other ────────────────────────────────────

  lemma FirstAlphaAccepted(version: string, facts: Facts)
    requires IsVersion(version)
    requires facts == Facts(true, true, true, true, version)
    ensures var tag := TagOf(version, Alpha, 0); Publishable([tag], tag, facts)
  {
    hide IsVersion, ParseTag, TagOf;
    var tag := TagOf(version, Alpha, 0);
    ParseTagOf(version, Alpha, 0);
    assert [tag][..0] == [];
    assert Listed([tag], version) == [tag] || Listed([tag], version) == [];
    assert Siblings([], tag) == [];
    assert Siblings([tag], tag) == [];
    PublishableMeans([tag], tag, facts);
  }

  /**
   Where one version is a proper prefix of another, the chain fails: a beta of
   the shorter version is accepted on the strength of the longer one's alpha.
   */
  lemma ExtensionBreaksChain(version: string, longer: string)
    requires IsVersion(version) && IsVersion(longer) && version < longer
    ensures var alpha, beta := TagOf(longer, Alpha, 0), TagOf(version, Beta, 0);
      var tags := Released([Attempt(alpha, Facts(true, true, true, true, longer)), Attempt(beta, Facts(true, true, true, true, version))]);
      && tags == [alpha, beta] && IsTag(beta, version, Beta)
      && forall i :: 0 <= i < |tags| ==> !IsTag(tags[i], version, Alpha)
  {
    hide IsVersion, ParseTag, TagOf, Siblings, Listed, Violations;
    var alpha, beta := TagOf(longer, Alpha, 0), TagOf(version, Beta, 0);
    var first, second := Facts(true, true, true, true, longer), Facts(true, true, true, true, version);
    ParseTagOf(longer, Alpha, 0);
    ParseTagOf(version, Beta, 0);
    FirstAlphaAccepted(longer, first);
    BorrowedAlpha(version, longer);
    var a, b := Attempt(alpha, first), Attempt(beta, second);
    assert [a, b][..1] == [a] && [a][..0] == [];
    assert [] + [alpha] == [alpha] && [alpha] + [beta] == [alpha, beta];
    assert Released([a]) == [alpha];
  }

  // ── For which versions the stages hold ─────────────────────────────────

  /** Every tag attempted that parses is of one of these versions. */
  ghost predicate TagsFrom(attempts: seq<Attempt>, versions: iset<string>) {
    forall i :: 0 <= i < |attempts| && ParseTag(attempts[i].tag).Some? ==> ParseTag(attempts[i].tag).value.version in versions
  }

  /** Each tag of the version was released after its own version's previous stage. */
  ghost predicate StagesHold(tags: seq<string>, version: string) {
    forall i, stage :: 0 <= i < |tags| && IsTag(tags[i], version, stage) && RequiredPrevious(stage).Some? ==>
      ReleasedBefore(tags, i, version, RequiredPrevious(stage).value)
  }

  ghost predicate ReleasedBefore(tags: seq<string>, i: nat, version: string, stage: Stage)
    requires i < |tags|
  {
    exists j :: 0 <= j < i && IsTag(tags[j], version, stage)
  }

  ghost predicate AlwaysStaged(versions: iset<string>, version: string) {
    forall attempts :: TagsFrom(attempts, versions) ==> StagesHold(Released(attempts), version)
  }

  lemma {:induction false} ReleasedFrom(attempts: seq<Attempt>, versions: iset<string>)
    requires TagsFrom(attempts, versions)
    ensures forall t :: t in Released(attempts) && ParseTag(t).Some? ==> ParseTag(t).value.version in versions
    decreases |attempts|
  {
    hide ParseTag, Publishable;
    if attempts != [] {
      var init := attempts[..|attempts| - 1];
      assert forall i :: 0 <= i < |init| ==> init[i] == attempts[i];
      ReleasedFrom(init, versions);
    }
  }

  lemma AloneStaged(attempts: seq<Attempt>, versions: iset<string>, version: string)
    requires TagsFrom(attempts, versions) && forall v :: v in versions ==> !(version < v)
    ensures StagesHold(Released(attempts), version)
  {
    hide ParseTag, Released, AcceptedAt, TagsFrom;
    var tags := Released(attempts);
    ReleasedAccepted(attempts);
    ReleasedFrom(attempts, versions);
    forall i, stage | 0 <= i < |tags| && IsTag(tags[i], version, stage) && RequiredPrevious(stage).Some?
      ensures ReleasedBefore(tags, i, version, RequiredPrevious(stage).value)
    {
      forall t | t in tags[..i] && ParseTag(t).Some? && version <= ParseTag(t).value.version
        ensures ParseTag(t).value.version == version
      {
        assert t in tags;
        assert ParseTag(t).value.version in versions;
      }
      PrerequisiteBefore(tags, i, version, stage);
    }
  }

  lemma NotStaged(tags: seq<string>, version: string)
    requires |tags| == 2 && IsTag(tags[1], version, Beta) && !IsTag(tags[0], version, Alpha)
    ensures !StagesHold(tags, version)
  {
    hide IsTag;
    assert RequiredPrevious(Beta) == Some(Alpha);
    assert !ReleasedBefore(tags, 1, version, Alpha);
  }

  lemma ExtendedNotStaged(versions: iset<string>, version: string, longer: string)
    requires version in versions && longer in versions && IsVersion(version) && IsVersion(longer) && version < longer
    ensures !AlwaysStaged(versions, version)
  {
    hide IsVersion, ParseTag, TagOf, Released;
    var alpha, beta := TagOf(longer, Alpha, 0), TagOf(version, Beta, 0);
    var attempts := [Attempt(alpha, Facts(true, true, true, true, longer)), Attempt(beta, Facts(true, true, true, true, version))];
    ParseTagOf(longer, Alpha, 0);
    ParseTagOf(version, Beta, 0);
    ExtensionBreaksChain(version, longer);
    var tags := Released(attempts);
    assert TagsFrom(attempts, versions);
    NotStaged(tags, version);
  }

  /**
   Among a set of versions, the stages of one hold in every history released
   from it exactly when no other version of the set extends it as text.
   */
  lemma StagedIffNotExtended(versions: iset<string>, version: string)
    requires version in versions && forall v :: v in versions ==> IsVersion(v)
    ensures AlwaysStaged(versions, version) <==> forall v :: v in versions ==> !(version < v)
  {
    hide IsVersion, TagsFrom, StagesHold, Released;
    if forall v :: v in versions ==> !(version < v) {
      forall attempts | TagsFrom(attempts, versions)
        ensures StagesHold(Released(attempts), version)
      {
        AloneStaged(attempts, versions, version);
      }
    } else {
      var longer :| longer in versions && version < longer;
      ExtendedNotStaged(versions, version, longer);
    }
  }

  lemma BorrowedAlpha(version: string, longer: string)
    requires IsVersion(version) && IsVersion(longer) && version < longer
    ensures var alpha, beta := TagOf(longer, Alpha, 0), TagOf(version, Beta, 0);
      Publishable([alpha, beta], beta, Facts(true, true, true, true, version))
  {
    hide IsVersion, ParseTag, Violations;
    var alpha, beta := TagOf(longer, Alpha, 0), TagOf(version, Beta, 0);
    ParseTagOf(longer, Alpha, 0);
    ParseTagOf(version, Beta, 0);
    var tags, facts := [alpha, beta], Facts(true, true, true, true, version);
    LongerTagListed(version, longer);
    VersionPrefixesTag(beta);
    assert tags[..1] == [alpha] && [alpha][..0] == [];
    assert Listed([alpha], version) == [alpha];
    assert Listed(tags, version) == [alpha, beta];
    assert [alpha, beta][..1] == [alpha];
    var o := ParseTag(alpha).value;
    assert Siblings([], beta) == [];
    assert Siblings([alpha], beta) == [o];
    assert Siblings([alpha, beta], beta) == [o];
    assert [o][0].stage == Alpha;
    HigherStageIff([o], ParseTag(beta).value);
    PublishableMeans(tags, beta, facts);
  }

  lemma LongerTagListed(version: string, longer: string)
    requires version <= longer
    ensures StartsWith(TagOf(longer, Alpha, 0), "v" + version)
  {
    var tag := TagOf(longer, Alpha, 0);
    assert tag[0..1 + |version|] == "v" + version;
  }
}
