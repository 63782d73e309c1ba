/**
 Normalisation as a projection: what it emits, which inputs it settles in one
 application, and that two applications always settle it.
 */
module IdentityProjection {
  import opened Wrappers
  import opened Text
  import opened Json
  import opened IdentityText
  import opened Identity

  // ── The JSON encoding of the schema ────────────────────────────────────

  function LineJson(x: Line): Json {
    if x.Some? then Str(x.value) else Null
  }

  function WordsJson(x: Words): Json {
    if x.Some? then StrArray(x.value) else Null
  }

  /** A double is written as a number when finite and as null otherwise. */
  function F64Json(x: F64): Json {
    if x.Finite? then Num(Double(x.payload)) else Null
  }

  function FloatJson(x: Option<F64>): Json {
    if x.Some? then F64Json(x.value) else Null
  }

  /** An object with exactly these keys, in any order. */
  predicate Row(j: Json, keys: set<string>) {
    j.Obj? && Keys(j.fields) == keys
  }

  /** A map written as an object, in any order of its entries. */
  ghost predicate EncodesMap<T>(j: Json, x: Option<map<string, T>>, encode: T -> Json) {
    match x
    case None => j == Null
    case Some(m) =>
      && Row(j, m.Keys) && DistinctKeys(j.fields)
      && forall i :: 0 <= i < |j.fields| ==> j.fields[i].key in m && j.fields[i].value == encode(m[j.fields[i].key])
  }

  ghost predicate EncodesNames(j: Json, x: Option<Names>) {
    match x
    case None => j == Null
    case Some(n) =>
      && Row(j, {"first", "last", "nickname", "full"})
      && At(j, "first") == Some(LineJson(n.first)) && At(j, "last") == Some(LineJson(n.last))
      && At(j, "nickname") == Some(LineJson(n.nickname)) && At(j, "full") == Some(LineJson(n.full))
  }

  ghost predicate EncodesIdentitySection(j: Json, x: Option<IdentitySection>) {
    match x
    case None => j == Null
    case Some(s) =>
      && Row(j, {"names", "bio", "origin", "residence"})
      && At(j, "names").Some? && EncodesNames(At(j, "names").value, s.names)
      && At(j, "bio") == Some(LineJson(s.bio)) && At(j, "origin") == Some(LineJson(s.origin))
      && At(j, "residence") == Some(LineJson(s.residence))
  }

  ghost predicate EncodesOcean(j: Json, x: Option<OceanTraits>) {
    match x
    case None => j == Null
    case Some(t) =>
      && Row(j, {"openness", "conscientiousness", "extraversion", "agreeableness", "neuroticism"})
      && At(j, "openness") == Some(FloatJson(t.openness))
      && At(j, "conscientiousness") == Some(FloatJson(t.conscientiousness))
      && At(j, "extraversion") == Some(FloatJson(t.extraversion))
      && At(j, "agreeableness") == Some(FloatJson(t.agreeableness))
      && At(j, "neuroticism") == Some(FloatJson(t.neuroticism))
  }

  ghost predicate EncodesPsychology(j: Json, x: Option<PsychologySection>) {
    match x
    case None => j == Null
    case Some(s) =>
      && Row(j, {"neural_matrix", "mbti", "ocean", "moral_compass"})
      && At(j, "neural_matrix").Some? && EncodesMap(At(j, "neural_matrix").value, s.neuralMatrix, F64Json)
      && At(j, "mbti") == Some(LineJson(s.mbti))
      && At(j, "ocean").Some? && EncodesOcean(At(j, "ocean").value, s.ocean)
      && At(j, "moral_compass") == Some(WordsJson(s.moralCompass))
  }

  ghost predicate EncodesLinguistics(j: Json, x: Option<LinguisticsSection>) {
    match x
    case None => j == Null
    case Some(s) =>
      && Row(j, {"style", "formality", "catchphrases", "forbidden_words"})
      && At(j, "style") == Some(LineJson(s.style)) && At(j, "formality") == Some(LineJson(s.formality))
      && At(j, "catchphrases") == Some(WordsJson(s.catchphrases))
      && At(j, "forbidden_words") == Some(WordsJson(s.forbiddenWords))
  }

  ghost predicate EncodesMotivations(j: Json, x: Option<MotivationsSection>) {
    match x
    case None => j == Null
    case Some(s) =>
      && Row(j, {"core_drive", "short_term_goals", "long_term_goals", "fears"})
      && At(j, "core_drive") == Some(LineJson(s.coreDrive))
      && At(j, "short_term_goals") == Some(WordsJson(s.shortTermGoals))
      && At(j, "long_term_goals") == Some(WordsJson(s.longTermGoals))
      && At(j, "fears") == Some(WordsJson(s.fears))
  }

  ghost predicate EncodesCapabilities(j: Json, x: Option<CapabilitiesSection>) {
    match x
    case None => j == Null
    case Some(s) =>
      && Row(j, {"skills", "tools"})
      && At(j, "skills") == Some(WordsJson(s.skills)) && At(j, "tools") == Some(WordsJson(s.tools))
  }

  ghost predicate EncodesPhysicality(j: Json, x: Option<PhysicalitySection>) {
    match x
    case None => j == Null
    case Some(s) =>
      && Row(j, {"appearance", "avatar_description"})
      && At(j, "appearance") == Some(LineJson(s.appearance))
      && At(j, "avatar_description") == Some(LineJson(s.avatarDescription))
  }

  ghost predicate EncodesHistory(j: Json, x: Option<HistorySection>) {
    match x
    case None => j == Null
    case Some(s) =>
      && Row(j, {"origin_story", "education", "occupation"})
      && At(j, "origin_story") == Some(LineJson(s.originStory))
      && At(j, "education") == Some(WordsJson(s.education))
      && At(j, "occupation") == Some(LineJson(s.occupation))
  }

  ghost predicate EncodesInterests(j: Json, x: Option<InterestsSection>) {
    match x
    case None => j == Null
    case Some(s) =>
      && Row(j, {"hobbies", "favorites", "lifestyle"})
      && At(j, "hobbies") == Some(WordsJson(s.hobbies))
      && At(j, "favorites").Some? && EncodesMap(At(j, "favorites").value, s.favorites, (t: string) => Str(t))
      && At(j, "lifestyle") == Some(LineJson(s.lifestyle))
  }

  /** `j` is a serialisation of the identity. */
  ghost predicate Encodes(j: Json, x: AieosIdentity) {
    && WellFormed(j)
    && Row(j, {"identity", "psychology", "linguistics", "motivations", "capabilities", "physicality", "history", "interests"})
    && At(j, "identity").Some? && EncodesIdentitySection(At(j, "identity").value, x.identity)
    && At(j, "psychology").Some? && EncodesPsychology(At(j, "psychology").value, x.psychology)
    && At(j, "linguistics").Some? && EncodesLinguistics(At(j, "linguistics").value, x.linguistics)
    && At(j, "motivations").Some? && EncodesMotivations(At(j, "motivations").value, x.motivations)
    && At(j, "capabilities").Some? && EncodesCapabilities(At(j, "capabilities").value, x.capabilities)
    && At(j, "physicality").Some? && EncodesPhysicality(At(j, "physicality").value, x.physicality)
    && At(j, "history").Some? && EncodesHistory(At(j, "history").value, x.history)
    && At(j, "interests").Some? && EncodesInterests(At(j, "interests").value, x.interests)
  }

  // ── Inputs that one application settles ────────────────────────────────

  predicate CleanText(fl: Floats, v: Option<Json>) {
    v.Some? ==> !Padded(fl, v.value)
  }

  predicate IsFinite(x: Option<F64>) {
    x.Some? ==> x.value.Finite?
  }

  predicate CleanIdentitySection(fl: Floats, v: Json) {
    CleanText(fl, At(v, "bio")) && CleanText(fl, At(v, "origin")) && CleanText(fl, At(v, "residence"))
  }

  predicate CleanOcean(fl: Floats, v: Json) {
    && IsFinite(NumericOf(fl, At(v, "openness"))) && IsFinite(NumericOf(fl, At(v, "conscientiousness")))
    && IsFinite(NumericOf(fl, At(v, "extraversion"))) && IsFinite(NumericOf(fl, At(v, "agreeableness")))
    && IsFinite(NumericOf(fl, At(v, "neuroticism")))
  }

  predicate CleanNumericMap(fl: Floats, v: Json) {
    v.Obj? ==> forall i :: 0 <= i < |v.fields| && !Meta(v.fields[i].key) ==> IsFinite(NumericFromValue(fl, v.fields[i].value))
  }

  predicate CleanPsychology(fl: Floats, v: Json) {
    var matrix := At(v, "neural_matrix");
    var ocean := OceanSource(v);
    && (matrix.Some? ==> CleanNumericMap(fl, matrix.value))
    && (ocean.Some? ==> CleanOcean(fl, ocean.value))
  }

  /** Only the alternative that is actually used has to be clean. */
  predicate CleanLinguistics(fl: Floats, v: Json) {
    && CleanText(fl, At(v, "style")) && CleanText(fl, At(v, "formality"))
    && (TextOf(fl, At(v, "formality")).None? ==> CleanText(fl, AtAt(v, "text_style", "formality_level")))
  }

  predicate CleanMotivations(fl: Floats, v: Json) {
    CleanText(fl, At(v, "core_drive"))
  }

  predicate CleanPhysicality(fl: Floats, v: Json) {
    && CleanText(fl, At(v, "appearance")) && CleanText(fl, At(v, "avatar_description"))
    && (TextOf(fl, At(v, "avatar_description")).None? ==> CleanText(fl, AtAt(v, "image_prompts", "portrait")))
  }

  predicate CleanHistory(fl: Floats, v: Json) {
    CleanText(fl, At(v, "origin_story")) && CleanText(fl, At(v, "occupation"))
  }

  predicate CleanTextMap(fl: Floats, v: Json) {
    v.Obj? ==> forall i :: 0 <= i < |v.fields| && !Meta(v.fields[i].key) ==> !Padded(fl, v.fields[i].value)
  }

  predicate CleanInterests(fl: Floats, v: Json) {
    var favorites := At(v, "favorites");
    && (favorites.Some? ==> CleanTextMap(fl, favorites.value))
    && CleanText(fl, At(v, "lifestyle"))
  }

  predicate CleanSection(v: Json, key: string, clean: Json -> bool) {
    At(v, key).Some? ==> clean(At(v, key).value)
  }

  /**
   Nothing the normaliser would read as text is an object whose summary begins
   with white space, and no number it would read is infinite or NaN.
   */
  predicate Clean(fl: Floats, v: Json) {
    && CleanSection(v, "identity", j => CleanIdentitySection(fl, j))
    && CleanSection(v, "psychology", j => CleanPsychology(fl, j))
    && CleanSection(v, "linguistics", j => CleanLinguistics(fl, j))
    && CleanSection(v, "motivations", j => CleanMotivations(fl, j))
    && CleanSection(v, "physicality", j => CleanPhysicality(fl, j))
    && CleanSection(v, "history", j => CleanHistory(fl, j))
    && CleanSection(v, "interests", j => CleanInterests(fl, j))
  }

  // ── What the normaliser emits ──────────────────────────────────────────

  predicate ShapeLine(x: Line) { x.Some? ==> x.value != "" }
  predicate PureLine(x: Line) { x.Some? ==> Trimmed(x.value) }
  predicate SolidLine(x: Line) { x.Some? ==> Solid(x.value) }

  predicate ShapeMap<T>(x: Option<map<string, T>>) {
    x.Some? ==> x.value != map[] && forall k :: k in x.value ==> !Meta(k)
  }

  predicate ShapeNames(x: Option<Names>) {
    x.Some? ==>
      && SolidLine(x.value.first) && SolidLine(x.value.last)
      && SolidLine(x.value.nickname) && SolidLine(x.value.full)
      && (x.value.first.Some? && x.value.last.Some? ==> x.value.full.Some?)
      && x.value != Names(None, None, None, None)
  }

  predicate ShapeIdentitySection(x: Option<IdentitySection>) {
    x.Some? ==>
      && ShapeNames(x.value.names) && ShapeLine(x.value.bio)
      && ShapeLine(x.value.origin) && ShapeLine(x.value.residence)
      && x.value != IdentitySection(None, None, None, None)
  }

  predicate PureIdentitySection(x: Option<IdentitySection>) {
    x.Some? ==> PureLine(x.value.bio) && PureLine(x.value.origin) && PureLine(x.value.residence)
  }

  predicate ShapePsychology(x: Option<PsychologySection>) {
    x.Some? ==>
      && ShapeMap(x.value.neuralMatrix) && SolidLine(x.value.mbti) && CleanWords(x.value.moralCompass)
      && x.value.ocean != Some(OceanTraits(None, None, None, None, None))
      && x.value != PsychologySection(None, None, None, None)
  }

  predicate PureOcean(x: Option<OceanTraits>) {
    x.Some? ==>
      && IsFinite(x.value.openness) && IsFinite(x.value.conscientiousness) && IsFinite(x.value.extraversion)
      && IsFinite(x.value.agreeableness) && IsFinite(x.value.neuroticism)
  }

  predicate PurePsychology(x: Option<PsychologySection>) {
    x.Some? ==>
      && (x.value.neuralMatrix.Some? ==>
            forall k :: k in x.value.neuralMatrix.value ==> x.value.neuralMatrix.value[k].Finite?)
      && PureOcean(x.value.ocean)
  }

  predicate ShapeLinguistics(x: Option<LinguisticsSection>) {
    x.Some? ==>
      && ShapeLine(x.value.style) && ShapeLine(x.value.formality)
      && CleanWords(x.value.catchphrases) && CleanWords(x.value.forbiddenWords)
      && x.value != LinguisticsSection(None, None, None, None)
  }

  predicate PureLinguistics(x: Option<LinguisticsSection>) {
    x.Some? ==> PureLine(x.value.style) && PureLine(x.value.formality)
  }

  predicate ShapeMotivations(x: Option<MotivationsSection>) {
    x.Some? ==>
      && ShapeLine(x.value.coreDrive) && CleanWords(x.value.shortTermGoals)
      && CleanWords(x.value.longTermGoals) && CleanWords(x.value.fears)
      && x.value != MotivationsSection(None, None, None, None)
  }

  predicate PureMotivations(x: Option<MotivationsSection>) {
    x.Some? ==> PureLine(x.value.coreDrive)
  }

  predicate ShapeCapabilities(x: Option<CapabilitiesSection>) {
    x.Some? ==>
      CleanWords(x.value.skills) && CleanWords(x.value.tools) && x.value != CapabilitiesSection(None, None)
  }

  predicate ShapePhysicality(x: Option<PhysicalitySection>) {
    x.Some? ==>
      && ShapeLine(x.value.appearance) && ShapeLine(x.value.avatarDescription)
      && x.value != PhysicalitySection(None, None)
  }

  predicate PurePhysicality(x: Option<PhysicalitySection>) {
    x.Some? ==> PureLine(x.value.appearance) && PureLine(x.value.avatarDescription)
  }

  predicate ShapeHistory(x: Option<HistorySection>) {
    x.Some? ==>
      && ShapeLine(x.value.originStory) && CleanWords(x.value.education) && ShapeLine(x.value.occupation)
      && x.value != HistorySection(None, None, None)
  }

  predicate PureHistory(x: Option<HistorySection>) {
    x.Some? ==> PureLine(x.value.originStory) && PureLine(x.value.occupation)
  }

  predicate ShapeInterests(x: Option<InterestsSection>) {
    x.Some? ==>
      && CleanWords(x.value.hobbies) && ShapeMap(x.value.favorites) && ShapeLine(x.value.lifestyle)
      && (x.value.favorites.Some? ==> forall k :: k in x.value.favorites.value ==> x.value.favorites.value[k] != "")
      && x.value != InterestsSection(None, None, None)
  }

  predicate PureInterests(x: Option<InterestsSection>) {
    x.Some? ==>
      && (x.value.favorites.Some? ==> forall k :: k in x.value.favorites.value ==> Trimmed(x.value.favorites.value[k]))
      && PureLine(x.value.lifestyle)
  }

  predicate Shape(x: AieosIdentity) {
    && ShapeIdentitySection(x.identity) && ShapePsychology(x.psychology) && ShapeLinguistics(x.linguistics)
    && ShapeMotivations(x.motivations) && ShapeCapabilities(x.capabilities) && ShapePhysicality(x.physicality)
    && ShapeHistory(x.history) && ShapeInterests(x.interests)
  }

  predicate Pure(x: AieosIdentity) {
    && PureIdentitySection(x.identity) && PurePsychology(x.psychology) && PureLinguistics(x.linguistics)
    && PureMotivations(x.motivations) && PurePhysicality(x.physicality)
    && PureHistory(x.history) && PureInterests(x.interests)
  }

  /** No object repeats a key, as in every serde_json value. */
  predicate WellFormed(v: Json) {
    match v
    case Arr(items) => forall i :: 0 <= i < |items| ==> WellFormed(items[i])
    case Obj(fields) => DistinctKeys(fields) && forall i :: 0 <= i < |fields| ==> WellFormed(fields[i].value)
    case _ => true
  }

  lemma WellFormedAt(v: Json, key: string)
    requires WellFormed(v) && At(v, key).Some?
    ensures WellFormed(At(v, key).value)
  {
    var i :| 0 <= i < |v.fields| && v.fields[i] == Field(key, At(v, key).value);
    assert WellFormed(v.fields[i].value);
  }

  // ── Maps ───────────────────────────────────────────────────────────────

  /** Exactly the entries with a value, when no key repeats. */
  lemma {:induction false} CollectedHas<T>(fields: seq<Field>, extract: Json -> Option<T>, i: nat)
    requires DistinctKeys(fields) && i < |fields| && !Meta(fields[i].key) && extract(fields[i].value).Some?
    ensures var m := Collected(fields, extract);
      fields[i].key in m && m[fields[i].key] == extract(fields[i].value).value
    decreases |fields|
  {
    hide Meta;
    if i < |fields| - 1 {
      CollectedHas(fields[..|fields| - 1], extract, i);
    }
  }

  lemma {:induction false} CollectedFrom<T>(fields: seq<Field>, extract: Json -> Option<T>, k: string) returns (i: nat)
    requires k in Collected(fields, extract)
    ensures i < |fields| && fields[i].key == k && !Meta(k) && extract(fields[i].value) == Some(Collected(fields, extract)[k])
    decreases |fields|
  {
    hide Meta;
    var init, f := fields[..|fields| - 1], fields[|fields| - 1];
    if f.key == k && !Meta(k) && extract(f.value).Some? {
      i := |fields| - 1;
    } else {
      i := CollectedFrom(init, extract, k);
    }
  }

  lemma CollectedEntries<T>(fields: seq<Field>, extract: Json -> Option<T>)
    requires DistinctKeys(fields)
    ensures var m := Collected(fields, extract);
      && (forall i :: 0 <= i < |fields| && !Meta(fields[i].key) && extract(fields[i].value).Some? ==>
            fields[i].key in m && m[fields[i].key] == extract(fields[i].value).value)
      && (forall k :: k in m ==>
            exists i :: 0 <= i < |fields| && fields[i].key == k && !Meta(k) && extract(fields[i].value) == Some(m[k]))
  {
    hide Collected, Meta, DistinctKeys;
    var m := Collected(fields, extract);
    forall i | 0 <= i < |fields| && !Meta(fields[i].key) && extract(fields[i].value).Some?
      ensures fields[i].key in m && m[fields[i].key] == extract(fields[i].value).value
    {
      CollectedHas(fields, extract, i);
    }
    forall k | k in m
      ensures exists i :: 0 <= i < |fields| && fields[i].key == k && !Meta(k) && extract(fields[i].value) == Some(m[k])
    {
      var i := CollectedFrom(fields, extract, k);
    }
  }

  /** Metadata keys are never collected, whatever repeats. */
  lemma {:induction false} CollectedKeys<T>(fields: seq<Field>, extract: Json -> Option<T>)
    ensures forall k :: k in Collected(fields, extract) ==> !Meta(k)
    ensures forall k :: k in Collected(fields, extract) ==>
      exists j :: extract(j) == Some(Collected(fields, extract)[k])
    decreases |fields|
  {
    if fields != [] {
      CollectedKeys(fields[..|fields| - 1], extract);
    }
  }

  /** A map read back from any of its encodings, if every value is read back. */
  lemma MapRoundTrip<T>(j: Json, x: Option<map<string, T>>, encode: T -> Json, extract: Json -> Option<T>)
    requires EncodesMap(j, x, encode) && ShapeMap(x)
    requires x.Some? ==> forall k :: k in x.value ==> extract(encode(x.value[k])) == Some(x.value[k])
    ensures MapOf(Some(j), extract) == x
  {
    if x.Some? {
      CollectedEntries(j.fields, extract);
      var m := Collected(j.fields, extract);
      forall k | k in x.value
        ensures k in m && m[k] == x.value[k]
      {
        var i :| 0 <= i < |j.fields| && j.fields[i].key == k;
      }
      assert m == x.value;
    }
  }

  // ── Section by section: what is emitted, and when it is pure ───────────

  lemma TextEmitted(fl: Floats, v: Option<Json>)
    ensures ShapeLine(TextOf(fl, v)) && (PureLine(TextOf(fl, v)) <==> CleanText(fl, v))
  {
  }

  lemma EmittedNames(fl: Floats, v: Json)
    ensures ShapeNames(NormalizeNames(fl, v))
  {
    hide ScalarOf, At;
    var first, last := ScalarOf(fl, At(v, "first")), ScalarOf(fl, At(v, "last"));
    if first.Some? && last.Some? {
      var full := first.value + " " + last.value;
      assert full[0] == first.value[0] && full[|full| - 1] == last.value[|last.value| - 1];
    }
  }

  lemma NoNames()
    ensures ShapeNames(None)
  {
  }

  lemma EmittedIdentity(fl: Floats, v: Json)
    ensures var x := NormalizeIdentitySection(fl, v);
      ShapeIdentitySection(x) && (PureIdentitySection(x) <==> CleanIdentitySection(fl, v))
  {
    hide NormalizeNames, ShapeNames, TextOf, CleanText, At;
    if At(v, "names").Some? {
      EmittedNames(fl, At(v, "names").value);
    }
    NoNames();
    TextEmitted(fl, At(v, "bio"));
    TextEmitted(fl, At(v, "origin"));
    TextEmitted(fl, At(v, "residence"));
  }

  lemma EmittedMatrix(fl: Floats, v: Json)
    requires WellFormed(v)
    ensures var x := MapOf(Some(v), NumericReader(fl));
      ShapeMap(x) && (CleanNumericMap(fl, v) <==> (x.Some? ==> forall k :: k in x.value ==> x.value[k].Finite?))
  {
    if v.Obj? {
      var m := Collected(v.fields, NumericReader(fl));
      CollectedEntries(v.fields, NumericReader(fl));
      forall i | 0 <= i < |v.fields| && !Meta(v.fields[i].key) && NumericFromValue(fl, v.fields[i].value).Some?
        ensures v.fields[i].key in m && m[v.fields[i].key] == NumericFromValue(fl, v.fields[i].value).value
      {
        assert NumericReader(fl)(v.fields[i].value).Some?;
      }
    }
  }

  lemma EmittedOcean(fl: Floats, v: Json)
    ensures var x := NormalizeOcean(fl, v);
      x != Some(OceanTraits(None, None, None, None, None)) && (PureOcean(x) <==> CleanOcean(fl, v))
  {
    hide NumericOf;
    NothingNumeric(fl, v);
  }

  lemma NothingNumeric(fl: Floats, v: Json)
    ensures !v.Obj? ==> forall key :: NumericOf(fl, At(v, key)).None?
  {
  }

  lemma NoMatrix(fl: Floats)
    ensures MapOf(None, NumericReader(fl)).None? && PureOcean(None)
  {
  }

  lemma EmittedPsychology(fl: Floats, v: Json)
    requires WellFormed(v)
    ensures var x := NormalizePsychologySection(fl, v);
      ShapePsychology(x) && (PurePsychology(x) <==> CleanPsychology(fl, v))
  {
    hide NormalizeOcean, CleanOcean, PureOcean, MapOf, CleanNumericMap, NormalizeMoralCompass, ScalarOf, At;
    NoMatrix(fl);
    var ocean := OceanSource(v);
    if ocean.Some? { EmittedOcean(fl, ocean.value); }
    if At(v, "neural_matrix").Some? {
      WellFormedAt(v, "neural_matrix");
      EmittedMatrix(fl, At(v, "neural_matrix").value);
    }
  }

  lemma EmittedFormality(fl: Floats, v: Json)
    ensures var x := FormalityLevel(fl, v);
      ShapeLine(x) && (PureLine(x) <==> CleanText(fl, AtAt(v, "text_style", "formality_level")))
  {
    TextEmitted(fl, AtAt(v, "text_style", "formality_level"));
  }

  lemma EmittedStyle(fl: Floats, v: Json)
    ensures SolidLine(StyleDescriptors(fl, v))
  {
    var descriptors := ListOf(fl, AtAt(v, "text_style", "style_descriptors"));
    if descriptors.Some? {
      JoinSolid(descriptors.value, ", ");
    }
  }

  lemma EmittedLinguistics(fl: Floats, v: Json)
    ensures var x := NormalizeLinguisticsSection(fl, v);
      ShapeLinguistics(x) && (PureLinguistics(x) <==> CleanLinguistics(fl, v))
  {
    hide TextOf, CleanText, FormalityLevel, StyleDescriptors, ListOf, AtAt, At;
    TextEmitted(fl, At(v, "style"));
    TextEmitted(fl, At(v, "formality"));
    EmittedFormality(fl, v);
    EmittedStyle(fl, v);
  }

  lemma EmittedMotivations(fl: Floats, v: Json)
    ensures var x := NormalizeMotivationsSection(fl, v);
      ShapeMotivations(x) && (PureMotivations(x) <==> CleanMotivations(fl, v))
  {
    TextEmitted(fl, At(v, "core_drive"));
  }

  lemma EmittedDescriptors(fl: Floats, v: Json)
    ensures var d := Descriptors(fl, v); d != [] ==> Solid(Join(d, "; "))
  {
    var d := Descriptors(fl, v);
    if d != [] {
      DescribedSolid("Face shape: ", ScalarOf(fl, AtAt(v, "face", "shape")));
      DescribedSolid("Build: ", ScalarOf(fl, AtAt(v, "body", "build_description")));
      DescribedSolid("Aesthetic: ", ScalarOf(fl, AtAt(v, "style", "aesthetic_archetype")));
      JoinSolid(d, "; ");
    }
  }

  lemma DescribedSolid(prefix: string, x: Line)
    requires SolidLine(x) && prefix != "" && !IsSpace(prefix[0])
    ensures forall d :: d in Described(prefix, x) ==> Solid(d)
  {
  }

  lemma EmittedPhysicality(fl: Floats, v: Json)
    ensures var x := NormalizePhysicalitySection(fl, v);
      ShapePhysicality(x) && (PurePhysicality(x) <==> CleanPhysicality(fl, v))
  {
    hide TextOf, CleanText, AtAt, At, Descriptors, Join;
    TextEmitted(fl, At(v, "appearance"));
    TextEmitted(fl, At(v, "avatar_description"));
    TextEmitted(fl, AtAt(v, "image_prompts", "portrait"));
    EmittedDescriptors(fl, v);
    var d := Descriptors(fl, v);
    var appearance := OrElse(TextOf(fl, At(v, "appearance")), if d == [] then None else Some(Join(d, "; ")));
    assert ShapeLine(appearance) && (PureLine(appearance) <==> CleanText(fl, At(v, "appearance")));
  }

  lemma EmittedHistory(fl: Floats, v: Json)
    ensures var x := NormalizeHistorySection(fl, v);
      ShapeHistory(x) && (PureHistory(x) <==> CleanHistory(fl, v))
  {
    TextEmitted(fl, At(v, "origin_story"));
    TextEmitted(fl, At(v, "occupation"));
  }

  lemma EmittedFavorites(fl: Floats, v: Json)
    requires WellFormed(v)
    ensures var x := MapOf(Some(v), TextReader(fl));
      && ShapeMap(x) && (x.Some? ==> forall k :: k in x.value ==> x.value[k] != "")
      && (CleanTextMap(fl, v) <==> (x.Some? ==> forall k :: k in x.value ==> Trimmed(x.value[k])))
  {
    if v.Obj? {
      var m := Collected(v.fields, TextReader(fl));
      CollectedEntries(v.fields, TextReader(fl));
      forall i | 0 <= i < |v.fields| && !Meta(v.fields[i].key) && ValueToText(fl, v.fields[i].value).Some?
        ensures v.fields[i].key in m && m[v.fields[i].key] == ValueToText(fl, v.fields[i].value).value
      {
        assert TextReader(fl)(v.fields[i].value).Some?;
      }
    }
  }

  lemma NoFavorites(fl: Floats)
    ensures MapOf(None, TextReader(fl)).None? && ShapeMap<string>(None)
  {
  }

  lemma EmittedInterests(fl: Floats, v: Json)
    requires WellFormed(v)
    ensures var x := NormalizeInterestsSection(fl, v);
      ShapeInterests(x) && (PureInterests(x) <==> CleanInterests(fl, v))
  {
    hide At, TextOf, CleanText, CleanTextMap, MapOf, ShapeMap;
    NoFavorites(fl);
    TextEmitted(fl, At(v, "lifestyle"));
    if At(v, "favorites").Some? {
      WellFormedAt(v, "favorites");
      EmittedFavorites(fl, At(v, "favorites").value);
    }
  }

  // The same, lifted to the section's place in the whole object.

  lemma LiftIdentity(fl: Floats, v: Json)
    ensures var x := Normalize(fl, v).identity;
      ShapeIdentitySection(x) && (PureIdentitySection(x) <==> CleanSection(v, "identity", j => CleanIdentitySection(fl, j)))
  {
    if At(v, "identity").Some? {
      EmittedIdentity(fl, At(v, "identity").value);
    }
  }

  lemma LiftPsychology(fl: Floats, v: Json)
    requires WellFormed(v)
    ensures var x := Normalize(fl, v).psychology;
      ShapePsychology(x) && (PurePsychology(x) <==> CleanSection(v, "psychology", j => CleanPsychology(fl, j)))
  {
    if At(v, "psychology").Some? {
      WellFormedAt(v, "psychology");
      EmittedPsychology(fl, At(v, "psychology").value);
    }
  }

  lemma LiftLinguistics(fl: Floats, v: Json)
    ensures var x := Normalize(fl, v).linguistics;
      ShapeLinguistics(x) && (PureLinguistics(x) <==> CleanSection(v, "linguistics", j => CleanLinguistics(fl, j)))
  {
    if At(v, "linguistics").Some? {
      EmittedLinguistics(fl, At(v, "linguistics").value);
    }
  }

  lemma LiftMotivations(fl: Floats, v: Json)
    ensures var x := Normalize(fl, v).motivations;
      ShapeMotivations(x) && (PureMotivations(x) <==> CleanSection(v, "motivations", j => CleanMotivations(fl, j)))
  {
    if At(v, "motivations").Some? {
      EmittedMotivations(fl, At(v, "motivations").value);
    }
  }

  lemma LiftPhysicality(fl: Floats, v: Json)
    ensures var x := Normalize(fl, v).physicality;
      ShapePhysicality(x) && (PurePhysicality(x) <==> CleanSection(v, "physicality", j => CleanPhysicality(fl, j)))
  {
    if At(v, "physicality").Some? {
      EmittedPhysicality(fl, At(v, "physicality").value);
    }
  }

  lemma LiftHistory(fl: Floats, v: Json)
    ensures var x := Normalize(fl, v).history;
      ShapeHistory(x) && (PureHistory(x) <==> CleanSection(v, "history", j => CleanHistory(fl, j)))
  {
    if At(v, "history").Some? {
      EmittedHistory(fl, At(v, "history").value);
    }
  }

  lemma LiftInterests(fl: Floats, v: Json)
    requires WellFormed(v)
    ensures var x := Normalize(fl, v).interests;
      ShapeInterests(x) && (PureInterests(x) <==> CleanSection(v, "interests", j => CleanInterests(fl, j)))
  {
    if At(v, "interests").Some? {
      WellFormedAt(v, "interests");
      EmittedInterests(fl, At(v, "interests").value);
    }
  }

  lemma LiftCapabilities(fl: Floats, v: Json)
    ensures ShapeCapabilities(Normalize(fl, v).capabilities)
  {
  }

  /** The invariant of every normalised identity, and exactly when it is also pure. */
  lemma Emitted(fl: Floats, v: Json)
    requires WellFormed(v)
    ensures Shape(Normalize(fl, v)) && (Pure(Normalize(fl, v)) <==> Clean(fl, v))
  {
    hide Normalize, CleanSection, ShapeIdentitySection, PureIdentitySection, ShapePsychology, PurePsychology,
      ShapeLinguistics, PureLinguistics, ShapeMotivations, PureMotivations, ShapePhysicality, PurePhysicality,
      ShapeHistory, PureHistory, ShapeInterests, PureInterests, ShapeCapabilities;
    LiftCapabilities(fl, v);
    LiftIdentity(fl, v);
    LiftPsychology(fl, v);
    LiftLinguistics(fl, v);
    LiftMotivations(fl, v);
    LiftPhysicality(fl, v);
    LiftHistory(fl, v);
    LiftInterests(fl, v);
  }

  // ── Section by section: reading an encoding back ───────────────────────

  lemma LineBack(fl: Floats, x: Line)
    ensures CleanText(fl, Some(LineJson(x)))
    ensures ShapeLine(x) && PureLine(x) ==> TextOf(fl, Some(LineJson(x))) == x
    ensures SolidLine(x) ==> ScalarOf(fl, Some(LineJson(x))) == x
  {
  }

  lemma WordsBack(fl: Floats, x: Words)
    requires CleanWords(x)
    ensures ListOf(fl, Some(WordsJson(x))) == x
  {
    if x.Some? { ListRoundTrip(fl, x.value); }
  }

  lemma FloatBack(fl: Floats, x: Option<F64>)
    ensures IsFinite(NumericOf(fl, Some(FloatJson(x))))
    ensures IsFinite(x) ==> NumericOf(fl, Some(FloatJson(x))) == x
  {
  }

  lemma BackNames(fl: Floats, j: Json, x: Option<Names>)
    requires EncodesNames(j, x)
    ensures ShapeNames(x) ==> NormalizeNames(fl, j) == x
  {
    hide LineJson, ScalarOf, SolidLine;
    NothingBack(fl);
    if x.Some? {
      LineBack(fl, x.value.first);
      LineBack(fl, x.value.last);
      LineBack(fl, x.value.nickname);
      LineBack(fl, x.value.full);
    }
  }

  lemma NothingBack(fl: Floats)
    ensures NormalizeIdentitySection(fl, Null).None? && CleanIdentitySection(fl, Null) && NormalizeNames(fl, Null).None?
  {
  }

  lemma BackIdentity(fl: Floats, j: Json, x: Option<IdentitySection>)
    requires EncodesIdentitySection(j, x)
    ensures CleanIdentitySection(fl, j)
    ensures ShapeIdentitySection(x) && PureIdentitySection(x) ==> NormalizeIdentitySection(fl, j) == x
  {
    hide NormalizeNames, ShapeNames, EncodesNames, LineJson, TextOf, CleanText;
    NothingBack(fl);
    if x.Some? {
      BackNames(fl, At(j, "names").value, x.value.names);
      LineBack(fl, x.value.bio);
      LineBack(fl, x.value.origin);
      LineBack(fl, x.value.residence);
    }
  }

  lemma MatrixClean(fl: Floats, j: Json, x: Option<map<string, F64>>)
    requires EncodesMap(j, x, F64Json)
    ensures CleanNumericMap(fl, j)
  {
  }

  lemma BackPsychology(fl: Floats, j: Json, x: Option<PsychologySection>)
    requires EncodesPsychology(j, x)
    ensures CleanPsychology(fl, j)
    ensures ShapePsychology(x) && PurePsychology(x) ==> NormalizePsychologySection(fl, j) == x
  {
    assert At(j, "traits").None?;
    assert OceanSource(j) == At(j, "ocean");
    if x.Some? {
      BackOcean(fl, At(j, "ocean").value, x.value.ocean);
      MatrixClean(fl, At(j, "neural_matrix").value, x.value.neuralMatrix);
      if ShapePsychology(x) && PurePsychology(x) {
        BackMatrixAndMoral(fl, j, x.value);
        LineBack(fl, x.value.mbti);
        assert OrElse(ScalarOf(fl, At(j, "mbti")), ScalarOf(fl, AtAt(j, "traits", "mbti"))) == x.value.mbti;
      }
    }
  }

  lemma BackMatrixAndMoral(fl: Floats, j: Json, s: PsychologySection)
    requires EncodesPsychology(j, Some(s)) && ShapePsychology(Some(s)) && PurePsychology(Some(s))
    ensures MapOf(At(j, "neural_matrix"), NumericReader(fl)) == s.neuralMatrix
    ensures NonEmpty(NormalizeMoralCompass(fl, At(j, "moral_compass").value)) == s.moralCompass
  {
    MapRoundTrip(At(j, "neural_matrix").value, s.neuralMatrix, F64Json, NumericReader(fl));
    WordsBack(fl, s.moralCompass);
    if s.moralCompass.Some? { DedupedFixed(s.moralCompass.value); }
  }

  lemma BackOcean(fl: Floats, j: Json, x: Option<OceanTraits>)
    requires EncodesOcean(j, x)
    ensures CleanOcean(fl, j)
    ensures PureOcean(x) && x != Some(OceanTraits(None, None, None, None, None)) ==> NormalizeOcean(fl, j) == x
  {
    if x.Some? {
      FloatBack(fl, x.value.openness);
      FloatBack(fl, x.value.conscientiousness);
      FloatBack(fl, x.value.extraversion);
      FloatBack(fl, x.value.agreeableness);
      FloatBack(fl, x.value.neuroticism);
    }
  }

  lemma BackLinguistics(fl: Floats, j: Json, x: Option<LinguisticsSection>)
    requires EncodesLinguistics(j, x)
    ensures CleanLinguistics(fl, j)
    ensures ShapeLinguistics(x) && PureLinguistics(x) ==> NormalizeLinguisticsSection(fl, j) == x
  {
    assert At(j, "text_style").None? && At(j, "idiolect").None?;
    if x.Some? {
      LineBack(fl, x.value.style);
      LineBack(fl, x.value.formality);
      if ShapeLinguistics(x) && PureLinguistics(x) {
        assert OrElse(TextOf(fl, At(j, "style")), StyleDescriptors(fl, j)) == x.value.style;
        assert OrElse(TextOf(fl, At(j, "formality")), FormalityLevel(fl, j)) == x.value.formality;
        WordsBack(fl, x.value.catchphrases);
        WordsBack(fl, x.value.forbiddenWords);
      }
    }
  }

  lemma BackMotivations(fl: Floats, j: Json, x: Option<MotivationsSection>)
    requires EncodesMotivations(j, x)
    ensures CleanMotivations(fl, j)
    ensures ShapeMotivations(x) && PureMotivations(x) ==> NormalizeMotivationsSection(fl, j) == x
  {
    assert At(j, "goals").None?;
    if x.Some? {
      LineBack(fl, x.value.coreDrive);
      if ShapeMotivations(x) && PureMotivations(x) {
        WordsBack(fl, x.value.shortTermGoals);
        WordsBack(fl, x.value.longTermGoals);
        assert OrElse(ListOf(fl, At(j, "short_term_goals")), ListOf(fl, AtAt(j, "goals", "short_term"))) == x.value.shortTermGoals;
        assert OrElse(ListOf(fl, At(j, "long_term_goals")), ListOf(fl, AtAt(j, "goals", "long_term"))) == x.value.longTermGoals;
        assert NormalizeFears(fl, j) == x.value.fears by {
          WordsBack(fl, x.value.fears);
          if x.value.fears.Some? { DedupedFixed(x.value.fears.value); }
        }
      }
    }
  }

  lemma BackCapabilities(fl: Floats, j: Json, x: Option<CapabilitiesSection>)
    requires EncodesCapabilities(j, x) && ShapeCapabilities(x)
    ensures NormalizeCapabilitiesSection(fl, j) == x
  {
    if x.Some? {
      WordsBack(fl, x.value.skills);
      WordsBack(fl, x.value.tools);
    }
  }

  lemma BackPhysicality(fl: Floats, j: Json, x: Option<PhysicalitySection>)
    requires EncodesPhysicality(j, x)
    ensures CleanPhysicality(fl, j)
    ensures ShapePhysicality(x) && PurePhysicality(x) ==> NormalizePhysicalitySection(fl, j) == x
  {
    assert At(j, "face").None? && At(j, "body").None? && At(j, "style").None? && At(j, "image_prompts").None?;
    assert Descriptors(fl, j) == [];
    if x.Some? {
      LineBack(fl, x.value.appearance);
      LineBack(fl, x.value.avatarDescription);
      if ShapePhysicality(x) && PurePhysicality(x) {
        assert TextOf(fl, At(j, "appearance")) == x.value.appearance;
        assert OrElse(TextOf(fl, At(j, "avatar_description")), TextOf(fl, AtAt(j, "image_prompts", "portrait"))) == x.value.avatarDescription;
      }
    }
  }

  lemma BackHistory(fl: Floats, j: Json, x: Option<HistorySection>)
    requires EncodesHistory(j, x)
    ensures CleanHistory(fl, j)
    ensures ShapeHistory(x) && PureHistory(x) ==> NormalizeHistorySection(fl, j) == x
  {
    if x.Some? {
      LineBack(fl, x.value.originStory);
      LineBack(fl, x.value.occupation);
      if ShapeHistory(x) { WordsBack(fl, x.value.education); }
    }
  }

  lemma BackInterests(fl: Floats, j: Json, x: Option<InterestsSection>)
    requires EncodesInterests(j, x)
    ensures CleanInterests(fl, j)
    ensures ShapeInterests(x) && PureInterests(x) ==> NormalizeInterestsSection(fl, j) == x
  {
    if x.Some? {
      LineBack(fl, x.value.lifestyle);
      if ShapeInterests(x) && PureInterests(x) {
        WordsBack(fl, x.value.hobbies);
        MapRoundTrip(At(j, "favorites").value, x.value.favorites, (t: string) => Str(t), TextReader(fl));
      }
    }
  }

  /** Every encoding is clean, and of a pure identity it is read back unchanged. */
  lemma Back(fl: Floats, j: Json, x: AieosIdentity)
    requires Encodes(j, x)
    ensures Clean(fl, j)
    ensures Shape(x) && Pure(x) ==> Normalize(fl, j) == x
  {
    hide NormalizeIdentitySection, NormalizePsychologySection, NormalizeLinguisticsSection, NormalizeMotivationsSection,
      NormalizeCapabilitiesSection, NormalizePhysicalitySection, NormalizeHistorySection, NormalizeInterestsSection,
      CleanIdentitySection, CleanPsychology, CleanLinguistics, CleanMotivations, CleanPhysicality, CleanHistory, CleanInterests,
      ShapeIdentitySection, PureIdentitySection, ShapePsychology, PurePsychology, ShapeLinguistics, PureLinguistics,
      ShapeMotivations, PureMotivations, ShapePhysicality, PurePhysicality, ShapeHistory, PureHistory, ShapeInterests,
      PureInterests, ShapeCapabilities, EncodesIdentitySection, EncodesPsychology, EncodesLinguistics, EncodesMotivations,
      EncodesCapabilities, EncodesPhysicality, EncodesHistory, EncodesInterests, WellFormed;
    BackIdentity(fl, At(j, "identity").value, x.identity);
    BackPsychology(fl, At(j, "psychology").value, x.psychology);
    BackLinguistics(fl, At(j, "linguistics").value, x.linguistics);
    BackMotivations(fl, At(j, "motivations").value, x.motivations);
    if Shape(x) { BackCapabilities(fl, At(j, "capabilities").value, x.capabilities); }
    BackPhysicality(fl, At(j, "physicality").value, x.physicality);
    BackHistory(fl, At(j, "history").value, x.history);
    BackInterests(fl, At(j, "interests").value, x.interests);
  }

  // ── Main results ───────────────────────────────────────────────────────

  /** Normalising one's own output changes nothing exactly when the input was clean. */
  lemma ProjectionIffClean(fl: Floats, v: Json, j: Json)
    requires WellFormed(v)
    ensures Encodes(j, Normalize(fl, v)) ==> (Normalize(fl, j) == Normalize(fl, v) <==> Clean(fl, v))
  {
    hide Normalize, Shape, Clean;
    Emitted(fl, v);
    if Encodes(j, Normalize(fl, v)) {
      Emitted(fl, j);
      Back(fl, j, Normalize(fl, v));
    }
  }

  /** Whatever the input, the second application settles it. */
  lemma SettledByTwo(fl: Floats, v: Json, j: Json, k: Json)
    ensures Encodes(j, Normalize(fl, v)) && Encodes(k, Normalize(fl, j)) ==> Normalize(fl, k) == Normalize(fl, j)
  {
    hide Normalize, Shape, Clean;
    if Encodes(j, Normalize(fl, v)) && Encodes(k, Normalize(fl, j)) {
      Back(fl, j, Normalize(fl, v));
      Emitted(fl, j);
      Back(fl, k, Normalize(fl, j));
    }
  }

  /** No string anywhere in the value is read as an infinity or NaN. */
  predicate FiniteStrings(fl: Floats, v: Json) {
    match v
    case Str(s) => IsFinite(fl.parse(s))
    case Arr(items) => forall i :: 0 <= i < |items| ==> FiniteStrings(fl, items[i])
    case Obj(fields) => forall i :: 0 <= i < |fields| ==> FiniteStrings(fl, fields[i].value)
    case _ => true
  }

  predicate Tame(fl: Floats, v: Json) {
    PlainKeys(v) && FiniteStrings(fl, v)
  }

  lemma TameAt(fl: Floats, v: Json, key: string)
    requires Tame(fl, v) && At(v, key).Some?
    ensures Tame(fl, At(v, key).value)
  {
    var i :| 0 <= i < |v.fields| && v.fields[i] == Field(key, At(v, key).value);
    assert PlainKeys(v.fields[i].value) && FiniteStrings(fl, v.fields[i].value);
  }

  lemma TameValue(fl: Floats, v: Json)
    requires Tame(fl, v)
    ensures !Padded(fl, v) && IsFinite(NumericFromValue(fl, v))
  {
    if v.Obj? { PlainKeysNotPadded(fl, "", v.fields); }
  }

  lemma TameTextAt(fl: Floats, v: Json, key: string)
    requires Tame(fl, v)
    ensures CleanText(fl, At(v, key)) && IsFinite(NumericOf(fl, At(v, key)))
  {
    if At(v, key).Some? {
      TameAt(fl, v, key);
      TameValue(fl, At(v, key).value);
    }
  }

  lemma TameTextAtAt(fl: Floats, v: Json, outer: string, inner: string)
    requires Tame(fl, v)
    ensures CleanText(fl, AtAt(v, outer, inner))
  {
    if At(v, outer).Some? {
      TameAt(fl, v, outer);
      TameTextAt(fl, At(v, outer).value, inner);
    }
  }

  lemma TameMap(fl: Floats, v: Json)
    requires Tame(fl, v)
    ensures CleanNumericMap(fl, v) && CleanTextMap(fl, v)
  {
    if v.Obj? {
      forall i | 0 <= i < |v.fields|
        ensures IsFinite(NumericFromValue(fl, v.fields[i].value)) && !Padded(fl, v.fields[i].value)
      {
        TameValue(fl, v.fields[i].value);
      }
    }
  }

  lemma TamePsychology(fl: Floats, v: Json)
    requires Tame(fl, v)
    ensures CleanPsychology(fl, v)
  {
    if At(v, "neural_matrix").Some? {
      TameAt(fl, v, "neural_matrix");
      TameMap(fl, At(v, "neural_matrix").value);
    }
    var ocean := OceanSource(v);
    if ocean.Some? {
      if At(v, "ocean").Some? {
        TameAt(fl, v, "ocean");
      } else {
        TameAt(fl, v, "traits");
        TameAt(fl, At(v, "traits").value, "ocean");
      }
      TameTextAt(fl, ocean.value, "openness");
      TameTextAt(fl, ocean.value, "conscientiousness");
      TameTextAt(fl, ocean.value, "extraversion");
      TameTextAt(fl, ocean.value, "agreeableness");
      TameTextAt(fl, ocean.value, "neuroticism");
    }
  }

  lemma TameTexts(fl: Floats, v: Json)
    requires Tame(fl, v)
    ensures CleanIdentitySection(fl, v) && CleanLinguistics(fl, v) && CleanMotivations(fl, v)
    ensures CleanPhysicality(fl, v) && CleanHistory(fl, v) && CleanInterests(fl, v)
  {
    hide At, AtAt, TextOf, CleanText, CleanTextMap, CleanNumericMap, Tame;
    forall key
      ensures CleanText(fl, At(v, key))
    {
      TameTextAt(fl, v, key);
    }
    TameTextAtAt(fl, v, "text_style", "formality_level");
    TameTextAtAt(fl, v, "image_prompts", "portrait");
    if At(v, "favorites").Some? {
      TameAt(fl, v, "favorites");
      TameMap(fl, At(v, "favorites").value);
    }
  }

  lemma TameSection(fl: Floats, v: Json, key: string)
    requires Tame(fl, v)
    ensures CleanSection(v, key, j => CleanIdentitySection(fl, j)) && CleanSection(v, key, j => CleanLinguistics(fl, j))
    ensures CleanSection(v, key, j => CleanMotivations(fl, j)) && CleanSection(v, key, j => CleanPhysicality(fl, j))
    ensures CleanSection(v, key, j => CleanHistory(fl, j)) && CleanSection(v, key, j => CleanInterests(fl, j))
  {
    hide CleanIdentitySection, CleanLinguistics, CleanMotivations, CleanPhysicality, CleanHistory, CleanInterests, Tame;
    if At(v, key).Some? {
      TameAt(fl, v, key);
      TameTexts(fl, At(v, key).value);
    }
  }

  /** Plain keys and finite numeric strings are enough. */
  lemma TameIsClean(fl: Floats, v: Json)
    requires PlainKeys(v) && FiniteStrings(fl, v)
    ensures Clean(fl, v)
  {
    hide CleanIdentitySection, CleanPsychology, CleanLinguistics, CleanMotivations, CleanPhysicality, CleanHistory, CleanInterests,
      PlainKeys, FiniteStrings;
    if At(v, "psychology").Some? {
      TameAt(fl, v, "psychology");
      TamePsychology(fl, At(v, "psychology").value);
    }
    TameSection(fl, v, "identity");
    TameSection(fl, v, "linguistics");
    TameSection(fl, v, "motivations");
    TameSection(fl, v, "physicality");
    TameSection(fl, v, "history");
    TameSection(fl, v, "interests");
  }

  function NotedBio(): Json {
    Obj([Field("_note", Str("x"))])
  }

  lemma NotedBioPadded(fl: Floats)
    ensures Padded(fl, NotedBio()) && WellFormed(NotedBio())
  {
    var note := Field("_note", Str("x"));
    assert NotedBio().fields[..0] == [];
    assert Solid("x");
    assert LeafText(fl, note.value) == Some("x");
    assert FieldLead(fl, "", note) == Some(Label("_note"));
    assert LeadLabel(fl, "", NotedBio().fields) == Some(Label("_note"));
  }

  /** A key with a leading underscore is enough to break it. */
  lemma UnderscoreKeyNotClean(fl: Floats)
    ensures var v := Obj([Field("identity", Obj([Field("bio", NotedBio())]))]);
      WellFormed(v) && !Clean(fl, v)
  {
    hide Padded, NotedBio;
    NotedBioPadded(fl);
    var section := Obj([Field("bio", NotedBio())]);
    assert WellFormed(section);
    assert At(section, "bio") == Some(NotedBio());
    assert At(Obj([Field("identity", section)]), "identity") == Some(section);
  }

  /** So is one string that reads as an infinity, where it is read as a number. */
  lemma InfiniteStringNotClean(fl: Floats)
    requires fl.parse("inf") == Some(Infinite(false))
    ensures var matrix := Obj([Field("calm", Str("inf"))]);
      var v := Obj([Field("psychology", Obj([Field("neural_matrix", matrix)]))]);
      WellFormed(v) && !Clean(fl, v)
  {
    var matrix := Obj([Field("calm", Str("inf"))]);
    var section := Obj([Field("neural_matrix", matrix)]);
    assert "calm"[0..1][0] != '@';
    assert matrix.fields[0].key == "calm" && !Meta("calm");
    assert !CleanNumericMap(fl, matrix);
    assert WellFormed(matrix) && WellFormed(section);
    assert At(section, "neural_matrix") == Some(matrix);
    assert At(Obj([Field("psychology", section)]), "psychology") == Some(section);
  }
}
