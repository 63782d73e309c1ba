/**
 The AIEOS identity normaliser: an arbitrary JSON object is reduced, section by
 section, to a fixed schema of trimmed texts, clean lists and numeric maps.
 */
module Identity {
  import opened Wrappers
  import opened Text
  import opened Json
  import opened IdentityText

  // ── The fixed schema ───────────────────────────────────────────────────

  type Words = Option<seq<string>>
  type Line = Option<string>

  datatype Names = Names(first: Line, last: Line, nickname: Line, full: Line)

  datatype IdentitySection = IdentitySection(names: Option<Names>, bio: Line, origin: Line, residence: Line)

  datatype OceanTraits = OceanTraits(
    openness: Option<F64>, conscientiousness: Option<F64>, extraversion: Option<F64>,
    agreeableness: Option<F64>, neuroticism: Option<F64>)

  datatype PsychologySection = PsychologySection(
    neuralMatrix: Option<map<string, F64>>, mbti: Line, ocean: Option<OceanTraits>, moralCompass: Words)

  datatype LinguisticsSection = LinguisticsSection(
    style: Line, formality: Line, catchphrases: Words, forbiddenWords: Words)

  datatype MotivationsSection = MotivationsSection(
    coreDrive: Line, shortTermGoals: Words, longTermGoals: Words, fears: Words)

  datatype CapabilitiesSection = CapabilitiesSection(skills: Words, tools: Words)

  datatype PhysicalitySection = PhysicalitySection(appearance: Line, avatarDescription: Line)

  datatype HistorySection = HistorySection(originStory: Line, education: Words, occupation: Line)

  datatype InterestsSection = InterestsSection(
    hobbies: Words, favorites: Option<map<string, string>>, lifestyle: Line)

  datatype AieosIdentity = AieosIdentity(
    identity: Option<IdentitySection>,
    psychology: Option<PsychologySection>,
    linguistics: Option<LinguisticsSection>,
    motivations: Option<MotivationsSection>,
    capabilities: Option<CapabilitiesSection>,
    physicality: Option<PhysicalitySection>,
    history: Option<HistorySection>,
    interests: Option<InterestsSection>)

  // ── Field extractors ───────────────────────────────────────────────────

  function TextOf(fl: Floats, v: Option<Json>): Line {
    if v.Some? then ValueToText(fl, v.value) else None
  }

  function ScalarOf(fl: Floats, v: Option<Json>): (r: Line)
    ensures r.Some? ==> Solid(r.value)
  {
    if v.Some? then ScalarToString(fl, v.value) else None
  }

  /** A list, with the empty list read as absent. */
  function NonEmpty(list: seq<string>): Words {
    if list == [] then None else Some(list)
  }

  function ListOf(fl: Floats, v: Option<Json>): (r: Words)
    ensures CleanWords(r)
  {
    if v.Some? then NonEmpty(ValueList(fl, v.value)) else None
  }

  function NumericFromValue(fl: Floats, v: Json): Option<F64> {
    match v
    case Num(Integer(n)) => Some(Finite(fl.round(n)))
    case Num(Double(p)) => Some(Finite(p))
    case Str(s) => fl.parse(s)
    case _ => None
  }

  function NumericOf(fl: Floats, v: Option<Json>): Option<F64> {
    if v.Some? then NumericFromValue(fl, v.value) else None
  }

  /** The entries of an object that have a value, without the `@` metadata. */
  function Collected<T>(fields: seq<Field>, extract: Json -> Option<T>): map<string, T> {
    if fields == [] then map[]
    else
      var m := Collected(fields[..|fields| - 1], extract);
      var f := fields[|fields| - 1];
      if !Meta(f.key) && extract(f.value).Some? then m[f.key := extract(f.value).value] else m
  }

  method CollectMap<T>(fields: seq<Field>, extract: Json -> Option<T>) returns (m: map<string, T>)
    ensures m == Collected(fields, extract)
  {
    m := map[];
    for i := 0 to |fields|
      invariant m == Collected(fields[..i], extract)
    {
      assert fields[..i + 1][..i] == fields[..i];
      if Meta(fields[i].key) {
        continue;
      }
      var v := extract(fields[i].value);
      if v.Some? {
        m := m[fields[i].key := v.value];
      }
    }
    assert fields[..|fields|] == fields;
  }

  function NumericReader(fl: Floats): Json -> Option<F64> {
    v => NumericFromValue(fl, v)
  }

  function TextReader(fl: Floats): Json -> Option<string> {
    v => ValueToText(fl, v)
  }

  function MapOf<T>(v: Option<Json>, extract: Json -> Option<T>): Option<map<string, T>> {
    if v.Some? && v.value.Obj? && Collected(v.value.fields, extract) != map[]
    then Some(Collected(v.value.fields, extract))
    else None
  }

  // ── Sections ───────────────────────────────────────────────────────────

  function NormalizeNames(fl: Floats, v: Json): Option<Names> {
    var first := ScalarOf(fl, At(v, "first"));
    var last := ScalarOf(fl, At(v, "last"));
    var given := ScalarOf(fl, At(v, "full"));
    var full := if given.None? && first.Some? && last.Some? then Some(first.value + " " + last.value) else given;
    var x := Names(first, last, ScalarOf(fl, At(v, "nickname")), full);
    if x == Names(None, None, None, None) then None else Some(x)
  }

  function NormalizeIdentitySection(fl: Floats, v: Json): Option<IdentitySection> {
    var names := At(v, "names");
    var x := IdentitySection(
      if names.Some? then NormalizeNames(fl, names.value) else None,
      TextOf(fl, At(v, "bio")), TextOf(fl, At(v, "origin")), TextOf(fl, At(v, "residence")));
    if x == IdentitySection(None, None, None, None) then None else Some(x)
  }

  function NormalizeOcean(fl: Floats, v: Json): Option<OceanTraits> {
    if !v.Obj? then None
    else
      var x := OceanTraits(
        NumericOf(fl, At(v, "openness")), NumericOf(fl, At(v, "conscientiousness")),
        NumericOf(fl, At(v, "extraversion")), NumericOf(fl, At(v, "agreeableness")),
        NumericOf(fl, At(v, "neuroticism")));
      if x == OceanTraits(None, None, None, None, None) then None else Some(x)
  }

  function NormalizeMoralCompass(fl: Floats, v: Json): (r: seq<string>)
    ensures CleanList(r)
  {
    if v.Obj? then
      var alignment := ScalarOf(fl, At(v, "alignment"));
      var core := At(v, "core_values");
      var style := ScalarOf(fl, At(v, "conflict_resolution_style"));
      var values :=
        (if alignment.Some? then ["Alignment: " + alignment.value] else [])
        + (if core.Some? then ValueList(fl, core.value) else [])
        + (if style.Some? then ["Conflict Style: " + style.value] else []);
      Deduped(if values == [] then ValueList(fl, v) else values)
    else Deduped(ValueList(fl, v))
  }

  /** `ocean` wherever it is present, even as null; else `traits.ocean`. */
  function OceanSource(v: Json): Option<Json> {
    OrElse(At(v, "ocean"), AtAt(v, "traits", "ocean"))
  }

  function NormalizePsychologySection(fl: Floats, v: Json): Option<PsychologySection> {
    var ocean := OceanSource(v);
    var moral := At(v, "moral_compass");
    var x := PsychologySection(
      MapOf(At(v, "neural_matrix"), NumericReader(fl)),
      OrElse(ScalarOf(fl, At(v, "mbti")), ScalarOf(fl, AtAt(v, "traits", "mbti"))),
      if ocean.Some? then NormalizeOcean(fl, ocean.value) else None,
      if moral.Some? then NonEmpty(NormalizeMoralCompass(fl, moral.value)) else None);
    if x == PsychologySection(None, None, None, None) then None else Some(x)
  }

  function StyleDescriptors(fl: Floats, v: Json): Line {
    match ListOf(fl, AtAt(v, "text_style", "style_descriptors"))
    case Some(list) => Some(Join(list, ", "))
    case None => None
  }

  function FormalityLevel(fl: Floats, v: Json): Line {
    var level := AtAt(v, "text_style", "formality_level");
    match NumericOf(fl, level)
    case Some(n) => Some(fl.fixed2(n))
    case None => TextOf(fl, level)
  }

  function NormalizeLinguisticsSection(fl: Floats, v: Json): Option<LinguisticsSection> {
    var x := LinguisticsSection(
      OrElse(TextOf(fl, At(v, "style")), StyleDescriptors(fl, v)),
      OrElse(TextOf(fl, At(v, "formality")), FormalityLevel(fl, v)),
      OrElse(ListOf(fl, At(v, "catchphrases")), ListOf(fl, AtAt(v, "idiolect", "catchphrases"))),
      OrElse(ListOf(fl, At(v, "forbidden_words")), ListOf(fl, AtAt(v, "idiolect", "forbidden_words"))));
    if x == LinguisticsSection(None, None, None, None) then None else Some(x)
  }

  function ListOrNone(words: Words): seq<string> {
    if words.Some? then words.value else []
  }

  function NormalizeFears(fl: Floats, v: Json): (r: Words)
    ensures CleanWords(r)
  {
    match At(v, "fears")
    case None => None
    case Some(fears) =>
      var combined := ListOrNone(ListOf(fl, AtAt(v, "fears", "rational")))
        + ListOrNone(ListOf(fl, AtAt(v, "fears", "irrational")));
      NonEmpty(Deduped(if fears.Obj? && combined != [] then combined else ValueList(fl, fears)))
  }

  function NormalizeMotivationsSection(fl: Floats, v: Json): Option<MotivationsSection> {
    var x := MotivationsSection(
      TextOf(fl, At(v, "core_drive")),
      OrElse(ListOf(fl, At(v, "short_term_goals")), ListOf(fl, AtAt(v, "goals", "short_term"))),
      OrElse(ListOf(fl, At(v, "long_term_goals")), ListOf(fl, AtAt(v, "goals", "long_term"))),
      NormalizeFears(fl, v));
    if x == MotivationsSection(None, None, None, None) then None else Some(x)
  }

  function NormalizeCapabilitiesSection(fl: Floats, v: Json): Option<CapabilitiesSection> {
    var x := CapabilitiesSection(ListOf(fl, At(v, "skills")), ListOf(fl, At(v, "tools")));
    if x == CapabilitiesSection(None, None) then None else Some(x)
  }

  function Described(prefix: string, value: Line): seq<string> {
    if value.Some? then [prefix + value.value] else []
  }

  function Descriptors(fl: Floats, v: Json): seq<string> {
    Described("Face shape: ", ScalarOf(fl, AtAt(v, "face", "shape")))
    + Described("Build: ", ScalarOf(fl, AtAt(v, "body", "build_description")))
    + Described("Aesthetic: ", ScalarOf(fl, AtAt(v, "style", "aesthetic_archetype")))
  }

  function NormalizePhysicalitySection(fl: Floats, v: Json): Option<PhysicalitySection> {
    var descriptors := Descriptors(fl, v);
    var x := PhysicalitySection(
      OrElse(TextOf(fl, At(v, "appearance")), if descriptors == [] then None else Some(Join(descriptors, "; "))),
      OrElse(TextOf(fl, At(v, "avatar_description")), TextOf(fl, AtAt(v, "image_prompts", "portrait"))));
    if x == PhysicalitySection(None, None) then None else Some(x)
  }

  function NormalizeHistorySection(fl: Floats, v: Json): Option<HistorySection> {
    var x := HistorySection(
      TextOf(fl, At(v, "origin_story")), ListOf(fl, At(v, "education")), TextOf(fl, At(v, "occupation")));
    if x == HistorySection(None, None, None) then None else Some(x)
  }

  function NormalizeInterestsSection(fl: Floats, v: Json): Option<InterestsSection> {
    var x := InterestsSection(
      ListOf(fl, At(v, "hobbies")),
      MapOf(At(v, "favorites"), TextReader(fl)),
      TextOf(fl, At(v, "lifestyle")));
    if x == InterestsSection(None, None, None) then None else Some(x)
  }

  /** A section is normalised only where its key is present. */
  function Section<T>(v: Json, key: string, normalize: Json -> Option<T>): Option<T> {
    match At(v, key)
    case Some(section) => normalize(section)
    case None => None
  }

  function Normalize(fl: Floats, v: Json): AieosIdentity {
    AieosIdentity(
      Section(v, "identity", j => NormalizeIdentitySection(fl, j)),
      Section(v, "psychology", j => NormalizePsychologySection(fl, j)),
      Section(v, "linguistics", j => NormalizeLinguisticsSection(fl, j)),
      Section(v, "motivations", j => NormalizeMotivationsSection(fl, j)),
      Section(v, "capabilities", j => NormalizeCapabilitiesSection(fl, j)),
      Section(v, "physicality", j => NormalizePhysicalitySection(fl, j)),
      Section(v, "history", j => NormalizeHistorySection(fl, j)),
      Section(v, "interests", j => NormalizeInterestsSection(fl, j)))
  }

  predicate CleanWords(x: Words) {
    x.Some? ==> x.value != [] && CleanList(x.value)
  }
}
