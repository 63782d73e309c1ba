/**
 A serialiser for the normalised identity, field by field in declaration order,
 and the projection theorem stated through it.
 */
module IdentityEncoding {
  import opened Wrappers
  import opened Json
  import opened IdentityText
  import opened Identity
  import opened IdentityProjection

  /** The entries of a map, in some order. */
  ghost function Entries<T>(m: map<string, T>, encode: T -> Json): seq<Field>
    decreases |m|
  {
    if m == map[] then []
    else
      var k :| k in m;
      assert k in m.Keys;
      [Field(k, encode(m[k]))] + Entries(m - {k}, encode)
  }

  ghost function MapJson<T>(x: Option<map<string, T>>, encode: T -> Json): Json {
    if x.Some? then Obj(Entries(x.value, encode)) else Null
  }

  /** These fields are the map's entries, each once. */
  ghost predicate AreEntries<T>(fields: seq<Field>, m: map<string, T>, encode: T -> Json) {
    && (forall i :: 0 <= i < |fields| ==> fields[i].key in m && fields[i].value == encode(m[fields[i].key]))
    && DistinctKeys(fields)
    && Keys(fields) == m.Keys
  }

  lemma PrependEntry<T>(fields: seq<Field>, m: map<string, T>, k: string, encode: T -> Json)
    requires k in m && AreEntries(fields, m - {k}, encode)
    ensures AreEntries([Field(k, encode(m[k]))] + fields, m, encode)
  {
    var all := [Field(k, encode(m[k]))] + fields;
    forall i | 0 < i < |all|
      ensures all[i].key in m && all[i].value == encode(m[all[i].key]) && all[i].key != k
    {
      assert all[i] == fields[i - 1];
    }
    forall i, j | 0 <= i < j < |all|
      ensures all[i].key != all[j].key
    {
      assert all[j] == fields[j - 1];
      if i > 0 { assert all[i] == fields[i - 1]; }
    }
    KeysPrepend(all, fields);
    assert m.Keys == {k} + (m - {k}).Keys;
  }

  lemma KeysPrepend(all: seq<Field>, fields: seq<Field>)
    requires all != [] && all[1..] == fields
    ensures Keys(all) == {all[0].key} + Keys(fields)
  {
    forall key | key in Keys(all)
      ensures key == all[0].key || key in Keys(fields)
    {
      var i :| 0 <= i < |all| && all[i].key == key;
      if i > 0 { assert fields[i - 1] == all[i]; }
    }
    forall key | key in Keys(fields)
      ensures key in Keys(all)
    {
      var i :| 0 <= i < |fields| && fields[i].key == key;
      assert all[i + 1] == fields[i];
    }
  }

  lemma {:induction false} EntriesEncode<T>(m: map<string, T>, encode: T -> Json)
    ensures AreEntries(Entries(m, encode), m, encode)
    decreases |m|
  {
    hide AreEntries, Keys, DistinctKeys;
    if m == map[] {
      NoEntries<T>(encode);
    } else {
      var k := Entries(m, encode)[0].key;
      assert k in m && Entries(m, encode) == [Field(k, encode(m[k]))] + Entries(m - {k}, encode);
      assert k in m.Keys;
      EntriesEncode(m - {k}, encode);
      PrependEntry(Entries(m - {k}, encode), m, k, encode);
    }
  }

  lemma NoEntries<T>(encode: T -> Json)
    ensures AreEntries([], map[], encode)
  {
  }

  lemma MapJsonEncodes<T>(x: Option<map<string, T>>, encode: T -> Json)
    requires forall v :: WellFormed(encode(v))
    ensures EncodesMap(MapJson(x, encode), x, encode) && WellFormed(MapJson(x, encode))
  {
    if x.Some? { EntriesEncode(x.value, encode); }
  }

  // ── The schema, field by field ─────────────────────────────────────────

  /** Looking fields up in an object of up to eight distinct keys. */
  lemma RowOf(fields: seq<Field>)
    requires DistinctKeys(fields)
    ensures forall i :: 0 <= i < |fields| ==> Get(fields, fields[i].key) == Some(fields[i].value)
  {
    forall i | 0 <= i < |fields|
      ensures Get(fields, fields[i].key) == Some(fields[i].value)
    {
      assert fields[i].key in Keys(fields);
      var v := Get(fields, fields[i].key).value;
      var k :| 0 <= k < |fields| && fields[k] == Field(fields[i].key, v);
    }
  }

  lemma ThreeKeys(fields: seq<Field>)
    requires |fields| == 3
    ensures Keys(fields) == {fields[0].key, fields[1].key, fields[2].key}
  {
  }

  lemma FourKeys(fields: seq<Field>)
    requires |fields| == 4
    ensures Keys(fields) == {fields[0].key, fields[1].key, fields[2].key, fields[3].key}
  {
  }

  lemma FiveKeys(fields: seq<Field>)
    requires |fields| == 5
    ensures Keys(fields) == {fields[0].key, fields[1].key, fields[2].key, fields[3].key, fields[4].key}
  {
  }

  lemma EightKeys(fields: seq<Field>)
    requires |fields| == 8
    ensures Keys(fields) == {fields[0].key, fields[1].key, fields[2].key, fields[3].key, fields[4].key, fields[5].key, fields[6].key, fields[7].key}
  {
  }

  lemma WordsWellFormed(x: Words)
    ensures WellFormed(WordsJson(x))
  {
  }

  ghost function NamesJson(x: Option<Names>): Json {
    if x.None? then Null
    else Obj([Field("first", LineJson(x.value.first)),
              Field("last", LineJson(x.value.last)),
              Field("nickname", LineJson(x.value.nickname)),
              Field("full", LineJson(x.value.full))])
  }

  lemma NamesEncodes(x: Option<Names>)
    ensures EncodesNames(NamesJson(x), x) && WellFormed(NamesJson(x))
  {
    hide Keys, Get;
    if x.Some? {
      var fields := NamesJson(x).fields;
      assert DistinctKeys(fields);
      RowOf(fields);
      FourKeys(fields);
      assert fields[0].key == "first";
      assert fields[1].key == "last";
      assert fields[2].key == "nickname";
      assert fields[3].key == "full";
    }
  }

  ghost function IdentitySectionJson(x: Option<IdentitySection>): Json {
    if x.None? then Null
    else Obj([Field("names", NamesJson(x.value.names)),
              Field("bio", LineJson(x.value.bio)),
              Field("origin", LineJson(x.value.origin)),
              Field("residence", LineJson(x.value.residence))])
  }

  lemma IdentitySectionEncodes(x: Option<IdentitySection>)
    ensures EncodesIdentitySection(IdentitySectionJson(x), x) && WellFormed(IdentitySectionJson(x))
  {
    hide Keys, Get;
    if x.Some? {
      NamesEncodes(x.value.names);
      var fields := IdentitySectionJson(x).fields;
      assert DistinctKeys(fields);
      RowOf(fields);
      FourKeys(fields);
      assert fields[0].key == "names";
      assert fields[1].key == "bio";
      assert fields[2].key == "origin";
      assert fields[3].key == "residence";
    }
  }

  ghost function OceanJson(x: Option<OceanTraits>): Json {
    if x.None? then Null
    else Obj([Field("openness", FloatJson(x.value.openness)),
              Field("conscientiousness", FloatJson(x.value.conscientiousness)),
              Field("extraversion", FloatJson(x.value.extraversion)),
              Field("agreeableness", FloatJson(x.value.agreeableness)),
              Field("neuroticism", FloatJson(x.value.neuroticism))])
  }

  lemma OceanEncodes(x: Option<OceanTraits>)
    ensures EncodesOcean(OceanJson(x), x) && WellFormed(OceanJson(x))
  {
    hide Keys, Get;
    if x.Some? {
      var fields := OceanJson(x).fields;
      assert DistinctKeys(fields);
      RowOf(fields);
      FiveKeys(fields);
      assert fields[0].key == "openness";
      assert fields[1].key == "conscientiousness";
      assert fields[2].key == "extraversion";
      assert fields[3].key == "agreeableness";
      assert fields[4].key == "neuroticism";
    }
  }

  ghost function PsychologyJson(x: Option<PsychologySection>): Json {
    if x.None? then Null
    else Obj([Field("neural_matrix", MapJson(x.value.neuralMatrix, F64Json)),
              Field("mbti", LineJson(x.value.mbti)),
              Field("ocean", OceanJson(x.value.ocean)),
              Field("moral_compass", WordsJson(x.value.moralCompass))])
  }

  lemma PsychologyEncodes(x: Option<PsychologySection>)
    ensures EncodesPsychology(PsychologyJson(x), x) && WellFormed(PsychologyJson(x))
  {
    hide Keys, Get;
    if x.Some? {
      MapJsonEncodes(x.value.neuralMatrix, F64Json);
      OceanEncodes(x.value.ocean);
      WordsWellFormed(x.value.moralCompass);
      var fields := PsychologyJson(x).fields;
      assert DistinctKeys(fields);
      RowOf(fields);
      FourKeys(fields);
      assert fields[0].key == "neural_matrix";
      assert fields[1].key == "mbti";
      assert fields[2].key == "ocean";
      assert fields[3].key == "moral_compass";
    }
  }

  ghost function LinguisticsJson(x: Option<LinguisticsSection>): Json {
    if x.None? then Null
    else Obj([Field("style", LineJson(x.value.style)),
              Field("formality", LineJson(x.value.formality)),
              Field("catchphrases", WordsJson(x.value.catchphrases)),
              Field("forbidden_words", WordsJson(x.value.forbiddenWords))])
  }

  lemma LinguisticsEncodes(x: Option<LinguisticsSection>)
    ensures EncodesLinguistics(LinguisticsJson(x), x) && WellFormed(LinguisticsJson(x))
  {
    hide Keys, Get;
    if x.Some? {
      WordsWellFormed(x.value.catchphrases);
      WordsWellFormed(x.value.forbiddenWords);
      var fields := LinguisticsJson(x).fields;
      assert DistinctKeys(fields);
      RowOf(fields);
      FourKeys(fields);
      assert fields[0].key == "style";
      assert fields[1].key == "formality";
      assert fields[2].key == "catchphrases";
      assert fields[3].key == "forbidden_words";
    }
  }

  ghost function MotivationsJson(x: Option<MotivationsSection>): Json {
    if x.None? then Null
    else Obj([Field("core_drive", LineJson(x.value.coreDrive)),
              Field("short_term_goals", WordsJson(x.value.shortTermGoals)),
              Field("long_term_goals", WordsJson(x.value.longTermGoals)),
              Field("fears", WordsJson(x.value.fears))])
  }

  lemma MotivationsEncodes(x: Option<MotivationsSection>)
    ensures EncodesMotivations(MotivationsJson(x), x) && WellFormed(MotivationsJson(x))
  {
    hide Keys, Get;
    if x.Some? {
      WordsWellFormed(x.value.shortTermGoals);
      WordsWellFormed(x.value.longTermGoals);
      WordsWellFormed(x.value.fears);
      var fields := MotivationsJson(x).fields;
      assert DistinctKeys(fields);
      RowOf(fields);
      FourKeys(fields);
      assert fields[0].key == "core_drive";
      assert fields[1].key == "short_term_goals";
      assert fields[2].key == "long_term_goals";
      assert fields[3].key == "fears";
    }
  }

  ghost function CapabilitiesJson(x: Option<CapabilitiesSection>): Json {
    if x.None? then Null
    else Obj([Field("skills", WordsJson(x.value.skills)),
              Field("tools", WordsJson(x.value.tools))])
  }

  lemma CapabilitiesEncodes(x: Option<CapabilitiesSection>)
    ensures EncodesCapabilities(CapabilitiesJson(x), x) && WellFormed(CapabilitiesJson(x))
  {
    if x.Some? {
      WordsWellFormed(x.value.skills);
      WordsWellFormed(x.value.tools);
      var fields := CapabilitiesJson(x).fields;
      RowOf(fields);
      assert fields[0].key == "skills";
      assert fields[1].key == "tools";
    }
  }

  ghost function PhysicalityJson(x: Option<PhysicalitySection>): Json {
    if x.None? then Null
    else Obj([Field("appearance", LineJson(x.value.appearance)),
              Field("avatar_description", LineJson(x.value.avatarDescription))])
  }

  lemma PhysicalityEncodes(x: Option<PhysicalitySection>)
    ensures EncodesPhysicality(PhysicalityJson(x), x) && WellFormed(PhysicalityJson(x))
  {
    if x.Some? {
      var fields := PhysicalityJson(x).fields;
      RowOf(fields);
      assert fields[0].key == "appearance";
      assert fields[1].key == "avatar_description";
    }
  }

  ghost function HistoryJson(x: Option<HistorySection>): Json {
    if x.None? then Null
    else Obj([Field("origin_story", LineJson(x.value.originStory)),
              Field("education", WordsJson(x.value.education)),
              Field("occupation", LineJson(x.value.occupation))])
  }

  lemma HistoryEncodes(x: Option<HistorySection>)
    ensures EncodesHistory(HistoryJson(x), x) && WellFormed(HistoryJson(x))
  {
    hide Keys, Get;
    if x.Some? {
      WordsWellFormed(x.value.education);
      var fields := HistoryJson(x).fields;
      assert DistinctKeys(fields);
      RowOf(fields);
      ThreeKeys(fields);
      assert fields[0].key == "origin_story";
      assert fields[1].key == "education";
      assert fields[2].key == "occupation";
    }
  }

  ghost function InterestsJson(x: Option<InterestsSection>): Json {
    if x.None? then Null
    else Obj([Field("hobbies", WordsJson(x.value.hobbies)),
              Field("favorites", MapJson(x.value.favorites, (t: string) => Str(t))),
              Field("lifestyle", LineJson(x.value.lifestyle))])
  }

  lemma InterestsEncodes(x: Option<InterestsSection>)
    ensures EncodesInterests(InterestsJson(x), x) && WellFormed(InterestsJson(x))
  {
    hide Keys, Get;
    if x.Some? {
      WordsWellFormed(x.value.hobbies);
      MapJsonEncodes(x.value.favorites, (t: string) => Str(t));
      var fields := InterestsJson(x).fields;
      assert DistinctKeys(fields);
      RowOf(fields);
      ThreeKeys(fields);
      assert fields[0].key == "hobbies";
      assert fields[1].key == "favorites";
      assert fields[2].key == "lifestyle";
    }
  }

  ghost function Encoded(x: AieosIdentity): Json {
    Obj([Field("identity", IdentitySectionJson(x.identity)),
         Field("psychology", PsychologyJson(x.psychology)),
         Field("linguistics", LinguisticsJson(x.linguistics)),
         Field("motivations", MotivationsJson(x.motivations)),
         Field("capabilities", CapabilitiesJson(x.capabilities)),
         Field("physicality", PhysicalityJson(x.physicality)),
         Field("history", HistoryJson(x.history)),
         Field("interests", InterestsJson(x.interests))])
  }

  predicate SectionKeys(fields: seq<Field>) {
    |fields| == 8 && fields[0].key == "identity" && fields[1].key == "psychology" && fields[2].key == "linguistics" &&
    fields[3].key == "motivations" && fields[4].key == "capabilities" && fields[5].key == "physicality" &&
    fields[6].key == "history" && fields[7].key == "interests"
  }

  lemma SectionsRead(fields: seq<Field>)
    requires SectionKeys(fields)
    ensures DistinctKeys(fields)
    ensures Keys(fields) == {"identity", "psychology", "linguistics", "motivations", "capabilities", "physicality", "history", "interests"}
    ensures Get(fields, "identity") == Some(fields[0].value)
    ensures Get(fields, "psychology") == Some(fields[1].value)
    ensures Get(fields, "linguistics") == Some(fields[2].value)
    ensures Get(fields, "motivations") == Some(fields[3].value)
    ensures Get(fields, "capabilities") == Some(fields[4].value)
    ensures Get(fields, "physicality") == Some(fields[5].value)
    ensures Get(fields, "history") == Some(fields[6].value)
    ensures Get(fields, "interests") == Some(fields[7].value)
  {
    hide Keys, Get;
    RowOf(fields);
    EightKeys(fields);
  }

  lemma EncodedFields(x: AieosIdentity)
    ensures |Encoded(x).fields| == 8
    ensures SectionKeys(Encoded(x).fields)
    ensures Encoded(x).fields[0].value == IdentitySectionJson(x.identity)
    ensures Encoded(x).fields[1].value == PsychologyJson(x.psychology)
    ensures Encoded(x).fields[2].value == LinguisticsJson(x.linguistics)
    ensures Encoded(x).fields[3].value == MotivationsJson(x.motivations)
    ensures Encoded(x).fields[4].value == CapabilitiesJson(x.capabilities)
    ensures Encoded(x).fields[5].value == PhysicalityJson(x.physicality)
    ensures Encoded(x).fields[6].value == HistoryJson(x.history)
    ensures Encoded(x).fields[7].value == InterestsJson(x.interests)
  {
    hide IdentitySectionJson, PsychologyJson, LinguisticsJson, MotivationsJson,
      CapabilitiesJson, PhysicalityJson, HistoryJson, InterestsJson;
  }

  lemma WellFormedRow(fields: seq<Field>)
    requires DistinctKeys(fields) && forall i :: 0 <= i < |fields| ==> WellFormed(fields[i].value)
    ensures WellFormed(Obj(fields))
  {
  }

  lemma EightWellFormed(fields: seq<Field>)
    requires |fields| == 8 && DistinctKeys(fields)
    requires WellFormed(fields[0].value)
    requires WellFormed(fields[1].value)
    requires WellFormed(fields[2].value)
    requires WellFormed(fields[3].value)
    requires WellFormed(fields[4].value)
    requires WellFormed(fields[5].value)
    requires WellFormed(fields[6].value)
    requires WellFormed(fields[7].value)
    ensures WellFormed(Obj(fields))
  {
    hide WellFormed, DistinctKeys;
    WellFormedRow(fields);
  }

  lemma EncodedWellFormed(x: AieosIdentity)
    ensures WellFormed(Encoded(x))
  {
    hide WellFormed, DistinctKeys, Get, Keys, SectionKeys, EncodesIdentitySection, EncodesPsychology, EncodesLinguistics,
      EncodesMotivations, EncodesCapabilities, EncodesPhysicality, EncodesHistory, EncodesInterests, IdentitySectionJson,
      PsychologyJson, LinguisticsJson, MotivationsJson, CapabilitiesJson, PhysicalityJson, HistoryJson, InterestsJson;
    IdentitySectionEncodes(x.identity);
    PsychologyEncodes(x.psychology);
    LinguisticsEncodes(x.linguistics);
    MotivationsEncodes(x.motivations);
    CapabilitiesEncodes(x.capabilities);
    PhysicalityEncodes(x.physicality);
    HistoryEncodes(x.history);
    InterestsEncodes(x.interests);
    EncodedFields(x);
    SectionsRead(Encoded(x).fields);
    EightWellFormed(Encoded(x).fields);
  }

  /** Every identity has an encoding. */
  lemma EncodedEncodes(x: AieosIdentity)
    ensures Encodes(Encoded(x), x)
  {
    hide WellFormed, Keys, Get, DistinctKeys, SectionKeys, EncodesIdentitySection, EncodesPsychology, EncodesLinguistics, EncodesMotivations,
      EncodesCapabilities, EncodesPhysicality, EncodesHistory, EncodesInterests, IdentitySectionJson, PsychologyJson, LinguisticsJson, MotivationsJson,
      CapabilitiesJson, PhysicalityJson, HistoryJson, InterestsJson;
    IdentitySectionEncodes(x.identity);
    PsychologyEncodes(x.psychology);
    LinguisticsEncodes(x.linguistics);
    MotivationsEncodes(x.motivations);
    CapabilitiesEncodes(x.capabilities);
    PhysicalityEncodes(x.physicality);
    HistoryEncodes(x.history);
    InterestsEncodes(x.interests);
    EncodedWellFormed(x);
    EncodedFields(x);
    SectionsRead(Encoded(x).fields);
  }

  /** Serialising one's own output and normalising it again is the identity exactly on clean inputs. */
  lemma RoundTripIffClean(fl: Floats, v: Json)
    requires WellFormed(v)
    ensures Normalize(fl, Encoded(Normalize(fl, v))) == Normalize(fl, v) <==> Clean(fl, v)
  {
    EncodedEncodes(Normalize(fl, v));
    ProjectionIffClean(fl, v, Encoded(Normalize(fl, v)));
  }

  /** Once it has been through twice, an identity never changes again. */
  lemma SettledAfterTwo(fl: Floats, v: Json)
    ensures var once := Normalize(fl, v);
      var twice := Normalize(fl, Encoded(once));
      Normalize(fl, Encoded(twice)) == twice
  {
    var once := Normalize(fl, v);
    var twice := Normalize(fl, Encoded(once));
    EncodedEncodes(once);
    EncodedEncodes(twice);
    SettledByTwo(fl, v, Encoded(once), Encoded(twice));
  }
}
