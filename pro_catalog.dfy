/**
 * The constant data of health_bot_enhanced_pro.py and its pure lookups: the CDC and NIH
 * stubs of `HealthAPIs`, the `HEALTH_TOPICS` and `QUIZ_QUESTIONS` tables, the category
 * menu and filter of the Learn page, and the myths of the Myths page.
 */
module ProCatalog {

  import opened Wrappers
  import opened Seqs
  import opened Text
  import opened Tables
  import opened Progress

  /** A topic sheet of `HEALTH_TOPICS`; of its content the title and the category are kept. */
  datatype Topic = Topic(title: string, category: string)

  const HealthTopics: Table<Topic> := [
    ("diabetes", Topic("Diabetes Mellitus", "Metabolic Disorders")),
    ("vaccines", Topic("Vaccines & Immunization", "Prevention")),
    ("nutrition", Topic("Nutrition & Healthy Eating", "Lifestyle")),
    ("sleep", Topic("Sleep & Sleep Hygiene", "Lifestyle")),
    ("mental_health", Topic("Mental Health & Wellness", "Mental Health")),
    ("cardiovascular_health", Topic("Cardiovascular Health & Disease Prevention", "Heart & Circulation")),
    ("hypertension", Topic("Hypertension (High Blood Pressure)", "Heart & Circulation")),
    ("cholesterol_management", Topic("Cholesterol Management", "Heart & Circulation")),
    ("respiratory_health", Topic("Respiratory Health & Lung Disease", "Lungs & Breathing")),
    ("cancer_prevention", Topic("Cancer Prevention & Screening", "Disease Prevention")),
    ("bone_health", Topic("Bone Health & Osteoporosis Prevention", "Musculoskeletal")),
    ("immune_system_health", Topic("Immune System Health & Strength", "Immune System")),
    ("digestive_health", Topic("Digestive Health & Gut Wellness", "Digestive System")),
    ("skin_health", Topic("Skin Health & Dermatology", "Skin Care")),
    ("exercise_fitness", Topic("Exercise & Physical Fitness", "Lifestyle"))
  ]

  /** The third option of the blood-pressure question is stored with these three code points before "140/90". */
  const QuizQuestions: Table<seq<Question>> := [
    ("diabetes", [
      Question(["Less than 100 mg/dL", "100-125 mg/dL", "More than 125 mg/dL"], 0),
      Question(["Lifestyle factors", "Autoimmune attack on insulin cells", "Poor diet"], 1),
      Question(["Type 1", "Type 2", "Gestational"], 1),
      Question(["30 minutes total", "150 minutes moderate", "300 minutes"], 1)]),
    ("cardiovascular_health", [
      Question(["Cancer", "Cardiovascular disease", "Respiratory disease"], 1),
      Question(["120/80", "130/85", "\U{201A}\U{E2}\U{2022}140/90"], 2),
      Question(["10 minutes/week", "75 minutes vigorous/week", "5 hours/week"], 1)]),
    ("cancer_prevention", [
      Question(["30%", "50%", "80%"], 2),
      Question(["Smoking", "Alcohol", "Height"], 2),
      Question(["Age 30", "Age 40", "Age 50"], 1)]),
    ("bone_health", [
      Question(["500mg", "800mg", "1000-1200mg"], 2),
      Question(["Vitamin A", "Vitamin C", "Vitamin D"], 2),
      Question(["Swimming", "Weight-bearing exercise", "Cycling"], 1)]),
    ("immune_system_health", [
      Question(["30%", "50%", "70%"], 2),
      Question(["5-6 hours", "7-9 hours", "10+ hours"], 1),
      Question(["Fat", "Zinc", "Sugar"], 1)]),
    ("exercise_fitness", [
      Question(["75 minutes", "150 minutes", "300 minutes"], 1),
      Question(["10%", "20%", "30%"], 2),
      Question(["2-3 years", "5-7 years", "7-10 years"], 2)])
  ]

  /** The myths of the Myths page; of each record only the myth statement is kept. */
  const MythsData: Table<string> := [
    ("cold", "Exposure to cold causes colds"),
    ("sugar", "Sugar makes children hyperactive"),
    ("vitamin", "Vitamin C prevents colds"),
    ("water", "Drink exactly 8 glasses daily"),
    ("knuckles", "Cracking knuckles causes arthritis")
  ]

  /** A record of the CDC or the NIH table; of its content only the name is kept. */
  datatype Resource = Resource(name: string)

  /** `{"status": "success", "source": ..., **record}` or `{"status": "error", "message": ...}`. */
  datatype ApiResult = ApiFound(source: string, record: Resource) | ApiError(message: string)

  const CdcData: Table<Resource> := [
    ("cardiovascular_disease", Resource("Cardiovascular Disease")),
    ("diabetes", Resource("Diabetes")),
    ("respiratory_health", Resource("Respiratory Health")),
    ("cancer", Resource("Cancer Prevention"))
  ]

  const NihResources: Table<Resource> := [
    ("mental_wellness", Resource("Mental Wellness")),
    ("nutrition", Resource("Nutrition")),
    ("aging", Resource("Healthy Aging"))
  ]

  /** `topic.lower().replace(" ", "_")`. */
  function ApiKey(topic: string): (k: string)
    ensures |k| == |topic|
    ensures forall i :: 0 <= i < |topic| ==> k[i] == (if topic[i] == ' ' then '_' else LowerChar(topic[i]))
  {
    ReplaceSpaces(Lower(topic))
  }

  /** `HealthAPIs.get_cdc_data`. */
  function GetCdcData(topic: string): (r: ApiResult)
    ensures r.ApiFound? <==> HasKey(CdcData, ApiKey(topic))
    ensures r.ApiFound? ==> r.source == "CDC" && Get(CdcData, ApiKey(topic)) == Some(r.record)
    ensures r.ApiError? ==> r.message == "CDC data not available"
  {
    match Get(CdcData, ApiKey(topic))
    case Some(rec) => ApiFound("CDC", rec)
    case None => ApiError("CDC data not available")
  }

  /** `HealthAPIs.get_nih_resources`. */
  function GetNihResources(topic: string): (r: ApiResult)
    ensures r.ApiFound? <==> HasKey(NihResources, ApiKey(topic))
    ensures r.ApiFound? ==> r.source == "NIH" && Get(NihResources, ApiKey(topic)) == Some(r.record)
    ensures r.ApiError? ==> r.message == "NIH resources not available"
  {
    match Get(NihResources, ApiKey(topic))
    case Some(rec) => ApiFound("NIH", rec)
    case None => ApiError("NIH resources not available")
  }

  /**
   * `u` spells the key `k` the way a user may type it: character for character, any letter
   * possibly capitalised and any underscore possibly written as a space (a space of the key
   * itself cannot be typed, since the normalisation turns it into an underscore).
   */
  predicate SpellsKey(u: string, k: string) {
    |u| == |k| && forall j :: 0 <= j < |k| ==> (LowerChar(u[j]) == k[j] && k[j] != ' ') || (u[j] == ' ' && k[j] == '_')
  }

  /** The normalisation of the API stubs turns every spelling of a key into the key. */
  lemma ApiKeyOfSpelling(u: string, k: string)
    requires SpellsKey(u, k)
    ensures ApiKey(u) == k
  {
    var l := Lower(u);
    assert forall j :: 0 <= j < |k| ==> ApiKey(u)[j] == (if l[j] == ' ' then '_' else l[j]);
  }

  lemma CdcKeysDistinct()
    ensures DistinctKeys(CdcData)
  {
    DistinctBySignature(CdcData);
  }

  lemma NihKeysDistinct()
    ensures DistinctKeys(NihResources)
  {
    DistinctBySignature(NihResources);
  }

  /** Any spelling of a CDC key with capitals, or with spaces for underscores, finds that record. */
  lemma CdcFindsSpelledKey(u: string, i: nat)
    requires i < |CdcData| && SpellsKey(u, CdcData[i].0)
    ensures GetCdcData(u) == ApiFound("CDC", CdcData[i].1)
  {
    CdcKeysDistinct();
    ApiKeyOfSpelling(u, CdcData[i].0);
    GetAt(CdcData, i);
  }

  /** The same holds for the NIH keys. */
  lemma NihFindsSpelledKey(u: string, i: nat)
    requires i < |NihResources| && SpellsKey(u, NihResources[i].0)
    ensures GetNihResources(u) == ApiFound("NIH", NihResources[i].1)
  {
    NihKeysDistinct();
    ApiKeyOfSpelling(u, NihResources[i].0);
    GetAt(NihResources, i);
  }

  /** `[t["category"] for t in HEALTH_TOPICS.values()]`. */
  function CategoriesOf(t: Table<Topic>): (cs: seq<string>)
    ensures |cs| == |t|
    ensures forall i :: 0 <= i < |t| ==> cs[i] == t[i].1.category
  {
    if t == [] then [] else [t[0].1.category] + CategoriesOf(t[1..])
  }

  /** `sorted(list(set(categories)))`: the category menu of the Learn page. */
  function CategoryMenu(t: Table<Topic>): (cs: seq<string>)
    ensures Sorted(cs) && Distinct(cs)
    ensures forall c :: c in cs <==> c in CategoriesOf(t)
  {
    var d := Dedup(CategoriesOf(t));
    var r := SortStrings(d);
    SortStringsDistinct(d);
    assert forall c :: c in r <==> c in multiset(d);
    r
  }

  /**
   * Whatever order `set(...)` lists the categories in, the menu is the same: the one sorted
   * list without repetitions of exactly the categories that occur.
   */
  lemma CategoryMenuIsUnique(t: Table<Topic>, xs: seq<string>)
    requires Sorted(xs) && Distinct(xs)
    requires forall c :: c in xs <==> c in CategoriesOf(t)
    ensures xs == CategoryMenu(t)
  {
    SortedDistinctUnique(xs, CategoryMenu(t));
  }

  /** `{k: v for k, v in HEALTH_TOPICS.items() if v["category"] == category}`. */
  function FilterByCategory(t: Table<Topic>, c: string): (r: Table<Topic>)
    ensures forall i :: 0 <= i < |r| ==> r[i].1.category == c
    ensures |r| <= |t|
  {
    if t == [] then []
    else if t[0].1.category == c then [t[0]] + FilterByCategory(t[1..], c)
    else FilterByCategory(t[1..], c)
  }

  /** The filter keeps exactly the entries of the selected category. */
  lemma {:induction false} FilterKeepsExactlyCategory(t: Table<Topic>, c: string)
    ensures forall e :: e in FilterByCategory(t, c) <==> e in t && e.1.category == c
  {
    if t != [] {
      FilterKeepsExactlyCategory(t[1..], c);
      assert t == [t[0]] + t[1..];
    }
  }

  /** The filter keeps the table order, so the topic menu lists its keys as `HEALTH_TOPICS` does. */
  lemma {:induction false} FilterKeepsTableOrder(t: Table<Topic>, c: string)
    ensures IsSubseq(FilterByCategory(t, c), t)
  {
    if t != [] {
      FilterKeepsTableOrder(t[1..], c);
      var r := FilterByCategory(t[1..], c);
      if t[0].1.category == c {
        assert ([t[0]] + r)[1..] == r;
      } else {
        SubseqOfTail(r, t);
      }
    }
  }

  /** Every category offered by the menu has at least one topic, so the topic menu is never empty. */
  lemma MenuCategoriesHaveTopics(t: Table<Topic>, c: string)
    requires c in CategoryMenu(t)
    ensures FilterByCategory(t, c) != []
  {
    var i :| 0 <= i < |t| && CategoriesOf(t)[i] == c;
    FilterKeepsExactlyCategory(t, c);
    assert t[i] in FilterByCategory(t, c);
  }

  /** Every quiz question has its answer among its options, and every topic has at least one question. */
  lemma QuizQuestionsWellFormed()
    ensures forall i :: 0 <= i < |QuizQuestions| ==> QuizQuestions[i].1 != []
    ensures forall i, j :: 0 <= i < |QuizQuestions| && 0 <= j < |QuizQuestions[i].1| ==>
      0 <= QuizQuestions[i].1[j].ans < |QuizQuestions[i].1[j].opts|
  {
  }

  /**
   * Every quiz topic is a key of `HEALTH_TOPICS`, so the title lookups of the topic menu
   * and of the dashboard find it.
   */
  lemma QuizTopicsHaveTitles()
    ensures forall i :: 0 <= i < |QuizQuestions| ==> HasKey(HealthTopics, QuizQuestions[i].0)
  {
    assert QuizQuestions[0].0 == HealthTopics[0].0;
    assert QuizQuestions[1].0 == HealthTopics[5].0;
    assert QuizQuestions[2].0 == HealthTopics[9].0;
    assert QuizQuestions[3].0 == HealthTopics[10].0;
    assert QuizQuestions[4].0 == HealthTopics[11].0;
    assert QuizQuestions[5].0 == HealthTopics[14].0;
  }

  lemma QuizQuestionsHaveDistinctKeys()
    ensures DistinctKeys(QuizQuestions)
  {
    DistinctBySignature(QuizQuestions);
  }

  lemma HealthTopicsHaveDistinctKeys()
    ensures DistinctKeys(HealthTopics)
  {
    DistinctBySignature(HealthTopics);
  }
}
