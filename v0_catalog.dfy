/**
 * The three agent functions of appV0.py. Unlike app.py, the quiz topic is stripped too,
 * there is a fifth quiz and a fifth myth, and the error messages list the keys.
 */
module V0Catalog {

  import opened Wrappers
  import opened Seqs
  import opened Text
  import opened Tables
  import opened Progress

  const HealthDb: Table<Info> := [
    ("diabetes", Info("Diabetes")),
    ("vaccines", Info("Vaccines")),
    ("nutrition", Info("Nutrition")),
    ("sleep", Info("Sleep")),
    ("mental_health", Info("Mental Health"))
  ]

  const Quizzes: Table<Question> := [
    ("diabetes", Question(["Less than 100 mg/dL", "100-125 mg/dL", "More than 125 mg/dL"], 0)),
    ("vaccines", Question(["Within 15 minutes", "Within 2 weeks", "After 3 months"], 1)),
    ("nutrition", Question(["1-2 servings", "3-4 servings", "5 or more servings"], 2)),
    ("sleep", Question(["5-6 hours", "7-9 hours", "10-12 hours"], 1)),
    ("mental_health", Question(["About 1 in 20", "About 1 in 10", "About 1 in 5"], 2))
  ]

  const Myths: Table<string> := [
    ("cold", "Exposure to cold weather causes colds"),
    ("sugar", "Sugar makes children hyperactive"),
    ("vitamin", "Taking vitamin C prevents colds"),
    ("water", "You must drink exactly 8 glasses of water daily"),
    ("knuckles", "Cracking knuckles causes arthritis")
  ]

  /** `get_health_information`: lower-cased and stripped; a miss lists the keys. */
  function GetHealthInformation(topic: string): (r: InfoResult)
    ensures r.InfoFound? <==> HasKey(HealthDb, Strip(Lower(topic)))
    ensures r.InfoFound? ==> Get(HealthDb, Strip(Lower(topic))) == Some(r.info)
    ensures r.InfoMissing? ==> r.msg == "Try: " + Join(Keys(HealthDb), ", ")
  {
    match Get(HealthDb, Strip(Lower(topic)))
    case Some(info) => InfoFound(info)
    case None => InfoMissing("Try: " + Join(Keys(HealthDb), ", "))
  }

  /** `generate_quiz`: lower-cased and stripped; a miss lists the quiz keys. */
  function GenerateQuiz(topic: string): (r: QuizResult)
    ensures r.QuizFound? <==> HasKey(Quizzes, Strip(Lower(topic)))
    ensures r.QuizFound? ==> Get(Quizzes, Strip(Lower(topic))) == Some(r.quiz)
    ensures r.QuizMissing? ==> r.msg == "Quiz for: " + Join(Keys(Quizzes), ", ")
  {
    match Get(Quizzes, Strip(Lower(topic)))
    case Some(q) => QuizFound(q)
    case None => QuizMissing("Quiz for: " + Join(Keys(Quizzes), ", "))
  }

  /** What `bust_myth` returns: the record of the first key, in declaration order, in the lower-cased query. */
  function MythLookup(myth: string): (r: MythResult)
    ensures r.Busted? ==> FirstKeyIn(Myths, Lower(myth)).Some? && r.myth == Myths[FirstKeyIn(Myths, Lower(myth)).value].1
    ensures r.MythMissing? <==> forall j :: 0 <= j < |Myths| ==> !Contains(Myths[j].0, Lower(myth))
    ensures r.MythMissing? ==> r.msg == "Myth not found. Try: cold, sugar, vitamin, water, knuckles"
  {
    match FirstKeyIn(Myths, Lower(myth))
    case Some(i) => Busted(Myths[i].1)
    case None => MythMissing("Myth not found. Try: cold, sugar, vitamin, water, knuckles")
  }

  /** `bust_myth`: the loop over `myths.items()` with its early return. */
  method BustMyth(myth: string) returns (r: MythResult)
    ensures r == MythLookup(myth)
  {
    var found := ScanKeys(Myths, Lower(myth));
    match found
    case Some(i) => return Busted(Myths[i].1);
    case None => return MythMissing("Myth not found. Try: cold, sugar, vitamin, water, knuckles");
  }

  /** A miss is exactly a normalised topic that is not among the keys the message lists. */
  lemma InfoMissIffNotListed(topic: string)
    ensures GetHealthInformation(topic).InfoMissing? <==> Strip(Lower(topic)) !in Keys(HealthDb)
  {
    HasKeyIffInKeys(HealthDb, Strip(Lower(topic)));
  }

  /** The same holds for the quiz keys. */
  lemma QuizMissIffNotListed(topic: string)
    ensures GenerateQuiz(topic).QuizMissing? <==> Strip(Lower(topic)) !in Keys(Quizzes)
  {
    HasKeyIffInKeys(Quizzes, Strip(Lower(topic)));
  }

  /** The five topic names with ", " between them, spelled out. */
  lemma TopicNamesJoined()
    ensures "diabetes" + ", " + "vaccines" + ", " + "nutrition" + ", " + "sleep" + ", " + "mental_health"
         == "diabetes, vaccines, nutrition, sleep, mental_health"
  {
    assert "diabetes" + ", " + "vaccines" == "diabetes, vaccines";
    assert "diabetes, vaccines" + ", " + "nutrition" == "diabetes, vaccines, nutrition";
    assert "diabetes, vaccines, nutrition" + ", " + "sleep" == "diabetes, vaccines, nutrition, sleep";
  }

  /** `available` of both miss messages: the keys, in declaration order, joined by ", ". */
  lemma MissMessagesListKeys()
    ensures Join(Keys(HealthDb), ", ") == "diabetes, vaccines, nutrition, sleep, mental_health"
    ensures Join(Keys(Quizzes), ", ") == "diabetes, vaccines, nutrition, sleep, mental_health"
  {
    assert Keys(HealthDb) == ["diabetes", "vaccines", "nutrition", "sleep", "mental_health"];
    assert Keys(Quizzes) == Keys(HealthDb);
    JoinFive("diabetes", "vaccines", "nutrition", "sleep", "mental_health", ", ");
    TopicNamesJoined();
  }

  lemma HealthDbKeysAreWords()
    ensures forall i :: 0 <= i < |HealthDb| ==> IsWord(HealthDb[i].0)
  {
    assert IsWord(HealthDb[0].0);
    assert IsWord(HealthDb[1].0);
    assert IsWord(HealthDb[2].0);
    assert IsWord(HealthDb[3].0);
    assert IsWord(HealthDb[4].0);
  }

  lemma HealthDbWellFormed()
    ensures DistinctKeys(HealthDb)
    ensures forall i :: 0 <= i < |HealthDb| ==> IsWord(HealthDb[i].0)
  {
    DistinctBySignature(HealthDb);
    HealthDbKeysAreWords();
  }

  lemma QuizzesKeysAreWords()
    ensures forall i :: 0 <= i < |Quizzes| ==> IsWord(Quizzes[i].0)
  {
    assert IsWord(Quizzes[0].0);
    assert IsWord(Quizzes[1].0);
    assert IsWord(Quizzes[2].0);
    assert IsWord(Quizzes[3].0);
    assert IsWord(Quizzes[4].0);
  }

  lemma QuizzesHaveDistinctKeys()
    ensures DistinctKeys(Quizzes)
    ensures forall i :: 0 <= i < |Quizzes| ==> IsWord(Quizzes[i].0)
  {
    DistinctBySignature(Quizzes);
    QuizzesKeysAreWords();
  }

  /** Every question has its answer index among its options, and no option twice. */
  lemma QuizzesWellFormed()
    ensures forall i :: 0 <= i < |Quizzes| ==> 0 <= Quizzes[i].1.ans < |Quizzes[i].1.opts| && Distinct(Quizzes[i].1.opts)
  {
  }

  /** A topic is found whatever its capitalisation and whatever whitespace surrounds it. */
  lemma InfoIgnoresCaseAndPadding(pre: string, u: string, post: string, i: nat)
    requires i < |HealthDb| && Lower(u) == HealthDb[i].0
    requires AllSpace(pre) && AllSpace(post)
    ensures GetHealthInformation(pre + u + post) == InfoFound(HealthDb[i].1)
  {
    HealthDbWellFormed();
    NormalizedLookup(HealthDb, i, pre, u, post);
  }

  /** The same holds for quiz topics, which appV0.py strips as well. */
  lemma QuizIgnoresCaseAndPadding(pre: string, u: string, post: string, i: nat)
    requires i < |Quizzes| && Lower(u) == Quizzes[i].0
    requires AllSpace(pre) && AllSpace(post)
    ensures GenerateQuiz(pre + u + post) == QuizFound(Quizzes[i].1)
  {
    QuizzesHaveDistinctKeys();
    NormalizedLookup(Quizzes, i, pre, u, post);
  }

  /** The myth returned is that of the first key, in declaration order, found in the query. */
  lemma MythFirstMatchWins(myth: string, i: nat)
    requires i < |Myths| && Contains(Myths[i].0, Lower(myth))
    requires forall j :: 0 <= j < i ==> !Contains(Myths[j].0, Lower(myth))
    ensures MythLookup(myth) == Busted(Myths[i].1)
  {
    FirstKeyInIsFirst(Myths, Lower(myth), i);
  }
}
