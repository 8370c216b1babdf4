/**
 * The three agent functions of app.py: topic information, quiz generation and myth busting,
 * each a lookup in a constant dict.
 */
module AppCatalog {

  import opened Wrappers
  import opened Seqs
  import opened Text
  import opened Tables
  import opened Progress

  const HealthDb: Table<Info> := [
    ("diabetes", Info("Diabetes")),
    ("vaccines", Info("Vaccines")),
    ("nutrition", Info("Nutrition")),
    ("sleep", Info("Sleep")),
    ("mental_health", Info("Mental Health"))
  ]

  /** `quizzes`: one question per topic. */
  const Quizzes: Table<Question> := [
    ("diabetes", Question(["<100", "100-125", ">125"], 0)),
    ("vaccines", Question(["15 min", "2 weeks", "6 months"], 1)),
    ("nutrition", Question(["1-2", "3-4", "5+"], 2)),
    ("sleep", Question(["5-6", "7-9", "10-12"], 1))
  ]

  /** `myths`, in declaration order; of each record only the myth statement is kept. */
  const Myths: Table<string> := [
    ("cold", "Cold weather causes colds"),
    ("sugar", "Sugar makes kids hyperactive"),
    ("vitamin", "Vitamin C prevents colds"),
    ("water", "Drink 8 glasses daily")
  ]

  /** `get_health_information`: the topic is lower-cased and stripped before the lookup. */
  function GetHealthInformation(topic: string): (r: InfoResult)
    ensures r.InfoFound? <==> HasKey(HealthDb, Strip(Lower(topic)))
    ensures r.InfoFound? ==> Get(HealthDb, Strip(Lower(topic))) == Some(r.info)
    ensures r.InfoMissing? ==> r.msg == "Try: diabetes, vaccines, nutrition, sleep, mental_health"
  {
    match Get(HealthDb, Strip(Lower(topic)))
    case Some(info) => InfoFound(info)
    case None => InfoMissing("Try: diabetes, vaccines, nutrition, sleep, mental_health")
  }

  /** `generate_quiz`: the topic is lower-cased but not stripped. */
  function GenerateQuiz(topic: string): (r: QuizResult)
    ensures r.QuizFound? <==> HasKey(Quizzes, Lower(topic))
    ensures r.QuizFound? ==> Get(Quizzes, Lower(topic)) == Some(r.quiz)
    ensures r.QuizMissing? ==> r.msg == "No quiz"
  {
    match Get(Quizzes, Lower(topic))
    case Some(q) => QuizFound(q)
    case None => QuizMissing("No quiz")
  }

  /**
   * What `bust_myth` returns: the record of the first key, in declaration order, that
   * occurs in the lower-cased query.
   */
  function MythLookup(myth: string): (r: MythResult)
    ensures r.Busted? ==> FirstKeyIn(Myths, Lower(myth)).Some? && r.myth == Myths[FirstKeyIn(Myths, Lower(myth)).value].1
    ensures r.MythMissing? <==> forall j :: 0 <= j < |Myths| ==> !Contains(Myths[j].0, Lower(myth))
    ensures r.MythMissing? ==> r.msg == "Myth not found"
  {
    match FirstKeyIn(Myths, Lower(myth))
    case Some(i) => Busted(Myths[i].1)
    case None => MythMissing("Myth not found")
  }

  /** `bust_myth`: the loop over `myths.items()` with its early return. */
  method BustMyth(myth: string) returns (r: MythResult)
    ensures r == MythLookup(myth)
  {
    var found := ScanKeys(Myths, Lower(myth));
    match found
    case Some(i) => return Busted(Myths[i].1);
    case None => return MythMissing("Myth not found");
  }

  lemma HealthDbKeysAreWords()
    ensures forall i :: 0 <= i < |HealthDb| ==> IsWord(HealthDb[i].0)
  {
    assert IsWord(HealthDb[0].0);
    assert IsWord(HealthDb[1].0);
    assert IsWord(HealthDb[2].0);
    assert IsWord(HealthDb[3].0);
    assert IsWord(HealthDb[4].0);
  }

  /** Each table has each key once, and every key is a word that `strip()` leaves alone. */
  lemma HealthDbWellFormed()
    ensures DistinctKeys(HealthDb)
    ensures forall i :: 0 <= i < |HealthDb| ==> IsWord(HealthDb[i].0)
  {
    DistinctBySignature(HealthDb);
    HealthDbKeysAreWords();
  }

  lemma QuizzesKeysAreWords()
    ensures forall i :: 0 <= i < |Quizzes| ==> IsWord(Quizzes[i].0)
  {
    assert IsWord(Quizzes[0].0);
    assert IsWord(Quizzes[1].0);
    assert IsWord(Quizzes[2].0);
    assert IsWord(Quizzes[3].0);
  }

  lemma QuizzesHaveDistinctKeys()
    ensures DistinctKeys(Quizzes)
    ensures forall i :: 0 <= i < |Quizzes| ==> IsWord(Quizzes[i].0)
  {
    DistinctBySignature(Quizzes);
    QuizzesKeysAreWords();
  }

  lemma MythsHaveDistinctKeys()
    ensures DistinctKeys(Myths)
  {
    DistinctBySignature(Myths);
  }

  /** Every question of the bank has its answer among its options, and no option twice. */
  lemma QuizzesWellFormed()
    ensures forall i :: 0 <= i < |Quizzes| ==> 0 <= Quizzes[i].1.ans < |Quizzes[i].1.opts| && Distinct(Quizzes[i].1.opts)
  {
  }

  /** A topic is found whatever its capitalisation and whatever whitespace surrounds it. */
  lemma InfoIgnoresCaseAndPadding(pre: string, u: string, post: string, i: nat)
    requires i < |HealthDb| && Lower(u) == HealthDb[i].0
    requires AllSpace(pre) && AllSpace(post)
    ensures GetHealthInformation(pre + u + post) == InfoFound(HealthDb[i].1)
  {
    HealthDbWellFormed();
    NormalizedLookup(HealthDb, i, pre, u, post);
  }

  /** A quiz topic is found whatever its capitalisation. */
  lemma QuizIgnoresCase(u: string, i: nat)
    requires i < |Quizzes| && Lower(u) == Quizzes[i].0
    ensures GenerateQuiz(u) == QuizFound(Quizzes[i].1)
  {
    QuizzesHaveDistinctKeys();
    GetAt(Quizzes, i);
  }

  /** Since the quiz topic is not stripped, a topic with leading whitespace finds no quiz. */
  lemma QuizMissesPaddedTopic(u: string)
    requires u != [] && IsSpace(u[0])
    ensures GenerateQuiz(u).QuizMissing?
  {
    assert Lower(u)[0] == u[0];
  }

  /** `bust_myth` lower-cases the query first, so its capitalisation does not matter. */
  lemma MythLookupIgnoresCase(myth: string)
    ensures MythLookup(Lower(myth)) == MythLookup(myth)
  {
    LowerIdempotent(myth);
  }

  /** The myth returned is the one of the first key, in declaration order, found in the query. */
  lemma MythFirstMatchWins(myth: string, i: nat)
    requires i < |Myths| && Contains(Myths[i].0, Lower(myth))
    requires forall j :: 0 <= j < i ==> !Contains(Myths[j].0, Lower(myth))
    ensures MythLookup(myth) == Busted(Myths[i].1)
  {
    FirstKeyInIsFirst(Myths, Lower(myth), i);
  }
}
