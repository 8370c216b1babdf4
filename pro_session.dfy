/**
 * The session of health_bot_enhanced_pro.py: `history`, `scores`, `current_quiz` and
 * `quiz_answered` in `st.session_state`, and the handlers of the Learn, Quiz, Myths and
 * Dashboard pages that use them.
 */
module ProSession {

  import opened Wrappers
  import opened Seqs
  import opened Tables
  import opened Progress
  import opened ProCatalog

  /** What the session holds between reruns. */
  datatype ProState = ProState(
    history: seq<Entry>,
    board: Board,
    current: Option<Question>,
    answered: bool)

  /** The state of the first run. */
  const Initial := ProState([], Board(map[], []), None, false)

  /** The questions of a quiz topic, `QUIZ_QUESTIONS[topic]`. */
  function QuestionsOf(topic: string): seq<Question>
    requires HasKey(QuizQuestions, topic)
  {
    Get(QuizQuestions, topic).value
  }

  /**
   * Load Question: `random.choice(QUIZ_QUESTIONS[topic])`, the pick being the question at
   * position `choice`; it becomes the current one and the answered flag is cleared.
   */
  function LoadStep(s: ProState, topic: string, choice: nat): (r: ProState)
    requires HasKey(QuizQuestions, topic) && choice < |QuestionsOf(topic)|
    ensures r.current.Some? && r.current.value in QuestionsOf(topic) && !r.answered
    ensures r.history == s.history && r.board == s.board
  {
    s.(current := Some(QuestionsOf(topic)[choice]), answered := false)
  }

  /** Every question of the topic is the one loaded by some pick. */
  lemma LoadCanPickEveryQuestion(s: ProState, topic: string, q: Question)
    requires HasKey(QuizQuestions, topic) && q in QuestionsOf(topic)
    ensures exists choice: nat :: choice < |QuestionsOf(topic)| && LoadStep(s, topic, choice).current == Some(q)
  {
    var choice :| 0 <= choice < |QuestionsOf(topic)| && QuestionsOf(topic)[choice] == q;
    assert LoadStep(s, topic, choice).current == Some(q);
  }

  /**
   * Submit with option `idx` of the current question, credited to the topic selected at
   * that moment, whatever topic the question was drawn from; nothing checks whether it
   * was already answered.
   */
  function SubmitStep(s: ProState, topic: string, idx: nat, time: Time): (r: ProState)
    requires s.current.Some? && idx < |s.current.value.opts|
    ensures r.answered && r.current == s.current
    ensures topic in r.board.scores
    ensures r.board.Get(topic).total == s.board.Get(topic).total + 1
    ensures r.board.Get(topic).correct == s.board.Get(topic).correct + (if idx == s.current.value.ans then 1 else 0)
    ensures forall t :: t != topic ==> r.board.Get(t) == s.board.Get(t)
    ensures r.history == s.history + [Quiz(topic, Some(idx == s.current.value.ans), Some(time))]
    ensures s.board.Valid() ==> r.board.Valid()
  {
    var ok := idx == s.current.value.ans;
    ProState(s.history + [Quiz(topic, Some(ok), Some(time))], s.board.Credit(topic, ok), s.current, true)
  }

  /** Next: the current question is dropped; the answered flag is left as it was. */
  function NextStep(s: ProState): (r: ProState)
    ensures r.current.None?
    ensures r.history == s.history && r.board == s.board && r.answered == s.answered
  {
    s.(current := None)
  }

  /** Read Full Information: the selected topic is recorded with the time. */
  function ReadStep(s: ProState, topic: string, time: Time): (r: ProState)
    ensures r.history == s.history + [Learn(topic, Some(time))]
    ensures r.board == s.board && r.current == s.current && r.answered == s.answered
  {
    s.(history := s.history + [Learn(topic, Some(time))])
  }

  /**
   * Bust This Myth on the selected key: `myths_data[selected_myth]` is read first, so a key
   * that is not in the table records nothing; a key that is records a myth entry without time.
   */
  function BustStep(s: ProState, key: string): (r: ProState)
    ensures r.history == s.history + (if HasKey(MythsData, key) then [Myth(key, None)] else [])
    ensures r.board == s.board && r.current == s.current && r.answered == s.answered
  {
    if Get(MythsData, key).Some? then s.(history := s.history + [Myth(key, None)]) else s
  }

  /** A button press, with the widget values and the time it happened at. */
  datatype Action =
    | PressLoad(topic: string, choice: nat)
    | PressSubmit(topic: string, idx: nat, time: Time)
    | PressNext
    | PressRead(topic: string, time: Time)
    | PressBust(key: string)

  /**
   * What the widgets can offer: the quiz topic is a key of `QUIZ_QUESTIONS` (its select
   * box lists exactly those), the pick is a position of its question list, and Submit is
   * only shown with a current question and one of its options.
   */
  predicate Enabled(s: ProState, a: Action) {
    match a
    case PressLoad(topic, choice) => HasKey(QuizQuestions, topic) && choice < |QuestionsOf(topic)|
    case PressSubmit(topic, idx, _) => HasKey(QuizQuestions, topic) && s.current.Some? && idx < |s.current.value.opts|
    case _ => true
  }

  function Step(s: ProState, a: Action): ProState
    requires Enabled(s, a)
  {
    match a
    case PressLoad(topic, choice) => LoadStep(s, topic, choice)
    case PressSubmit(topic, idx, time) => SubmitStep(s, topic, idx, time)
    case PressNext => NextStep(s)
    case PressRead(topic, time) => ReadStep(s, topic, time)
    case PressBust(key) => BustStep(s, key)
  }

  /** The state after a session of presses, or `None` if one of them was not offered. */
  function Run(s: ProState, acts: seq<Action>): Option<ProState>
    decreases |acts|
  {
    if acts == [] then Some(s)
    else if Enabled(s, acts[0]) then Run(Step(s, acts[0]), acts[1..])
    else None
  }

  /** Every topic with a score entry is a quiz topic. */
  predicate ScoredTopicsAreQuizTopics(s: ProState) {
    forall t :: t in s.board.order ==> HasKey(QuizQuestions, t)
  }

  /** One press keeps the invariants and only appends to the history. */
  lemma StepKeepsInvariants(s: ProState, a: Action)
    requires s.board.Valid() && ScoredTopicsAreQuizTopics(s) && Enabled(s, a)
    ensures Step(s, a).board.Valid() && ScoredTopicsAreQuizTopics(Step(s, a))
    ensures s.history <= Step(s, a).history
  {
    match a
    case PressLoad(topic, choice) =>
    case PressSubmit(topic, idx, time) =>
    case PressNext =>
    case PressRead(topic, time) =>
    case PressBust(key) =>
  }

  /**
   * Over any session, the history only grows, every score entry keeps `correct <= total`,
   * and every scored topic is a quiz topic.
   */
  lemma {:induction false} RunKeepsInvariants(s: ProState, acts: seq<Action>)
    requires s.board.Valid() && ScoredTopicsAreQuizTopics(s)
    ensures Run(s, acts).Some? ==> Run(s, acts).value.board.Valid() && ScoredTopicsAreQuizTopics(Run(s, acts).value)
    ensures Run(s, acts).Some? ==> s.history <= Run(s, acts).value.history
    decreases |acts|
  {
    if acts != [] && Enabled(s, acts[0]) {
      StepKeepsInvariants(s, acts[0]);
      RunKeepsInvariants(Step(s, acts[0]), acts[1..]);
    }
  }

  /** Pressing Submit twice on the same question adds two to the topic's total. */
  lemma RepeatedSubmitCountsTwice(s: ProState, topic: string, idx: nat, t1: Time, t2: Time)
    requires s.current.Some? && idx < |s.current.value.opts|
    ensures var r := SubmitStep(SubmitStep(s, topic, idx, t1), topic, idx, t2);
      && r.board.Get(topic).total == s.board.Get(topic).total + 2
      && r.board.Get(topic).correct == s.board.Get(topic).correct + (if idx == s.current.value.ans then 2 else 0)
      && |r.history| == |s.history| + 2
  {
  }

  /**
   * The Dashboard's score table: one row per entry in dict order, titled by
   * `HEALTH_TOPICS[topic]["title"]`, or `None` for the `KeyError` of a topic without a title.
   */
  function TitledRows(t: Table<Topic>, order: seq<string>, scores: map<string, Score>): Option<seq<ScoreRow>>
    requires forall x :: x in order ==> x in scores
  {
    if order == [] then
      Some([])
    else
      match Get(t, order[0])
      case None => None
      case Some(topic) =>
        match TitledRows(t, order[1..], scores)
        case None => None
        case Some(rest) => Some([RowOf(topic.title, scores[order[0]])] + rest)
  }

  /**
   * The table exists exactly when every scored topic has a title, and then has one row per
   * entry, in dict order, showing the entry's title and score.
   */
  lemma {:induction false} TitledRowsSpec(t: Table<Topic>, order: seq<string>, scores: map<string, Score>)
    requires forall x :: x in order ==> x in scores
    ensures TitledRows(t, order, scores).Some? <==> forall i :: 0 <= i < |order| ==> HasKey(t, order[i])
    ensures TitledRows(t, order, scores).Some? ==>
      && |TitledRows(t, order, scores).value| == |order|
      && forall i :: 0 <= i < |order| ==>
           HasKey(t, order[i]) && TitledRows(t, order, scores).value[i] == RowOf(Get(t, order[i]).value.title, scores[order[i]])
  {
    if order != [] {
      TitledRowsSpec(t, order[1..], scores);
      if !HasKey(t, order[0]) {
        assert !(forall i :: 0 <= i < |order| ==> HasKey(t, order[i]));
      } else if TitledRows(t, order[1..], scores).None? {
        var k :| 0 <= k < |order[1..]| && !HasKey(t, order[1..][k]);
        assert !HasKey(t, order[k + 1]);
      } else {
        forall i | 1 <= i < |order|
          ensures HasKey(t, order[i])
        {
          assert order[i] == order[1..][i - 1];
        }
      }
    }
  }

  /** Scanning one more titled entry appends its row. */
  lemma {:induction false} TitledRowsSnoc(t: Table<Topic>, order: seq<string>, x: string, scores: map<string, Score>)
    requires forall y :: y in order ==> y in scores
    requires x in scores
    requires TitledRows(t, order, scores).Some? && Get(t, x).Some?
    ensures forall y :: y in order + [x] ==> y in scores
    ensures TitledRows(t, order + [x], scores)
            == Some(TitledRows(t, order, scores).value + [RowOf(Get(t, x).value.title, scores[x])])
  {
    if order == [] {
      var row := RowOf(Get(t, x).value.title, scores[x]);
      assert order + [x] == [x] && [x][1..] == [];
      assert TitledRows(t, [x], scores) == Some([row] + []);
      assert [row] + [] == TitledRows(t, order, scores).value + [row];
    } else {
      assert (order + [x])[0] == order[0] && (order + [x])[1..] == order[1..] + [x];
      TitledRowsSnoc(t, order[1..], x, scores);
      var head := RowOf(Get(t, order[0]).value.title, scores[order[0]]);
      var rest := TitledRows(t, order[1..], scores).value;
      assert TitledRows(t, order, scores).value == [head] + rest;
      assert [head] + (rest + [RowOf(Get(t, x).value.title, scores[x])])
          == ([head] + rest) + [RowOf(Get(t, x).value.title, scores[x])];
    }
  }

  /** The loop of the Dashboard over `scores.items()`, stopping at the first title missing. */
  method ScoreTable(t: Table<Topic>, order: seq<string>, scores: map<string, Score>) returns (rows: Option<seq<ScoreRow>>)
    requires forall x :: x in order ==> x in scores
    ensures rows == TitledRows(t, order, scores)
  {
    var acc: seq<ScoreRow> := [];
    var i := 0;
    while i < |order|
      invariant 0 <= i <= |order|
      invariant forall y :: y in order[..i] ==> y in scores
      invariant TitledRows(t, order[..i], scores) == Some(acc)
    {
      var topic := order[i];
      match Get(t, topic)
      case None =>
        TitledRowsSpec(t, order, scores);
        assert !HasKey(t, order[i]);
        return None;
      case Some(info) =>
        var s := scores[topic];
        var pct := if s.total > 0 then RoundedPercent(s.correct, s.total) else 0;
        TitledRowsSnoc(t, order[..i], topic, scores);
        assert order[..i + 1] == order[..i] + [topic];
        acc := acc + [ScoreRow(info.title, s.correct, s.total, pct)];
      i := i + 1;
    }
    assert order[..i] == order;
    rows := Some(acc);
  }

  /** When the keys of `order` are all keys of `keys` and those all have titles, every title is found. */
  lemma TitledRowsFound<R>(keys: Table<R>, t: Table<Topic>, order: seq<string>, scores: map<string, Score>)
    requires forall x :: x in order ==> x in scores
    requires forall x :: x in order ==> HasKey(keys, x)
    requires forall i :: 0 <= i < |keys| ==> HasKey(t, keys[i].0)
    ensures TitledRows(t, order, scores).Some?
  {
    forall i | 0 <= i < |order|
      ensures HasKey(t, order[i])
    {
      assert order[i] in order;
      var j :| 0 <= j < |keys| && keys[j].0 == order[i];
    }
    TitledRowsSpec(t, order, scores);
  }

  /** In a session where every scored topic is a quiz topic, the dashboard finds every title. */
  lemma DashboardFindsTitles(s: ProState)
    requires ScoredTopicsAreQuizTopics(s)
    requires forall x :: x in s.board.order ==> x in s.board.scores
    ensures TitledRows(HealthTopics, s.board.order, s.board.scores).Some?
  {
    QuizTopicsHaveTitles();
    TitledRowsFound(QuizQuestions, HealthTopics, s.board.order, s.board.scores);
  }

  /** The session of health_bot_enhanced_pro.py as a Streamlit session-state object. */
  class Session {
    var history: seq<Entry>
    var scores: map<string, Score>
    /** The keys of `scores` in insertion order. */
    var scoreOrder: seq<string>
    var currentQuiz: Option<Question>
    var quizAnswered: bool

    function State(): ProState
      reads this
    {
      ProState(history, Board(scores, scoreOrder), currentQuiz, quizAnswered)
    }

    /** The score invariant, and every scored topic is one the quiz select box offers. */
    ghost predicate Valid()
      reads this
    {
      && Board(scores, scoreOrder).Valid()
      && forall t :: t in scoreOrder ==> HasKey(QuizQuestions, t)
    }

    constructor ()
      ensures Valid() && State() == Initial
    {
      history := [];
      scores := map[];
      scoreOrder := [];
      currentQuiz := None;
      quizAnswered := false;
    }

    /** The assignments of Load Question once the question is picked. */
    method ShowQuestion(q: Question)
      requires Valid()
      modifies this
      ensures Valid() && State() == old(State()).(current := Some(q), answered := false)
    {
      currentQuiz := Some(q);
      quizAnswered := false;
    }

    /** The Load Question button, with the pick of `random.choice` given as a position. */
    method LoadQuestion(topic: string, choice: nat)
      requires Valid()
      requires HasKey(QuizQuestions, topic) && choice < |QuestionsOf(topic)|
      modifies this
      ensures Valid() && State() == LoadStep(old(State()), topic, choice)
    {
      var quiz := QuestionsOf(topic)[choice];
      ShowQuestion(quiz);
    }

    /** The update of `scores` by Submit: the entry is created if absent, then counted. */
    method Tally(topic: string, ok: bool)
      requires Board(scores, scoreOrder).Valid()
      modifies this
      ensures Board(scores, scoreOrder).Valid()
      ensures Board(scores, scoreOrder) == old(Board(scores, scoreOrder)).Credit(topic, ok)
      ensures history == old(history) && currentQuiz == old(currentQuiz) && quizAnswered == old(quizAnswered)
    {
      ghost var b0 := Board(scores, scoreOrder);
      if topic !in scores {
        scores := scores[topic := Score(0, 0)];
        scoreOrder := scoreOrder + [topic];
      }
      var entry := scores[topic];
      entry := entry.(total := entry.total + 1);
      if ok {
        entry := entry.(correct := entry.correct + 1);
      }
      scores := scores[topic := entry];
      CreditInPlace(b0, topic, ok);
    }

    /** Appends one entry to the history and changes nothing else. */
    method Record(e: Entry)
      requires Valid()
      modifies this
      ensures Valid() && State() == old(State()).(history := old(history) + [e])
    {
      history := history + [e];
    }

    /**
     * The Submit button with option `idx`, on the topic selected when it is pressed; the
     * select box offers only the keys of `QUIZ_QUESTIONS`.
     */
    method Submit(topic: string, idx: nat, time: Time)
      requires Valid() && HasKey(QuizQuestions, topic)
      requires currentQuiz.Some? && idx < |currentQuiz.value.opts|
      modifies this
      ensures Valid() && State() == SubmitStep(old(State()), topic, idx, time)
    {
      quizAnswered := true;
      var isCorrect := idx == currentQuiz.value.ans;
      Tally(topic, isCorrect);
      Record(Quiz(topic, Some(isCorrect), Some(time)));
    }

    /** The Next button. */
    method Next()
      requires Valid()
      modifies this
      ensures Valid() && State() == NextStep(old(State()))
    {
      currentQuiz := None;
    }

    /** The Read Full Information button on the selected topic. */
    method ReadFullInformation(topic: string, time: Time)
      requires Valid()
      modifies this
      ensures Valid() && State() == ReadStep(old(State()), topic, time)
    {
      Record(Learn(topic, Some(time)));
    }

    /** The Bust This Myth button: the myth statement of the selected key, if it has one. */
    method BustThisMyth(key: string) returns (myth: Option<string>)
      requires Valid()
      modifies this
      ensures Valid() && State() == BustStep(old(State()), key)
      ensures myth == Get(MythsData, key)
    {
      myth := Get(MythsData, key);
      if myth.Some? {
        Record(Myth(key, None));
      }
    }

    /**
     * The Dashboard page: the four metrics and the titled score table, which always exists,
     * since every scored topic is a quiz topic and every quiz topic has a title.
     */
    method Dashboard() returns (m: Metrics, rows: Option<seq<ScoreRow>>)
      requires Valid()
      ensures m == MetricsOf(history)
      ensures rows == TitledRows(HealthTopics, scoreOrder, scores)
      ensures rows.Some?
    {
      m := MetricsOf(history);
      rows := ScoreTable(HealthTopics, scoreOrder, scores);
      DashboardFindsTitles(State());
    }
  }
}
