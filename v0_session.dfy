/**
 * The session of appV0.py: `history`, `scores`, `current_quiz`, `quiz_answered` and
 * `quiz_correct` in `st.session_state`, and the handlers of its four pages.
 */
module V0Session {

  import opened Wrappers
  import opened Seqs
  import opened Tables
  import opened Progress
  import opened V0Catalog

  /** What the session holds between reruns. */
  datatype V0State = V0State(
    history: seq<Entry>,
    board: Board,
    current: Option<Question>,
    answered: bool,
    correct: bool)

  /** The state of the first run. */
  const Initial := V0State([], Board(map[], []), None, false, false)

  /** Load Quiz Question, given what `generate_quiz` returned: a found quiz becomes the current one and both flags are cleared. */
  function LoadStep(s: V0State, result: QuizResult): (r: V0State)
    ensures r.history == s.history && r.board == s.board
    ensures result.QuizFound? ==> r.current == Some(result.quiz) && !r.answered && !r.correct
    ensures result.QuizMissing? ==> r == s
  {
    match result
    case QuizFound(q) => s.(current := Some(q), answered := false, correct := false)
    case QuizMissing(_) => s
  }

  /**
   * Submit Answer with option `idx` of the current question, on the topic selected at that
   * moment: nothing checks whether this question was already answered.
   */
  function SubmitStep(s: V0State, topic: string, idx: nat, time: Time): (r: V0State)
    requires s.current.Some? && idx < |s.current.value.opts|
    ensures r.answered && r.correct == (idx == s.current.value.ans)
    ensures r.current == s.current
    ensures r.board.Get(topic).total == s.board.Get(topic).total + 1
    ensures r.board.Get(topic).correct == s.board.Get(topic).correct + (if r.correct then 1 else 0)
    ensures forall t :: t != topic ==> r.board.Get(t) == s.board.Get(t)
    ensures r.history == s.history + [Quiz(topic, Some(r.correct), Some(time))]
    ensures s.board.Valid() ==> r.board.Valid()
  {
    var ok := idx == s.current.value.ans;
    V0State(s.history + [Quiz(topic, Some(ok), Some(time))], s.board.Credit(topic, ok), s.current, true, ok)
  }

  /** Next Question: the current question is dropped and the answered flag cleared. */
  function NextStep(s: V0State): (r: V0State)
    ensures r.current.None? && !r.answered
    ensures r.history == s.history && r.board == s.board && r.correct == s.correct
  {
    s.(current := None, answered := false)
  }

  /** Get Information: a non-empty topic that is found is recorded as typed, with the time. */
  function LearnStep(s: V0State, topic: string, time: Time): (r: V0State)
    ensures r.history == s.history + (if topic != [] && GetHealthInformation(topic).InfoFound? then [Learn(topic, Some(time))] else [])
    ensures r.board == s.board && r.current == s.current && r.answered == s.answered && r.correct == s.correct
  {
    if topic != [] && GetHealthInformation(topic).InfoFound? then s.(history := s.history + [Learn(topic, Some(time))]) else s
  }

  /** Investigate: a non-empty query that busts a myth is recorded as typed, with the time. */
  function MythStep(s: V0State, myth: string, time: Time): (r: V0State)
    ensures r.history == s.history + (if myth != [] && MythLookup(myth).Busted? then [Myth(myth, Some(time))] else [])
    ensures r.board == s.board && r.current == s.current && r.answered == s.answered && r.correct == s.correct
  {
    if myth != [] && MythLookup(myth).Busted? then s.(history := s.history + [Myth(myth, Some(time))]) else s
  }

  /** A button press, with the widget values and the time it happened at. */
  datatype Action =
    | PressLoad(topic: string)
    | PressSubmit(topic: string, idx: nat, time: Time)
    | PressNext
    | PressGetInfo(topic: string, time: Time)
    | PressInvestigate(myth: string, time: Time)

  /** A press of Submit Answer is only offered while a question is shown, with one of its options. */
  predicate Enabled(s: V0State, a: Action) {
    a.PressSubmit? ==> s.current.Some? && a.idx < |s.current.value.opts|
  }

  function Step(s: V0State, a: Action): V0State
    requires Enabled(s, a)
  {
    match a
    case PressLoad(topic) => LoadStep(s, GenerateQuiz(topic))
    case PressSubmit(topic, idx, time) => SubmitStep(s, topic, idx, time)
    case PressNext => NextStep(s)
    case PressGetInfo(topic, time) => LearnStep(s, topic, time)
    case PressInvestigate(myth, time) => MythStep(s, myth, time)
  }

  /** The state after a session of presses, or `None` if one of them was not offered. */
  function Run(s: V0State, acts: seq<Action>): Option<V0State>
    decreases |acts|
  {
    if acts == [] then Some(s)
    else if Enabled(s, acts[0]) then Run(Step(s, acts[0]), acts[1..])
    else None
  }

  /** One press keeps the score invariant and only appends to the history. */
  lemma StepKeepsInvariants(s: V0State, a: Action)
    requires s.board.Valid() && Enabled(s, a)
    ensures Step(s, a).board.Valid()
    ensures s.history <= Step(s, a).history
  {
    match a
    case PressLoad(topic) =>
    case PressSubmit(topic, idx, time) =>
    case PressNext =>
    case PressGetInfo(topic, time) =>
    case PressInvestigate(myth, time) =>
  }

  /**
   * Over any session, the history only grows and every score entry keeps
   * `correct <= total`, each kept once in insertion order.
   */
  lemma {:induction false} RunKeepsInvariants(s: V0State, acts: seq<Action>)
    requires s.board.Valid()
    ensures Run(s, acts).Some? ==> Run(s, acts).value.board.Valid()
    ensures Run(s, acts).Some? ==> s.history <= Run(s, acts).value.history
    decreases |acts|
  {
    if acts != [] && Enabled(s, acts[0]) {
      StepKeepsInvariants(s, acts[0]);
      RunKeepsInvariants(Step(s, acts[0]), acts[1..]);
    }
  }

  /** Pressing Submit Answer twice on the same question adds two to the topic's total. */
  lemma RepeatedSubmitCountsTwice(s: V0State, topic: string, idx: nat, t1: Time, t2: Time)
    requires s.current.Some? && idx < |s.current.value.opts|
    ensures var r := SubmitStep(SubmitStep(s, topic, idx, t1), topic, idx, t2);
      && r.board.Get(topic).total == s.board.Get(topic).total + 2
      && r.board.Get(topic).correct == s.board.Get(topic).correct + (if idx == s.current.value.ans then 2 else 0)
      && |r.history| == |s.history| + 2
  {
  }

  /** Load and Next change neither the scores nor the history. */
  lemma LoadAndNextKeepProgress(s: V0State, topic: string)
    ensures LoadStep(s, GenerateQuiz(topic)).history == s.history && LoadStep(s, GenerateQuiz(topic)).board == s.board
    ensures NextStep(s).history == s.history && NextStep(s).board == s.board
  {
  }

  /** The loop of the score table: a row for each entry with `total > 0`, in dict order. */
  method ScoreTable(order: seq<string>, scores: map<string, Score>) returns (rows: seq<ScoreRow>)
    requires forall t :: t in order ==> t in scores
    ensures rows == AnsweredRows(order, scores)
  {
    rows := [];
    var i := 0;
    while i < |order|
      invariant 0 <= i <= |order|
      invariant rows == AnsweredRows(order[..i], scores)
    {
      var topic := order[i];
      var s := scores[topic];
      AnsweredRowsSnoc(order[..i], topic, scores);
      assert order[..i + 1] == order[..i] + [topic];
      if s.total > 0 {
        rows := rows + [ScoreRow(topic, s.correct, s.total, RoundedPercent(s.correct, s.total))];
      }
      i := i + 1;
    }
    assert order[..i] == order;
  }

  /** The session of appV0.py as a Streamlit session-state object. */
  class Session {
    var history: seq<Entry>
    var scores: map<string, Score>
    /** The keys of `scores` in insertion order. */
    var scoreOrder: seq<string>
    var currentQuiz: Option<Question>
    var quizAnswered: bool
    var quizCorrect: bool

    function State(): V0State
      reads this
    {
      V0State(history, Board(scores, scoreOrder), currentQuiz, quizAnswered, quizCorrect)
    }

    ghost predicate Valid()
      reads this
    {
      Board(scores, scoreOrder).Valid()
    }

    constructor ()
      ensures Valid() && State() == Initial
    {
      history := [];
      scores := map[];
      scoreOrder := [];
      currentQuiz := None;
      quizAnswered := false;
      quizCorrect := false;
    }

    /** The assignments of Load Quiz Question once `generate_quiz` has answered. */
    method ShowQuiz(result: QuizResult)
      requires Valid()
      modifies this
      ensures Valid() && State() == LoadStep(old(State()), result)
    {
      if result.QuizFound? {
        currentQuiz := Some(result.quiz);
        quizAnswered := false;
        quizCorrect := false;
      }
    }

    /** The Load Quiz Question button. */
    method LoadQuiz(topic: string)
      requires Valid()
      modifies this
      ensures Valid() && State() == LoadStep(old(State()), GenerateQuiz(topic))
    {
      var result := GenerateQuiz(topic);
      ShowQuiz(result);
    }

    /** The update of `scores` by Submit Answer: the entry is created if absent, then counted. */
    method Tally(topic: string, ok: bool)
      requires Valid()
      modifies this
      ensures Valid()
      ensures Board(scores, scoreOrder) == old(Board(scores, scoreOrder)).Credit(topic, ok)
      ensures history == old(history) && currentQuiz == old(currentQuiz)
      ensures quizAnswered == old(quizAnswered) && quizCorrect == old(quizCorrect)
    {
      ghost var b0 := Board(scores, scoreOrder);
      if topic !in scores {
        scores := scores[topic := Score(0, 0)];
        scoreOrder := scoreOrder + [topic];
      }
      var entry := scores[topic];
      entry := entry.(total := entry.total + 1);
      if ok {
        entry := entry.(correct := entry.correct + 1);
      }
      scores := scores[topic := entry];
      CreditInPlace(b0, topic, ok);
    }

    /** Submit Answer with option `idx`, on the topic selected when it is pressed. */
    method SubmitAnswer(topic: string, idx: nat, time: Time)
      requires Valid() && currentQuiz.Some? && idx < |currentQuiz.value.opts|
      modifies this
      ensures Valid() && State() == SubmitStep(old(State()), topic, idx, time)
    {
      quizAnswered := true;
      quizCorrect := idx == currentQuiz.value.ans;
      Tally(topic, quizCorrect);
      history := history + [Quiz(topic, Some(quizCorrect), Some(time))];
    }

    /** The Next Question button. */
    method NextQuestion()
      requires Valid()
      modifies this
      ensures Valid() && State() == NextStep(old(State()))
    {
      currentQuiz := None;
      quizAnswered := false;
    }

    /** Appends one entry to the history and changes nothing else. */
    method Record(e: Entry)
      requires Valid()
      modifies this
      ensures Valid() && State() == old(State()).(history := old(history) + [e])
    {
      history := history + [e];
    }

    /** The Get Information button: nothing happens for an empty topic. */
    method GetInformation(topic: string, time: Time) returns (r: Option<InfoResult>)
      requires Valid()
      modifies this
      ensures Valid() && State() == LearnStep(old(State()), topic, time)
      ensures r == if topic != [] then Some(GetHealthInformation(topic)) else None
    {
      if topic != [] {
        var result := GetHealthInformation(topic);
        if result.InfoFound? {
          Record(Learn(topic, Some(time)));
        }
        r := Some(result);
      } else {
        r := None;
      }
    }

    /** The Investigate button: nothing happens for an empty query. */
    method Investigate(myth: string, time: Time) returns (r: Option<MythResult>)
      requires Valid()
      modifies this
      ensures Valid() && State() == MythStep(old(State()), myth, time)
      ensures r == if myth != [] then Some(MythLookup(myth)) else None
    {
      if myth != [] {
        var result := BustMyth(myth);
        if result.Busted? {
          Record(Myth(myth, Some(time)));
        }
        r := Some(result);
      } else {
        r := None;
      }
    }

    /**
     * The Dashboard page: the four metrics, the rows of the topics answered at least once
     * in dict order, and the recent activities.
     */
    method Dashboard() returns (m: Metrics, rows: seq<ScoreRow>, recent: seq<Entry>)
      requires Valid()
      ensures m == MetricsOf(history)
      ensures rows == AnsweredRows(scoreOrder, scores)
      ensures recent == RecentActivities(history)
    {
      m := MetricsOf(history);
      rows := ScoreTable(scoreOrder, scores);
      recent := RecentActivities(history);
    }
  }
}
