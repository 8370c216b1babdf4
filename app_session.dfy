/**
 * The session of app.py: the `history` list and the `scores` dict kept in
 * `st.session_state`, and the Learn, Quiz, Myths and Dashboard handlers that use them.
 */
module AppSession {

  import opened Wrappers
  import opened Seqs
  import opened Tables
  import opened Progress
  import opened AppCatalog

  /** What the session holds between reruns. */
  datatype AppState = AppState(history: seq<Entry>, board: Board)

  /** The correctness test of the Submit handler: the first position of the chosen option is the answer index. */
  function IsRight(q: Question, ans: string): bool
    requires ans in q.opts
  {
    IndexOf(q.opts, ans) == q.ans
  }

  /** With options that are all different, an answer is right exactly when it is the option at `ans`. */
  lemma IsRightIffAnswerOption(q: Question, ans: string)
    requires ans in q.opts && Distinct(q.opts) && 0 <= q.ans < |q.opts|
    ensures IsRight(q, ans) <==> ans == q.opts[q.ans]
  {
    IndexOfDistinct(q.opts, q.ans);
  }

  /** How a press of Submit ends: a right answer, a wrong one, or the `KeyError` of line 144. */
  datatype Outcome = Right | Wrong | MissingScoreEntry

  datatype Graded = Graded(outcome: Outcome, after: AppState)

  /**
   * One press of Submit with option `ans` of question `q` on `topic`. A right answer creates
   * the entry if needed and counts one more correct answer; then the total is read back
   * from the entry, which a wrong first answer on the topic does not have, so that press
   * fails with the session as it was.
   */
  function Answer(s: AppState, topic: string, q: Question, ans: string): (r: Graded)
    requires ans in q.opts
    ensures r.outcome == Right <==> IsRight(q, ans)
    ensures r.outcome == MissingScoreEntry <==> !IsRight(q, ans) && topic !in s.board.scores
    ensures r.outcome == MissingScoreEntry ==> r.after == s
    ensures r.outcome != MissingScoreEntry ==>
      && r.after.history == s.history + [Quiz(topic, None, None)]
      && r.after.board == s.board.Credit(topic, r.outcome == Right)
    ensures s.board.Valid() ==> r.after.board.Valid()
  {
    if IsRight(q, ans) then
      Graded(Right, AppState(s.history + [Quiz(topic, None, None)], s.board.Credit(topic, true)))
    else if topic in s.board.scores then
      Graded(Wrong, AppState(s.history + [Quiz(topic, None, None)], s.board.Credit(topic, false)))
    else
      Graded(MissingScoreEntry, s)
  }

  /** A wrong answer on a topic that has no score entry yet fails and records nothing. */
  lemma WrongFirstAnswerFails(s: AppState, topic: string, i: nat, ans: string)
    requires i < |Quizzes| && Quizzes[i].0 == topic && topic !in s.board.scores
    requires ans in Quizzes[i].1.opts && ans != Quizzes[i].1.opts[Quizzes[i].1.ans]
    ensures Answer(s, topic, Quizzes[i].1, ans) == Graded(MissingScoreEntry, s)
  {
    QuizzesWellFormed();
    IsRightIffAnswerOption(Quizzes[i].1, ans);
  }

  /**
   * Once a topic has an entry, every answer is recorded: the total goes up by one, the
   * correct count by one exactly for the right option, and one quiz entry is appended.
   */
  lemma AnswerOnScoredTopic(s: AppState, topic: string, i: nat, ans: string)
    requires i < |Quizzes| && topic in s.board.scores
    requires ans in Quizzes[i].1.opts
    ensures var r := Answer(s, topic, Quizzes[i].1, ans);
      && r.outcome != MissingScoreEntry
      && r.after.board.scores[topic].total == s.board.scores[topic].total + 1
      && r.after.board.scores[topic].correct
         == s.board.scores[topic].correct + (if ans == Quizzes[i].1.opts[Quizzes[i].1.ans] then 1 else 0)
      && r.after.history == s.history + [Quiz(topic, None, None)]
  {
    QuizzesWellFormed();
    IsRightIffAnswerOption(Quizzes[i].1, ans);
  }

  /** Pressing Submit twice with the same answer counts the question twice. */
  lemma RepeatedAnswerCountsTwice(s: AppState, topic: string, q: Question, ans: string)
    requires ans in q.opts
    requires Answer(s, topic, q, ans).outcome != MissingScoreEntry
    ensures var r := Answer(Answer(s, topic, q, ans).after, topic, q, ans);
      && r.outcome == Answer(s, topic, q, ans).outcome
      && r.after.board.scores[topic].total == s.board.Get(topic).total + 2
      && |r.after.history| == |s.history| + 2
  {
  }

  /** Get Info: a topic that is found is recorded as typed; nothing else changes. */
  function LearnStep(s: AppState, topic: string): (r: AppState)
    ensures r.history == s.history + (if GetHealthInformation(topic).InfoFound? then [Learn(topic, None)] else [])
    ensures r.board == s.board
  {
    if GetHealthInformation(topic).InfoFound? then s.(history := s.history + [Learn(topic, None)]) else s
  }

  /** Investigate: a query that busts a myth is recorded as typed; nothing else changes. */
  function MythStep(s: AppState, myth: string): (r: AppState)
    ensures r.history == s.history + (if MythLookup(myth).Busted? then [Myth(myth, None)] else [])
    ensures r.board == s.board
  {
    if MythLookup(myth).Busted? then s.(history := s.history + [Myth(myth, None)]) else s
  }

  /** A button press with the widget values it reads. */
  datatype Action =
    | PressGetInfo(topic: string)
    | PressSubmit(topic: string, ans: string)
    | PressInvestigate(myth: string)

  /**
   * Submit is only shown under a quiz that Start Quiz found for the selected topic, with
   * one of its options picked on the radio.
   */
  predicate Enabled(a: Action) {
    a.PressSubmit? ==> GenerateQuiz(a.topic).QuizFound? && a.ans in GenerateQuiz(a.topic).quiz.opts
  }

  /** The state after one press; a Submit that raises the `KeyError` leaves it as it was. */
  function Step(s: AppState, a: Action): AppState
    requires Enabled(a)
  {
    match a
    case PressGetInfo(topic) => LearnStep(s, topic)
    case PressSubmit(topic, ans) => Answer(s, topic, GenerateQuiz(topic).quiz, ans).after
    case PressInvestigate(myth) => MythStep(s, myth)
  }

  /** The state after a session of presses, or `None` if one of them was not offered. */
  function Run(s: AppState, acts: seq<Action>): Option<AppState>
    decreases |acts|
  {
    if acts == [] then Some(s)
    else if Enabled(acts[0]) then Run(Step(s, acts[0]), acts[1..])
    else None
  }

  /** One press keeps the score invariant and only appends to the history. */
  lemma StepKeepsInvariants(s: AppState, a: Action)
    requires s.board.Valid() && Enabled(a)
    ensures Step(s, a).board.Valid()
    ensures s.history <= Step(s, a).history
  {
  }

  /** Over any session, every score entry keeps `correct <= total` and the history only grows. */
  lemma {:induction false} RunKeepsInvariants(s: AppState, acts: seq<Action>)
    requires s.board.Valid()
    ensures Run(s, acts).Some? ==> Run(s, acts).value.board.Valid()
    ensures Run(s, acts).Some? ==> s.history <= Run(s, acts).value.history
    decreases |acts|
  {
    if acts != [] && Enabled(acts[0]) {
      StepKeepsInvariants(s, acts[0]);
      RunKeepsInvariants(Step(s, acts[0]), acts[1..]);
    }
  }

  /** The session of app.py as a Streamlit session-state object. */
  class Session {
    var history: seq<Entry>
    var scores: map<string, Score>
    /** The keys of `scores` in insertion order. */
    var scoreOrder: seq<string>

    function State(): AppState
      reads this
    {
      AppState(history, Board(scores, scoreOrder))
    }

    ghost predicate Valid()
      reads this
    {
      Board(scores, scoreOrder).Valid()
    }

    /** The first run of the script: empty history, empty scores. */
    constructor ()
      ensures Valid()
      ensures history == [] && scores == map[] && scoreOrder == []
    {
      history := [];
      scores := map[];
      scoreOrder := [];
    }

    /** Appends `e` to the history when `b` holds, and changes nothing else. */
    method RecordIf(b: bool, e: Entry)
      requires Valid()
      modifies this
      ensures Valid()
      ensures history == old(history) + (if b then [e] else [])
      ensures scores == old(scores) && scoreOrder == old(scoreOrder)
    {
      if b {
        history := history + [e];
      }
    }

    /** The Learn page's Get Info button: a found topic is recorded as typed. */
    method GetInfo(topic: string) returns (r: InfoResult)
      requires Valid()
      modifies this
      ensures Valid()
      ensures r == GetHealthInformation(topic)
      ensures history == old(history) + (if r.InfoFound? then [Learn(topic, None)] else [])
      ensures scores == old(scores) && scoreOrder == old(scoreOrder)
      ensures State() == LearnStep(old(State()), topic)
    {
      r := GetHealthInformation(topic);
      RecordIf(r.InfoFound?, Learn(topic, None));
    }

    /**
     * The Quiz page's Submit button, with the question `q` that Start Quiz showed for `topic`
     * and the option `ans` picked on the radio.
     */
    method Submit(topic: string, q: Question, ans: string) returns (outcome: Outcome)
      requires Valid()
      requires ans in q.opts
      modifies this
      ensures Valid()
      ensures Graded(outcome, State()) == Answer(old(State()), topic, q, ans)
    {
      ghost var b0 := Board(scores, scoreOrder);
      if IndexOf(q.opts, ans) == q.ans {
        if topic !in scores {
          scores := scores[topic := Score(0, 0)];
          scoreOrder := scoreOrder + [topic];
        }
        scores := scores[topic := Score(scores[topic].correct + 1, scores[topic].total)];
        outcome := Right;
      } else {
        outcome := Wrong;
      }
      if topic !in scores {
        return MissingScoreEntry;
      }
      scores := scores[topic := Score(scores[topic].correct, scores[topic].total + 1)];
      history := history + [Quiz(topic, None, None)];
      assert Board(scores, scoreOrder) == b0.Credit(topic, outcome == Right);
    }

    /** The Myths page's Investigate button: a busted myth is recorded with the query as typed. */
    method Investigate(myth: string) returns (r: MythResult)
      requires Valid()
      modifies this
      ensures Valid()
      ensures r == MythLookup(myth)
      ensures history == old(history) + (if r.Busted? then [Myth(myth, None)] else [])
      ensures scores == old(scores) && scoreOrder == old(scoreOrder)
      ensures State() == MythStep(old(State()), myth)
    {
      r := BustMyth(myth);
      RecordIf(r.Busted?, Myth(myth, None));
    }

    /** The Dashboard page: the metrics and one score line per entry of `scores`, in dict order. */
    method Dashboard() returns (m: Metrics, rows: seq<ScoreRow>)
      requires Valid()
      ensures m == MetricsOf(history)
      ensures rows == AllRows(scoreOrder, scores)
    {
      m := MetricsOf(history);
      rows := [];
      var i := 0;
      while i < |scoreOrder|
        invariant 0 <= i <= |scoreOrder|
        invariant |rows| == i
        invariant forall k :: 0 <= k < i ==> rows[k] == RowOf(scoreOrder[k], scores[scoreOrder[k]])
      {
        var topic := scoreOrder[i];
        var s := scores[topic];
        var pct := if s.total > 0 then RoundedPercent(s.correct, s.total) else 0;
        rows := rows + [ScoreRow(topic, s.correct, s.total, pct)];
        i := i + 1;
      }
    }
  }
}
