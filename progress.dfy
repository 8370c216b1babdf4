/**
 * The session progress tracker shared by the three versions of the bot: the entries of the
 * append-only `history` list, the `scores` dict of per-topic tallies, and the dashboard
 * summaries computed from them.
 */
module Progress {

  import opened Wrappers
  import opened Seqs

  /** The `time` field of an entry, `datetime.now().strftime("%H:%M")`, supplied by the caller. */
  type Time = string

  /** A quiz question: its options in display order and the index of the right one. */
  datatype Question = Question(opts: seq<string>, ans: int)

  /**
   * A history entry. Its `"type"` is the constructor; a key that a version of the bot does
   * not write (`"time"` in app.py, `"correct"` outside quiz entries) is `None`.
   */
  datatype Entry =
    | Learn(topic: string, time: Option<Time>)
    | Quiz(topic: string, correct: Option<bool>, time: Option<Time>)
    | Myth(myth: string, time: Option<Time>)

  datatype Kind = LearnKind | QuizKind | MythKind

  /** `entry["type"]`. */
  function KindOf(e: Entry): Kind {
    match e
    case Learn(_, _) => LearnKind
    case Quiz(_, _, _) => QuizKind
    case Myth(_, _) => MythKind
  }

  /** `len([h for h in history if h["type"] == kind])`. */
  function Count(h: seq<Entry>, k: Kind): (n: nat)
    ensures n <= |h|
  {
    if h == [] then 0 else (if KindOf(h[0]) == k then 1 else 0) + Count(h[1..], k)
  }

  /** Appending one entry adds one to the count of its kind and leaves the other counts alone. */
  lemma {:induction false} CountAppend(h: seq<Entry>, e: Entry, k: Kind)
    ensures Count(h + [e], k) == Count(h, k) + (if KindOf(e) == k then 1 else 0)
  {
    if h != [] {
      assert (h + [e])[1..] == h[1..] + [e];
      CountAppend(h[1..], e, k);
    }
  }

  /** Every entry is of exactly one of the three kinds. */
  lemma {:induction false} CountsPartition(h: seq<Entry>)
    ensures Count(h, LearnKind) + Count(h, QuizKind) + Count(h, MythKind) == |h|
  {
    if h != [] {
      CountsPartition(h[1..]);
    }
  }

  /** The metrics row of the dashboard: total activities, topics learned, quizzes taken, myths checked. */
  datatype Metrics = Metrics(activities: nat, learned: nat, quizzes: nat, myths: nat)

  function MetricsOf(h: seq<Entry>): (m: Metrics)
    ensures m.activities == |h|
    ensures m.activities == m.learned + m.quizzes + m.myths
  {
    CountsPartition(h);
    Metrics(|h|, Count(h, LearnKind), Count(h, QuizKind), Count(h, MythKind))
  }

  /** A `{"correct": c, "total": t}` score entry. */
  datatype Score = Score(correct: nat, total: nat)

  /**
   * The `scores` dict of a session: its entries, and its keys in insertion order (the order
   * in which `scores.items()` runs).
   */
  datatype Board = Board(scores: map<string, Score>, order: seq<string>) {

    ghost predicate Valid() {
      && Distinct(order)
      && (forall t :: t in scores <==> t in order)
      && (forall t :: t in scores ==> scores[t].correct <= scores[t].total)
    }

    /** The entry of `topic`, or the `{0, 0}` entry that would be created for it. */
    function Get(topic: string): Score {
      if topic in scores then scores[topic] else Score(0, 0)
    }

    /**
     * Records one answer on `topic`: the entry is created as `{0, 0}` if absent, its total
     * goes up by one and its correct count by one exactly when the answer was right.
     */
    function Credit(topic: string, ok: bool): (b: Board)
      ensures topic in b.scores
      ensures b.scores[topic].total == Get(topic).total + 1
      ensures b.scores[topic].correct == Get(topic).correct + (if ok then 1 else 0)
      ensures forall t :: t != topic ==> (t in b.scores <==> t in scores)
      ensures forall t :: t != topic && t in scores ==> b.scores[t] == scores[t]
      ensures b.order == if topic in scores then order else order + [topic]
      ensures Valid() ==> b.Valid()
    {
      var s := Get(topic);
      var b := Board(scores[topic := Score(s.correct + (if ok then 1 else 0), s.total + 1)],
                     if topic in scores then order else order + [topic]);
      assert Valid() && topic !in scores ==> Distinct(b.order) by {
        if Valid() && topic !in scores {
          assert forall i :: 0 <= i < |order| ==> order[i] in scores;
        }
      }
      b
    }
  }

  /**
   * The dict updates of a Submit, written out: the `{0, 0}` entry is created when absent,
   * then its total and (for a right answer) its correct count go up by one.
   */
  lemma CreditInPlace(b: Board, topic: string, ok: bool)
    ensures var s1 := if topic in b.scores then b.scores else b.scores[topic := Score(0, 0)];
      var o1 := if topic in b.scores then b.order else b.order + [topic];
      Board(s1[topic := Score(s1[topic].correct + (if ok then 1 else 0), s1[topic].total + 1)], o1)
      == b.Credit(topic, ok)
  {
  }

  lemma {:induction false} MulAtLeast(d: nat, t: nat)
    requires d >= 1
    ensures d * t >= t
  {
    if d > 1 {
      MulAtLeast(d - 1, t);
      assert d * t == (d - 1) * t + t;
    }
  }

  /** Quotient and remainder of a division are the only pair with the defining property. */
  lemma DivModUnique(n: int, t: int, q: int, r: int)
    requires t > 0 && n == q * t + r && 0 <= r < t
    ensures n / t == q && n % t == r
  {
    var q', r' := n / t, n % t;
    assert n == q' * t + r' && 0 <= r' < t;
    if q > q' {
      assert (q - q') * t == q * t - q' * t;
      MulAtLeast(q - q', t);
    } else if q < q' {
      assert (q' - q) * t == q' * t - q * t;
      MulAtLeast(q' - q, t);
    }
  }

  /** The arithmetic facts behind the rounding of a percentage. */
  lemma PercentDivision(correct: nat, total: nat, q: int, rem: int)
    requires total > 0 && q == (100 * correct) / total && rem == (100 * correct) % total
    ensures q >= 0 && 100 * correct == q * total + rem && 0 <= rem < total
    ensures (q + 1) * total == q * total + total
    ensures correct <= total ==> q <= 100 && (q == 100 ==> rem == 0)
    ensures correct == total ==> q == 100 && rem == 0
    ensures correct == 0 ==> q == 0 && rem == 0
  {
    if correct == total {
      DivModUnique(100 * correct, total, 100, 0);
    }
    if correct == 0 {
      DivModUnique(0, total, 0, 0);
    }
  }

  /**
   * `f"{correct / total * 100:.0f}"`, as a whole number: 100 * correct / total rounded to
   * the nearest integer, a tie going to the even neighbour (Python's rounding).
   */
  function RoundedPercent(correct: nat, total: nat): nat
    requires total > 0
  {
    var q := 100 * correct / total;
    var rem := 100 * correct % total;
    PercentDivision(correct, total, q, rem);
    if 2 * rem < total || (2 * rem == total && q % 2 == 0) then q else q + 1
  }

  /**
   * The rounded percentage is within half a point of 100 * correct / total, an exact half
   * goes to the even neighbour, and it stays in 0..100 with both ends reached exactly.
   */
  lemma RoundedPercentIsNearest(correct: nat, total: nat)
    requires total > 0
    ensures var p := RoundedPercent(correct, total);
      && 2 * (p * total) <= 200 * correct + total
      && 200 * correct <= 2 * (p * total) + total
      && ((2 * (p * total) == 200 * correct + total || 2 * (p * total) + total == 200 * correct) ==> p % 2 == 0)
      && (correct <= total ==> p <= 100)
      && (correct == total ==> p == 100)
      && (correct == 0 ==> p == 0)
  {
    PercentDivision(correct, total, 100 * correct / total, 100 * correct % total);
  }

  /** The percentage the dashboard shows for a score: 0 when nothing was answered yet. */
  function ShownPercent(s: Score): (p: nat)
    ensures s.total == 0 ==> p == 0
    ensures s.correct <= s.total ==> p <= 100
    ensures s.correct == 0 ==> p == 0
    ensures 0 < s.total == s.correct ==> p == 100
  {
    if s.total > 0 then
      RoundedPercentIsNearest(s.correct, s.total);
      RoundedPercent(s.correct, s.total)
    else
      0
  }

  /** A row of the dashboard's score table. */
  datatype ScoreRow = ScoreRow(name: string, correct: nat, total: nat, percent: nat)

  function RowOf(name: string, s: Score): ScoreRow {
    ScoreRow(name, s.correct, s.total, ShownPercent(s))
  }

  function Labels(rows: seq<ScoreRow>): (ls: seq<string>)
    ensures |ls| == |rows|
    ensures forall i :: 0 <= i < |rows| ==> ls[i] == rows[i].name
  {
    if rows == [] then [] else [rows[0].name] + Labels(rows[1..])
  }

  /** One row per score entry, in dict order. */
  function AllRows(order: seq<string>, scores: map<string, Score>): (rows: seq<ScoreRow>)
    requires forall t :: t in order ==> t in scores
    ensures |rows| == |order|
    ensures forall i :: 0 <= i < |order| ==> rows[i] == RowOf(order[i], scores[order[i]])
  {
    if order == [] then [] else [RowOf(order[0], scores[order[0]])] + AllRows(order[1..], scores)
  }

  /** The rows of the entries with `total > 0`, in the order of `order`. */
  function AnsweredRows(order: seq<string>, scores: map<string, Score>): seq<ScoreRow>
    requires forall t :: t in order ==> t in scores
  {
    if order == [] then
      []
    else
      var rest := AnsweredRows(order[1..], scores);
      if scores[order[0]].total > 0 then [RowOf(order[0], scores[order[0]])] + rest else rest
  }

  /** Every row of the score table is that of an answered topic of the dict, showing its score. */
  lemma {:induction false} AnsweredRowsFromScores(order: seq<string>, scores: map<string, Score>, i: nat)
    requires forall t :: t in order ==> t in scores
    requires i < |AnsweredRows(order, scores)|
    ensures AnsweredRows(order, scores)[i].name in order
    ensures AnsweredRows(order, scores)[i].total > 0
    ensures AnsweredRows(order, scores)[i] == RowOf(AnsweredRows(order, scores)[i].name, scores[AnsweredRows(order, scores)[i].name])
  {
    var rest := AnsweredRows(order[1..], scores);
    if scores[order[0]].total == 0 {
      AnsweredRowsFromScores(order[1..], scores, i);
    } else if i > 0 {
      AnsweredRowsFromScores(order[1..], scores, i - 1);
    }
  }

  /** Every answered topic of the dict has a row in the score table. */
  lemma {:induction false} AnsweredRowsComplete(order: seq<string>, scores: map<string, Score>)
    requires forall t :: t in order ==> t in scores
    ensures forall t :: t in order && scores[t].total > 0 ==> t in Labels(AnsweredRows(order, scores))
  {
    if order != [] {
      AnsweredRowsComplete(order[1..], scores);
      var rest := AnsweredRows(order[1..], scores);
      if scores[order[0]].total > 0 {
        assert Labels([RowOf(order[0], scores[order[0]])] + rest) == [order[0]] + Labels(rest);
      }
      forall t | t in order && scores[t].total > 0
        ensures t in Labels(AnsweredRows(order, scores))
      {
        if t != order[0] {
          assert t in order[1..];
        }
      }
    }
  }

  /** Every label of the score table is a key of the dict. */
  lemma {:induction false} AnsweredLabelsFromOrder(order: seq<string>, scores: map<string, Score>)
    requires forall t :: t in order ==> t in scores
    ensures forall l :: l in Labels(AnsweredRows(order, scores)) ==> l in order
  {
    if order != [] {
      AnsweredLabelsFromOrder(order[1..], scores);
      var rest := AnsweredRows(order[1..], scores);
      if scores[order[0]].total > 0 {
        assert Labels([RowOf(order[0], scores[order[0]])] + rest) == [order[0]] + Labels(rest);
      }
    }
  }

  /** The score table lists each answered topic once, in dict order. */
  lemma {:induction false} AnsweredRowsInDictOrder(order: seq<string>, scores: map<string, Score>)
    requires forall t :: t in order ==> t in scores
    requires Distinct(order)
    ensures Distinct(Labels(AnsweredRows(order, scores)))
    ensures IsSubseq(Labels(AnsweredRows(order, scores)), order)
  {
    if order != [] {
      var rest := AnsweredRows(order[1..], scores);
      AnsweredRowsInDictOrder(order[1..], scores);
      AnsweredLabelsFromOrder(order[1..], scores);
      assert order[0] !in Labels(rest) by {
        assert order[0] !in order[1..];
      }
      if scores[order[0]].total > 0 {
        var ls := Labels([RowOf(order[0], scores[order[0]])] + rest);
        assert ls == [order[0]] + Labels(rest);
        assert ls[1..] == Labels(rest);
      } else if Labels(rest) != [] {
        assert Labels(rest)[0] != order[0];
      }
    }
  }

  /** Scanning one more entry adds its row exactly when it has been answered. */
  lemma {:induction false} AnsweredRowsSnoc(order: seq<string>, t: string, scores: map<string, Score>)
    requires forall u :: u in order ==> u in scores
    requires t in scores
    ensures AnsweredRows(order + [t], scores)
            == AnsweredRows(order, scores) + (if scores[t].total > 0 then [RowOf(t, scores[t])] else [])
  {
    if order != [] {
      assert (order + [t])[1..] == order[1..] + [t];
      AnsweredRowsSnoc(order[1..], t, scores);
    }
  }

  /** `reversed(history[-10:])`: the last ten entries, or all of them when fewer, most recent first. */
  function RecentActivities(h: seq<Entry>): (r: seq<Entry>)
    ensures |r| == Min(10, |h|)
    ensures forall i :: 0 <= i < |r| ==> r[i] == h[|h| - 1 - i]
  {
    Reverse(LastN(h, 10))
  }
}
