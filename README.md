# Health Education Bot — a verified model of its logic

The Health Education Bot is a Streamlit application with three versions:
- `app.py`, the first one;
- `appV0.py`, its fixed successor;
- `health_bot_enhanced_pro.py`, the "pro" edition with fifteen topics and mock research APIs.

Under the user interface, every version has two pieces of logic. This project models both and proves properties about them.

- **Static lookups.** These are pure functions over constant dicts:
  - topic information, normalised with `lower().strip()`;
  - quiz lookup, normalised with `lower()` in `app.py` and with `lower().strip()` in `appV0.py`;
  - CDC/NIH records, normalised with `lower().replace(" ", "_")`;
  - myth busting: the first key, in declaration order, that occurs in the lower-cased query wins;
  - the category menu and category filter of the pro Learn page.
- **The session progress tracker.** This is the part of `st.session_state` that the button handlers change in place:
  - the append-only `history` of learn/quiz/myth entries;
  - the `scores` dict of `{correct, total}` tallies;
  - the current question with its answered flag (plus `quiz_correct` in `appV0.py`);
  - the dashboard figures derived from them: counts by kind, per-topic percentages, the recent-activity list.

The model follows the code as written, including its rough edges:
- Submit never checks whether the question was already answered, so a second press counts again.
- In `appV0.py` and the pro edition, the answer is credited to the topic selected when Submit is pressed, not to the topic the question came from.
- In `app.py`, a wrong first answer on a topic raises `KeyError` at line 144. This is modelled as the outcome `MissingScoreEntry`, with the session left unchanged.

Modules:
- `Wrappers`: `Option`.
- `Seqs`: distinctness, subsequences, de-duplication, reversal, `list.index`.
- `Text`: Python's `str.lower`, `strip`, `replace`, `in`, string order and `sorted`.
- `Tables`: an insertion-ordered dict, written as a sequence of key/value pairs.
- `Progress`: the history entries, the `scores` dict paired with its key order (`Board`), percentages and metrics, shared by all three versions.
- One catalog module and one session module per version:
  - `AppCatalog`/`AppSession`;
  - `V0Catalog`/`V0Session`;
  - `ProCatalog`/`ProSession`.
- `MythQueries`: worked examples of the myth lookup.

Each session module has two parts:
- pure transition functions (`LoadStep`, `SubmitStep`, ...), with lemmas about whole runs of button presses;
- a `Session` class whose fields are the session-state variables. Its methods perform the in-place updates of the handlers and are proved to produce exactly the new state that the transition function gives.

## Model

| member | source | states |
|---|---|---|
| Text.Lower | app.py:46 | `str.lower`: same length; each character lowered on its own (A–Z to a–z, everything else kept) |
| Text.LowerIdempotent | appV0.py:129 | lowering leaves no upper-case letter, and lowering twice is lowering once |
| Text.LowerConcat | appV0.py:50 | lowering distributes over concatenation |
| Text.LowerFixes | appV0.py:50 | a string without upper-case letters is its own lower-case form |
| Text.TrimStart | appV0.py:50 | `lstrip`: the result is a suffix of the input; everything dropped is whitespace; it does not start with whitespace |
| Text.TrimEnd | appV0.py:50 | `rstrip`: the result is a prefix of the input; everything dropped is whitespace; it does not end with whitespace |
| Text.Strip | app.py:46 | `strip`: no longer than the input; neither end of a non-empty result is whitespace |
| Text.StripIsTrimmedSlice | app.py:46 | what `strip` keeps is a contiguous slice of the input with only whitespace before and after it |
| Text.TrimStartPadded | appV0.py:50 | `lstrip` removes a whitespace prefix and nothing of a word after it |
| Text.TrimEndPadded | appV0.py:50 | `rstrip` removes a whitespace suffix and nothing of a word before it |
| Text.StripPadded | appV0.py:50 | `strip` of a word with whitespace around it gives back exactly the word |
| Text.ReplaceSpaces | health_bot_enhanced_pro.py:94 | `replace(" ", "_")`: same length; each space becomes an underscore and nothing else changes |
| Text.Contains | app.py:75 | `p in s`: `p` is a prefix of `s` or occurs in its tail (paired with `ContainsIffOccurs`) |
| Text.ContainsIffOccurs | app.py:75 | `key in text` holds exactly when the key is a prefix of some suffix of the text |
| Text.MissingCharNotContained | app.py:75 | a key with a character that the text lacks is not in the text |
| Text.Join | appV0.py:54 | `sep.join(xs)`: the elements in order, with `sep` between neighbours (spelled out by `JoinCons` and `JoinFive`) |
| Text.JoinCons | appV0.py:54 | joining a list of two or more puts the first element and the separator before the join of the rest |
| Text.JoinFive | appV0.py:54 | the join of five strings is the five strings with the separator between them |
| Text.LexLe | health_bot_enhanced_pro.py:661 | Python's `a <= b` on strings: code-point lexicographic order, where a prefix is smaller (its order laws are the next four rows) |
| Text.LexTotal | health_bot_enhanced_pro.py:661 | any two strings are comparable in Python's string order |
| Text.LexAntisymmetric | health_bot_enhanced_pro.py:661 | strings each at most the other are equal |
| Text.LexTransitive | health_bot_enhanced_pro.py:661 | the string order is transitive |
| Text.LexReflexive | health_bot_enhanced_pro.py:661 | every string is at most itself |
| Text.SortedPairwise | health_bot_enhanced_pro.py:661 | in a sorted list every earlier element is at most every later one |
| Text.SortedDistinctUnique | health_bot_enhanced_pro.py:661 | two sorted lists without repetitions that hold the same strings are equal |
| Text.Insert | health_bot_enhanced_pro.py:661 | inserting into a sorted list keeps it sorted and adds exactly that one element |
| Text.InsertDistinct | health_bot_enhanced_pro.py:661 | inserting a new string into a list without repetitions keeps it without repetitions |
| Text.SortStrings | health_bot_enhanced_pro.py:661 | `sorted`: the result is sorted and is a permutation of the input |
| Text.SortStringsDistinct | health_bot_enhanced_pro.py:661 | sorting a list without repetitions gives a list without repetitions |
| Seqs.SubseqOfTail | health_bot_enhanced_pro.py:667 | a subsequence of the tail is a subsequence of the whole list |
| Seqs.SubseqDropHead | health_bot_enhanced_pro.py:667 | dropping the first element of a subsequence leaves a subsequence |
| Seqs.Dedup | health_bot_enhanced_pro.py:657 | `set(...)` as a list: no repetitions, and exactly the elements of the input |
| Seqs.Reverse | appV0.py:396 | `reversed`: position i holds the i-th element from the end |
| Seqs.LastN | appV0.py:396 | `xs[-n:]`: the last `min(n, len(xs))` elements, in order |
| Seqs.IndexOf | app.py:136 | `list.index`: a position holding the element, with no earlier occurrence |
| Seqs.IndexOfDistinct | app.py:136 | in a list without repetitions, `index` of the element at i is i |
| Tables.Keys | appV0.py:54 | `dict.keys()` in insertion order |
| Tables.HasKeyIffInKeys | app.py:47 | `k in d` exactly when k is among the keys |
| Tables.Get | app.py:47-48 | a dict lookup finds something exactly when the key is in the dict |
| Tables.GetAt | app.py:47-48 | with distinct keys, looking up the i-th key gives the i-th value |
| Tables.FirstKeyIn | app.py:74-76 | the first key, in declaration order, that occurs in the text; none only when no key occurs |
| Tables.FirstKeyInIsFirst | app.py:74-76 | a key that occurs in the text, with no earlier key occurring, is the one found |
| Tables.ScanKeys | appV0.py:130-132 | the `for key in myths` loop with its early return finds exactly that first key |
| Tables.DistinctBySignature | app.py:12-44 | keys that pairwise differ in first character or length are distinct |
| Tables.NormalizedLookup | appV0.py:50-52 | a `lower().strip()` lookup finds an entry whatever the capitalisation of its key and the whitespace around it |
| Progress.Count | appV0.py:361-363 | the number of entries of one kind is at most the length of the history |
| Progress.CountAppend | appV0.py:210-214 | appending an entry adds one to the count of its kind and leaves the other counts alone |
| Progress.CountsPartition | appV0.py:360-363 | the learn, quiz and myth counts sum to the number of activities |
| Progress.MetricsOf | appV0.py:360-368 | total activities, and total activities = learned + quizzes + myths |
| Progress.Board.Credit | appV0.py:269-274 | the `{0, 0}` entry is created if absent; total + 1; correct + 1 exactly when right; other entries unchanged; a new key goes at the end of the dict order; `correct <= total` and distinct keys preserved |
| Progress.CreditInPlace | health_bot_enhanced_pro.py:752-757 | the dict updates of Submit, written out step by step, give exactly `Credit` |
| Progress.DivModUnique | appV0.py:379 | quotient and remainder are the only pair with the division property (used for the percentage) |
| Progress.PercentDivision | appV0.py:379 | for `correct <= total` the quotient of `100 * correct` by total is at most 100; at both ends it is exact |
| Progress.RoundedPercent | appV0.py:379-384 | `f"{correct / total * 100:.0f}"` read as an integer, for `total > 0` (its properties are those of `RoundedPercentIsNearest`) |
| Progress.RoundedPercentIsNearest | appV0.py:379-384 | `f"{correct / total * 100:.0f}"` as an integer: within half a point of the exact value; a tie goes to the even neighbour; 0..100 for `correct <= total`; 100 when all right; 0 when none |
| Progress.ShownPercent | app.py:184 | 0 when `total == 0`; at most 100 when `correct <= total`; 0 with no correct answer; 100 when all answers are right |
| Progress.Labels | appV0.py:381 | the topic column of the score table, row by row |
| Progress.AllRows | app.py:183-185 | one line per score entry, in dict order, showing that entry's score |
| Progress.AnsweredRows | appV0.py:377-385 | the `score_data` rows: one per entry with `total > 0`, in dict order (characterised by the four lemmas below) |
| Progress.AnsweredRowsFromScores | appV0.py:377-385 | every row of the score table belongs to a topic of the dict with `total > 0` and shows its score |
| Progress.AnsweredRowsComplete | appV0.py:377-385 | every topic of the dict with `total > 0` has a row |
| Progress.AnsweredLabelsFromOrder | appV0.py:377-385 | every label of the score table is a key of the dict |
| Progress.AnsweredRowsInDictOrder | appV0.py:377-385 | the table lists each answered topic once, in dict order |
| Progress.AnsweredRowsSnoc | appV0.py:377-385 | scanning one more entry adds its row exactly when it was answered |
| Progress.RecentActivities | appV0.py:396 | `reversed(history[-10:])`: `min(10, len(history))` entries, the most recent first |
| AppCatalog.HealthDb | app.py:12-44 | `health_db` in declaration order: the five keys with their titles |
| AppCatalog.Quizzes | app.py:54-59 | `quizzes`: four questions with their options and answer indices |
| AppCatalog.Myths | app.py:67-72 | `myths` in declaration order, with each myth statement |
| AppCatalog.GetHealthInformation | app.py:46-50 | found exactly when `topic.lower().strip()` is a key, and then that record; otherwise the fixed "Try: ..." message |
| AppCatalog.GenerateQuiz | app.py:61-63 | found exactly when `topic.lower()` (not stripped) is a key, and then that quiz; otherwise "No quiz" |
| AppCatalog.MythLookup | app.py:74-78 | busted with the record of the first key, in declaration order, in the lower-cased query; "Myth not found" exactly when no key occurs |
| AppCatalog.BustMyth | app.py:74-78 | the loop over `myths.items()` with its early return gives that result |
| AppCatalog.HealthDbKeysAreWords | app.py:12-44 | no key of `health_db` begins or ends with whitespace |
| AppCatalog.HealthDbWellFormed | app.py:12-44 | the keys of `health_db` are distinct words |
| AppCatalog.QuizzesKeysAreWords | app.py:54-59 | no quiz key begins or ends with whitespace |
| AppCatalog.QuizzesHaveDistinctKeys | app.py:54-59 | the quiz keys are distinct words |
| AppCatalog.MythsHaveDistinctKeys | app.py:67-72 | the myth keys are distinct |
| AppCatalog.QuizzesWellFormed | app.py:54-59 | every quiz has its answer index among its options, and no option twice |
| AppCatalog.InfoIgnoresCaseAndPadding | app.py:46-48 | any capitalisation of a topic, with any whitespace around it, finds its record |
| AppCatalog.QuizIgnoresCase | app.py:61-62 | any capitalisation of a quiz topic finds its quiz |
| AppCatalog.QuizMissesPaddedTopic | app.py:61-63 | a topic that starts with whitespace finds no quiz, because it is not stripped |
| AppCatalog.MythFirstMatchWins | app.py:74-76 | the record returned is that of the first key, in declaration order, found in the query |
| AppCatalog.MythLookupIgnoresCase | app.py:75 | the query is lower-cased first, so a query and its lower-case form bust the same myth |
| AppSession.IsRight | app.py:136 | the Submit test `q["opts"].index(ans) == q["ans"]` (characterised by `IsRightIffAnswerOption`) |
| AppSession.IsRightIffAnswerOption | app.py:136 | with distinct options, the `opts.index(ans) == q["ans"]` test holds exactly for the option at `ans` |
| AppSession.Answer | app.py:135-145 | right exactly when the index test holds. `MissingScoreEntry` exactly for a wrong answer on a topic without an entry, and then nothing changes. Otherwise one quiz entry is appended and the tally is credited. `correct <= total` is kept |
| AppSession.WrongFirstAnswerFails | app.py:141-144 | a wrong answer on an unscored topic ends in the `KeyError` and records nothing |
| AppSession.AnswerOnScoredTopic | app.py:137-145 | on a scored topic: total + 1; correct + 1 exactly for the right option; one entry appended |
| AppSession.RepeatedAnswerCountsTwice | app.py:135-145 | the same answer submitted twice has the same outcome and counts twice |
| AppSession.LearnStep | app.py:106-116 | Get Info records the topic as typed exactly when it is found; scores unchanged |
| AppSession.MythStep | app.py:155-165 | Investigate records the query as typed exactly when it busts a myth; scores unchanged |
| AppSession.Run | app.py:106-167 | the state after a sequence of presses of Get Info, Submit (under a quiz that Start Quiz found, with one of its options) and Investigate |
| AppSession.StepKeepsInvariants | app.py:135-145 | every press keeps `correct <= total` with distinct keys and only appends to the history, the `KeyError` press included |
| AppSession.RunKeepsInvariants | app.py:106-167 | over any sequence of presses, the scores stay valid and the history only grows |
| AppSession.Session.constructor | app.py:90-93 | first run: empty history, empty scores |
| AppSession.Session.RecordIf | app.py:116 | appends the entry when asked to, and changes nothing else |
| AppSession.Session.GetInfo | app.py:106-116 | returns the lookup result; the topic is recorded as typed exactly when it was found; scores unchanged; the new state is `LearnStep` |
| AppSession.Session.Submit | app.py:135-145 | the in-place updates, correct before total, give exactly the state and the outcome of `Answer` |
| AppSession.Session.Investigate | app.py:155-165 | returns the myth result; the query is recorded exactly when a myth was busted; scores unchanged; the new state is `MythStep` |
| AppSession.Session.Dashboard | app.py:176-185 | the metrics of the history, and one score line per entry in dict order |
| V0Catalog.HealthDb | appV0.py:11-48 | `health_db` in declaration order: the five keys with their titles |
| V0Catalog.Quizzes | appV0.py:59-90 | `quizzes`: five questions with their options and answer indices |
| V0Catalog.Myths | appV0.py:100-127 | `myths` in declaration order, with each myth statement |
| V0Catalog.GetHealthInformation | appV0.py:50-55 | found exactly when `topic.lower().strip()` is a key, and then that record; otherwise "Try: " and the keys joined by ", " in declaration order |
| V0Catalog.GenerateQuiz | appV0.py:92-97 | found exactly when `topic.lower().strip()` is a quiz key, and then that quiz; otherwise "Quiz for: " and the quiz keys |
| V0Catalog.MythLookup | appV0.py:129-134 | the record of the first key in the lower-cased query; the fixed message exactly when no key occurs |
| V0Catalog.BustMyth | appV0.py:129-134 | the loop with its early return gives that result |
| V0Catalog.InfoMissIffNotListed | appV0.py:50-55 | a lookup misses exactly when the normalised topic is not among the keys the message lists |
| V0Catalog.QuizMissIffNotListed | appV0.py:92-97 | the same for the quiz keys |
| V0Catalog.TopicNamesJoined | appV0.py:54 | the five topic names with ", " between them are "diabetes, vaccines, nutrition, sleep, mental_health" |
| V0Catalog.MissMessagesListKeys | appV0.py:54-55 | `available`, here and at appV0.py:96, is "diabetes, vaccines, nutrition, sleep, mental_health", so the messages are "Try: …" and "Quiz for: …" with that list |
| V0Catalog.HealthDbKeysAreWords | appV0.py:11-48 | no key begins or ends with whitespace |
| V0Catalog.HealthDbWellFormed | appV0.py:11-48 | the keys are distinct words |
| V0Catalog.QuizzesKeysAreWords | appV0.py:59-90 | no quiz key begins or ends with whitespace |
| V0Catalog.QuizzesHaveDistinctKeys | appV0.py:59-90 | the quiz keys are distinct words |
| V0Catalog.QuizzesWellFormed | appV0.py:59-90 | every quiz has its answer among its options, and no option twice |
| V0Catalog.InfoIgnoresCaseAndPadding | appV0.py:50-52 | any capitalisation with any surrounding whitespace finds the record |
| V0Catalog.QuizIgnoresCaseAndPadding | appV0.py:92-94 | the same for quiz topics, which this version strips too |
| V0Catalog.MythFirstMatchWins | appV0.py:129-132 | the record of the first key, in declaration order, found in the query |
| MythQueries.SugarQueryLacksCold | appV0.py:130-131 | "cold" does not occur in "does sugar cause hyperactivity" |
| MythQueries.SugarQueryHasSugar | appV0.py:130-131 | "sugar" occurs in it |
| MythQueries.VitaminQueryHasVitamin | appV0.py:130-131 | "vitamin" occurs in "vitamin c prevents colds" |
| MythQueries.VitaminQueryHasCold | appV0.py:130-131 | "cold" occurs in it too |
| MythQueries.AppSugarQuery | app.py:74-76 | a query that lower-cases to "does sugar cause hyperactivity" busts the sugar myth |
| MythQueries.V0SugarQuery | appV0.py:129-132 | the same in appV0.py |
| MythQueries.AppVitaminQuery | app.py:74-76 | "Vitamin C prevents colds" contains "vitamin" but returns the cold record, because "cold" is declared first |
| MythQueries.V0VitaminQuery | appV0.py:129-132 | the same in appV0.py |
| V0Session.LoadStep | appV0.py:236-243 | a found quiz becomes current and both flags are cleared; a miss changes nothing; scores and history untouched |
| V0Session.SubmitStep | appV0.py:264-282 | answered; `quiz_correct` is `idx == ans`; total + 1; correct + 1 exactly when right; other topics unchanged; one quiz entry with the flag and time; `correct <= total` kept |
| V0Session.NextStep | appV0.py:287-289 | no current question, answered cleared; scores, history and `quiz_correct` untouched |
| V0Session.LearnStep | appV0.py:193-214 | a non-empty topic that is found is recorded as typed, with the time; nothing else changes |
| V0Session.MythStep | appV0.py:323-343 | a non-empty query that busts a myth is recorded, with the time; nothing else changes |
| V0Session.Run | appV0.py:236-343 | the state after a sequence of presses, each offered by the page (Submit only with a current question and one of its options) |
| V0Session.StepKeepsInvariants | appV0.py:264-282 | every press keeps `correct <= total` with distinct keys and only appends to the history |
| V0Session.RunKeepsInvariants | appV0.py:236-343 | over any sequence of presses, the scores stay valid and the history only grows |
| V0Session.RepeatedSubmitCountsTwice | appV0.py:264-274 | submitting twice on one question adds two to the total (and two or zero to correct) and two entries |
| V0Session.LoadAndNextKeepProgress | appV0.py:239-242 | Load and Next change neither scores nor history |
| V0Session.ScoreTable | appV0.py:377-385 | the loop builds exactly the rows of the answered topics, in dict order |
| V0Session.Session.constructor | appV0.py:149-162 | the initial session state |
| V0Session.Session.ShowQuiz | appV0.py:239-242 | the assignments of Load give `LoadStep` |
| V0Session.Session.LoadQuiz | appV0.py:236-243 | the Load handler gives `LoadStep` of `generate_quiz(topic)` |
| V0Session.Session.Tally | appV0.py:269-274 | the in-place updates of `scores` give exactly `Credit` |
| V0Session.Session.SubmitAnswer | appV0.py:264-282 | the Submit handler gives `SubmitStep` |
| V0Session.Session.NextQuestion | appV0.py:287-289 | the Next handler gives `NextStep` |
| V0Session.Session.Record | appV0.py:210-214 | one entry appended, nothing else changed |
| V0Session.Session.GetInformation | appV0.py:193-216 | returns the lookup result for a non-empty topic; the new state is `LearnStep` |
| V0Session.Session.Investigate | appV0.py:323-345 | returns the myth result for a non-empty query; the new state is `MythStep` |
| V0Session.Session.Dashboard | appV0.py:360-403 | the metrics, the answered-topic rows in dict order, and the recent-activity list |
| ProCatalog.HealthTopics | health_bot_enhanced_pro.py:139-459 | `HEALTH_TOPICS`: the fifteen keys in declaration order, with title and category |
| ProCatalog.QuizQuestions | health_bot_enhanced_pro.py:465-597 | `QUIZ_QUESTIONS`: the question lists of the six quiz topics, with options and answer indices |
| ProCatalog.CdcData | health_bot_enhanced_pro.py:63-92 | `cdc_data`: the CDC keys with the record names |
| ProCatalog.NihResources | health_bot_enhanced_pro.py:105-127 | `nih_resources`: the NIH keys with the resource names |
| ProCatalog.MythsData | health_bot_enhanced_pro.py:789-795 | `myths_data`: the five keys with their myth statements |
| ProCatalog.ApiKey | health_bot_enhanced_pro.py:94 | `topic.lower().replace(" ", "_")`: same length; each space becomes `_`, every other character is lowered |
| ProCatalog.GetCdcData | health_bot_enhanced_pro.py:94-98 | found exactly when `topic.lower().replace(" ", "_")` is a key; then source "CDC" and that record; otherwise "CDC data not available" |
| ProCatalog.GetNihResources | health_bot_enhanced_pro.py:129-133 | the same with source "NIH" and "NIH resources not available" |
| ProCatalog.ApiKeyOfSpelling | health_bot_enhanced_pro.py:94 | every spelling of a key with capitals, or with spaces for underscores, normalises to the key |
| ProCatalog.CdcKeysDistinct | health_bot_enhanced_pro.py:63-92 | the CDC keys are distinct |
| ProCatalog.NihKeysDistinct | health_bot_enhanced_pro.py:105-127 | the NIH keys are distinct |
| ProCatalog.CdcFindsSpelledKey | health_bot_enhanced_pro.py:94-96 | any such spelling of a CDC key, for example "Cardiovascular Disease", finds that record |
| ProCatalog.NihFindsSpelledKey | health_bot_enhanced_pro.py:129-131 | the same for the NIH keys |
| ProCatalog.CategoriesOf | health_bot_enhanced_pro.py:657 | the category of every topic, in table order |
| ProCatalog.CategoryMenu | health_bot_enhanced_pro.py:657-661 | sorted, without repetitions, and exactly the categories that occur |
| ProCatalog.CategoryMenuIsUnique | health_bot_enhanced_pro.py:657-661 | whatever order `set` lists them in, the menu is the one sorted list without repetitions of those categories |
| ProCatalog.FilterByCategory | health_bot_enhanced_pro.py:667 | every kept topic has the selected category, and no more topics than the table |
| ProCatalog.FilterKeepsExactlyCategory | health_bot_enhanced_pro.py:667 | an entry is kept exactly when it is in the table with the selected category |
| ProCatalog.FilterKeepsTableOrder | health_bot_enhanced_pro.py:667-669 | the kept topics are a subsequence of the table, so the topic menu follows table order |
| ProCatalog.MenuCategoriesHaveTopics | health_bot_enhanced_pro.py:661-670 | every category of the menu has at least one topic to select |
| ProCatalog.QuizQuestionsWellFormed | health_bot_enhanced_pro.py:465-597 | every quiz topic has at least one question, and every question has `0 <= ans < len(opts)` |
| ProCatalog.QuizTopicsHaveTitles | health_bot_enhanced_pro.py:725 | every `QUIZ_QUESTIONS` key is a `HEALTH_TOPICS` key |
| ProCatalog.QuizQuestionsHaveDistinctKeys | health_bot_enhanced_pro.py:465-597 | the quiz keys are distinct |
| ProCatalog.HealthTopicsHaveDistinctKeys | health_bot_enhanced_pro.py:139-459 | the topic keys are distinct |
| ProSession.LoadStep | health_bot_enhanced_pro.py:727-731 | the current question is one of `QUIZ_QUESTIONS[topic]` and not answered; scores and history unchanged |
| ProSession.LoadCanPickEveryQuestion | health_bot_enhanced_pro.py:728 | every question of the topic is loaded by some pick of `random.choice` |
| ProSession.SubmitStep | health_bot_enhanced_pro.py:748-764 | answered; an entry for the selected topic exists; total + 1; correct + 1 exactly when `idx == ans`; other topics unchanged; one quiz entry with the flag and time; `correct <= total` kept |
| ProSession.NextStep | health_bot_enhanced_pro.py:769-770 | no current question; scores, history and the answered flag untouched |
| ProSession.ReadStep | health_bot_enhanced_pro.py:672-693 | the selected topic is recorded with the time; nothing else changes |
| ProSession.BustStep | health_bot_enhanced_pro.py:799-806 | a myth entry without time is recorded exactly when the key is in `myths_data`; nothing else changes |
| ProSession.Run | health_bot_enhanced_pro.py:672-806 | the state after a sequence of presses, each offered by the widgets (quiz topics from `QUIZ_QUESTIONS`, Submit only with a current question) |
| ProSession.StepKeepsInvariants | health_bot_enhanced_pro.py:748-764 | every press keeps the scores valid, keeps every scored topic a quiz topic, and only appends to the history |
| ProSession.RunKeepsInvariants | health_bot_enhanced_pro.py:672-806 | over any sequence of presses: history only grows, `correct <= total`, every scored topic is a quiz topic |
| ProSession.RepeatedSubmitCountsTwice | health_bot_enhanced_pro.py:748-757 | submitting twice on one question adds two to the total (and two or zero to correct) and two entries |
| ProSession.TitledRows | health_bot_enhanced_pro.py:825-833 | the score table: one titled row per entry in dict order, or `None` for the `KeyError` of :829 (characterised by `TitledRowsSpec`) |
| ProSession.TitledRowsSpec | health_bot_enhanced_pro.py:825-833 | the score table exists exactly when every scored topic has a `HEALTH_TOPICS` title; then one row per entry, in dict order, with its title and score |
| ProSession.TitledRowsSnoc | health_bot_enhanced_pro.py:826-832 | scanning one more titled entry appends its row |
| ProSession.ScoreTable | health_bot_enhanced_pro.py:825-833 | the dashboard loop builds exactly that table, or fails on the first missing title |
| ProSession.TitledRowsFound | health_bot_enhanced_pro.py:829 | when every scored topic is a key of a table whose keys all have titles, every title is found |
| ProSession.DashboardFindsTitles | health_bot_enhanced_pro.py:829 | in a session whose scored topics are quiz topics, the title lookup never fails |
| ProSession.Session.constructor | health_bot_enhanced_pro.py:625-632 | the initial session state |
| ProSession.Session.ShowQuestion | health_bot_enhanced_pro.py:729-730 | the question becomes current and not answered |
| ProSession.Session.LoadQuestion | health_bot_enhanced_pro.py:727-731 | the Load handler gives `LoadStep` |
| ProSession.Session.Tally | health_bot_enhanced_pro.py:752-757 | the in-place updates of `scores` give exactly `Credit` |
| ProSession.Session.Record | health_bot_enhanced_pro.py:689-693 | one entry appended, nothing else changed |
| ProSession.Session.Submit | health_bot_enhanced_pro.py:725-764 | for a topic of the quiz select box, the Submit handler gives `SubmitStep`, and every scored topic stays a quiz topic |
| ProSession.Session.Next | health_bot_enhanced_pro.py:769-770 | the Next handler gives `NextStep` |
| ProSession.Session.ReadFullInformation | health_bot_enhanced_pro.py:672-693 | the Read Full Information handler gives `ReadStep` |
| ProSession.Session.BustThisMyth | health_bot_enhanced_pro.py:799-806 | returns the myth statement of the key, if any; the new state is `BustStep` |
| ProSession.Session.Dashboard | health_bot_enhanced_pro.py:816-833 | the four metrics of the history and the titled score table, which always exists: every scored topic is a quiz topic, and every quiz topic has a title |

## Left out

- The Streamlit user interface: page layout, CSS, widgets and their keys, `st.rerun`, and the display transforms (`.title()`, `replace("_", " ").upper()`, truncation of myth text).
- The reachability of app.py's Submit button, which sits inside the Start Quiz branch (app.py:128-135). It depends on Streamlit's rerun semantics. `AppSession.Session.Submit` takes the shown question `q` and the chosen option as parameters.
- `HealthAPIs.get_pubmed_articles`, which builds mock articles from f-strings, and the Research and About pages that only display API results and text.
- `datetime.now()`: the time stamp is the parameter `time`.
- `random.choice`: the pick is a caller-supplied position in the question list.
- The text of the tables beyond what the logic reads. Kept: keys, topic titles and categories, quiz options and answers, myth statements, and CDC/NIH record names. Dropped: explanations, tips, facts and truths.
- Text.Lower: lower-cases only A–Z. Python's `str.lower` also maps non-ASCII letters, but every key and every example here is ASCII.
- Progress.RoundedPercentIsNearest: the shown percentage is the exact value rounded half to even. Python computes `correct / total * 100` in floating point first, which this model does not reproduce.
- Seqs.Dedup: `list(set(...))` has no specified order. The model keeps the last occurrence of each element. `ProCatalog.CategoryMenuIsUnique` proves that the sorted menu does not depend on that choice.
- AppSession.Session.Dashboard: the model returns all four metrics. app.py shows three of them: activities, quizzes and topics learned.
