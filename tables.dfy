/**
 * The constant dictionaries of the bot. A Python dict literal keeps its keys in the order
 * they are written, and iteration, `keys()` and `", ".join(...)` follow that order, so a
 * table is its list of (key, value) pairs.
 */
module Tables {

  import opened Wrappers
  import opened Seqs
  import opened Text
  import opened Progress

  type Table<R> = seq<(string, R)>

  /** A topic sheet of a `health_db`; of its content only the title is kept. */
  datatype Info = Info(title: string)

  /** The dicts the agent functions return: `{"status": "success", ...}` or `{"status": "error", "msg": ...}`. */
  datatype InfoResult = InfoFound(info: Info) | InfoMissing(msg: string)

  datatype QuizResult = QuizFound(quiz: Question) | QuizMissing(msg: string)

  /** Of a busted myth's record only its myth statement is kept. */
  datatype MythResult = Busted(myth: string) | MythMissing(msg: string)

  /** `list(d.keys())`. */
  function Keys<R>(t: Table<R>): (ks: seq<string>)
    ensures |ks| == |t|
    ensures forall i :: 0 <= i < |t| ==> ks[i] == t[i].0
  {
    if t == [] then [] else [t[0].0] + Keys(t[1..])
  }

  /** A dict has each key once. */
  predicate DistinctKeys<R>(t: Table<R>) {
    Distinct(Keys(t))
  }

  /** `k in d`. */
  predicate HasKey<R>(t: Table<R>, k: string) {
    exists i :: 0 <= i < |t| && t[i].0 == k
  }

  /** `k in d` is `k in d.keys()`. */
  lemma HasKeyIffInKeys<R>(t: Table<R>, k: string)
    ensures HasKey(t, k) <==> k in Keys(t)
  {
    if HasKey(t, k) {
      var i :| 0 <= i < |t| && t[i].0 == k;
      assert Keys(t)[i] == k;
    }
  }

  /** `d[k] if k in d else None`. */
  function Get<R>(t: Table<R>, k: string): (r: Option<R>)
    ensures r.Some? <==> HasKey(t, k)
  {
    if t == [] then None else if t[0].0 == k then Some(t[0].1) else Get(t[1..], k)
  }

  /** With each key once, looking up the key of an entry gives that entry's value. */
  lemma {:induction false} GetAt<R>(t: Table<R>, i: nat)
    requires DistinctKeys(t) && i < |t|
    ensures Get(t, t[i].0) == Some(t[i].1)
  {
    if t[0].0 == t[i].0 {
      assert Keys(t)[0] == Keys(t)[i];
    } else {
      assert Keys(t[1..]) == Keys(t)[1..];
      GetAt(t[1..], i - 1);
    }
  }

  /**
   * `for key in d: if key in text: return key`: the position of the first key, in table
   * order, that occurs in `text`.
   */
  function FirstKeyIn<R>(t: Table<R>, text: string): (r: Option<nat>)
    ensures r.Some? ==> r.value < |t| && Contains(t[r.value].0, text)
    ensures r.Some? ==> forall j :: 0 <= j < r.value ==> !Contains(t[j].0, text)
    ensures r.None? <==> forall j :: 0 <= j < |t| ==> !Contains(t[j].0, text)
  {
    if t == [] then
      None
    else if Contains(t[0].0, text) then
      Some(0)
    else
      match FirstKeyIn(t[1..], text)
      case None => None
      case Some(i) => Some(i + 1)
  }

  /** The first key found is the first one in table order that occurs in the text, and no other. */
  lemma FirstKeyInIsFirst<R>(t: Table<R>, text: string, i: nat)
    requires i < |t| && Contains(t[i].0, text)
    requires forall j :: 0 <= j < i ==> !Contains(t[j].0, text)
    ensures FirstKeyIn(t, text) == Some(i)
  {
    var r := FirstKeyIn(t, text);
    assert r.Some? && r.value == i;
  }

  /** `for key in d: if key in text: ...`: the scan with its early exit. */
  method ScanKeys<R>(t: Table<R>, text: string) returns (r: Option<nat>)
    ensures r == FirstKeyIn(t, text)
  {
    var i := 0;
    while i < |t|
      invariant 0 <= i <= |t|
      invariant forall j :: 0 <= j < i ==> !Contains(t[j].0, text)
    {
      if Contains(t[i].0, text) {
        FirstKeyInIsFirst(t, text, i);
        return Some(i);
      }
      i := i + 1;
    }
    return None;
  }

  /** Keys that pairwise differ in their first character or in their length are all different. */
  lemma DistinctBySignature<R>(t: Table<R>)
    requires forall i :: 0 <= i < |t| ==> t[i].0 != []
    requires forall i, j :: 0 <= i < j < |t| ==> t[i].0[0] != t[j].0[0] || |t[i].0| != |t[j].0|
    ensures DistinctKeys(t)
  {
    var ks := Keys(t);
    forall i, j | 0 <= i < j < |ks|
      ensures ks[i] != ks[j]
    {
      assert ks[i] == t[i].0 && ks[j] == t[j].0;
    }
  }

  /** A key that `strip()` leaves as it is: not empty, no whitespace at either end. */
  predicate IsWord(k: string) {
    k != [] && !IsSpace(k[0]) && !IsSpace(k[|k| - 1])
  }

  /**
   * A lookup keyed by `s.lower().strip()` finds an entry whatever the capitalisation of
   * its key and whatever whitespace surrounds it.
   */
  lemma NormalizedLookup<R>(t: Table<R>, i: nat, pre: string, u: string, post: string)
    requires DistinctKeys(t) && i < |t| && IsWord(t[i].0)
    requires AllSpace(pre) && AllSpace(post) && Lower(u) == t[i].0
    ensures Get(t, Strip(Lower(pre + u + post))) == Some(t[i].1)
  {
    LowerConcat(pre + u, post);
    LowerConcat(pre, u);
    LowerFixes(pre);
    LowerFixes(post);
    StripPadded(pre, t[i].0, post);
    GetAt(t, i);
  }
}
