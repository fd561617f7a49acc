/** The demo's task prioritiser (`decision_compress`): every task gets a
    `priority_score` from its impact, urgency and effort, and the scored tasks
    are returned highest score first, equal scores in input order. */
module DecisionCompress {
  import opened Wrappers
  import opened Rounding
  import opened StableSort

  /** A field value of a task dictionary. */
  datatype Value = Int(i: int) | Real(r: real) | Text(s: string)

  type Task = map<string, Value>

  /** The key of an uncaught Python error: a missing key (`KeyError`) or a
      text value in the arithmetic (`TypeError`). */
  datatype Error = MissingKey(key: string) | NotANumber(key: string)

  const ScoreKey: string := "priority_score"

  /** `t[key]` used as a number. */
  function Field(t: Task, key: string): Result<real, Error>
  {
    if key !in t then Failure(MissingKey(key))
    else
      match t[key]
      case Int(i) => Success(i as real)
      case Real(r) => Success(r)
      case Text(_) => Failure(NotANumber(key))
  }

  function RawScore(impact: real, urgency: real, effort: real): real
  {
    impact * 0.4 + urgency * 0.3 + (10.0 - effort) * 0.3
  }

  /** `round(impact * 0.4 + urgency * 0.3 + (10 - effort) * 0.3, 1)`, the
      fields read in that order. */
  function PriorityScore(t: Task): Result<real, Error>
  {
    match Field(t, "impact")
    case Failure(e) => Failure(e)
    case Success(impact) =>
      match Field(t, "urgency")
      case Failure(e) => Failure(e)
      case Success(urgency) =>
        match Field(t, "effort")
        case Failure(e) => Failure(e)
        case Success(effort) => Success(Round(RawScore(impact, urgency, effort), 1))
  }

  /** `{**t, "priority_score": score}`. */
  function WithScore(t: Task, score: real): Task
  {
    t[ScoreKey := Real(score)]
  }

  /** The score a scored task carries. */
  function ScoreOf(t: Task): real
  {
    if ScoreKey in t && t[ScoreKey].Real? then t[ScoreKey].r else 0.0
  }

  /** The sort key `-x["priority_score"]`. */
  function SortKey(t: Task): real
  {
    -ScoreOf(t)
  }

  /** The scoring loop: the scored tasks in input order, or the error of the
      first task that cannot be scored. */
  function ScoreAll(tasks: seq<Task>): (r: Result<seq<Task>, Error>)
    ensures r.Success? ==> |r.value| == |tasks|
  {
    if tasks == [] then Success([])
    else
      match ScoreAll(tasks[..|tasks| - 1])
      case Failure(e) => Failure(e)
      case Success(scored) =>
        match PriorityScore(tasks[|tasks| - 1])
        case Failure(e) => Failure(e)
        case Success(s) => Success(scored + [WithScore(tasks[|tasks| - 1], s)])
  }

  /** `decision_compress(tasks)`. */
  function Compress(tasks: seq<Task>): Result<seq<Task>, Error>
  {
    match ScoreAll(tasks)
    case Failure(e) => Failure(e)
    case Success(scored) => Success(Sort(scored, SortKey))
  }

  method DecisionCompress(tasks: seq<Task>) returns (r: Result<seq<Task>, Error>)
    ensures r == Compress(tasks)
  {
    var scored: seq<Task> := [];
    var i := 0;
    while i < |tasks|
      invariant 0 <= i <= |tasks|
      invariant ScoreAll(tasks[..i]) == Success(scored)
    {
      assert tasks[..i + 1][..i] == tasks[..i];
      var score := PriorityScore(tasks[i]);
      if score.Failure? {
        assert ScoreAll(tasks[..i + 1]).Failure?;
        ScoreAllFailurePropagates(tasks, i + 1);
        return Failure(score.error);
      }
      scored := scored + [WithScore(tasks[i], score.value)];
      i := i + 1;
    }
    assert tasks[..i] == tasks;
    return Success(Sort(scored, SortKey));
  }

  /** Once a prefix fails to score, the whole list fails with the same error. */
  lemma {:induction false} ScoreAllFailurePropagates(tasks: seq<Task>, n: nat)
    requires n <= |tasks| && ScoreAll(tasks[..n]).Failure?
    ensures ScoreAll(tasks) == ScoreAll(tasks[..n])
    decreases |tasks| - n
  {
    if n < |tasks| {
      assert tasks[..n + 1][..n] == tasks[..n];
      ScoreAllFailurePropagates(tasks, n + 1);
    } else {
      assert tasks[..n] == tasks;
    }
  }

  /** Scoring succeeds exactly when every task can be scored; then entry `i`
      is task `i` with its score added, and otherwise the error is that of
      the first task that cannot be scored. */
  lemma {:induction false} ScoreAllExactly(tasks: seq<Task>)
    ensures ScoreAll(tasks).Success? <==> forall i :: 0 <= i < |tasks| ==> PriorityScore(tasks[i]).Success?
    ensures ScoreAll(tasks).Success? ==>
      forall i :: 0 <= i < |tasks| ==> ScoreAll(tasks).value[i] == WithScore(tasks[i], PriorityScore(tasks[i]).value)
    ensures ScoreAll(tasks).Failure? ==>
      exists i :: (0 <= i < |tasks| &&
        PriorityScore(tasks[i]) == Failure(ScoreAll(tasks).error) &&
        forall j :: 0 <= j < i ==> PriorityScore(tasks[j]).Success?)
  {
    if tasks != [] {
      var t := tasks[..|tasks| - 1];
      ScoreAllExactly(t);
      assert forall i :: 0 <= i < |t| ==> t[i] == tasks[i];
    }
  }

  /** Every task keeps all its fields unchanged and gains `priority_score`. */
  lemma FieldsKept(t: Task, score: real)
    ensures forall k :: k != ScoreKey ==> (k in WithScore(t, score) <==> k in t)
    ensures forall k :: k != ScoreKey && k in t ==> WithScore(t, score)[k] == t[k]
    ensures ScoreOf(WithScore(t, score)) == score
  {
  }

  /** With whole-number inputs the score is exact: ten times it is the
      integer 4 * impact + 3 * urgency + 3 * (10 - effort). */
  lemma ExactScore(impact: int, urgency: int, effort: int)
    ensures Round(RawScore(impact as real, urgency as real, effort as real), 1) ==
      (4 * impact + 3 * urgency + 3 * (10 - effort)) as real / 10.0
  {
    var x := RawScore(impact as real, urgency as real, effort as real);
    var n := 4 * impact + 3 * urgency + 3 * (10 - effort);
    assert Scaled(x, 1) == n as real;
    RoundExact(x, 1, n);
  }

  /** The result holds the scored tasks, each as often as it was given,
      highest score first, tasks with equal scores in input order. */
  lemma CompressOrdered(tasks: seq<Task>, v: real)
    requires Compress(tasks).Success?
    ensures multiset(Compress(tasks).value) == multiset(ScoreAll(tasks).value)
    ensures forall i, j :: 0 <= i < j < |Compress(tasks).value| ==>
      ScoreOf(Compress(tasks).value[i]) >= ScoreOf(Compress(tasks).value[j])
    ensures WithKey(Compress(tasks).value, SortKey, v) == WithKey(ScoreAll(tasks).value, SortKey, v)
  {
    SortIsStable(ScoreAll(tasks).value, SortKey, v);
  }

  /** In a list sorted by `SortKey`, a higher score comes first. */
  lemma HigherScoreFirst(r: seq<Task>, p: nat, q: nat)
    requires SortedBy(r, SortKey)
    requires p < |r| && q < |r| && ScoreOf(r[p]) > ScoreOf(r[q])
    ensures p < q
  {
  }

  /** Two tasks with the same whole-number impact and urgency: the one with
      less effort gets the strictly higher score, and every copy of it comes
      before every copy of the other in the result. */
  lemma LowerEffortFirst(tasks: seq<Task>, a: nat, b: nat, p: nat, q: nat)
    requires Compress(tasks).Success?
    requires a < |tasks| && b < |tasks|
    requires "impact" in tasks[a] && "impact" in tasks[b] && tasks[a]["impact"].Int? && tasks[a]["impact"] == tasks[b]["impact"]
    requires "urgency" in tasks[a] && "urgency" in tasks[b] && tasks[a]["urgency"].Int? && tasks[a]["urgency"] == tasks[b]["urgency"]
    requires "effort" in tasks[a] && "effort" in tasks[b] && tasks[a]["effort"].Int? && tasks[b]["effort"].Int?
    requires tasks[a]["effort"].i < tasks[b]["effort"].i
    requires p < |Compress(tasks).value| && Compress(tasks).value[p] == ScoreAll(tasks).value[a]
    requires q < |Compress(tasks).value| && Compress(tasks).value[q] == ScoreAll(tasks).value[b]
    ensures PriorityScore(tasks[a]).value > PriorityScore(tasks[b]).value
    ensures p < q
  {
    ScoreAllExactly(tasks);
    var i, u := tasks[a]["impact"].i, tasks[a]["urgency"].i;
    var ea, eb := tasks[a]["effort"].i, tasks[b]["effort"].i;
    ExactScore(i, u, ea);
    ExactScore(i, u, eb);
    var sa, sb := PriorityScore(tasks[a]).value, PriorityScore(tasks[b]).value;
    assert sa == (4 * i + 3 * u + 3 * (10 - ea)) as real / 10.0;
    assert sb == (4 * i + 3 * u + 3 * (10 - eb)) as real / 10.0;
    FieldsKept(tasks[a], sa);
    FieldsKept(tasks[b], sb);
    HigherScoreFirst(Compress(tasks).value, p, q);
  }
}
