/**
 * The quiz landing page (app/quiz/page.tsx): the state filter over the quiz
 * packs, the list of states, each pack's completion status and the earned
 * badges, all computed from the progress record kept in browser storage.
 */
module QuizPage {
  import opened Wrappers
  import opened Seqs
  import opened QuizData

  const AllStates := "all"

  /** `filteredPacks`: every pack for "all", else the packs of the chosen state, in order. */
  function FilteredPacks(packs: seq<QuizPack>, selectedState: string): (r: seq<QuizPack>)
    ensures IsSubseq(r, packs)
    ensures selectedState == AllStates ==> r == packs
    ensures selectedState != AllStates ==> forall p :: p in r <==> p in packs && p.state == selectedState
  {
    SubseqRefl(packs);
    if selectedState == AllStates then packs else Filter(packs, (p: QuizPack) => p.state == selectedState)
  }

  function PackStates(packs: seq<QuizPack>): (r: seq<string>)
    ensures |r| == |packs|
    ensures forall i :: 0 <= i < |packs| ==> r[i] == packs[i].state
  {
    seq(|packs|, i requires 0 <= i < |packs| => packs[i].state)
  }

  /** `states`: the distinct pack states, each once, in the order the packs first mention them. */
  function States(packs: seq<QuizPack>): (r: seq<string>)
    ensures forall s :: s in r <==> exists p :: p in packs && p.state == s
    ensures forall i, j :: 0 <= i < j < |r| ==> r[i] != r[j]
  {
    var ss := PackStates(packs);
    assert forall s :: s in ss <==> exists p :: p in packs && p.state == s by {
      forall s | s in ss ensures exists p :: p in packs && p.state == s {
        var i :| 0 <= i < |ss| && ss[i] == s;
        assert packs[i] in packs;
      }
      forall s | exists p :: p in packs && p.state == s ensures s in ss {
        var p :| p in packs && p.state == s;
        var i :| 0 <= i < |packs| && packs[i] == p;
        assert ss[i] == s;
      }
    }
    Distinct(ss)
  }

  /** Earlier states in the list are states that appear earlier among the packs. */
  lemma StatesInFirstOccurrenceOrder(packs: seq<QuizPack>, i: nat, j: nat)
    requires i < j < |States(packs)|
    ensures PositionOf(PackStates(packs), States(packs)[i]) < PositionOf(PackStates(packs), States(packs)[j])
  {
    DistinctFirstOccurrenceOrder(PackStates(packs), i, j);
  }

  /** A pack's status; `percentage` is None where the source divides by a zero question count. */
  datatype PackStatus =
    | NotCompleted
    | Completed(score: nat, total: nat, percentage: Option<int>)

  /** `Math.round(score / total * 100)`, rounding halves up, in exact arithmetic. */
  function Percentage(score: nat, total: nat): (p: Option<int>)
    ensures total == 0 <==> p.None?
    ensures p.Some? ==> 2 * total * p.value <= 200 * score + total < 2 * total * p.value + 2 * total
  {
    if total == 0 then None
    else
      var p := (200 * score + total) / (2 * total);
      Some(p)
  }

  /** The rounded percentage never leaves 0..100 for a score within the total, and a full score gives 100. */
  lemma PercentageBounds(score: nat, total: nat)
    requires 0 < total && score <= total
    ensures 0 <= Percentage(score, total).value <= 100
    ensures score == total ==> Percentage(score, total).value == 100
  {
    var p := Percentage(score, total).value;
    LessFromMul(2 * total, -1, p);
    LessFromMul(2 * total, p, 101);
    if score == total {
      LessFromMul(2 * total, 99, p);
    }
  }

  lemma LessFromMul(k: nat, a: int, b: int)
    requires k * a < k * b
    ensures a < b
  {
  }

  /** `getPackStatus`: the first stored result for the pack decides the status. */
  function GetPackStatus(completed: seq<QuizResult>, packId: string): (st: PackStatus)
    ensures st.NotCompleted? <==> forall r :: r in completed ==> r.packId != packId
    ensures st.Completed? ==>
              exists i :: 0 <= i < |completed| && completed[i].packId == packId
                && (forall j :: 0 <= j < i ==> completed[j].packId != packId)
                && st == Completed(completed[i].score, completed[i].totalQuestions,
                                   Percentage(completed[i].score, completed[i].totalQuestions))
  {
    match FirstIndex(completed, (r: QuizResult) => r.packId == packId)
    case None => NotCompleted
    case Some(i) =>
      var r := completed[i];
      Completed(r.score, r.totalQuestions, Percentage(r.score, r.totalQuestions))
  }

  /** Results stored after a pack's first result do not change its status. */
  lemma StatusIgnoresLaterResults(completed: seq<QuizResult>, later: seq<QuizResult>, packId: string)
    requires exists r :: r in completed && r.packId == packId
    ensures GetPackStatus(completed + later, packId) == GetPackStatus(completed, packId)
  {
    var p := (r: QuizResult) => r.packId == packId;
    PrefixFirstIndex(completed, later, p);
  }

  lemma {:induction false} PrefixFirstIndex<T>(s: seq<T>, t: seq<T>, p: T -> bool)
    requires FirstIndex(s, p).Some?
    ensures FirstIndex(s + t, p) == FirstIndex(s, p)
    decreases |s|
  {
    if !p(s[0]) {
      assert (s + t)[1..] == s[1..] + t;
      PrefixFirstIndex(s[1..], t, p);
    }
  }

  /** The stored progress record as parsed; an absent field is None. */
  datatype StoredProgress = StoredProgress(
    completedQuizzes: Option<seq<QuizResult>>,
    earnedBadges: Option<seq<string>>,
    totalPoints: Option<int>)

  datatype Progress = Progress(completedQuizzes: seq<QuizResult>, earnedBadges: seq<string>, totalPoints: int)

  const NoProgress := Progress([], [], 0)

  /** The mount effect: nothing stored keeps the empty progress; each missing field falls back to empty or 0. */
  function LoadProgress(saved: Option<StoredProgress>): (p: Progress)
    ensures saved.None? ==> p == NoProgress
    ensures saved.Some? ==> p.completedQuizzes == saved.value.completedQuizzes.GetOr([])
    ensures saved.Some? ==> p.earnedBadges == saved.value.earnedBadges.GetOr([])
    ensures saved.Some? ==> p.totalPoints == saved.value.totalPoints.GetOr(0)
  {
    match saved
    case None => NoProgress
    case Some(s) =>
      Progress(s.completedQuizzes.GetOr([]), s.earnedBadges.GetOr([]), s.totalPoints.GetOr(0))
  }

  /** Storing a whole progress record and loading it gives it back. */
  lemma LoadStoredProgress(p: Progress)
    ensures LoadProgress(Some(StoredProgress(Some(p.completedQuizzes), Some(p.earnedBadges), Some(p.totalPoints)))) == p
  {
  }

  /** The badges shown: the entries of the badge list whose id is earned, in badge-list order. */
  function EarnedBadgeList(badges: seq<Badge>, earned: seq<string>): (r: seq<Badge>)
    ensures IsSubseq(r, badges)
    ensures forall b :: b in r <==> b in badges && b.id in earned
    ensures earned == [] ==> r == []
  {
    Filter(badges, (b: Badge) => b.id in earned)
  }
}
