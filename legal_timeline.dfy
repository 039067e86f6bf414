/**
 * The case timeline card (components/analyze/legal-timeline.tsx): the
 * analysis's timeline, or four default steps when it has none, each with an
 * icon and a status that depend only on its position.
 */
module LegalTimeline {
  import opened Wrappers
  import opened Types

  const DefaultSteps: seq<TimelineStep> := [
    TimelineStep("Document Received", "You received the legal notice", Some("Today")),
    TimelineStep("Review Period", "Review and understand the document", Some("Within 7 days")),
    TimelineStep("Take Action", "Respond or take required action", Some("As specified")),
    TimelineStep("Resolution", "Case resolved after action taken", Some("TBD"))
  ]

  /** `timeline && timeline.length > 0 ? timeline : defaultSteps`; `None` is an absent timeline. */
  function StepsShown(timeline: Option<seq<TimelineStep>>): (steps: seq<TimelineStep>)
    ensures timeline.Some? && |timeline.value| > 0 ==> steps == timeline.value
    ensures timeline.None? || timeline.value == [] ==> steps == DefaultSteps
    ensures |steps| > 0
  {
    if timeline.Some? && |timeline.value| > 0 then timeline.value else DefaultSteps
  }

  /** Every default step names a deadline. */
  lemma DefaultsHaveDeadlines()
    ensures forall i :: 0 <= i < |DefaultSteps| ==> DefaultSteps[i].deadline.Some?
  {
  }

  datatype Icon = FileTextIcon | GavelIcon | MailIcon | SearchIcon | BuildingIcon

  /** `getIcon`: the first step, then the last step, then the second and third, each take precedence in that order. */
  function GetIcon(index: int, total: int): (icon: Icon)
    ensures index == 0 ==> icon == FileTextIcon
    ensures index != 0 && index == total - 1 ==> icon == GavelIcon
    ensures index != 0 && index != total - 1 && index == 1 ==> icon == MailIcon
    ensures index !in {0, 1, total - 1} && index == 2 ==> icon == SearchIcon
    ensures index !in {0, 1, 2, total - 1} ==> icon == BuildingIcon
  {
    if index == 0 then FileTextIcon
    else if index == total - 1 then GavelIcon
    else if index == 1 then MailIcon
    else if index == 2 then SearchIcon
    else BuildingIcon
  }

  /** On a list of at least two steps the gavel marks exactly the last step. */
  lemma GavelOnlyOnLast(total: int)
    requires total >= 2
    ensures forall i :: 0 <= i < total ==> (GetIcon(i, total) == GavelIcon <==> i == total - 1)
  {
  }

  datatype Status = Completed | Current | Upcoming

  /** `getStatus`: the first step is done, the second is under way, the rest are ahead. */
  function GetStatus(index: int): Status {
    if index == 0 then Completed
    else if index == 1 then Current
    else Upcoming
  }

  /** With two or more steps exactly one is current, the second; a single step has none. */
  lemma ExactlyOneCurrent(total: nat)
    ensures total >= 2 ==> forall i :: 0 <= i < total ==> (GetStatus(i) == Current <==> i == 1)
    ensures total < 2 ==> forall i :: 0 <= i < total ==> GetStatus(i) != Current
    ensures forall i :: 0 <= i < total ==> (GetStatus(i) == Completed <==> i == 0)
  {
  }

  /** The statuses along the list never go back: completed, then current, then upcoming. */
  lemma StatusOrder(i: int, j: int)
    requires 0 <= i <= j
    ensures Rank(GetStatus(i)) <= Rank(GetStatus(j))
  {
  }

  function Rank(s: Status): nat {
    match s
    case Completed => 0
    case Current => 1
    case Upcoming => 2
  }
}
