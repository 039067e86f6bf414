/**
 * The "Compare States" dialog of a legal section
 * (components/analyze/state-comparison-modal.tsx): a fixed table of six
 * states' penalties with a generic fallback, and a selector offering every
 * listed state except the document's own.
 */
module StateComparisonModal {
  import opened Wrappers
  import opened Seqs

  const ModalStates: seq<string> := ["Maharashtra", "Delhi", "Karnataka", "Tamil Nadu", "Gujarat", "Uttar Pradesh"]

  datatype StateData = StateData(penalty: string, notes: string, severity: string)

  const StateTable: map<string, StateData> := map[
    "Maharashtra" := StateData("Rs. 500-1,000 (first offense)", "Online payment available. Compounding fee of Rs. 500.", "medium"),
    "Delhi" := StateData("Rs. 750-1,500 (first offense)", "Stricter enforcement. E-challan system mandatory.", "medium"),
    "Karnataka" := StateData("Rs. 500-1,000 (first offense)", "Special traffic tribunals in Bangalore.", "low"),
    "Tamil Nadu" := StateData("Rs. 500-1,000 (first offense)", "Spot payment option available at certain locations.", "medium"),
    "Gujarat" := StateData("Rs. 500-1,500 (first offense)", "Online payment through state portal.", "medium"),
    "Uttar Pradesh" := StateData("Rs. 500-1,000 (first offense)", "Payment through UP100 app.", "low")
  ]

  const Fallback := StateData("Standard penalty", "Contact local RTO", "medium")

  /** `getStateData`: the table entry, or the generic entry for any other state. */
  function GetStateData(state: string): (d: StateData)
    ensures state in StateTable ==> d == StateTable[state]
    ensures state !in StateTable ==> d == Fallback
  {
    if state in StateTable then StateTable[state] else Fallback
  }

  /** The table covers exactly the states the selector lists. */
  lemma TableCoversListedStates()
    ensures forall s :: s in StateTable <==> s in ModalStates
  {
  }

  /** Every state gets a penalty, notes and a severity of medium or low. */
  lemma StateDataAlwaysFilled(state: string)
    ensures GetStateData(state).penalty != "" && GetStateData(state).notes != ""
    ensures GetStateData(state).severity in {"medium", "low"}
  {
  }

  /** `states.filter((s) => s !== currentState)`: the states offered for comparison. */
  function ComparisonChoices(currentState: string): (choices: seq<string>)
    ensures IsSubseq(choices, ModalStates)
    ensures forall s :: s in choices <==> s in ModalStates && s != currentState
  {
    Filter(ModalStates, (s: string) => s != currentState)
  }

  /** A document from a listed state gets five choices, any other document all six. */
  lemma ChoiceCount(currentState: string)
    ensures currentState in ModalStates ==> |ComparisonChoices(currentState)| == |ModalStates| - 1
    ensures currentState !in ModalStates ==> ComparisonChoices(currentState) == ModalStates
  {
    if currentState in ModalStates {
      assert NoRepeats(ModalStates);
      DropOne(ModalStates, currentState);
    } else {
      FilterKeepsAll(ModalStates, (s: string) => s != currentState);
    }
  }

  predicate NoRepeats(xs: seq<string>) {
    forall i, j :: 0 <= i < j < |xs| ==> xs[i] != xs[j]
  }

  /** Filtering one element out of a list without repeats shortens it by one. */
  lemma DropOne(xs: seq<string>, x: string)
    requires NoRepeats(xs) && x in xs
    ensures |Filter(xs, (s: string) => s != x)| == |xs| - 1
  {
    var p := (s: string) => s != x;
    var k :| 0 <= k < |xs| && xs[k] == x;
    var before, after := xs[..k], xs[k + 1..];
    assert xs == before + [x] + after;
    assert x !in before && x !in after;
    FilterConcat(before + [x], after, p);
    FilterConcat(before, [x], p);
    FilterKeepsAll(before, p);
    FilterKeepsAll(after, p);
  }

  class StateComparisonModal {
    const currentState: string
    var compareState: string
    var open: bool

    /** The compared state is unset or one of the offered choices. */
    predicate Valid()
      reads this`compareState
    {
      compareState == "" || compareState in ComparisonChoices(currentState)
    }

    constructor(currentState: string)
      ensures this.currentState == currentState && compareState == "" && !open && Valid()
    {
      this.currentState := currentState;
      compareState := "";
      open := false;
    }

    /** `currentData`: always present. */
    function CurrentData(): (d: StateData)
    {
      GetStateData(currentState)
    }

    /** `compareData`: absent until a state is chosen. */
    function CompareData(): (d: Option<StateData>)
      reads this`compareState
      ensures d.None? <==> compareState == ""
      ensures d.Some? ==> d.value == GetStateData(compareState)
    {
      if compareState == "" then None else Some(GetStateData(compareState))
    }

    method SetOpen(b: bool)
      modifies this`open
      ensures open == b
    {
      open := b;
    }

    /** Choosing an item of the selector; only the offered choices are items. */
    method SetCompareState(s: string)
      requires Valid()
      modifies this`compareState
      ensures Valid()
      ensures compareState == (if s in ComparisonChoices(currentState) then s else old(compareState))
      ensures compareState != currentState || compareState == ""
    {
      if s in ComparisonChoices(currentState) {
        compareState := s;
      }
    }
  }
}
