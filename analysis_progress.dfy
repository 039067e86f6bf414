/**
 * The step list shown while a document is analysed
 * (components/analyze/analysis-progress.tsx): six steps with increasing
 * thresholds; a step is completed once the progress reaches its threshold,
 * and the active step is the first one not yet reached.
 */
module AnalysisProgress {
  import opened Wrappers
  import opened Seqs

  datatype Step = Step(caption: string, threshold: int)

  const Steps: seq<Step> := [
    Step("Extracting text from document", 20),
    Step("Detecting document sections", 40),
    Step("Identifying state jurisdiction", 55),
    Step("Matching legal sections", 75),
    Step("Generating explanation", 90),
    Step("Finalizing analysis", 100)
  ]

  /** The thresholds strictly increase along the list. */
  predicate Increasing(steps: seq<Step>) {
    forall i, j :: 0 <= i < j < |steps| ==> steps[i].threshold < steps[j].threshold
  }

  lemma StepsIncreasing()
    ensures Increasing(Steps)
  {
  }

  /** `steps.findIndex((step) => progress < step.threshold)`, with -1 as None. */
  function FirstAhead(steps: seq<Step>, progress: real): (r: Option<nat>)
    ensures r.Some? ==> r.value < |steps| && progress < steps[r.value].threshold as real
    ensures r.Some? ==> forall i :: 0 <= i < r.value ==> progress >= steps[i].threshold as real
    ensures r.None? ==> forall i :: 0 <= i < |steps| ==> progress >= steps[i].threshold as real
  {
    FirstIndex(steps, (s: Step) => progress < s.threshold as real)
  }

  /** `activeStep`: the first step whose threshold is still ahead, or the last step once all are reached. */
  function ActiveStep(progress: real): (a: nat)
    ensures a < |Steps|
  {
    match FirstAhead(Steps, progress)
    case Some(i) => i
    case None => |Steps| - 1
  }

  /** The step at index `i` shows a tick. */
  predicate IsCompleted(i: nat, progress: real)
    requires i < |Steps|
  {
    progress >= Steps[i].threshold as real
  }

  /**
   * Every step before the active one is completed, and every step after it is
   * not; the active step itself is completed only once the progress reaches 100.
   */
  lemma ActiveSplitsSteps(progress: real)
    ensures forall i :: 0 <= i < ActiveStep(progress) ==> IsCompleted(i, progress)
    ensures forall i :: ActiveStep(progress) < i < |Steps| ==> !IsCompleted(i, progress)
    ensures IsCompleted(ActiveStep(progress), progress) <==> progress >= 100.0
  {
    StepsIncreasing();
  }

  /** More progress never un-completes a step. */
  lemma CompletionMonotone(i: nat, p: real, q: real)
    requires i < |Steps| && p <= q && IsCompleted(i, p)
    ensures IsCompleted(i, q)
  {
  }

  /** More progress never moves the active step back. */
  lemma ActiveStepMonotone(p: real, q: real)
    requires p <= q
    ensures ActiveStep(p) <= ActiveStep(q)
  {
    StepsIncreasing();
  }
}
