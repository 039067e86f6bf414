/**
 * The analysis page (app/analyze/page.tsx): upload a document, watch a
 * simulated progress bar while the analysis request runs, then see the
 * results or an error; reset starts over.
 */
module AnalyzePage {
  import opened Wrappers
  import opened Json

  datatype AnalysisState = Upload | Analyzing | Results | Error

  /** The uploaded file as the page holds it. */
  datatype UploadedFile = UploadedFile(name: string, fileType: string, size: nat)

  /** What `response.json()` gives: a value, or the message of the error it throws. */
  datatype JsonBody = Parsed(value: JVal) | Unparsable(message: string)

  /** The outcome of the request: a response, or the message of the error `fetch` rejects with. */
  datatype FetchOutcome =
    | Response(ok: bool, body: JsonBody)
    | NetworkFailure(message: string)

  /** Where the request handling ends: the analysis, or the message shown. */
  datatype Handled = Analysis(analysis: JVal) | Failure(message: string)

  const AnalysisFailed := "Analysis failed"
  const InvalidResponse := "Invalid response from server"
  /** The TypeError message for reading a property of `null`. */
  function NullRead(key: string): string {
    "Cannot read properties of null (reading '" + key + "')"
  }

  const TickMs := 500
  const Cap := 90.0

  /** The message of `new Error(errorData.error || "Analysis failed")`; `stringify` is `String(x)`. */
  function ErrorMessage(errorData: JVal, stringify: JVal -> string): (msg: string)
    ensures errorData == JNull ==> msg == NullRead("error")
    ensures errorData != JNull && !TruthyProp(Prop(errorData, "error")) ==> msg == AnalysisFailed
    ensures errorData != JNull && TruthyProp(Prop(errorData, "error")) && Prop(errorData, "error").value.JStr? ==>
              msg == Prop(errorData, "error").value.s
  {
    if errorData == JNull then NullRead("error")
    else
      var e := Prop(errorData, "error");
      if !TruthyProp(e) then AnalysisFailed
      else if e.value.JStr? then e.value.s
      else stringify(e.value)
  }

  /** The try block of `handleFileUpload` after the request settles. */
  function HandleOutcome(outcome: FetchOutcome, stringify: JVal -> string): (h: Handled)
    ensures h.Analysis? <==>
              outcome.Response? && outcome.ok && outcome.body.Parsed?
              && TruthyProp(Prop(outcome.body.value, "success")) && TruthyProp(Prop(outcome.body.value, "analysis"))
    ensures h.Analysis? ==> Prop(outcome.body.value, "analysis") == Some(h.analysis)
    ensures outcome.NetworkFailure? ==> h == Failure(outcome.message)
    ensures outcome.Response? && outcome.body.Unparsable? ==> h == Failure(outcome.body.message)
    ensures outcome.Response? && outcome.ok && outcome.body.Parsed? && outcome.body.value != JNull && h.Failure? ==>
              h.message == InvalidResponse
    ensures outcome.Response? && !outcome.ok && outcome.body.Parsed? ==>
              h == Failure(ErrorMessage(outcome.body.value, stringify))
  {
    match outcome
    case NetworkFailure(m) => Failure(m)
    case Response(ok, body) =>
      match body
      case Unparsable(m) => Failure(m)
      case Parsed(data) =>
        if !ok then Failure(ErrorMessage(data, stringify))
        else if data == JNull then Failure(NullRead("success"))
        else if TruthyProp(Prop(data, "success")) && TruthyProp(Prop(data, "analysis")) then
          Analysis(Prop(data, "analysis").value)
        else Failure(InvalidResponse)
  }

  /** One tick of the simulated progress: up by `random * 8`, held at 90. */
  function Advance(current: real, random: real): (next: real)
    requires 0.0 <= current <= Cap && 0.0 <= random < 1.0
    ensures current <= next <= Cap
    ensures next == Cap || next == current + random * 8.0
  {
    if current + random * 8.0 >= Cap then Cap else current + random * 8.0
  }

  class AnalyzePage {
    var state: AnalysisState
    var file: Option<UploadedFile>
    var progress: real
    var analysisData: Option<JVal>
    var error: Option<string>
    /** The interval's running total (`currentProgress`) and whether the interval is still set. */
    var currentProgress: real
    var intervalRunning: bool
    /** Whether the 500 ms timer that shows the results is pending. */
    var resultsTimerPending: bool

    predicate Valid()
      reads this
    {
      0.0 <= currentProgress <= Cap
    }

    constructor()
      ensures Valid() && state == Upload && file.None? && progress == 0.0 && analysisData.None? && error.None?
      ensures !intervalRunning && !resultsTimerPending
    {
      state := Upload;
      file := None;
      progress := 0.0;
      analysisData := None;
      error := None;
      currentProgress := 0.0;
      intervalRunning := false;
      resultsTimerPending := false;
    }

    /** `handleFileUpload`, up to the request: the file is kept, the page is analysing from 0 and the interval starts. */
    method HandleFileUpload(f: UploadedFile)
      modifies this`file, this`state, this`progress, this`error, this`currentProgress, this`intervalRunning
      ensures Valid()
      ensures file == Some(f) && state == Analyzing && progress == 0.0 && error.None?
      ensures currentProgress == 0.0 && intervalRunning
    {
      file := Some(f);
      state := Analyzing;
      progress := 0.0;
      error := None;
      currentProgress := 0.0;
      intervalRunning := true;
    }

    /** The interval firing; `random` is `Math.random()`. Progress shown while waiting stays within 90 and never falls. */
    method Tick(random: real)
      requires Valid() && 0.0 <= random < 1.0
      modifies this`currentProgress, this`progress
      ensures Valid()
      ensures intervalRunning ==> currentProgress == Advance(old(currentProgress), random) && progress == currentProgress
      ensures intervalRunning ==> old(currentProgress) <= currentProgress <= Cap && progress <= Cap
      ensures !intervalRunning ==> currentProgress == old(currentProgress) && progress == old(progress)
    {
      if intervalRunning {
        currentProgress := Advance(currentProgress, random);
        progress := currentProgress;
      }
    }

    /** The request settles: the interval stops, then the analysis is kept at 100% with the results timer set, or the error is shown. */
    method HandleResponse(outcome: FetchOutcome, stringify: JVal -> string)
      modifies this`intervalRunning, this`progress, this`analysisData, this`resultsTimerPending, this`error, this`state
      ensures !intervalRunning
      ensures HandleOutcome(outcome, stringify).Analysis? ==>
                progress == 100.0 && analysisData == Some(HandleOutcome(outcome, stringify).analysis)
                && resultsTimerPending && state == old(state) && error == old(error)
      ensures HandleOutcome(outcome, stringify).Failure? ==>
                state == Error && error == Some(HandleOutcome(outcome, stringify).message)
                && progress == old(progress) && analysisData == old(analysisData) && resultsTimerPending == old(resultsTimerPending)
    {
      intervalRunning := false;
      match HandleOutcome(outcome, stringify)
      case Analysis(a) =>
        progress := 100.0;
        analysisData := Some(a);
        resultsTimerPending := true;
      case Failure(m) =>
        error := Some(m);
        state := Error;
    }

    /** The 500 ms timer after a success: the results are shown, whatever happened in between. */
    method ResultsTimer()
      modifies this`state, this`resultsTimerPending
      ensures old(resultsTimerPending) ==> state == Results && !resultsTimerPending
      ensures !old(resultsTimerPending) ==> state == old(state) && !resultsTimerPending
    {
      if resultsTimerPending {
        state := Results;
        resultsTimerPending := false;
      }
    }

    /** `handleReset`: back to the upload screen with nothing kept; it stops neither the interval nor the results timer. */
    method HandleReset()
      modifies this`state, this`file, this`progress, this`analysisData, this`error
      ensures state == Upload && file.None? && progress == 0.0 && analysisData.None? && error.None?
    {
      state := Upload;
      file := None;
      progress := 0.0;
      analysisData := None;
      error := None;
    }
  }

  /** A successful analysis ends on the results screen holding the analysis, at 100%. */
  method SuccessfulRun(f: UploadedFile, analysis: JVal, randoms: seq<real>, stringify: JVal -> string) returns (p: AnalyzePage)
    requires forall i :: 0 <= i < |randoms| ==> 0.0 <= randoms[i] < 1.0
    requires Truthy(analysis)
    ensures p.state == Results && p.analysisData == Some(analysis) && p.progress == 100.0 && p.error.None?
  {
    p := new AnalyzePage();
    p.HandleFileUpload(f);
    var i := 0;
    while i < |randoms|
      invariant 0 <= i <= |randoms|
      invariant p.Valid() && p.state == Analyzing && p.error.None? && p.intervalRunning && !p.resultsTimerPending
      invariant p.progress <= Cap
    {
      p.Tick(randoms[i]);
      i := i + 1;
    }
    var body := JObj(map["success" := JBool(true), "analysis" := analysis]);
    assert Prop(body, "success") == Some(JBool(true));
    assert Prop(body, "analysis") == Some(analysis);
    p.HandleResponse(Response(true, Parsed(body)), stringify);
    p.ResultsTimer();
  }

  /** A reset during the 500 ms before the results leaves the page on the results screen with no analysis. */
  method ResetBeforeResults(f: UploadedFile, analysis: JVal, stringify: JVal -> string) returns (p: AnalyzePage)
    requires Truthy(analysis)
    ensures p.state == Results && p.analysisData.None?
  {
    p := new AnalyzePage();
    p.HandleFileUpload(f);
    var body := JObj(map["success" := JBool(true), "analysis" := analysis]);
    assert Prop(body, "success") == Some(JBool(true));
    assert Prop(body, "analysis") == Some(analysis);
    p.HandleResponse(Response(true, Parsed(body)), stringify);
    p.HandleReset();
    p.ResultsTimer();
  }
}
