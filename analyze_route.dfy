/**
 * `POST /api/analyze` (app/api/analyze/route.ts): takes an uploaded document
 * from a multipart form, asks the model for a JSON analysis, extracts the
 * outermost brace-delimited span of the reply, parses it and fills every
 * missing field from a default analysis.
 */
module AnalyzeRoute {
  import opened Wrappers
  import opened Seqs
  import opened Json
  import opened Types
  import opened Http

  /** A value of the form field `file`. */
  datatype FormEntry =
    | FileEntry(fileType: string, bytes: seq<bv8>)   // a `File`; always truthy, even when empty
    | TextEntry(text: string)                      // a plain string field

  /** The request body: a readable form (with or without a `file` field), or one `formData()` rejects. */
  datatype Request =
    | Form(file: Option<FormEntry>)
    | Unreadable(message: string)

  /** The request the handler sends to the model: one user turn holding the document and the prompt. */
  datatype ModelCall = ModelCall(model: string, mimeType: string, data: seq<bv8>, prompt: string)

  /** What the handler did: the model call it made, if any, and its response. */
  datatype Outcome = Outcome(call: Option<ModelCall>, response: HttpResponse)

  const ModelName := "gemini-2.5-flash"
  const DefaultMimeType := "application/pdf"

  /** The instruction sent beside the document (its full wording is not part of this model). */
  const AnalysisPrompt := "You are an expert legal document analyzer specializing in Indian law."

  /** What V8 throws when a string form value is used as a file. */
  const NotAFileMessage := "file.arrayBuffer is not a function"

  // ---- the brace span `/\{[\s\S]*\}/` ----

  function IsOpen(c: char): bool { c == '{' }

  /** The index of the last occurrence of `c` in `s`. */
  function LastIndex(s: string, c: char): (r: Option<nat>)
    ensures r.Some? ==> r.value < |s| && s[r.value] == c && forall j :: r.value < j < |s| ==> s[j] != c
    ensures r.None? ==> forall j :: 0 <= j < |s| ==> s[j] != c
  {
    if s == [] then None
    else if s[|s| - 1] == c then Some(|s| - 1)
    else LastIndex(s[..|s| - 1], c)
  }

  /**
   * Where the greedy pattern `\{[\s\S]*\}` matches: from the first `{` to the
   * last `}`, provided that `}` comes after that `{`.
   */
  function BraceBounds(s: string): (r: Option<(nat, nat)>)
    ensures r.None? <==> !exists i, j :: 0 <= i < j < |s| && s[i] == '{' && s[j] == '}'
    ensures r.Some? ==> r.value.0 < r.value.1 < |s| && s[r.value.0] == '{' && s[r.value.1] == '}'
    ensures r.Some? ==> forall k :: 0 <= k < r.value.0 ==> s[k] != '{'
    ensures r.Some? ==> forall k :: r.value.1 < k < |s| ==> s[k] != '}'
  {
    var open := FirstIndex(s, IsOpen);
    var close := LastIndex(s, '}');
    if open.Some? && close.Some? && open.value < close.value then Some((open.value, close.value))
    else None
  }

  /** The matched text itself: `jsonMatch[0]`. */
  function BraceSpan(s: string): (r: Option<string>)
    ensures r.Some? <==> BraceBounds(s).Some?
    ensures r.Some? ==> r.value == s[BraceBounds(s).value.0..BraceBounds(s).value.1 + 1]
    ensures r.Some? ==> |r.value| >= 2 && r.value[0] == '{' && r.value[|r.value| - 1] == '}'
  {
    match BraceBounds(s)
    case None => None
    case Some((i, j)) => Some(s[i..j + 1])
  }

  /**
   * A reply holding one object, with no `{` before it and no `}` after it (a
   * fenced code block, say), yields exactly that object.
   */
  lemma BraceSpanOfWrapped(pre: string, body: string, post: string)
    requires |body| >= 2 && body[0] == '{' && body[|body| - 1] == '}'
    requires forall k :: 0 <= k < |pre| ==> pre[k] != '{'
    requires forall k :: 0 <= k < |post| ==> post[k] != '}'
    ensures BraceSpan(pre + body + post) == Some(body)
  {
    var s := pre + body + post;
    var i, j := |pre|, |pre| + |body| - 1;
    assert s[i] == '{' && s[j] == '}';
    var b := BraceBounds(s);
    assert b.Some?;
    assert forall k :: 0 <= k < i ==> s[k] == pre[k];
    assert forall k :: j < k < |s| ==> s[k] == post[k - |pre| - |body|];
    assert b.value == (i, j);
    assert s[i..j + 1] == body;
  }

  // ---- defaults and merge ----

  /** The extracted details every response carries unless the model supplies its own. */
  const DefaultDetails: map<string, string> :=
    map["caseNumber" := "Not found", "date" := "Not specified", "jurisdiction" := "Not specified"]

  const DefaultQuestions: seq<string> := [
    "What should I do next?",
    "Is there a deadline I should be aware of?",
    "What are my rights in this situation?"]

  /** The default analysis as a typed record. */
  const DefaultDocument := DocumentAnalysis(
    "Legal Document", "Not specified", Medium, 50.0,
    "Document analyzed. Please review the details below.",
    [], DefaultDetails, [], [], [], DefaultQuestions)

  /** The default analysis object (route.ts writes it out field by field, with an empty `ipcSections`). */
  function DefaultAnalysis(): (d: map<string, JVal>)
    ensures HasAnalysisFields(d) && "ipcSections" in d
  {
    map[
      "documentType" := JStr("Legal Document"),
      "state" := JStr("Not specified"),
      "riskLevel" := JStr("medium"),
      "riskScore" := JNum(50.0),
      "verdict" := JStr("Document analyzed. Please review the details below."),
      "sections" := JArr([]),
      "ipcSections" := JArr([]),
      "extractedDetails" := JObj(map[
        "caseNumber" := JStr("Not found"),
        "date" := JStr("Not specified"),
        "jurisdiction" := JStr("Not specified")]),
      "missingInfo" := JArr([]),
      "timeline" := JArr([]),
      "nextSteps" := JArr([]),
      "suggestedQuestions" := JArr([
        JStr("What should I do next?"),
        JStr("Is there a deadline I should be aware of?"),
        JStr("What are my rights in this situation?")])]
  }

  /** The object the model's details spread into the defaults: `analysis.extractedDetails || {}`. */
  function ParsedDetails(parsed: map<string, JVal>): map<string, JVal> {
    if "extractedDetails" in parsed && Truthy(parsed["extractedDetails"]) then Spread(parsed["extractedDetails"])
    else map[]
  }

  /**
   * `{...defaultAnalysis, ...analysis, extractedDetails: {...defaults, ...details},
   *   ipcSections: analysis.ipcSections || []}`.
   */
  function Merge(parsed: map<string, JVal>): (m: map<string, JVal>)
    ensures HasAnalysisFields(m) && "ipcSections" in m
    ensures m["extractedDetails"] == JObj(Overlay(EncodeDetails(DefaultDetails), ParsedDetails(parsed)))
    ensures m["ipcSections"] == if "ipcSections" in parsed && Truthy(parsed["ipcSections"]) then parsed["ipcSections"] else JArr([])
  {
    var details := Overlay(EncodeDetails(DefaultDetails), ParsedDetails(parsed));
    var ipc := if "ipcSections" in parsed && Truthy(parsed["ipcSections"]) then parsed["ipcSections"] else JArr([]);
    var d := DefaultAnalysis();
    assert "extractedDetails" in d && "ipcSections" in d;
    Overlay(d, parsed)["extractedDetails" := JObj(details)]["ipcSections" := ipc]
  }

  /** The merged object has exactly the default properties and the model's. */
  lemma MergeKeys(parsed: map<string, JVal>)
    ensures Merge(parsed).Keys == DefaultAnalysis().Keys + parsed.Keys
  {
  }

  /** The model's fields win over the defaults. */
  lemma MergePrecedence(parsed: map<string, JVal>, k: string)
    requires k != "extractedDetails" && k != "ipcSections"
    ensures k in parsed ==> Merge(parsed)[k] == parsed[k]
  {
  }

  /** A default survives wherever the model is silent. */
  lemma MergeDefaultSurvives(parsed: map<string, JVal>, k: string)
    requires k != "extractedDetails" && k != "ipcSections"
    ensures k in DefaultAnalysis() && k !in parsed ==> Merge(parsed)[k] == DefaultAnalysis()[k]
  {
  }

  /** Outside `extractedDetails` (and `ipcSections`), a reply that has every analysis field passes through unchanged. */
  lemma MergeKeepsFields(parsed: map<string, JVal>)
    requires HasAnalysisFields(parsed)
    ensures SameAnalysisFieldsButDetails(Merge(parsed), parsed)
  {
    MergePrecedence(parsed, "documentType");
    MergePrecedence(parsed, "state");
    MergePrecedence(parsed, "riskLevel");
    MergePrecedence(parsed, "riskScore");
    MergePrecedence(parsed, "verdict");
    MergePrecedence(parsed, "sections");
    MergePrecedence(parsed, "missingInfo");
    MergePrecedence(parsed, "timeline");
    MergePrecedence(parsed, "nextSteps");
    MergePrecedence(parsed, "suggestedQuestions");
  }

  /** A reply with no fields at all is read as the default document analysis. */
  lemma MergeEmpty()
    ensures DecodeAnalysis(Merge(map[])) == Some(DefaultDocument)
  {
    var m := Merge(map[]);
    var e := EncodeAnalysis(DefaultDocument);
    DefaultsArePassedThrough();
    DefaultIsEncodedDefault();
    EmptyDetails();
    AnalysisRoundTrip(DefaultDocument);
    DecodeIgnoresExtraFields(e, m);
  }

  /** The default object holds the default document analysis. */
  lemma DefaultIsEncodedDefault()
    ensures SameAnalysisFieldsButDetails(DefaultAnalysis(), EncodeAnalysis(DefaultDocument))
  {
    EncodeAnalysisFields(DefaultDocument);
  }

  lemma EmptyDetails()
    ensures Merge(map[])["extractedDetails"] == EncodeAnalysis(DefaultDocument)["extractedDetails"]
  {
    EncodeAnalysisFields(DefaultDocument);
    OverlayNothing(EncodeDetails(DefaultDetails));
  }

  lemma OverlayNothing(a: map<string, JVal>)
    ensures Overlay(a, map[]) == a
  {
  }

  /** With nothing from the model, the merged object is the default object. */
  lemma DefaultsArePassedThrough()
    ensures SameAnalysisFieldsButDetails(Merge(map[]), DefaultAnalysis())
  {
    var d := DefaultAnalysis();
    MergeDefaultSurvives(map[], "documentType");
    MergeDefaultSurvives(map[], "state");
    MergeDefaultSurvives(map[], "riskLevel");
    MergeDefaultSurvives(map[], "riskScore");
    MergeDefaultSurvives(map[], "verdict");
    MergeDefaultSurvives(map[], "sections");
    MergeDefaultSurvives(map[], "missingInfo");
    MergeDefaultSurvives(map[], "timeline");
    MergeDefaultSurvives(map[], "nextSteps");
    MergeDefaultSurvives(map[], "suggestedQuestions");
  }

  /**
   * A reply that is a complete, well-typed analysis comes back unchanged except
   * that its extracted details are laid over the default details.
   */
  lemma MergeEncoded(a: DocumentAnalysis)
    ensures DecodeAnalysis(Merge(EncodeAnalysis(a))) == Some(a.(extractedDetails := DefaultDetails + a.extractedDetails))
  {
    var o := EncodeAnalysis(a);
    var m := Merge(o);
    var a' := a.(extractedDetails := DefaultDetails + a.extractedDetails);
    var e := EncodeAnalysis(a');
    EncodeAnalysisFields(a);
    EncodeAnalysisFields(a');
    MergeKeepsFields(o);
    assert SameAnalysisFieldsButDetails(o, e);
    MergedDetails(a);
    AnalysisRoundTrip(a');
    DecodeIgnoresExtraFields(e, m);
  }

  lemma MergedDetails(a: DocumentAnalysis)
    ensures Merge(EncodeAnalysis(a))["extractedDetails"] == JObj(EncodeDetails(DefaultDetails + a.extractedDetails))
  {
    var o := EncodeAnalysis(a);
    EncodeAnalysisFields(a);
    assert ParsedDetails(o) == EncodeDetails(a.extractedDetails);
    OverlayEncoded(DefaultDetails, a.extractedDetails);
  }

  /** Laying encoded details over encoded details encodes the combined details. */
  lemma OverlayEncoded(d: ExtractedDetails, e: ExtractedDetails)
    ensures Overlay(EncodeDetails(d), EncodeDetails(e)) == EncodeDetails(d + e)
  {
    var l := Overlay(EncodeDetails(d), EncodeDetails(e));
    var r := EncodeDetails(d + e);
    assert l.Keys == r.Keys;
    forall k | k in l
      ensures l[k] == r[k]
    {
      if k in e {
        assert l[k] == JStr(e[k]);
      } else {
        assert l[k] == JStr(d[k]);
      }
    }
  }

  /** Decoding looks only at the eleven analysis fields. */
  lemma DecodeIgnoresExtraFields(e: map<string, JVal>, m: map<string, JVal>)
    requires SameAnalysisFieldsButDetails(m, e) && AgreeOn(m, e, "extractedDetails")
    ensures DecodeAnalysis(m) == DecodeAnalysis(e)
  {
  }

  // ---- the handler ----

  /**
   * The handler, given the request, the model's completion and `JSON.parse`
   * (which on a text that starts with `{` yields an object or fails).
   */
  function AnalyzePost(req: Request, completion: Completion, parse: string -> Option<map<string, JVal>>): (out: Outcome)
    // the model is asked only about an uploaded file, and is sent its bytes, with its type or PDF
    ensures out.call.Some? <==> req.Form? && req.file.Some? && req.file.value.FileEntry?
    ensures out.call.Some? ==> out.call.value.model == ModelName && out.call.value.data == req.file.value.bytes
    ensures out.call.Some? ==> out.call.value.mimeType == (if req.file.value.fileType == "" then DefaultMimeType else req.file.value.fileType)
    // 400 exactly when the field is missing or an empty string
    ensures out.response.status == 400 <==> req.Form? && (req.file.None? || req.file.value == TextEntry(""))
    // success exactly when the model was asked and its reply holds a brace span that parses
    ensures out.response.status == 200 <==> out.call.Some? && Succeeds(completion, parse)
    ensures out.call.Some? ==> out.response == Respond(completion, parse)
    ensures out.response.status in {200, 400, 500}
    // the error bodies of the paths that never reach the model
    ensures out.response.status == 400 ==> Prop(out.response.body, "error") == Some(JStr("No file provided"))
    ensures req.Unreadable? ==> out.response.status == 500 && Prop(out.response.body, "error") == Some(JStr(req.message))
    ensures req.Form? && req.file.Some? && req.file.value.TextEntry? && req.file.value.text != "" ==>
              out.response.status == 500 && Prop(out.response.body, "error") == Some(JStr(NotAFileMessage))
  {
    match req
    case Unreadable(message) => Outcome(None, ErrorResponse(500, message))
    case Form(None) => Outcome(None, ErrorResponse(400, "No file provided"))
    case Form(Some(TextEntry(text))) =>
      if text == "" then Outcome(None, ErrorResponse(400, "No file provided"))
      else Outcome(None, ErrorResponse(500, NotAFileMessage))
    case Form(Some(FileEntry(fileType, bytes))) =>
      var mime := if fileType != "" then fileType else DefaultMimeType;
      var call := ModelCall(ModelName, mime, bytes, AnalysisPrompt);
      Outcome(Some(call), Respond(completion, parse))
  }

  /** The reply holds a brace span and that span parses. */
  predicate Succeeds(completion: Completion, parse: string -> Option<map<string, JVal>>) {
    completion.Reply? && BraceSpan(completion.text).Some? && parse(BraceSpan(completion.text).value).Some?
  }

  /** Everything after the model call. */
  function Respond(completion: Completion, parse: string -> Option<map<string, JVal>>): (r: HttpResponse)
    ensures r.status == 200 <==> Succeeds(completion, parse)
    ensures r.status != 200 ==> r.status == 500
    // a failed parse echoes the raw reply
    ensures completion.Reply? && !Succeeds(completion, parse) ==> Prop(r.body, "rawResponse") == Some(JStr(completion.text))
    // on success every analysis field is present
    ensures r.status == 200 ==>
              var analysis := Prop(r.body, "analysis");
              Prop(r.body, "success") == Some(JBool(true)) && analysis.Some? && analysis.value.JObj?
              && HasAnalysisFields(analysis.value.fields) && "ipcSections" in analysis.value.fields
    // the analysis sent back is the parsed reply merged over the defaults
    ensures Succeeds(completion, parse) ==> r == Success(Merge(parse(BraceSpan(completion.text).value).value))
    // a thrown error is reported with its own message, or "Analysis failed" when it has none
    ensures completion.Failed? ==> Prop(r.body, "error") == Some(JStr(completion.message.GetOr("Analysis failed")))
  {
    match completion
    case Failed(Some(message)) => ErrorResponse(500, message)
    case Failed(None) => ErrorResponse(500, "Analysis failed")
    case Reply(text) =>
      var span := BraceSpan(text);
      if span.None? || parse(span.value).None? then ParseFailure(text)
      else Success(Merge(parse(span.value).value))
  }

  /** `{ error: "Failed to parse analysis", rawResponse }` with status 500. */
  function ParseFailure(text: string): (r: HttpResponse)
    ensures r.status == 500 && Prop(r.body, "rawResponse") == Some(JStr(text))
    ensures Prop(r.body, "error") == Some(JStr("Failed to parse analysis"))
  {
    HttpResponse(500, JObj(map["error" := JStr("Failed to parse analysis"), "rawResponse" := JStr(text)]))
  }

  /** `{ success: true, analysis }` with the default status 200. */
  function Success(analysis: map<string, JVal>): (r: HttpResponse)
    ensures r.status == 200
    ensures Prop(r.body, "success") == Some(JBool(true)) && Prop(r.body, "analysis") == Some(JObj(analysis))
  {
    HttpResponse(200, JObj(map["success" := JBool(true), "analysis" := JObj(analysis)]))
  }
}
