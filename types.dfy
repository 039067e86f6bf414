/**
 * The shared record shapes of the application (lib/types.ts): the document
 * analysis the analyse route returns and the pieces the result components
 * display, with their JSON encoding and the decoding that checks a parsed
 * value against the declared shape.
 */
module Types {
  import opened Wrappers
  import opened Json

  /** `"low" | "medium" | "high"`, used for section risk, overall risk and step priority. */
  datatype Level = Low | Medium | High

  function LevelName(l: Level): (s: string)
    ensures s in {"low", "medium", "high"}
  {
    match l
    case Low => "low"
    case Medium => "medium"
    case High => "high"
  }

  function ParseLevel(s: string): (r: Option<Level>)
    ensures r.Some? <==> s in {"low", "medium", "high"}
    ensures r.Some? ==> LevelName(r.value) == s
  {
    if s == "low" then Some(Low)
    else if s == "medium" then Some(Medium)
    else if s == "high" then Some(High)
    else None
  }

  lemma ParseLevelName(l: Level)
    ensures ParseLevel(LevelName(l)) == Some(l)
  {
  }

  datatype LegalSection = LegalSection(
    id: string, title: string, risk: Level, legalText: string,
    plainText: string, penalty: string, stateNote: string)

  datatype TimelineStep = TimelineStep(title: string, description: string, deadline: Option<string>)

  datatype NextStep = NextStep(title: string, description: string, priority: Level, deadline: Option<string>)

  /** Extracted details: the named entries and any other string-valued key. */
  type ExtractedDetails = map<string, string>

  datatype DocumentAnalysis = DocumentAnalysis(
    documentType: string,
    state: string,
    riskLevel: Level,
    riskScore: real,
    verdict: string,
    sections: seq<LegalSection>,
    extractedDetails: ExtractedDetails,
    missingInfo: seq<string>,
    timeline: seq<TimelineStep>,
    nextSteps: seq<NextStep>,
    suggestedQuestions: seq<string>)

  /** Every one of the eleven properties is present. */
  predicate HasAnalysisFields(o: map<string, JVal>) {
    && "documentType" in o && "state" in o && "riskLevel" in o && "riskScore" in o
    && "verdict" in o && "sections" in o && "extractedDetails" in o && "missingInfo" in o
    && "timeline" in o && "nextSteps" in o && "suggestedQuestions" in o
  }

  /** Property `k` is present in both objects, with the same value. */
  predicate AgreeOn(m: map<string, JVal>, e: map<string, JVal>, k: string) {
    k in m && k in e && m[k] == e[k]
  }

  /** Two objects agree on the ten analysis properties other than `extractedDetails`. */
  predicate SameAnalysisFieldsButDetails(m: map<string, JVal>, e: map<string, JVal>) {
    && AgreeOn(m, e, "documentType") && AgreeOn(m, e, "state") && AgreeOn(m, e, "riskLevel")
    && AgreeOn(m, e, "riskScore") && AgreeOn(m, e, "verdict") && AgreeOn(m, e, "sections")
    && AgreeOn(m, e, "missingInfo") && AgreeOn(m, e, "timeline") && AgreeOn(m, e, "nextSteps")
    && AgreeOn(m, e, "suggestedQuestions")
  }

  // ---- encoding ----

  function EncodeList<T>(xs: seq<T>, enc: T -> JVal): (r: seq<JVal>)
    ensures |r| == |xs| && forall i :: 0 <= i < |xs| ==> r[i] == enc(xs[i])
  {
    seq(|xs|, i requires 0 <= i < |xs| => enc(xs[i]))
  }

  function EncodeString(s: string): JVal { JStr(s) }

  function EncodeDeadline(fields: map<string, JVal>, deadline: Option<string>): map<string, JVal> {
    if deadline.Some? then fields["deadline" := JStr(deadline.value)] else fields
  }

  function EncodeSection(s: LegalSection): JVal {
    JObj(map["id" := JStr(s.id), "title" := JStr(s.title), "risk" := JStr(LevelName(s.risk)),
             "legalText" := JStr(s.legalText), "plainText" := JStr(s.plainText),
             "penalty" := JStr(s.penalty), "stateNote" := JStr(s.stateNote)])
  }

  function EncodeTimelineStep(t: TimelineStep): JVal {
    JObj(EncodeDeadline(map["title" := JStr(t.title), "description" := JStr(t.description)], t.deadline))
  }

  function EncodeNextStep(n: NextStep): JVal {
    JObj(EncodeDeadline(map["title" := JStr(n.title), "description" := JStr(n.description),
                            "priority" := JStr(LevelName(n.priority))], n.deadline))
  }

  function EncodeDetails(d: ExtractedDetails): (r: map<string, JVal>)
    ensures r.Keys == d.Keys && forall k :: k in d ==> r[k] == JStr(d[k])
  {
    map k | k in d :: JStr(d[k])
  }

  /** The JSON object a document analysis is written as. */
  function EncodeAnalysis(a: DocumentAnalysis): (r: map<string, JVal>)
    ensures HasAnalysisFields(r)
  {
    map[
      "documentType" := JStr(a.documentType),
      "state" := JStr(a.state),
      "riskLevel" := JStr(LevelName(a.riskLevel)),
      "riskScore" := JNum(a.riskScore),
      "verdict" := JStr(a.verdict),
      "sections" := JArr(EncodeList(a.sections, EncodeSection)),
      "extractedDetails" := JObj(EncodeDetails(a.extractedDetails)),
      "missingInfo" := JArr(EncodeList(a.missingInfo, EncodeString)),
      "timeline" := JArr(EncodeList(a.timeline, EncodeTimelineStep)),
      "nextSteps" := JArr(EncodeList(a.nextSteps, EncodeNextStep)),
      "suggestedQuestions" := JArr(EncodeList(a.suggestedQuestions, EncodeString))]
  }

  /** What each of the eleven properties holds. */
  lemma EncodeAnalysisFields(a: DocumentAnalysis)
    ensures var r := EncodeAnalysis(a);
      && r["documentType"] == JStr(a.documentType) && r["state"] == JStr(a.state)
      && r["riskLevel"] == JStr(LevelName(a.riskLevel)) && r["riskScore"] == JNum(a.riskScore)
      && r["verdict"] == JStr(a.verdict)
      && r["sections"] == JArr(EncodeList(a.sections, EncodeSection))
      && r["extractedDetails"] == JObj(EncodeDetails(a.extractedDetails))
      && r["missingInfo"] == JArr(EncodeList(a.missingInfo, EncodeString))
      && r["timeline"] == JArr(EncodeList(a.timeline, EncodeTimelineStep))
      && r["nextSteps"] == JArr(EncodeList(a.nextSteps, EncodeNextStep))
      && r["suggestedQuestions"] == JArr(EncodeList(a.suggestedQuestions, EncodeString))
  {
  }

  // ---- decoding ----

  function StrAt(o: map<string, JVal>, k: string): (r: Option<string>)
    ensures r.Some? <==> k in o && o[k].JStr?
    ensures r.Some? ==> o[k] == JStr(r.value)
  {
    if k in o && o[k].JStr? then Some(o[k].s) else None
  }

  function LevelAt(o: map<string, JVal>, k: string): (r: Option<Level>)
    ensures r.Some? ==> k in o && o[k] == JStr(LevelName(r.value))
  {
    var s := StrAt(o, k);
    if s.Some? then ParseLevel(s.value) else None
  }

  /** A list whose every element decodes, with the decoded elements in order. */
  function DecodeList<T>(items: seq<JVal>, dec: JVal -> Option<T>): (r: Option<seq<T>>)
    ensures r.Some? <==> forall i :: 0 <= i < |items| ==> dec(items[i]).Some?
    ensures r.Some? ==> |r.value| == |items| && forall i :: 0 <= i < |items| ==> Some(r.value[i]) == dec(items[i])
  {
    if items == [] then Some([])
    else
      var head := dec(items[0]);
      var tail := DecodeList(items[1..], dec);
      if head.Some? && tail.Some? then Some([head.value] + tail.value)
      else
        assert head.None? ==> !dec(items[0]).Some?;
        assert tail.None? ==> exists i :: 1 <= i < |items| && !dec(items[i]).Some? by {
          if tail.None? {
            var j :| 0 <= j < |items[1..]| && !dec(items[1..][j]).Some?;
            assert items[1..][j] == items[j + 1];
          }
        }
        None
  }

  function DecodeString(v: JVal): Option<string> {
    if v.JStr? then Some(v.s) else None
  }

  /** An absent deadline is `None`; a present one must be a string. */
  function DecodeDeadline(o: map<string, JVal>): Option<Option<string>> {
    if "deadline" !in o then Some(None)
    else if o["deadline"].JStr? then Some(Some(o["deadline"].s))
    else None
  }

  function DecodeSection(v: JVal): Option<LegalSection> {
    if !v.JObj? then None
    else
      var o := v.fields;
      var id, title, risk := StrAt(o, "id"), StrAt(o, "title"), LevelAt(o, "risk");
      var legal, plain := StrAt(o, "legalText"), StrAt(o, "plainText");
      var penalty, note := StrAt(o, "penalty"), StrAt(o, "stateNote");
      if id.Some? && title.Some? && risk.Some? && legal.Some? && plain.Some? && penalty.Some? && note.Some?
      then Some(LegalSection(id.value, title.value, risk.value, legal.value, plain.value, penalty.value, note.value))
      else None
  }

  function DecodeTimelineStep(v: JVal): Option<TimelineStep> {
    if !v.JObj? then None
    else
      var o := v.fields;
      var title, description, deadline := StrAt(o, "title"), StrAt(o, "description"), DecodeDeadline(o);
      if title.Some? && description.Some? && deadline.Some?
      then Some(TimelineStep(title.value, description.value, deadline.value))
      else None
  }

  function DecodeNextStep(v: JVal): Option<NextStep> {
    if !v.JObj? then None
    else
      var o := v.fields;
      var title, description := StrAt(o, "title"), StrAt(o, "description");
      var priority, deadline := LevelAt(o, "priority"), DecodeDeadline(o);
      if title.Some? && description.Some? && priority.Some? && deadline.Some?
      then Some(NextStep(title.value, description.value, priority.value, deadline.value))
      else None
  }

  /** Extracted details decode when every value is a string. */
  function DecodeDetails(v: JVal): (r: Option<ExtractedDetails>)
    ensures r.Some? <==> v.JObj? && forall k :: k in v.fields ==> v.fields[k].JStr?
    ensures r.Some? ==> r.value.Keys == v.fields.Keys
  {
    if v.JObj? && forall k :: k in v.fields ==> v.fields[k].JStr?
    then Some(map k | k in v.fields :: v.fields[k].s)
    else None
  }

  /** The list held by property `k`, when it is an array whose every element decodes. */
  function ListAt<T>(o: map<string, JVal>, k: string, dec: JVal -> Option<T>): (r: Option<seq<T>>)
    ensures r.Some? ==> k in o && o[k].JArr? && |r.value| == |o[k].items|
  {
    if k in o && o[k].JArr? then DecodeList(o[k].items, dec) else None
  }

  /**
   * Reads a parsed object as a document analysis: `None` unless all eleven
   * properties are present with the declared types. Other properties are ignored.
   */
  function DecodeAnalysis(o: map<string, JVal>): (r: Option<DocumentAnalysis>)
    ensures r.Some? ==> HasAnalysisFields(o)
  {
    var documentType, state, riskLevel := StrAt(o, "documentType"), StrAt(o, "state"), LevelAt(o, "riskLevel");
    var verdict := StrAt(o, "verdict");
    var sections := ListAt(o, "sections", DecodeSection);
    var details := if "extractedDetails" in o then DecodeDetails(o["extractedDetails"]) else None;
    var missing := ListAt(o, "missingInfo", DecodeString);
    var timeline := ListAt(o, "timeline", DecodeTimelineStep);
    var steps := ListAt(o, "nextSteps", DecodeNextStep);
    var questions := ListAt(o, "suggestedQuestions", DecodeString);
    if documentType.Some? && state.Some? && riskLevel.Some? && "riskScore" in o && o["riskScore"].JNum?
       && verdict.Some? && sections.Some? && details.Some? && missing.Some? && timeline.Some?
       && steps.Some? && questions.Some?
    then Some(DocumentAnalysis(documentType.value, state.value, riskLevel.value, o["riskScore"].n,
                               verdict.value, sections.value, details.value, missing.value,
                               timeline.value, steps.value, questions.value))
    else None
  }

  // ---- round trips ----

  lemma {:induction false} ListRoundTrip<T>(xs: seq<T>, enc: T -> JVal, dec: JVal -> Option<T>)
    requires forall i :: 0 <= i < |xs| ==> dec(enc(xs[i])) == Some(xs[i])
    ensures DecodeList(EncodeList(xs, enc), dec) == Some(xs)
  {
    var items := EncodeList(xs, enc);
    var r := DecodeList(items, dec);
    assert forall i :: 0 <= i < |items| ==> dec(items[i]).Some?;
    assert |r.value| == |xs|;
    forall i | 0 <= i < |xs| ensures r.value[i] == xs[i] {
      assert Some(r.value[i]) == dec(items[i]) == Some(xs[i]);
    }
    assert r.value == xs;
  }

  lemma SectionRoundTrip(s: LegalSection)
    ensures DecodeSection(EncodeSection(s)) == Some(s)
  {
    ParseLevelName(s.risk);
  }

  lemma TimelineStepRoundTrip(t: TimelineStep)
    ensures DecodeTimelineStep(EncodeTimelineStep(t)) == Some(t)
  {
  }

  lemma NextStepRoundTrip(n: NextStep)
    ensures DecodeNextStep(EncodeNextStep(n)) == Some(n)
  {
    ParseLevelName(n.priority);
  }

  /** Writing a document analysis as JSON and reading it back gives the same analysis. */
  lemma AnalysisRoundTrip(a: DocumentAnalysis)
    ensures DecodeAnalysis(EncodeAnalysis(a)) == Some(a)
  {
    var o := EncodeAnalysis(a);
    EncodeAnalysisFields(a);
    ParseLevelName(a.riskLevel);
    SectionsRoundTrip(a.sections);
    TimelineRoundTrip(a.timeline);
    NextStepsRoundTrip(a.nextSteps);
    ListRoundTrip(a.missingInfo, EncodeString, DecodeString);
    ListRoundTrip(a.suggestedQuestions, EncodeString, DecodeString);
    DetailsRoundTrip(a.extractedDetails);
    DecodeFromFields(o, a);
  }

  lemma SectionsRoundTrip(xs: seq<LegalSection>)
    ensures DecodeList(EncodeList(xs, EncodeSection), DecodeSection) == Some(xs)
  {
    forall i | 0 <= i < |xs| ensures DecodeSection(EncodeSection(xs[i])) == Some(xs[i]) {
      SectionRoundTrip(xs[i]);
    }
    ListRoundTrip(xs, EncodeSection, DecodeSection);
  }

  lemma TimelineRoundTrip(xs: seq<TimelineStep>)
    ensures DecodeList(EncodeList(xs, EncodeTimelineStep), DecodeTimelineStep) == Some(xs)
  {
    forall i | 0 <= i < |xs| ensures DecodeTimelineStep(EncodeTimelineStep(xs[i])) == Some(xs[i]) {
      TimelineStepRoundTrip(xs[i]);
    }
    ListRoundTrip(xs, EncodeTimelineStep, DecodeTimelineStep);
  }

  lemma NextStepsRoundTrip(xs: seq<NextStep>)
    ensures DecodeList(EncodeList(xs, EncodeNextStep), DecodeNextStep) == Some(xs)
  {
    forall i | 0 <= i < |xs| ensures DecodeNextStep(EncodeNextStep(xs[i])) == Some(xs[i]) {
      NextStepRoundTrip(xs[i]);
    }
    ListRoundTrip(xs, EncodeNextStep, DecodeNextStep);
  }

  lemma DetailsRoundTrip(d: ExtractedDetails)
    ensures DecodeDetails(JObj(EncodeDetails(d))) == Some(d)
  {
    var v := JObj(EncodeDetails(d));
    assert forall k :: k in v.fields ==> v.fields[k].JStr?;
    var r := DecodeDetails(v);
    assert r.Some? && r.value.Keys == d.Keys;
    assert forall k :: k in d ==> r.value[k] == d[k];
    assert r.value == d;
  }

  lemma DecodeFromFields(o: map<string, JVal>, a: DocumentAnalysis)
    requires StrAt(o, "documentType") == Some(a.documentType) && StrAt(o, "state") == Some(a.state)
    requires LevelAt(o, "riskLevel") == Some(a.riskLevel) && "riskScore" in o && o["riskScore"] == JNum(a.riskScore)
    requires StrAt(o, "verdict") == Some(a.verdict)
    requires ListAt(o, "sections", DecodeSection) == Some(a.sections)
    requires "extractedDetails" in o && DecodeDetails(o["extractedDetails"]) == Some(a.extractedDetails)
    requires ListAt(o, "missingInfo", DecodeString) == Some(a.missingInfo)
    requires ListAt(o, "timeline", DecodeTimelineStep) == Some(a.timeline)
    requires ListAt(o, "nextSteps", DecodeNextStep) == Some(a.nextSteps)
    requires ListAt(o, "suggestedQuestions", DecodeString) == Some(a.suggestedQuestions)
    ensures DecodeAnalysis(o) == Some(a)
  {
  }

}
