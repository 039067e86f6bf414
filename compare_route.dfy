/**
 * `POST /api/compare` (app/api/compare/route.ts): asks the model how one
 * traffic-law section applies in two states, strips a Markdown code fence from
 * the reply and returns the parsed JSON as it is.
 */
module CompareRoute {
  import opened Wrappers
  import opened JsStrings
  import opened Json
  import opened Http

  /**
   * The prompt interpolates `sectionLabel`, `state1` and `state2` into a fixed
   * template; the call records those three values (the template's wording is not
   * part of this model). `sectionLabel` may be absent (`undefined`).
   */
  datatype CompareCall = CompareCall(model: string, sectionLabel: Option<JVal>, state1: JVal, state2: JVal)

  datatype Outcome = Outcome(call: Option<CompareCall>, response: HttpResponse)

  const ModelName := "gemini-2.5-flash"
  const FailureMessage := "Failed to compare states. Please try again."

  /** Drops an opening fence: "```json", or else a bare "```". */
  function DropOpening(t: string): string {
    if StartsWith(t, "```json") then t[7..] else if StartsWith(t, "```") then t[3..] else t
  }

  /** Drops a closing fence "```". */
  function DropClosing(t: string): string {
    if EndsWith(t, "```") then t[..|t| - 3] else t
  }

  /** The reply with surrounding white space and one Markdown code fence removed. */
  function StripFences(text: string): (r: string)
    ensures |r| <= |text|
    ensures Trim(r) == r
  {
    var r := Trim(DropClosing(DropOpening(Trim(text))));
    TrimIdempotent(DropClosing(DropOpening(Trim(text))));
    r
  }

  /** The handler's own sequence of reassignments to `cleanedText`. */
  method CleanResponseText(text: string) returns (cleanedText: string)
    ensures cleanedText == StripFences(text)
  {
    cleanedText := Trim(text);
    ghost var trimmed := cleanedText;
    if StartsWith(cleanedText, "```json") {
      cleanedText := cleanedText[7..];
    } else if StartsWith(cleanedText, "```") {
      cleanedText := cleanedText[3..];
    }
    assert cleanedText == DropOpening(trimmed);
    ghost var unfenced := cleanedText;
    if EndsWith(cleanedText, "```") {
      cleanedText := cleanedText[..|cleanedText| - 3];
    }
    assert cleanedText == DropClosing(unfenced);
    cleanedText := Trim(cleanedText);
  }

  /** A reply fenced as a `json` code block yields its trimmed contents. */
  lemma StripJsonFence(x: string)
    ensures StripFences("```json" + x + "```") == Trim(x)
  {
    var s := "```json" + x + "```";
    TrimUnchanged(s);
    assert s[..7] == "```json";
    var unfenced := s[7..];
    assert unfenced == x + "```";
    assert DropOpening(s) == unfenced;
    assert unfenced[|unfenced| - 3..] == "```";
    assert DropClosing(unfenced) == x;
  }

  /** A reply fenced as an untagged code block yields its trimmed contents, less a leading `json` tag. */
  lemma StripBareFence(x: string)
    ensures StripFences("```" + x + "```") == Trim(if StartsWith(x, "json") then x[4..] else x)
  {
    if StartsWith(x, "json") {
      assert "```" + x + "```" == "```json" + x[4..] + "```" by {
        assert x == "json" + x[4..];
      }
      StripJsonFence(x[4..]);
    } else {
      StripUntagged(x);
    }
  }

  lemma StripUntagged(x: string)
    requires !StartsWith(x, "json")
    ensures StripFences("```" + x + "```") == Trim(x)
  {
    var s := "```" + x + "```";
    TrimUnchanged(s);
    assert s[..3] == "```";
    assert !StartsWith(s, "```json") by {
      if |x| >= 4 {
        assert s[..7][3..] == x[..4];
      } else if |x| > 0 {
        var k := 3 + |x|;
        assert s[..7][k] == '`' && "```json"[k] != '`';
      }
    }
    var unfenced := s[3..];
    assert unfenced == x + "```";
    assert DropOpening(s) == unfenced;
    assert unfenced[|unfenced| - 3..] == "```";
    assert DropClosing(unfenced) == x;
  }

  /** A reply without a fence at either end is only trimmed. */
  lemma StripUnfenced(text: string)
    requires !StartsWith(Trim(text), "```") && !EndsWith(Trim(text), "```")
    ensures StripFences(text) == Trim(text)
  {
    var t := Trim(text);
    assert DropOpening(t) == t;
    assert DropClosing(t) == t;
    TrimIdempotent(text);
  }

  /**
   * The handler, given the parsed request body (`None` when `request.json()`
   * rejects), the model's completion and `JSON.parse`.
   */
  function ComparePost(body: Option<JVal>, completion: Completion, parse: string -> Option<JVal>): (out: Outcome)
    // a body that is not JSON, or is `null` (which cannot be destructured), fails before any check
    ensures body.None? || body.value.JNull? ==> out == Outcome(None, ErrorResponse(500, FailureMessage))
    // 400 exactly when one of `section`, `state1`, `state2` is missing or falsy
    ensures out.response.status == 400 <==>
              body.Some? && !body.value.JNull? &&
              !(TruthyProp(Prop(body.value, "section")) && TruthyProp(Prop(body.value, "state1")) && TruthyProp(Prop(body.value, "state2")))
    // the model is asked only after the check, with the values the client sent
    ensures out.call.Some? <==> out.response.status != 400 && body.Some? && !body.value.JNull?
    ensures out.call.Some? ==> out.call.value == CompareCall(ModelName, Prop(body.value, "sectionLabel"),
                                                             Prop(body.value, "state1").value, Prop(body.value, "state2").value)
    // success returns the parsed reply unchanged
    ensures out.response.status == 200 <==> out.call.Some? && completion.Reply? && parse(StripFences(completion.text)).Some?
    ensures out.response.status == 200 ==> out.response.body == parse(StripFences(completion.text)).value
    ensures out.response.status in {200, 400, 500}
  {
    if body.None? || body.value.JNull? then Outcome(None, ErrorResponse(500, FailureMessage))
    else
      var b := body.value;
      var section, state1, state2 := Prop(b, "section"), Prop(b, "state1"), Prop(b, "state2");
      if !TruthyProp(section) || !TruthyProp(state1) || !TruthyProp(state2) then
        Outcome(None, ErrorResponse(400, "Missing required fields"))
      else
        var call := CompareCall(ModelName, Prop(b, "sectionLabel"), state1.value, state2.value);
        var response :=
          if completion.Failed? then ErrorResponse(500, FailureMessage)
          else
            var parsed := parse(StripFences(completion.text));
            if parsed.None? then ErrorResponse(500, FailureMessage) else HttpResponse(200, parsed.value);
        Outcome(Some(call), response)
  }
}
