/**
 * The state comparison page (app/compare/page.tsx): pick a Motor Vehicles
 * Act section and two different states, ask the compare endpoint, and show
 * the two penalty cards with `**bold**` markup rendered.
 */
module ComparePage {
  import opened Wrappers
  import opened Seqs
  import opened JsStrings
  import opened Json
  import AnalyzePage

  /* ---------------- `parseMarkdownBold` ---------------- */

  /** A `**` starting at position `k` of `s`. */
  predicate StarsAt(s: string, k: int) {
    0 <= k && k + 2 <= |s| && s[k] == '*' && s[k + 1] == '*'
  }

  /**
   * Where the lazy capture `(.*?)` begun at `from` stops: the first `**` at or
   * after `from`, provided no line terminator comes before it (`.` does not
   * match one).
   */
  function CloseFrom(s: string, from: nat): (j: Option<nat>)
    decreases |s| - from
    ensures j.Some? ==> from <= j.value && StarsAt(s, j.value)
    ensures from + 2 > |s| ==> j.None?
  {
    if from + 2 > |s| then None
    else if StarsAt(s, from) then Some(from)
    else if IsLineTerminator(s[from]) then None
    else CloseFrom(s, from + 1)
  }

  /** The capture crosses no line terminator and no earlier `**`. */
  lemma {:induction false} CloseFromScan(s: string, from: nat)
    ensures CloseFrom(s, from).Some? ==> forall k :: from <= k < CloseFrom(s, from).value ==> !IsLineTerminator(s[k])
    ensures CloseFrom(s, from).Some? ==> forall k :: from <= k < CloseFrom(s, from).value ==> !StarsAt(s, k)
    decreases |s| - from
  {
    if from + 2 <= |s| && !StarsAt(s, from) && !IsLineTerminator(s[from]) {
      CloseFromScan(s, from + 1);
    }
  }

  /** A match of `\*\*(.*?)\*\*` starts at position `i`. */
  predicate OpensAt(s: string, i: int) {
    StarsAt(s, i) && CloseFrom(s, i + 2).Some?
  }

  /** The first match at or after `from`: where it starts, and where its closing `**` starts. */
  function FirstMatch(s: string, from: nat): (m: Option<(nat, nat)>)
    decreases |s| - from
    ensures m.Some? ==> from <= m.value.0 && StarsAt(s, m.value.0) && CloseFrom(s, m.value.0 + 2) == Some(m.value.1)
  {
    if from >= |s| then None
    else if OpensAt(s, from) then Some((from, CloseFrom(s, from + 2).value))
    else FirstMatch(s, from + 1)
  }

  /** The match `FirstMatch` finds is the leftmost one, and when it finds none there is none. */
  lemma {:induction false} FirstMatchLeftmost(s: string, from: nat)
    ensures FirstMatch(s, from).Some? ==> forall i :: from <= i < FirstMatch(s, from).value.0 ==> !OpensAt(s, i)
    ensures FirstMatch(s, from).None? ==> forall i :: from <= i ==> !OpensAt(s, i)
    decreases |s| - from
  {
    if from < |s| && !OpensAt(s, from) {
      FirstMatchLeftmost(s, from + 1);
    }
  }

  /**
   * `text.split` on the global pattern `\*\*(.*?)\*\*`, from position `from` on:
   * the text between matches at even indices and the captured group of each
   * match at the odd index after it. Searching resumes where the last match
   * ended.
   */
  function SplitFrom(s: string, from: nat): (parts: seq<string>)
    requires from <= |s|
    decreases |s| - from, 1
    ensures |parts| % 2 == 1
  {
    var m := FirstMatch(s, from);
    if m.None? then [s[from..]] else SplitAfter(s, from, m.value.0, m.value.1)
  }

  /** The parts from `from` on when the next match opens at `i` and closes at `j`. */
  function SplitAfter(s: string, from: nat, i: nat, j: nat): (parts: seq<string>)
    requires from <= i && i + 2 <= j && j + 2 <= |s|
    decreases |s| - from, 0
    ensures |parts| % 2 == 1
  {
    [s[from..i], s[i + 2..j]] + SplitFrom(s, j + 2)
  }

  /** The split of the whole text. */
  function SplitBold(s: string): (parts: seq<string>)
    ensures |parts| % 2 == 1
  {
    SplitFrom(s, 0)
  }

  /** A rendered piece: plain text, or a `<strong>` element. */
  datatype Node = Plain(text: string) | Strong(text: string)

  /** The `map` of `parseMarkdownBold`: parts at odd indices become `<strong>` elements. */
  function Tagged(parts: seq<string>): (nodes: seq<Node>)
    ensures |nodes| == |parts|
  {
    seq(|parts|, k requires 0 <= k < |parts| => if k % 2 == 1 then Strong(parts[k]) else Plain(parts[k]))
  }

  /** Each node carries its part's text, and exactly the odd-indexed ones are bold. */
  lemma TaggedAt(parts: seq<string>)
    ensures forall k :: 0 <= k < |parts| ==> Tagged(parts)[k].text == parts[k] && (Tagged(parts)[k].Strong? <==> k % 2 == 1)
  {
  }

  /** Tagging after an even number of parts keeps the parity of the rest. */
  lemma TaggedConcat(a: seq<string>, b: seq<string>)
    requires |a| % 2 == 0
    ensures Tagged(a + b) == Tagged(a) + Tagged(b)
  {
    var l, r := Tagged(a + b), Tagged(a) + Tagged(b);
    TaggedAt(a + b);
    TaggedAt(a);
    TaggedAt(b);
    assert |l| == |r|;
    forall k | 0 <= k < |l|
      ensures l[k] == r[k]
    {
      if k >= |a| {
        assert (a + b)[k] == b[k - |a|];
      }
    }
  }

  /** The rendered pieces of the text from position `from` on. */
  function ParseFrom(s: string, from: nat): (nodes: seq<Node>)
    requires from <= |s|
  {
    Tagged(SplitFrom(s, from))
  }

  /** `parseMarkdownBold`. */
  function ParseMarkdownBold(text: string): (nodes: seq<Node>)
    ensures |nodes| % 2 == 1
    ensures forall k :: 0 <= k < |nodes| ==> (nodes[k].Strong? <==> k % 2 == 1)
  {
    TaggedAt(SplitFrom(text, 0));
    ParseFrom(text, 0)
  }

  /** The markup a node sequence stands for: bold pieces wrapped back in `**`. */
  function Markup(nodes: seq<Node>): string {
    if nodes == [] then "" else NodeMarkup(nodes[0]) + Markup(nodes[1..])
  }

  function NodeMarkup(n: Node): string {
    match n
    case Plain(t) => t
    case Strong(t) => "**" + t + "**"
  }

  lemma {:induction false} MarkupConcat(a: seq<Node>, b: seq<Node>)
    ensures Markup(a + b) == Markup(a) + Markup(b)
    decreases |a|
  {
    if a == [] {
      assert a + b == b;
    } else {
      calc {
        Markup(a + b);
        { assert (a + b)[0] == a[0]; assert (a + b)[1..] == a[1..] + b; }
        NodeMarkup(a[0]) + Markup(a[1..] + b);
        { MarkupConcat(a[1..], b); }
        NodeMarkup(a[0]) + (Markup(a[1..]) + Markup(b));
      }
    }
  }

  /** A match splits off its leading plain text and its capture; the parse resumes after the closing `**`. */
  lemma ParseStep(s: string, from: nat, i: nat, j: nat)
    requires from <= |s| && FirstMatch(s, from) == Some((i, j))
    ensures from <= i && i + 2 <= j && j + 2 <= |s|
    ensures ParseFrom(s, from) == [Plain(s[from..i]), Strong(s[i + 2..j])] + ParseFrom(s, j + 2)
  {
    SplitStep(s, from, i, j);
    TaggedConcat([s[from..i], s[i + 2..j]], SplitFrom(s, j + 2));
    TaggedPair(s[from..i], s[i + 2..j]);
  }

  lemma SplitStep(s: string, from: nat, i: nat, j: nat)
    requires from <= |s| && FirstMatch(s, from) == Some((i, j))
    ensures from <= i && i + 2 <= j && j + 2 <= |s|
    ensures SplitFrom(s, from) == [s[from..i], s[i + 2..j]] + SplitFrom(s, j + 2)
  {
    MatchBounds(s, from, i, j);
  }

  /** A match closes at least two characters after it opens, and its closing `**` lies inside the text. */
  lemma MatchBounds(s: string, from: nat, i: nat, j: nat)
    requires FirstMatch(s, from) == Some((i, j))
    ensures from <= i && i + 2 <= j && j + 2 <= |s| && StarsAt(s, i) && StarsAt(s, j)
  {
  }

  lemma TaggedPair(x: string, y: string)
    ensures Tagged([x, y]) == [Plain(x), Strong(y)]
  {
    var t := Tagged([x, y]);
    TaggedAt([x, y]);
    assert t[0] == Plain(x) && t[1] == Strong(y);
  }

  /** Wrapping the bold pieces back in `**` and joining everything gives the original text. */
  lemma MarkupRestoresText(text: string)
    ensures Markup(ParseMarkdownBold(text)) == text
  {
    MarkupOfTagged(SplitFrom(text, 0));
    RebuildSplit(text, 0);
    assert text[0..] == text;
  }

  /** The parts joined back, each odd-indexed one wrapped in `**`. */
  function Rebuild(parts: seq<string>): string
    requires |parts| % 2 == 1
    decreases |parts|
  {
    if |parts| == 1 then parts[0] else parts[0] + ("**" + parts[1] + "**") + Rebuild(parts[2..])
  }

  /** The markup of the tagged parts is the parts joined back. */
  lemma {:induction false} MarkupOfTagged(parts: seq<string>)
    requires |parts| % 2 == 1
    ensures Markup(Tagged(parts)) == Rebuild(parts)
    decreases |parts|
  {
    if |parts| == 1 {
      TaggedAt(parts);
      assert Tagged(parts) == [Plain(parts[0])];
      assert Markup([Plain(parts[0])]) == parts[0] + Markup([]);
    } else {
      var head, rest := [parts[0], parts[1]], parts[2..];
      assert parts == head + rest;
      TaggedConcat(head, rest);
      TaggedPair(parts[0], parts[1]);
      MarkupOfStep(parts[0], parts[1], Tagged(rest));
      MarkupOfTagged(rest);
    }
  }

  /** The markup of a plain piece, a bold piece and the rest. */
  lemma MarkupOfStep(x: string, c: string, rest: seq<Node>)
    ensures Markup([Plain(x), Strong(c)] + rest) == x + ("**" + c + "**") + Markup(rest)
  {
    var head := [Plain(x), Strong(c)];
    MarkupConcat(head, rest);
    assert head[1..] == [Strong(c)];
    assert Markup(head[1..]) == "**" + c + "**" + Markup([]);
  }

  /** Joining the parts of the split from `from` on gives the text from `from` on. */
  lemma {:induction false} RebuildSplit(s: string, from: nat)
    requires from <= |s|
    ensures Rebuild(SplitFrom(s, from)) == s[from..]
    decreases |s| - from
  {
    var m := FirstMatch(s, from);
    if m.None? {
      assert SplitFrom(s, from) == [s[from..]];
    } else {
      var i, j := m.value.0, m.value.1;
      SplitStep(s, from, i, j);
      MatchBounds(s, from, i, j);
      RebuildSplit(s, j + 2);
      RebuildPair(s[from..i], s[i + 2..j], SplitFrom(s, j + 2));
      Reassemble(s, from, i, j);
    }
  }

  lemma RebuildPair(x: string, c: string, rest: seq<string>)
    requires |rest| % 2 == 1
    ensures Rebuild([x, c] + rest) == x + ("**" + c + "**") + Rebuild(rest)
  {
    var p := [x, c] + rest;
    assert p[0] == x && p[1] == c && p[2..] == rest;
  }

  /** Putting the stars of a match back around its capture gives the text again. */
  lemma Reassemble(s: string, from: nat, i: nat, j: nat)
    requires from <= i && i + 2 <= j && StarsAt(s, i) && StarsAt(s, j)
    ensures s[from..i] + ("**" + s[i + 2..j] + "**") + s[j + 2..] == s[from..]
  {
    var t := s[from..i] + ("**" + s[i + 2..j] + "**") + s[j + 2..];
    assert |t| == |s| - from;
    forall k | 0 <= k < |t|
      ensures t[k] == s[from + k]
    {
      if k < i - from {
      } else if k < i + 2 - from {
      } else if k < j - from {
      } else if k < j + 2 - from {
      } else {
      }
    }
  }

  /** No line terminator in `t`. */
  predicate SingleLine(t: string) {
    forall k :: 0 <= k < |t| ==> !IsLineTerminator(t[k])
  }

  /** A capture of the lazy group stops at the first `**` and never crosses a line break. */
  lemma CaptureShape(s: string, from: nat, i: nat, j: nat)
    requires FirstMatch(s, from) == Some((i, j))
    ensures SingleLine(s[i + 2..j]) && !Includes(s[i + 2..j], "**")
  {
    MatchBounds(s, from, i, j);
    CloseFromScan(s, i + 2);
    var c := s[i + 2..j];
    forall k | 0 <= k < |c|
      ensures !IsLineTerminator(c[k])
    {
      assert c[k] == s[i + 2 + k];
    }
    forall w
      ensures !StarsAt(c, w)
    {
      if 0 <= w && w + 2 <= |c| {
        assert c[w] == s[i + 2 + w] && c[w + 1] == s[i + 2 + w + 1];
        assert !StarsAt(s, i + 2 + w);
      }
    }
    NoStarsNoIncludes(c);
  }

  /** A text with no `**` at any position does not include `**`. */
  lemma {:induction false} NoStarsNoIncludes(c: string)
    requires forall w :: !StarsAt(c, w)
    ensures !Includes(c, "**")
    decreases |c|
  {
    if 2 <= |c| {
      assert !StarsAt(c, 0);
      assert c[..2][0] == c[0] && c[..2][1] == c[1];
      var t := c[1..];
      forall w
        ensures !StarsAt(t, w)
      {
        assert !StarsAt(c, w + 1);
        if 0 <= w && w + 2 <= |t| {
          assert t[w] == c[w + 1] && t[w + 1] == c[w + 2];
        }
      }
      NoStarsNoIncludes(t);
    }
  }

  /** Every bold piece is on one line and holds no `**` of its own. */
  lemma BoldPiecesAreSingleLine(text: string)
    ensures forall k :: 0 <= k < |ParseMarkdownBold(text)| && ParseMarkdownBold(text)[k].Strong? ==>
              SingleLine(ParseMarkdownBold(text)[k].text) && !Includes(ParseMarkdownBold(text)[k].text, "**")
  {
    CapturesFrom(text, 0);
    TaggedAt(SplitFrom(text, 0));
  }

  /** A captured group: on one line, with no `**` of its own. */
  predicate CleanCapture(c: string) {
    SingleLine(c) && !Includes(c, "**")
  }

  /** Every odd-indexed part of the split from `from` on is a clean capture. */
  lemma {:induction false} CapturesFrom(s: string, from: nat)
    requires from <= |s|
    ensures forall k :: 0 <= k < |SplitFrom(s, from)| && k % 2 == 1 ==> CleanCapture(SplitFrom(s, from)[k])
    decreases |s| - from
  {
    var m := FirstMatch(s, from);
    if m.None? {
      assert SplitFrom(s, from) == [s[from..]];
    } else {
      var i, j := m.value.0, m.value.1;
      SplitStep(s, from, i, j);
      CaptureShape(s, from, i, j);
      CapturesFrom(s, j + 2);
      var parts, later := SplitFrom(s, from), SplitFrom(s, j + 2);
      forall k | 2 <= k < |parts|
        ensures parts[k] == later[k - 2]
      {
      }
    }
  }

  /** A text with no complete `**…**` on one line renders as a single plain piece, and only such a text does. */
  lemma SinglePieceIffNoMatch(text: string)
    ensures ParseMarkdownBold(text) == [Plain(text)] <==> forall i :: !OpensAt(text, i)
  {
    var m := FirstMatch(text, 0);
    if m.None? {
      FirstMatchLeftmost(text, 0);
      assert ParseFrom(text, 0) == [Plain(text[0..])];
      assert text[0..] == text;
    } else {
      var i, j := m.value.0, m.value.1;
      ParseStep(text, 0, i, j);
      assert |ParseMarkdownBold(text)| >= 2;
      assert OpensAt(text, i);
    }
  }

  /** In particular, a text without `**` is left as it is. */
  lemma NoStarsStaysPlain(text: string)
    requires !Includes(text, "**")
    ensures ParseMarkdownBold(text) == [Plain(text)]
  {
    forall i | OpensAt(text, i)
      ensures false
    {
      assert text[i..i + 2] == "**";
      IncludesAt(text, "**", i);
    }
    SinglePieceIffNoMatch(text);
  }

  /* ---------------- Selections ---------------- */

  /** A section choice; its label is `Section <value> - <title>`. */
  datatype Section = Section(value: string, title: string) {
    function Caption(): (c: string)
      ensures |c| > |value|
    {
      "Section " + value + " - " + title
    }
  }

  const Sections: seq<Section> := [
    Section("177", "General Offenses"),
    Section("178", "Travelling Without Ticket"),
    Section("179", "Disobedience of Orders"),
    Section("180", "Unauthorized Use of Vehicle"),
    Section("181", "Driving Without License"),
    Section("182", "Driving Despite Disqualification"),
    Section("183", "Overspeeding"),
    Section("184", "Dangerous Driving"),
    Section("185", "Drunken Driving"),
    Section("186", "Driving When Mentally/Physically Unfit"),
    Section("187", "Hit and Run"),
    Section("188", "Racing on Highways"),
    Section("189", "Speeding Near Schools"),
    Section("190", "Using Mobile While Driving"),
    Section("192", "Using Vehicle Without Registration"),
    Section("194", "Overloading"),
    Section("196", "Driving Without Insurance"),
    Section("199", "Offenses by Juveniles")
  ]

  const States: seq<string> := [
    "Andhra Pradesh", "Arunachal Pradesh", "Assam", "Bihar", "Chhattisgarh", "Delhi", "Goa", "Gujarat",
    "Haryana", "Himachal Pradesh", "Jharkhand", "Karnataka", "Kerala", "Madhya Pradesh", "Maharashtra",
    "Manipur", "Meghalaya", "Mizoram", "Nagaland", "Odisha", "Punjab", "Rajasthan", "Sikkim", "Tamil Nadu",
    "Telangana", "Tripura", "Uttar Pradesh", "Uttarakhand", "West Bengal"
  ]

  /** `list.find((s) => s.value === selected)?.label || selected`, scanning from the front. */
  function LabelIn(list: seq<Section>, selected: string): (shown: string)
    decreases |list|
  {
    if list == [] then selected
    else if list[0].value == selected then (if list[0].Caption() != "" then list[0].Caption() else selected)
    else LabelIn(list[1..], selected)
  }

  /** The label posted with a request. */
  function SectionLabel(selected: string): (shown: string) {
    LabelIn(Sections, selected)
  }

  /**
   * The label is the caption of the first entry with that value, or the raw
   * value when no entry has it.
   */
  lemma {:induction false} LabelInFallback(list: seq<Section>, selected: string)
    ensures (exists k :: 0 <= k < |list| && list[k].value == selected) ==>
              exists k :: 0 <= k < |list| && list[k].value == selected && LabelIn(list, selected) == list[k].Caption()
                          && forall t :: 0 <= t < k ==> list[t].value != selected
    ensures (forall k :: 0 <= k < |list| ==> list[k].value != selected) ==> LabelIn(list, selected) == selected
    decreases |list|
  {
    if list != [] && list[0].value != selected {
      LabelInFallback(list[1..], selected);
      if exists k :: 0 <= k < |list| && list[k].value == selected {
        var k :| 0 <= k < |list| && list[k].value == selected;
        assert list[1..][k - 1].value == selected;
        var k' :| 0 <= k' < |list| - 1 && list[1..][k'].value == selected && LabelIn(list[1..], selected) == list[1..][k'].Caption()
                  && forall t :: 0 <= t < k' ==> list[1..][t].value != selected;
        assert list[k' + 1] == list[1..][k'];
        forall t | 0 <= t < k' + 1
          ensures list[t].value != selected
        {
          if t > 0 {
            assert list[t] == list[1..][t - 1];
          }
        }
      }
      if forall k :: 0 <= k < |list| ==> list[k].value != selected {
        forall k | 0 <= k < |list| - 1
          ensures list[1..][k].value != selected
        {
          assert list[1..][k] == list[k + 1];
        }
      }
    }
  }

  /** For the page's section list. */
  lemma SectionLabelFallback(selected: string)
    ensures (exists k :: 0 <= k < |Sections| && Sections[k].value == selected) ==>
              exists k :: 0 <= k < |Sections| && Sections[k].value == selected && SectionLabel(selected) == Sections[k].Caption()
    ensures (forall k :: 0 <= k < |Sections| ==> Sections[k].value != selected) ==> SectionLabel(selected) == selected
  {
    LabelInFallback(Sections, selected);
  }

  /** One entry of a state selector: the state and whether it is greyed out. */
  datatype StateOption = StateOption(state: string, disabled: bool)

  /** The items of one state selector, given the state chosen in the other one. */
  function StateOptions(other: string): (opts: seq<StateOption>)
    ensures |opts| == |States|
    ensures forall k :: 0 <= k < |opts| ==> opts[k].state == States[k]
  {
    seq(|States|, k requires 0 <= k < |States| => StateOption(States[k], States[k] == other))
  }

  /** A state can be picked in a selector exactly when it is listed and is not the other selector's choice. */
  lemma PickableIffNotOther(s: string, other: string)
    ensures StateOption(s, false) in StateOptions(other) <==> s in States && s != other
  {
    var opts := StateOptions(other);
    if s in States && s != other {
      var k :| 0 <= k < |States| && States[k] == s;
      assert opts[k] == StateOption(s, false);
    }
  }

  /** `getSeverityColor`: the badge variant for a severity. */
  function SeverityColor(severity: string): (variant: string)
    ensures variant == "destructive" <==> severity == "high"
    ensures variant == "outline" <==> severity == "medium"
    ensures variant == "secondary" <==> severity != "high" && severity != "medium"
  {
    if severity == "high" then "destructive"
    else if severity == "medium" then "outline"
    else "secondary"
  }

  datatype SeverityIcon = AlertTriangle | InfoIcon | CheckCircle

  /** `getSeverityIcon`: the badge icon for a severity. */
  function SeverityIconFor(severity: string): SeverityIcon {
    if severity == "high" then AlertTriangle
    else if severity == "medium" then InfoIcon
    else CheckCircle
  }

  /** Icon and colour switch on the same cases: a warning icon exactly on the destructive badge, a tick exactly on the secondary one. */
  lemma IconMatchesColor(severity: string)
    ensures SeverityIconFor(severity) == AlertTriangle <==> SeverityColor(severity) == "destructive"
    ensures SeverityIconFor(severity) == InfoIcon <==> SeverityColor(severity) == "outline"
    ensures SeverityIconFor(severity) == CheckCircle <==> SeverityColor(severity) == "secondary"
  {
  }

  /* ---------------- The page ---------------- */

  /** The JSON body posted to the compare endpoint. */
  datatype CompareRequest = CompareRequest(section: string, sectionLabel: string, state1: string, state2: string)

  const FetchFailed := "Failed to fetch comparison data. Please try again."

  /** The try block succeeds: an ok response whose body parses. */
  predicate Succeeds(outcome: AnalyzePage.FetchOutcome) {
    outcome.Response? && outcome.ok && outcome.body.Parsed?
  }

  class ComparePage {
    /** The section table the page offers (the module-level `sections`). */
    const sections: seq<Section>
    var selectedSection: string
    var state1: string
    var state2: string
    var isLoading: bool
    var error: Option<string>
    /** The comparison shown; `JNull` while there is none. */
    var comparison: JVal
    /** The requests posted so far, oldest first. */
    var sent: seq<CompareRequest>

    /** The two selectors never hold the same state. */
    predicate Valid()
      reads this`state1, this`state2
    {
      state1 != "" ==> state1 != state2
    }

    constructor()
      ensures sections == Sections && Valid()
      ensures selectedSection == "" && state1 == "" && state2 == ""
      ensures !isLoading && error == None && comparison == JNull && sent == []
    {
      sections := Sections;
      selectedSection := "";
      state1 := "";
      state2 := "";
      isLoading := false;
      error := None;
      comparison := JNull;
      sent := [];
    }

    /** The compare button is enabled. */
    predicate CanCompare()
      reads this
    {
      selectedSection != "" && state1 != "" && state2 != "" && !isLoading
    }

    /** The result cards are on screen. */
    predicate ResultsShown()
      reads this`comparison, this`isLoading
    {
      Truthy(comparison) && !isLoading
    }

    method SelectSection(value: string)
      modifies this`selectedSection
      ensures selectedSection == value
    {
      selectedSection := value;
    }

    /** Choosing an item of the first selector; a greyed-out item cannot be chosen. */
    method SelectState1(s: string)
      requires Valid()
      modifies this`state1
      ensures Valid()
      ensures state1 == (if StateOption(s, false) in StateOptions(state2) then s else old(state1))
    {
      PickableIffNotOther(s, state2);
      if StateOption(s, false) in StateOptions(state2) {
        state1 := s;
      }
    }

    /** Choosing an item of the second selector; a greyed-out item cannot be chosen. */
    method SelectState2(s: string)
      requires Valid()
      modifies this`state2
      ensures Valid()
      ensures state2 == (if StateOption(s, false) in StateOptions(state1) then s else old(state2))
    {
      PickableIffNotOther(s, state1);
      if StateOption(s, false) in StateOptions(state1) {
        state2 := s;
      }
    }

    /** `handleCompare` up to the request: nothing unless all three choices are made; then clear and post. */
    method HandleCompare()
      modifies this`isLoading, this`error, this`comparison, this`sent
      ensures selectedSection == "" || state1 == "" || state2 == "" ==>
                isLoading == old(isLoading) && error == old(error) && comparison == old(comparison) && sent == old(sent)
      ensures selectedSection != "" && state1 != "" && state2 != "" ==>
                isLoading && error == None && comparison == JNull
                && sent == old(sent) + [CompareRequest(selectedSection, LabelIn(sections, selectedSection), state1, state2)]
    {
      if selectedSection == "" || state1 == "" || state2 == "" {
        return;
      }
      isLoading := true;
      error := None;
      comparison := JNull;
      sent := sent + [CompareRequest(selectedSection, LabelIn(sections, selectedSection), state1, state2)];
    }

    /** The request settles: the parsed body on success, the fixed message otherwise; loading always ends. */
    method FinishCompare(outcome: AnalyzePage.FetchOutcome)
      modifies this`isLoading, this`error, this`comparison
      ensures !isLoading
      ensures Succeeds(outcome) ==> comparison == outcome.body.value && error == old(error)
      ensures !Succeeds(outcome) ==> error == Some(FetchFailed) && comparison == old(comparison)
    {
      match outcome {
        case Response(ok, body) =>
          if !ok {
            error := Some(FetchFailed);
          } else {
            match body {
              case Parsed(v) => comparison := v;
              case Unparsable(_) => error := Some(FetchFailed);
            }
          }
        case NetworkFailure(_) =>
          error := Some(FetchFailed);
      }
      isLoading := false;
    }
  }

  /**
   * One full comparison: on success the parsed body is shown with no error,
   * on failure the error is shown and no comparison is; either way loading ends.
   */
  method CompareRound(page: ComparePage, outcome: AnalyzePage.FetchOutcome)
    requires page.selectedSection != "" && page.state1 != "" && page.state2 != ""
    modifies page`isLoading, page`error, page`comparison, page`sent
    ensures !page.isLoading
    ensures Succeeds(outcome) ==> page.error == None && page.comparison == outcome.body.value
    ensures !Succeeds(outcome) ==> page.error == Some(FetchFailed) && page.comparison == JNull && !page.ResultsShown()
    ensures page.sent == old(page.sent) + [CompareRequest(page.selectedSection, LabelIn(page.sections, page.selectedSection), page.state1, page.state2)]
  {
    page.HandleCompare();
    page.FinishCompare(outcome);
  }
}
