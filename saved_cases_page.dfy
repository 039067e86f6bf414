/**
 * The saved-cases page (app/saved-cases/page.tsx): a list of previously
 * analysed documents (three sample cases), a search box, deletion and the
 * risk badge of each case.
 */
module SavedCasesPage {
  import opened Wrappers
  import opened Seqs
  import opened JsStrings

  /** `riskLevel` is typed "low" | "medium" | "high"; the badge helpers take any string. */
  datatype SavedCase = SavedCase(
    id: string,
    fileName: string,
    documentType: string,
    state: string,
    riskLevel: string,
    analyzedAt: int,
    sections: seq<string>)

  const DayMs := 86400000

  /** The three sample cases, dated relative to `now` (milliseconds). */
  function SampleCases(now: int): (cases: seq<SavedCase>)
    ensures |cases| == 3
  {
    [ SavedCase("1", "Traffic_Violation_Notice.pdf", "Traffic Challan", "Maharashtra", "low", now - DayMs,
                ["Section 279", "Section 177"]),
      SavedCase("2", "FIR_Copy.pdf", "FIR Document", "Delhi", "medium", now - 2 * DayMs,
                ["Section 420", "Section 406"]),
      SavedCase("3", "Rental_Agreement.pdf", "Rental Agreement", "Karnataka", "low", now - 7 * DayMs,
                ["Section 107", "Section 108"]) ]
  }

  /** The filter of `deleteCase`: every case with the id goes, the rest keep their order. */
  function RemoveCase(cases: seq<SavedCase>, id: string): (r: seq<SavedCase>)
    ensures IsSubseq(r, cases)
    ensures forall c :: c in r <==> c in cases && c.id != id
  {
    Filter(cases, (c: SavedCase) => c.id != id)
  }

  /** Deleting an id no case carries leaves the list as it is. */
  lemma RemoveAbsentCase(cases: seq<SavedCase>, id: string)
    requires forall c :: c in cases ==> c.id != id
    ensures RemoveCase(cases, id) == cases
  {
    FilterKeepsAll(cases, (c: SavedCase) => c.id != id);
  }

  /** The search test: the lower-cased query occurs in the lower-cased file name or document type. */
  predicate CaseMatches(searchQuery: string, c: SavedCase) {
    var q := Lower(searchQuery);
    Includes(Lower(c.fileName), q) || Includes(Lower(c.documentType), q)
  }

  /** `filteredCases`. */
  function FilteredCases(cases: seq<SavedCase>, searchQuery: string): (r: seq<SavedCase>)
    ensures IsSubseq(r, cases)
    ensures forall c :: c in r <==> c in cases && CaseMatches(searchQuery, c)
  {
    Filter(cases, (c: SavedCase) => CaseMatches(searchQuery, c))
  }

  /** An empty search shows every case. */
  lemma EmptySearchShowsAll(cases: seq<SavedCase>)
    ensures FilteredCases(cases, "") == cases
  {
    forall c | c in cases ensures CaseMatches("", c) {
      IncludesEmpty(Lower(c.fileName));
    }
    FilterKeepsAll(cases, (c: SavedCase) => CaseMatches("", c));
  }

  /** The search ignores letter case in the query (ASCII letters). */
  lemma SearchIgnoresQueryCase(cases: seq<SavedCase>, searchQuery: string)
    ensures FilteredCases(cases, Lower(searchQuery)) == FilteredCases(cases, searchQuery)
  {
    LowerIdempotent(searchQuery);
    FilterExt(cases, (c: SavedCase) => CaseMatches(Lower(searchQuery), c), (c: SavedCase) => CaseMatches(searchQuery, c));
  }

  datatype BadgeVariant = Destructive | Outline | Secondary
  datatype RiskIcon = AlertTriangle | CheckCircle

  /** `getRiskColor`. */
  function RiskColor(level: string): (v: BadgeVariant)
    ensures v == Destructive <==> level == "high"
    ensures v == Outline <==> level == "medium"
  {
    if level == "high" then Destructive
    else if level == "medium" then Outline
    else Secondary
  }

  /** `getRiskIcon`. */
  function GetRiskIcon(level: string): (i: RiskIcon)
    ensures i == AlertTriangle <==> level == "high" || level == "medium"
  {
    if level == "high" || level == "medium" then AlertTriangle else CheckCircle
  }

  /** The warning icon goes exactly with the two badge variants other than the neutral one. */
  lemma IconAgreesWithColor(level: string)
    ensures GetRiskIcon(level) == AlertTriangle <==> RiskColor(level) != Secondary
  {
  }

  /** The section badges: at most the first two sections, and a "+n more" count for the rest. */
  function SectionBadges(sections: seq<string>): (r: (seq<string>, Option<nat>))
    ensures |r.0| <= 2 && |r.0| <= |sections| && r.0 == sections[..|r.0|]
    ensures r.1.Some? <==> |sections| > 2
    ensures |r.0| + r.1.GetOr(0) == |sections|
    ensures |sections| > 2 ==> r.0 == sections[..2] && r.1 == Some(|sections| - 2)
    ensures |sections| <= 2 ==> r == (sections, None)
  {
    if |sections| > 2 then (sections[..2], Some(|sections| - 2)) else (sections, None)
  }

  class SavedCasesPage {
    var searchQuery: string
    var savedCases: seq<SavedCase>

    constructor(now: int)
      ensures searchQuery == "" && savedCases == SampleCases(now)
    {
      searchQuery := "";
      savedCases := SampleCases(now);
    }

    /** `deleteCase`. */
    method DeleteCase(id: string)
      modifies this`savedCases
      ensures savedCases == RemoveCase(old(savedCases), id)
      ensures forall c :: c in savedCases ==> c.id != id
    {
      savedCases := RemoveCase(savedCases, id);
    }

    method SetSearchQuery(q: string)
      modifies this`searchQuery
      ensures searchQuery == q
    {
      searchQuery := q;
    }

    /** The cases on screen. */
    function Shown(): (r: seq<SavedCase>)
      reads this
      ensures IsSubseq(r, savedCases)
      ensures forall c :: c in r <==> c in savedCases && CaseMatches(searchQuery, c)
    {
      FilteredCases(savedCases, searchQuery)
    }
  }
}
