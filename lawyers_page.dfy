/**
 * The lawyer directory page (app/lawyers/page.tsx): a free-text search and
 * four select filters (each `"all"` when unset) over the directory, the count
 * of active filters, and the contact dialog's target.
 */
module LawyersPage {
  import opened Wrappers
  import opened Seqs
  import opened JsStrings
  import opened LawyersDatabase

  const All := "all"

  /** The four select values. */
  datatype Selections = Selections(state: string, practiceArea: string, feeType: string, language: string)

  const NoSelections := Selections(All, All, All, All)

  /** Some practice area of the lawyer contains the (lower-cased) query. */
  predicate SomeAreaIncludes(areas: seq<string>, query: string) {
    exists i :: 0 <= i < |areas| && Includes(Lower(areas[i]), query)
  }

  /** The search test: name, firm, a practice area or city contains the query, ignoring case. */
  predicate SearchMatches(searchQuery: string, l: Lawyer) {
    var q := Lower(searchQuery);
    searchQuery == "" ||
    Includes(Lower(l.name), q) || Includes(Lower(l.firm), q) || SomeAreaIncludes(l.practiceAreas, q) || Includes(Lower(l.city), q)
  }

  /** The four select tests; `"all"` lets everything through. */
  predicate SelectMatches(sel: Selections, l: Lawyer) {
    && (sel.state != All ==> l.state == sel.state)
    && (sel.practiceArea != All ==> sel.practiceArea in l.practiceAreas)
    && (sel.feeType != All ==> FeeTypeName(l.feeType) == sel.feeType)
    && (sel.language != All ==> sel.language in l.languages)
  }

  function PageTest(searchQuery: string, sel: Selections): Lawyer -> bool {
    (l: Lawyer) => SearchMatches(searchQuery, l) && SelectMatches(sel, l)
  }

  /** The listed lawyers: those passing the search and every select, in directory order. */
  function PageFilter(db: seq<Lawyer>, searchQuery: string, sel: Selections): (r: seq<Lawyer>)
    ensures forall l :: l in r <==> l in db && SearchMatches(searchQuery, l) && SelectMatches(sel, l)
    ensures IsSubseq(r, db)
  {
    Filter(db, PageTest(searchQuery, sel))
  }

  /** The select values as the directory's filters: `"all"` is no filter. */
  function ToFilters(sel: Selections): LawyerFilters {
    LawyerFilters(
      if sel.state == All then None else Some(sel.state),
      if sel.practiceArea == All then None else Some(sel.practiceArea),
      if sel.feeType == All then None else Some(sel.feeType),
      if sel.language == All then None else Some(sel.language))
  }

  /** Without a search, the page lists exactly what `filterLawyers` returns for the same selections. */
  lemma PageAgreesWithDirectory(db: seq<Lawyer>, sel: Selections)
    requires sel.state != "" && sel.practiceArea != "" && sel.feeType != "" && sel.language != ""
    ensures PageFilter(db, "", sel) == FilterLawyers(db, ToFilters(sel))
  {
    FilterExt(db, PageTest("", sel), MatchesFilters(ToFilters(sel)));
  }

  /** Typing a search can only shorten the list, keeping its order. */
  lemma SearchNarrows(db: seq<Lawyer>, searchQuery: string, sel: Selections)
    ensures IsSubseq(PageFilter(db, searchQuery, sel), PageFilter(db, "", sel))
  {
    FilterMonotone(db, PageTest(searchQuery, sel), PageTest("", sel));
  }

  /** How many of the four selects are set to something other than `"all"`. */
  function SetSelects(sel: Selections): nat {
    (if sel.state != All then 1 else 0) + (if sel.practiceArea != All then 1 else 0)
    + (if sel.feeType != All then 1 else 0) + (if sel.language != All then 1 else 0)
  }

  /** The select values other than `"all"`, in display order. */
  function ActiveSelections(sel: Selections): (r: seq<string>)
    ensures forall x :: x in r <==> x != All && x in [sel.state, sel.practiceArea, sel.feeType, sel.language]
    ensures IsSubseq(r, [sel.state, sel.practiceArea, sel.feeType, sel.language])
    ensures |r| == SetSelects(sel)
  {
    var all := [sel.state, sel.practiceArea, sel.feeType, sel.language];
    var p := (x: string) => x != All;
    assert all == [sel.state] + ([sel.practiceArea] + ([sel.feeType] + [sel.language]));
    FilterConcat([sel.state], [sel.practiceArea] + ([sel.feeType] + [sel.language]), p);
    FilterConcat([sel.practiceArea], [sel.feeType] + [sel.language], p);
    FilterConcat([sel.feeType], [sel.language], p);
    Filter(all, p)
  }

  /** `activeFiltersCount`: the number of selects not set to `"all"`. */
  function ActiveFiltersCount(sel: Selections): (n: nat)
    ensures n <= 4
    ensures n == 0 <==> sel == NoSelections
    ensures n == (if sel.state != All then 1 else 0) + (if sel.practiceArea != All then 1 else 0)
                 + (if sel.feeType != All then 1 else 0) + (if sel.language != All then 1 else 0)
  {
    NoActiveSelections(sel);
    |ActiveSelections(sel)|
  }

  lemma NoActiveSelections(sel: Selections)
    ensures ActiveSelections(sel) == [] <==> sel == NoSelections
  {
    if sel != NoSelections {
      var x := if sel.state != All then sel.state else if sel.practiceArea != All then sel.practiceArea
               else if sel.feeType != All then sel.feeType else sel.language;
      assert x in ActiveSelections(sel);
    }
  }

  /** The badge text of a lawyer's fee type: any key other than the two discounted ones reads "Private". */
  function FeeLabel(feeType: string): (badge: string)
    ensures badge == "Free" <==> feeType == "pro-bono"
    ensures badge == "Low Cost" <==> feeType == "low-cost"
    ensures badge == "Private" <==> feeType != "pro-bono" && feeType != "low-cost"
  {
    if feeType == "pro-bono" then "Free"
    else if feeType == "low-cost" then "Low Cost"
    else "Private"
  }

  /** The three fee types of the directory get three different badges. */
  lemma FeeLabelsDistinct(a: FeeType, b: FeeType)
    ensures FeeLabel(FeeTypeName(a)) == FeeLabel(FeeTypeName(b)) ==> a == b
  {
  }

  class LawyersPage {
    var searchQuery: string
    var selections: Selections
    var showFilters: bool
    var selectedLawyer: Option<Lawyer>
    var showContactModal: bool

    constructor()
      ensures searchQuery == "" && selections == NoSelections && !showFilters
      ensures selectedLawyer == None && !showContactModal
    {
      searchQuery := "";
      selections := NoSelections;
      showFilters := false;
      selectedLawyer := None;
      showContactModal := false;
    }

    /** The lawyers listed for the current search and selections. */
    function FilteredLawyers(db: seq<Lawyer>): (r: seq<Lawyer>)
      reads this
      ensures forall l :: l in r <==> l in db && SearchMatches(searchQuery, l) && SelectMatches(selections, l)
    {
      PageFilter(db, searchQuery, selections)
    }

    /** `clearFilters`: every select back to `"all"`; the search stays. */
    method ClearFilters()
      modifies this
      ensures selections == NoSelections && ActiveFiltersCount(selections) == 0
      ensures searchQuery == old(searchQuery) && showFilters == old(showFilters)
      ensures selectedLawyer == old(selectedLawyer) && showContactModal == old(showContactModal)
    {
      selections := NoSelections;
    }

    /** `handleContact`: opens the contact dialog for the lawyer. */
    method HandleContact(l: Lawyer)
      modifies this
      ensures selectedLawyer == Some(l) && showContactModal
      ensures searchQuery == old(searchQuery) && selections == old(selections) && showFilters == old(showFilters)
    {
      selectedLawyer := Some(l);
      showContactModal := true;
    }
  }
}
