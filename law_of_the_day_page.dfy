/**
 * The law-of-the-day page (app/law-of-the-day/page.tsx): today's featured
 * law, "get another", the bookmark list kept in browser storage, and the
 * category tabs over the law library.
 */
module LawOfTheDayPage {
  import opened Wrappers
  import opened Seqs
  import opened LawsDatabase

  const AllTab := "all"
  const SavedToast := "Law saved to your library!"
  const RemovedToast := "Law removed from library"

  /** `filteredLaws`: the whole library for the "all" tab, else the laws whose category key is the tab's value. */
  function FilteredLaws(db: seq<LawEntry>, selectedCategory: string): (r: seq<LawEntry>)
    ensures IsSubseq(r, db)
    ensures selectedCategory == AllTab ==> r == db
    ensures selectedCategory != AllTab ==>
              forall law :: law in r <==> law in db && CategoryName(law.category) == selectedCategory
  {
    SubseqRefl(db);
    if selectedCategory == AllTab then db
    else Filter(db, (law: LawEntry) => CategoryName(law.category) == selectedCategory)
  }

  /** A category tab shows exactly `getLawsByCategory` of that category. */
  lemma CategoryTabIsLawsByCategory(db: seq<LawEntry>, c: Category)
    ensures FilteredLaws(db, CategoryName(c)) == LawsByCategory(db, c)
  {
    var byName := (law: LawEntry) => CategoryName(law.category) == CategoryName(c);
    forall law | law in db ensures byName(law) <==> InCategory(c)(law) {
      CategoryNameInjective(law.category, c);
    }
    FilterExt(db, byName, InCategory(c));
  }

  lemma CategoryNameInjective(a: Category, b: Category)
    ensures CategoryName(a) == CategoryName(b) ==> a == b
  {
    if a != b {
      assert CategoryName(a)[0] != CategoryName(b)[0] || CategoryName(a)[1] != CategoryName(b)[1];
    }
  }

  /** `savedLawEntries`: the library entries whose id is bookmarked, in library order. */
  function SavedLawEntries(db: seq<LawEntry>, savedLaws: seq<string>): (r: seq<LawEntry>)
    ensures IsSubseq(r, db)
    ensures forall law :: law in r <==> law in db && law.id in savedLaws
  {
    Filter(db, (law: LawEntry) => law.id in savedLaws)
  }

  /** A bookmarked id that no library entry carries changes nothing in the list shown. */
  lemma UnknownSavedIdsIgnored(db: seq<LawEntry>, savedLaws: seq<string>, unknown: string)
    requires forall law :: law in db ==> law.id != unknown
    ensures SavedLawEntries(db, savedLaws + [unknown]) == SavedLawEntries(db, savedLaws)
  {
    FilterExt(db, (law: LawEntry) => law.id in savedLaws + [unknown], (law: LawEntry) => law.id in savedLaws);
  }

  /** The toast after a bookmark click: saved when the id is now in the list, removed otherwise. */
  function SaveToastMessage(newSavedLaws: seq<string>, lawId: string): (msg: string)
    ensures msg == SavedToast <==> lawId in newSavedLaws
    ensures msg == RemovedToast <==> lawId !in newSavedLaws
  {
    if lawId in newSavedLaws then SavedToast else RemovedToast
  }

  /** Bookmarking a law that is not bookmarked, then un-bookmarking it, gives back the same list. */
  lemma SaveTwiceRestores(savedLaws: seq<string>, lawId: string)
    requires lawId !in savedLaws
    ensures Toggle(Toggle(savedLaws, lawId), lawId) == savedLaws
  {
    ToggleTwiceAbsent(savedLaws, lawId);
  }

  class LawOfTheDayPage {
    var currentLaw: Option<LawEntry>
    var savedLaws: seq<string>
    var isRefreshing: bool
    var selectedCategory: string
    var showLibrary: bool
    /** The parsed value under the storage key `legalease-saved-laws`; None when absent. */
    var stored: Option<seq<string>>
    /** The last toast shown, if any. */
    var toast: Option<string>

    constructor(stored: Option<seq<string>>)
      ensures currentLaw.None? && savedLaws == [] && !isRefreshing && selectedCategory == AllTab && !showLibrary
      ensures this.stored == stored && toast.None?
    {
      currentLaw := None;
      savedLaws := [];
      isRefreshing := false;
      selectedCategory := AllTab;
      showLibrary := false;
      this.stored := stored;
      toast := None;
    }

    /** The mount effect: today's law (`dayOfYear` stands for the clock) and the stored bookmarks. */
    method Mount(db: seq<LawEntry>, dayOfYear: nat)
      modifies this`currentLaw, this`savedLaws
      ensures currentLaw == LawOfTheDay(db, dayOfYear)
      ensures savedLaws == if stored.Some? then stored.value else old(savedLaws)
    {
      currentLaw := LawOfTheDay(db, dayOfYear);
      if stored.Some? {
        savedLaws := stored.value;
      }
    }

    /** `handleSaveLaw`: toggles the id in the bookmarks, stores them and shows the matching toast. */
    method HandleSaveLaw(lawId: string)
      modifies this`savedLaws, this`stored, this`toast
      ensures savedLaws == Toggle(old(savedLaws), lawId)
      ensures lawId in savedLaws <==> lawId !in old(savedLaws)
      ensures stored == Some(savedLaws)
      ensures toast == Some(SaveToastMessage(savedLaws, lawId))
      ensures toast == Some(SavedToast) <==> lawId !in old(savedLaws)
    {
      var newSavedLaws := Toggle(savedLaws, lawId);
      savedLaws := newSavedLaws;
      stored := Some(newSavedLaws);
      toast := Some(SaveToastMessage(newSavedLaws, lawId));
    }

    /** "Get another", first half: the refresh spinner starts. */
    method StartRandomLaw()
      modifies this`isRefreshing
      ensures isRefreshing
    {
      isRefreshing := true;
    }

    /** "Get another", when the 500 ms timer fires: a random law other than the current one (`random` is `Math.random()`). */
    method FinishRandomLaw(db: seq<LawEntry>, random: real)
      requires 0.0 <= random < 1.0
      modifies this`currentLaw, this`isRefreshing
      ensures currentLaw == RandomLaw(db, if old(currentLaw).Some? then Some(old(currentLaw).value.id) else None, random)
      ensures old(currentLaw).Some? && old(currentLaw).value.id != "" && currentLaw.Some? ==>
                currentLaw.value.id != old(currentLaw).value.id
      ensures !isRefreshing
    {
      var excludeId := if currentLaw.Some? then Some(currentLaw.value.id) else None;
      currentLaw := RandomLaw(db, excludeId, random);
      isRefreshing := false;
    }

    method SelectCategory(tab: string)
      modifies this`selectedCategory
      ensures selectedCategory == tab
    {
      selectedCategory := tab;
    }

    /** The library button flips the bookmark panel. */
    method ToggleLibrary()
      modifies this`showLibrary
      ensures showLibrary == !old(showLibrary)
    {
      showLibrary := !showLibrary;
    }
  }
}
