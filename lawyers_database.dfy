/**
 * The verified-lawyer directory (lib/lawyers-database.ts): the lawyer record,
 * lookup by id and the four-way filter. The queries are written over the
 * directory `db` they read; its entries are data and are not reproduced here.
 */
module LawyersDatabase {
  import opened Wrappers
  import opened Seqs

  datatype FeeType = ProBono | LowCost | Private

  function FeeTypeName(f: FeeType): string {
    match f
    case ProBono => "pro-bono"
    case LowCost => "low-cost"
    case Private => "private"
  }

  datatype Availability = Available | Busy | Unavailable

  datatype Lawyer = Lawyer(
    id: string,
    name: string,
    firm: string,
    photo: string,
    practiceAreas: seq<string>,
    yearsExperience: int,
    state: string,
    city: string,
    languages: seq<string>,
    feeType: FeeType,
    feeRange: Option<string>,
    rating: real,
    reviewCount: int,
    bio: string,
    email: string,
    phone: string,
    officeHours: string,
    verified: bool,
    verifiedDate: string,
    verifiedBy: string,
    availability: Availability,
    specializations: seq<string>)

  const PracticeAreas: seq<string> := [
    "Traffic Law", "Criminal Defense", "Consumer Rights", "Family Law", "Property Law",
    "Cybercrime", "Civil Litigation", "Labour Law", "Corporate Law", "Immigration"]

  const States: seq<string> := ["Maharashtra", "Delhi"]

  const Languages: seq<string> := ["English", "Hindi", "Marathi", "Punjabi", "Gujarati"]

  /** `getLawyerById`: the first lawyer with the id, if any. */
  function LawyerById(db: seq<Lawyer>, id: string): (r: Option<Lawyer>)
    ensures r.Some? <==> exists i :: 0 <= i < |db| && db[i].id == id
    ensures r.Some? ==> r.value in db && r.value.id == id
    ensures r.Some? ==> exists i :: 0 <= i < |db| && db[i] == r.value && forall j :: 0 <= j < i ==> db[j].id != id
  {
    Find(db, (l: Lawyer) => l.id == id)
  }

  /** The optional filters of `filterLawyers`; each applies only when it is a non-empty string. */
  datatype LawyerFilters = LawyerFilters(
    state: Option<string>, practiceArea: Option<string>, feeType: Option<string>, language: Option<string>)

  const NoFilters := LawyerFilters(None, None, None, None)

  predicate Active(f: Option<string>) {
    f.Some? && f.value != ""
  }

  /** The lawyer passes every active filter. */
  predicate Matches(filters: LawyerFilters, l: Lawyer) {
    && (Active(filters.state) ==> l.state == filters.state.value)
    && (Active(filters.practiceArea) ==> filters.practiceArea.value in l.practiceAreas)
    && (Active(filters.feeType) ==> FeeTypeName(l.feeType) == filters.feeType.value)
    && (Active(filters.language) ==> filters.language.value in l.languages)
  }

  function MatchesFilters(filters: LawyerFilters): Lawyer -> bool {
    (l: Lawyer) => Matches(filters, l)
  }

  /** `filterLawyers`: the lawyers that pass every active filter, in directory order. */
  function FilterLawyers(db: seq<Lawyer>, filters: LawyerFilters): (r: seq<Lawyer>)
    ensures forall l :: l in r <==> l in db && Matches(filters, l)
    ensures IsSubseq(r, db)
  {
    Filter(db, MatchesFilters(filters))
  }

  /** Without active filters every lawyer is listed, in directory order. */
  lemma NoFiltersListAll(db: seq<Lawyer>, filters: LawyerFilters)
    requires !Active(filters.state) && !Active(filters.practiceArea) && !Active(filters.feeType) && !Active(filters.language)
    ensures FilterLawyers(db, filters) == db
  {
    FilterKeepsAll(db, MatchesFilters(filters));
  }

  /** `narrow` keeps every active filter of `wide`, and possibly adds more. */
  predicate Refines(narrow: LawyerFilters, wide: LawyerFilters) {
    && (Active(wide.state) ==> narrow.state == wide.state)
    && (Active(wide.practiceArea) ==> narrow.practiceArea == wide.practiceArea)
    && (Active(wide.feeType) ==> narrow.feeType == wide.feeType)
    && (Active(wide.language) ==> narrow.language == wide.language)
  }

  /** Setting more filters can only shorten the list, keeping its order. */
  lemma RefiningNarrows(db: seq<Lawyer>, narrow: LawyerFilters, wide: LawyerFilters)
    requires Refines(narrow, wide)
    ensures IsSubseq(FilterLawyers(db, narrow), FilterLawyers(db, wide))
  {
    FilterMonotone(db, MatchesFilters(narrow), MatchesFilters(wide));
  }
}
