/**
 * The lawyer administration page (app/lawyers/admin/page.tsx): the directory
 * plus the lawyers added here, an edit dialog, and persistence of the added
 * lawyers (those whose id starts with `custom-`) in browser storage.
 */
module LawyersAdmin {
  import opened Wrappers
  import opened Seqs
  import opened JsStrings
  import opened LawyersDatabase

  const CustomPrefix := "custom-"

  /** `isCustomLawyer`: the id was made by this page. */
  predicate IsCustomLawyer(id: string) {
    StartsWith(id, CustomPrefix)
  }

  /** `generateId`: the prefix and the clock's milliseconds. */
  function GenerateId(now: nat): (id: string)
    ensures IsCustomLawyer(id)
  {
    var id := CustomPrefix + NatToString(now);
    assert id[..|CustomPrefix|] == CustomPrefix;
    id
  }

  function IsCustom(l: Lawyer): bool { IsCustomLawyer(l.id) }

  /** The lawyers `saveCustomLawyers` writes to storage. */
  function CustomOnly(lawyers: seq<Lawyer>): (r: seq<Lawyer>)
    ensures forall l :: l in r <==> l in lawyers && IsCustomLawyer(l.id)
    ensures IsSubseq(r, lawyers)
  {
    Filter(lawyers, IsCustom)
  }

  /** `getEmptyLawyer`: the form's starting values; `today` is the date part of the clock's ISO time. */
  function EmptyLawyer(now: nat, today: string): (l: Lawyer)
    ensures IsCustomLawyer(l.id) && l.verified
  {
    Lawyer(
      id := GenerateId(now), name := "", firm := "", photo := "/professional-lawyer.png",
      practiceAreas := [], yearsExperience := 0, state := "Maharashtra", city := "",
      languages := ["English", "Hindi"], feeType := Private, feeRange := Some(""), rating := 4.5,
      reviewCount := 0, bio := "", email := "", phone := "",
      officeHours := "Mon-Sat: 10:00 AM - 6:00 PM", verified := true, verifiedDate := today,
      verifiedBy := "LegalEase Admin", availability := Available, specializations := [])
  }

  /** `lawyers.map(l => l.id === edited.id ? edited : l)`. */
  function ReplaceById(lawyers: seq<Lawyer>, edited: Lawyer): (r: seq<Lawyer>)
    ensures |r| == |lawyers|
    ensures forall i :: 0 <= i < |lawyers| ==> r[i] == if lawyers[i].id == edited.id then edited else lawyers[i]
  {
    seq(|lawyers|, i requires 0 <= i < |lawyers| => if lawyers[i].id == edited.id then edited else lawyers[i])
  }

  /** One field the edit form sets. */
  datatype LawyerUpdate =
    | SetName(name: string)
    | SetFirm(firm: string)
    | SetState(state: string)
    | SetCity(city: string)
    | SetYearsExperience(years: int)
    | SetEmail(email: string)
    | SetPhone(phone: string)
    | SetFeeType(feeType: FeeType)
    | SetFeeRange(feeRange: string)
    | SetBio(bio: string)
    | SetOfficeHours(officeHours: string)
    | SetVerified(verified: bool)
    | SetPracticeAreas(areas: seq<string>)
    | SetLanguages(languages: seq<string>)

  function Apply(l: Lawyer, u: LawyerUpdate): (r: Lawyer)
    ensures r.id == l.id
  {
    match u
    case SetName(x) => l.(name := x)
    case SetFirm(x) => l.(firm := x)
    case SetState(x) => l.(state := x)
    case SetCity(x) => l.(city := x)
    case SetYearsExperience(x) => l.(yearsExperience := x)
    case SetEmail(x) => l.(email := x)
    case SetPhone(x) => l.(phone := x)
    case SetFeeType(x) => l.(feeType := x)
    case SetFeeRange(x) => l.(feeRange := Some(x))
    case SetBio(x) => l.(bio := x)
    case SetOfficeHours(x) => l.(officeHours := x)
    case SetVerified(x) => l.(verified := x)
    case SetPracticeAreas(x) => l.(practiceAreas := x)
    case SetLanguages(x) => l.(languages := x)
  }

  /** `{...lawyer, ...updates}`: the updates in order, a later one winning. */
  function ApplyAll(l: Lawyer, updates: seq<LawyerUpdate>): (r: Lawyer)
    ensures r.id == l.id
    decreases |updates|
  {
    if updates == [] then l else ApplyAll(Apply(l, updates[0]), updates[1..])
  }

  /** With no lawyer of the directory carrying a custom id, saving and reloading gives back the same list. */
  lemma ReloadRestores(db: seq<Lawyer>, custom: seq<Lawyer>)
    requires forall l :: l in db ==> !IsCustom(l)
    requires forall l :: l in custom ==> IsCustom(l)
    ensures db + CustomOnly(db + custom) == db + custom
  {
    FilterConcat(db, custom, IsCustom);
    FilterKeepsNone(db, IsCustom);
    FilterKeepsAll(custom, IsCustom);
    calc {
      CustomOnly(db + custom);
      Filter(db, IsCustom) + Filter(custom, IsCustom);
      [] + custom;
      custom;
    }
  }

  /** Saving an edit of a directory lawyer changes what is shown but not what is stored. */
  lemma EditOfDirectoryLawyerNotStored(lawyers: seq<Lawyer>, edited: Lawyer)
    requires !IsCustomLawyer(edited.id)
    ensures CustomOnly(ReplaceById(lawyers, edited)) == CustomOnly(lawyers)
  {
    var r := ReplaceById(lawyers, edited);
    FilterExt(lawyers, IsCustom, IsCustom);
    CustomOnlyPointwise(lawyers, r);
  }

  /** Two lists that agree on every custom position have the same custom lawyers. */
  lemma {:induction false} CustomOnlyPointwise(a: seq<Lawyer>, b: seq<Lawyer>)
    requires |a| == |b|
    requires forall i :: 0 <= i < |a| ==> (IsCustom(a[i]) || IsCustom(b[i]) ==> a[i] == b[i])
    ensures CustomOnly(a) == CustomOnly(b)
    decreases |a|
  {
    if a != [] {
      CustomOnlyPointwise(a[1..], b[1..]);
    }
  }

  class LawyersAdmin {
    var lawyers: seq<Lawyer>
    var editingLawyer: Option<Lawyer>
    var isAddingNew: bool
    var showDialog: bool
    /** The parsed value under the storage key `legalease-custom-lawyers`; `None` when absent. */
    var stored: Option<seq<Lawyer>>

    constructor(stored: Option<seq<Lawyer>>)
      ensures lawyers == [] && editingLawyer == None && !isAddingNew && !showDialog && this.stored == stored
    {
      lawyers := [];
      editingLawyer := None;
      isAddingNew := false;
      showDialog := false;
      this.stored := stored;
    }

    /** Storage holds exactly the custom lawyers of the list. */
    predicate Persisted()
      reads this
    {
      stored == Some(CustomOnly(lawyers))
    }

    /** The mount effect: the directory followed by the stored lawyers. */
    method Load(db: seq<Lawyer>)
      modifies this
      ensures lawyers == db + stored.GetOr([])
      ensures stored == old(stored) && editingLawyer == old(editingLawyer) && showDialog == old(showDialog)
      ensures isAddingNew == old(isAddingNew)
    {
      lawyers := db + stored.GetOr([]);
    }

    /** `saveCustomLawyers`. */
    method SaveCustomLawyers(all: seq<Lawyer>)
      modifies this
      ensures stored == Some(CustomOnly(all))
      ensures lawyers == old(lawyers) && editingLawyer == old(editingLawyer)
      ensures isAddingNew == old(isAddingNew) && showDialog == old(showDialog)
    {
      stored := Some(CustomOnly(all));
    }

    /** `handleAddNew`: opens the dialog on a fresh lawyer. */
    method HandleAddNew(now: nat, today: string)
      modifies this
      ensures editingLawyer == Some(EmptyLawyer(now, today)) && isAddingNew && showDialog
      ensures lawyers == old(lawyers) && stored == old(stored)
    {
      editingLawyer := Some(EmptyLawyer(now, today));
      isAddingNew := true;
      showDialog := true;
    }

    /** `handleEdit`: opens the dialog on a copy of the lawyer. */
    method HandleEdit(l: Lawyer)
      modifies this
      ensures editingLawyer == Some(l) && !isAddingNew && showDialog
      ensures lawyers == old(lawyers) && stored == old(stored)
    {
      editingLawyer := Some(l);
      isAddingNew := false;
      showDialog := true;
    }

    /** `handleSave`: appends or replaces the edited lawyer, stores the custom ones and closes the dialog. */
    method HandleSave()
      modifies this
      ensures old(editingLawyer).None? ==> lawyers == old(lawyers) && stored == old(stored)
                                           && editingLawyer == old(editingLawyer) && showDialog == old(showDialog)
      ensures old(editingLawyer).Some? && old(isAddingNew) ==> lawyers == old(lawyers) + [old(editingLawyer).value]
      ensures old(editingLawyer).Some? && !old(isAddingNew) ==> lawyers == ReplaceById(old(lawyers), old(editingLawyer).value)
      ensures old(editingLawyer).Some? ==> Persisted() && editingLawyer.None? && !showDialog
      ensures isAddingNew == old(isAddingNew)
    {
      if editingLawyer.None? {
        return;
      }
      var edited := editingLawyer.value;
      var updated := if isAddingNew then lawyers + [edited] else ReplaceById(lawyers, edited);
      lawyers := updated;
      SaveCustomLawyers(updated);
      showDialog := false;
      editingLawyer := None;
    }

    /** `handleDelete`: drops every lawyer with the id and stores the custom ones. */
    method HandleDelete(id: string)
      modifies this
      ensures forall l :: l in lawyers <==> l in old(lawyers) && l.id != id
      ensures IsSubseq(lawyers, old(lawyers))
      ensures Persisted()
      ensures editingLawyer == old(editingLawyer) && isAddingNew == old(isAddingNew) && showDialog == old(showDialog)
    {
      lawyers := Filter(lawyers, (l: Lawyer) => l.id != id);
      SaveCustomLawyers(lawyers);
    }

    /** `updateEditingLawyer`: applies the updates to the lawyer being edited, if any. */
    method UpdateEditingLawyer(updates: seq<LawyerUpdate>)
      modifies this
      ensures editingLawyer == if old(editingLawyer).Some? then Some(ApplyAll(old(editingLawyer).value, updates)) else None
      ensures lawyers == old(lawyers) && stored == old(stored) && isAddingNew == old(isAddingNew) && showDialog == old(showDialog)
    {
      if editingLawyer.Some? {
        editingLawyer := Some(ApplyAll(editingLawyer.value, updates));
      }
    }

    /** `togglePracticeArea`: adds the area at the end, or removes every occurrence of it. */
    method TogglePracticeArea(area: string)
      modifies this
      ensures old(editingLawyer).None? ==> editingLawyer == None
      ensures old(editingLawyer).Some? ==>
                editingLawyer == Some(old(editingLawyer).value.(practiceAreas := Toggle(old(editingLawyer).value.practiceAreas, area)))
      ensures old(editingLawyer).Some? ==> (area in editingLawyer.value.practiceAreas <==> area !in old(editingLawyer).value.practiceAreas)
      ensures lawyers == old(lawyers) && stored == old(stored) && isAddingNew == old(isAddingNew) && showDialog == old(showDialog)
    {
      if editingLawyer.None? {
        return;
      }
      var areas := Toggle(editingLawyer.value.practiceAreas, area);
      UpdateEditingLawyer([SetPracticeAreas(areas)]);
    }

    /** `toggleLanguage`: adds the language at the end, or removes every occurrence of it. */
    method ToggleLanguage(lang: string)
      modifies this
      ensures old(editingLawyer).None? ==> editingLawyer == None
      ensures old(editingLawyer).Some? ==>
                editingLawyer == Some(old(editingLawyer).value.(languages := Toggle(old(editingLawyer).value.languages, lang)))
      ensures old(editingLawyer).Some? ==> (lang in editingLawyer.value.languages <==> lang !in old(editingLawyer).value.languages)
      ensures lawyers == old(lawyers) && stored == old(stored) && isAddingNew == old(isAddingNew) && showDialog == old(showDialog)
    {
      if editingLawyer.None? {
        return;
      }
      var langs := Toggle(editingLawyer.value.languages, lang);
      UpdateEditingLawyer([SetLanguages(langs)]);
    }
  }
}
