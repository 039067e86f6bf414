/**
 * The quiz administration page (app/quiz/admin/page.tsx). Custom questions
 * are kept per pack in a dictionary of arrays; saving copies the dictionary
 * but writes into the pack's existing array, which the previous dictionary
 * shares, while deleting puts a new, filtered array in the copy.
 */
module QuizAdmin {
  import opened Wrappers
  import opened Seqs
  import opened JsStrings
  import opened QuizData

  /** One pack's array of custom questions, updated in place. */
  class QuestionList {
    var items: seq<QuizQuestion>

    constructor(items: seq<QuizQuestion>)
      ensures this.items == items
    {
      this.items := items;
    }

    /** `findIndex` by id, then overwrite that element or `push`. */
    method Upsert(q: QuizQuestion)
      modifies this
      ensures items == UpsertById(old(items), q)
    {
      match FirstIndex(items, (x: QuizQuestion) => x.id == q.id)
      case Some(i) =>
        items := items[i := q];
      case None =>
        items := items + [q];
    }
  }

  /** The list after saving `q`: the first question with its id replaced in place, else `q` appended. */
  function UpsertById(list: seq<QuizQuestion>, q: QuizQuestion): (r: seq<QuizQuestion>)
    ensures q in r
    ensures (exists x :: x in list && x.id == q.id) ==> |r| == |list|
    ensures (forall x :: x in list ==> x.id != q.id) ==> r == list + [q]
    ensures forall i :: 0 <= i < |list| && list[i].id != q.id ==> r[i] == list[i]
  {
    match FirstIndex(list, (x: QuizQuestion) => x.id == q.id)
    case Some(i) =>
      var r := list[i := q];
      assert r[i] == q;
      r
    case None => list + [q]
  }

  /** Saving keeps the ids unique when they were, and the saved question takes the place of the old one with its id. */
  lemma UpsertKeepsIdsUnique(list: seq<QuizQuestion>, q: QuizQuestion)
    requires UniqueIds(list)
    ensures UniqueIds(UpsertById(list, q))
    ensures forall x :: x in UpsertById(list, q) ==> x == q || (x in list && x.id != q.id)
  {
    var r := UpsertById(list, q);
    match FirstIndex(list, (x: QuizQuestion) => x.id == q.id)
    case Some(i) =>
      assert r == list[i := q];
      forall x | x in r ensures x == q || (x in list && x.id != q.id) {
        var k :| 0 <= k < |r| && r[k] == x;
        if k != i {
          assert list[k].id != list[i].id;
        }
      }
    case None =>
  }

  predicate UniqueIds(list: seq<QuizQuestion>) {
    forall i, j :: 0 <= i < j < |list| ==> list[i].id != list[j].id
  }

  /** The filter of `handleDeleteQuestion`. */
  function RemoveById(list: seq<QuizQuestion>, id: string): (r: seq<QuizQuestion>)
    ensures IsSubseq(r, list)
    ensures forall x :: x in r <==> x in list && x.id != id
  {
    Filter(list, (x: QuizQuestion) => x.id != id)
  }

  /** Deleting the question just saved restores a list that did not hold its id. */
  lemma DeleteUndoesAdd(list: seq<QuizQuestion>, q: QuizQuestion)
    requires forall x :: x in list ==> x.id != q.id
    ensures RemoveById(UpsertById(list, q), q.id) == list
  {
    var p := (x: QuizQuestion) => x.id != q.id;
    FilterConcat(list, [q], p);
    FilterKeepsAll(list, p);
  }

  /** The questions listed for a pack: the built-in ones followed by the pack's custom ones. */
  function MergedQuestions(base: map<string, seq<QuizQuestion>>, custom: map<string, seq<QuizQuestion>>, pack: string): (r: seq<QuizQuestion>)
    ensures |r| == |Get(base, pack)| + |Get(custom, pack)|
    ensures r[..|Get(base, pack)|] == Get(base, pack)
    ensures r[|Get(base, pack)|..] == Get(custom, pack)
  {
    Get(base, pack) + Get(custom, pack)
  }

  /** `dict[key] || []`. */
  function Get(m: map<string, seq<QuizQuestion>>, key: string): seq<QuizQuestion> {
    if key in m then m[key] else []
  }

  /** The dictionary after saving `q` into `pack`. */
  function SaveInto(custom: map<string, seq<QuizQuestion>>, pack: string, q: QuizQuestion): map<string, seq<QuizQuestion>> {
    custom[pack := UpsertById(Get(custom, pack), q)]
  }

  /** The dictionary after deleting `id` from `pack`, when the pack has a list. */
  function DeleteFrom(custom: map<string, seq<QuizQuestion>>, pack: string, id: string): map<string, seq<QuizQuestion>>
    requires pack in custom
  {
    custom[pack := RemoveById(custom[pack], id)]
  }

  /** `isCustom`: edit and delete are offered only for a question in the pack's custom list. */
  predicate OffersEdit(custom: map<string, seq<QuizQuestion>>, pack: string, id: string) {
    pack in custom && exists x :: x in custom[pack] && x.id == id
  }

  /** The starting question of "Add New Question"; `pack` is the selected pack, if it exists. */
  function NewQuestion(now: nat, pack: Option<QuizPack>): (q: QuizQuestion)
    ensures StartsWith(q.id, "custom-")
    ensures q.options == ["", "", "", ""] && q.correctAnswer == 0 && WellFormed(q)
    ensures q.difficulty == (if pack.Some? then pack.value.difficulty else Beginner)
  {
    var id := "custom-" + NatToString(now);
    assert id[..7] == "custom-";
    QuizQuestion(id, "", ["", "", "", ""], 0, "", Reference("", "", ""),
                 if pack.Some? then pack.value.difficulty else Beginner)
  }

  /** The Save button is enabled: question, every option and explanation are non-empty. */
  predicate SaveEnabled(q: QuizQuestion) {
    !(q.question == [] || (exists o :: o in q.options && o == []) || q.explanation == [])
  }

  /** A new question cannot be saved before its text is filled in. */
  lemma NewQuestionNotSavable(now: nat, pack: Option<QuizPack>)
    ensures !SaveEnabled(NewQuestion(now, pack))
  {
  }

  /** A savable question has no empty option, so each answer it offers is a real choice. */
  lemma SavableOptionsNonEmpty(q: QuizQuestion, i: int)
    requires SaveEnabled(q) && 0 <= i < |q.options|
    ensures |q.options[i]| > 0
  {
    assert q.options[i] in q.options;
  }

  /** The contents of a dictionary of arrays. */
  function ItemsOf(m: map<string, QuestionList>): (r: map<string, seq<QuizQuestion>>)
    reads m.Values
    ensures r.Keys == m.Keys
  {
    map k | k in m :: m[k].items
  }

  /** Writes `q` into the array of `pack`; the arrays of the other packs are distinct objects and keep their contents. */
  method UpsertInPack(m: map<string, QuestionList>, pack: string, q: QuizQuestion)
    requires pack in m
    requires forall k :: k in m && k != pack ==> m[k] != m[pack]
    modifies m[pack]
    ensures ItemsOf(m) == old(ItemsOf(m))[pack := UpsertById(old(m[pack].items), q)]
  {
    m[pack].Upsert(q);
  }

  class QuizAdmin {
    var selectedPack: string
    var questions: seq<QuizQuestion>
    var editingQuestion: Option<QuizQuestion>
    var isAddingNew: bool
    var customQuestions: map<string, QuestionList>
    /** The value under the storage key `custom-quiz-questions`, as JSON would give it back. */
    var stored: Option<map<string, seq<QuizQuestion>>>

    /** What the dictionary holds, pack by pack. */
    function Contents(): map<string, seq<QuizQuestion>>
      reads this`customQuestions, customQuestions.Values
    {
      ItemsOf(customQuestions)
    }

    /** No two packs share an array. */
    predicate Valid()
      reads this
    {
      forall a, b :: a in customQuestions && b in customQuestions && a != b ==> customQuestions[a] != customQuestions[b]
    }

    constructor(stored: Option<map<string, seq<QuizQuestion>>>)
      ensures Valid() && customQuestions == map[] && this.stored == stored
      ensures selectedPack == "" && questions == [] && editingQuestion.None? && !isAddingNew
    {
      selectedPack := "";
      questions := [];
      editingQuestion := None;
      isAddingNew := false;
      customQuestions := map[];
      this.stored := stored;
    }

    /** The mount effect: a stored dictionary becomes the custom questions, each pack with its own array. */
    method Load()
      requires Valid()
      modifies this
      ensures Valid()
      ensures old(stored).Some? ==> Contents() == old(stored).value
      ensures old(stored).None? ==> customQuestions == old(customQuestions)
      ensures stored == old(stored) && selectedPack == old(selectedPack) && questions == old(questions)
      ensures editingQuestion == old(editingQuestion) && isAddingNew == old(isAddingNew)
    {
      if stored.None? {
        return;
      }
      var saved := stored.value;
      var m: map<string, QuestionList> := map[];
      var keys := saved.Keys;
      while keys != {}
        invariant keys <= saved.Keys
        invariant m.Keys == saved.Keys - keys
        invariant forall k :: k in m ==> fresh(m[k]) && m[k].items == saved[k]
        invariant forall a, b :: a in m && b in m && a != b ==> m[a] != m[b]
        invariant unchanged(this)
        decreases keys
      {
        var k :| k in keys;
        var list := new QuestionList(saved[k]);
        m := m[k := list];
        keys := keys - {k};
      }
      customQuestions := m;
    }

    /** Choosing a pack; the list is refreshed by `RefreshQuestions`. */
    method SelectPack(pack: string)
      modifies this
      ensures selectedPack == pack
      ensures questions == old(questions) && customQuestions == old(customQuestions) && stored == old(stored)
      ensures editingQuestion == old(editingQuestion) && isAddingNew == old(isAddingNew)
    {
      selectedPack := pack;
    }

    /** The effect on the selected pack and the custom questions: a selected pack lists its merged questions. */
    method RefreshQuestions(base: map<string, seq<QuizQuestion>>)
      modifies this
      ensures selectedPack != "" ==> questions == MergedQuestions(base, Contents(), selectedPack)
      ensures selectedPack == "" ==> questions == old(questions)
      ensures selectedPack == old(selectedPack) && customQuestions == old(customQuestions) && stored == old(stored)
      ensures editingQuestion == old(editingQuestion) && isAddingNew == old(isAddingNew)
    {
      if selectedPack != "" {
        questions := Get(base, selectedPack) + Get(Contents(), selectedPack);
      }
    }

    /** "Add New Question". */
    method AddNew(now: nat, pack: Option<QuizPack>)
      modifies this
      ensures isAddingNew && editingQuestion == Some(NewQuestion(now, pack))
      ensures selectedPack == old(selectedPack) && questions == old(questions)
      ensures customQuestions == old(customQuestions) && stored == old(stored)
    {
      isAddingNew := true;
      editingQuestion := Some(NewQuestion(now, pack));
    }

    /** The edit button, offered only for custom questions; it leaves `isAddingNew` as it is. */
    method Edit(q: QuizQuestion)
      modifies this
      ensures editingQuestion == Some(q)
      ensures isAddingNew == old(isAddingNew) && selectedPack == old(selectedPack) && questions == old(questions)
      ensures customQuestions == old(customQuestions) && stored == old(stored)
    {
      editingQuestion := Some(q);
    }

    /** Cancel, or closing the dialog. */
    method CloseDialog()
      modifies this`editingQuestion, this`isAddingNew
      ensures editingQuestion.None? && !isAddingNew
    {
      editingQuestion := None;
      isAddingNew := false;
    }

    /**
     * `handleSaveQuestion`: the selected pack's list gets the question (replaced
     * by id or appended), in the same array object when the pack had one; no
     * other pack changes; the whole dictionary is stored and the dialog closes.
     */
    method HandleSaveQuestion(q: QuizQuestion)
      requires Valid()
      modifies this`customQuestions, this`stored, this`editingQuestion, this`isAddingNew, customQuestions.Values
      ensures Valid()
      ensures Contents() == SaveInto(old(Contents()), selectedPack, q)
      ensures selectedPack in old(customQuestions) ==> customQuestions == old(customQuestions)
      ensures stored == Some(Contents())
      ensures editingQuestion.None? && !isAddingNew
      ensures selectedPack == old(selectedPack) && questions == old(questions)
    {
      SaveIntoPack(q);
      Store();
      CloseDialog();
    }

    /** The dictionary part of `handleSaveQuestion`: the pack's array, created if missing, gets the question, and the dictionary is stored. */
    method SaveIntoPack(q: QuizQuestion)
      requires Valid()
      modifies this`customQuestions, customQuestions.Values
      ensures Valid()
      ensures Contents() == SaveInto(old(Contents()), selectedPack, q)
      ensures selectedPack in old(customQuestions) ==> customQuestions == old(customQuestions)
    {
      var list := PackList();
      UpsertInPack(customQuestions, selectedPack, q);
    }

    /** `localStorage.setItem("custom-quiz-questions", JSON.stringify(updated))`. */
    method Store()
      modifies this`stored
      ensures stored == Some(Contents())
    {
      stored := Some(Contents());
    }

    /** `if (!updated[selectedPack]) updated[selectedPack] = []`, then the pack's array. */
    method PackList() returns (list: QuestionList)
      requires Valid()
      modifies this`customQuestions
      ensures Valid()
      ensures selectedPack in customQuestions && list == customQuestions[selectedPack]
      ensures list in old(customQuestions.Values) || fresh(list)
      ensures Contents() == old(Contents())[selectedPack := Get(old(Contents()), selectedPack)]
      ensures selectedPack in old(customQuestions) ==> customQuestions == old(customQuestions)
    {
      if selectedPack in customQuestions {
        list := customQuestions[selectedPack];
      } else {
        list := new QuestionList([]);
        customQuestions := customQuestions[selectedPack := list];
      }
    }

    /**
     * `handleDeleteQuestion`: when the selected pack has a custom list, it is
     * replaced by a new array without that id and the dictionary is stored;
     * otherwise nothing happens.
     */
    method HandleDeleteQuestion(id: string)
      requires Valid()
      modifies this`customQuestions, this`stored
      ensures Valid()
      ensures selectedPack in old(customQuestions) ==>
                Contents() == DeleteFrom(old(Contents()), selectedPack, id)
      ensures selectedPack in old(customQuestions) ==> stored == Some(Contents())
      ensures selectedPack !in old(customQuestions) ==> customQuestions == old(customQuestions) && stored == old(stored)
      ensures selectedPack == old(selectedPack) && questions == old(questions)
      ensures editingQuestion == old(editingQuestion) && isAddingNew == old(isAddingNew)
    {
      if selectedPack in customQuestions {
        var list := new QuestionList(RemoveById(customQuestions[selectedPack].items, id));
        customQuestions := customQuestions[selectedPack := list];
        Store();
      }
    }
  }

  /** After saving, the saved question is offered for edit and delete in its pack. */
  lemma SavedQuestionIsEditable(custom: map<string, seq<QuizQuestion>>, pack: string, q: QuizQuestion)
    ensures OffersEdit(custom[pack := UpsertById(Get(custom, pack), q)], pack, q.id)
  {
  }

  /** After deleting, no question with that id is offered for edit in the pack. */
  lemma DeletedQuestionNotEditable(custom: map<string, seq<QuizQuestion>>, pack: string, id: string)
    requires pack in custom
    ensures !OffersEdit(custom[pack := RemoveById(custom[pack], id)], pack, id)
  {
  }
}
