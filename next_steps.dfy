/**
 * The recommended-actions card (components/analyze/next-steps.tsx): the
 * analysis's next steps, or four defaults, grouped by priority into high,
 * medium and low lists whose rows carry ids numbered across the groups, and
 * a check mark per row id that a click toggles.
 */
module NextSteps {
  import opened Wrappers
  import opened Seqs
  import opened JsStrings
  import Types

  /** An action as the card receives it: the priority is whatever text the analysis carried. */
  datatype ActionItem = ActionItem(title: string, description: string, priority: string)

  /** A well-typed next step, as an action item. */
  function FromNextStep(s: Types.NextStep): (a: ActionItem)
    ensures Recognised(a.priority)
  {
    ActionItem(s.title, s.description, Types.LevelName(s.priority))
  }

  const DefaultActions: seq<ActionItem> := [
    ActionItem("Keep a copy of the document safe", "Store it securely for reference", "high"),
    ActionItem("Note any deadlines mentioned", "Mark important dates on your calendar", "high"),
    ActionItem("Verify all details are correct", "Check names, dates, and other information", "medium"),
    ActionItem("Gather required documents", "Collect any supporting documents you may need", "medium")
  ]

  /** `steps && steps.length > 0 ? steps : defaultActions`; `None` is an absent list. */
  function ActionItems(steps: Option<seq<ActionItem>>): (items: seq<ActionItem>)
    ensures steps.Some? && |steps.value| > 0 ==> items == steps.value
    ensures steps.None? || steps.value == [] ==> items == DefaultActions
    ensures |items| > 0
  {
    if steps.Some? && |steps.value| > 0 then steps.value else DefaultActions
  }

  /** One of the three priorities the card has a group for. */
  predicate Recognised(priority: string) {
    priority == "high" || priority == "medium" || priority == "low"
  }

  /** The group of one priority, in the order of the list. */
  function WithPriority(items: seq<ActionItem>, level: string): (group: seq<ActionItem>)
    ensures IsSubseq(group, items)
    ensures forall x :: x in group <==> x in items && x.priority == level
  {
    Filter(items, (x: ActionItem) => x.priority == level)
  }

  /** The actions that fall in no group. */
  function Unrecognised(items: seq<ActionItem>): (rest: seq<ActionItem>)
    ensures forall x :: x in rest <==> x in items && !Recognised(x.priority)
  {
    Filter(items, (x: ActionItem) => !Recognised(x.priority))
  }

  /** Every action lands in exactly one group or in none: the group sizes and the ungrouped count add up to the list. */
  lemma {:induction false} GroupSizesAddUp(items: seq<ActionItem>)
    ensures |WithPriority(items, "high")| + |WithPriority(items, "medium")| + |WithPriority(items, "low")|
            + |Unrecognised(items)| == |items|
    decreases |items|
  {
    if items != [] {
      GroupSizesAddUp(items[1..]);
    }
  }

  /** With only recognised priorities, the three groups together hold every action. */
  lemma GroupsCoverRecognised(items: seq<ActionItem>)
    requires forall x :: x in items ==> Recognised(x.priority)
    ensures |WithPriority(items, "high")| + |WithPriority(items, "medium")| + |WithPriority(items, "low")| == |items|
  {
    GroupSizesAddUp(items);
    FilterKeepsNone(items, (x: ActionItem) => !Recognised(x.priority));
  }

  /** The fallback card shows when all three groups are empty. */
  predicate FallbackShown(items: seq<ActionItem>) {
    |WithPriority(items, "high")| == 0 && |WithPriority(items, "medium")| == 0 && |WithPriority(items, "low")| == 0
  }

  /** The fallback card shows exactly when no action has a recognised priority. */
  lemma FallbackIffNoneRecognised(items: seq<ActionItem>)
    ensures FallbackShown(items) <==> forall x :: x in items ==> !Recognised(x.priority)
  {
    if !FallbackShown(items) {
      var g := if |WithPriority(items, "high")| > 0 then WithPriority(items, "high")
               else if |WithPriority(items, "medium")| > 0 then WithPriority(items, "medium")
               else WithPriority(items, "low");
      assert g[0] in g;
    }
  }

  /** The defaults make two high-priority actions followed by two medium-priority ones. */
  lemma DefaultGroups()
    ensures WithPriority(DefaultActions, "high") == DefaultActions[..2]
    ensures WithPriority(DefaultActions, "medium") == DefaultActions[2..]
    ensures WithPriority(DefaultActions, "low") == []
  {
    var first, second := DefaultActions[..2], DefaultActions[2..];
    assert DefaultActions == first + second;
    assert forall x :: x in first ==> x.priority == "high";
    assert forall x :: x in second ==> x.priority == "medium";
    SplitGroups(first, second, "high", "medium");
  }

  /** Two runs of different priorities group as themselves. */
  lemma SplitGroups(first: seq<ActionItem>, second: seq<ActionItem>, p: string, q: string)
    requires p != q && q != "low" && p != "low"
    requires forall x :: x in first ==> x.priority == p
    requires forall x :: x in second ==> x.priority == q
    ensures WithPriority(first + second, p) == first
    ensures WithPriority(first + second, q) == second
    ensures WithPriority(first + second, "low") == []
  {
    var isP, isQ, isLow := (x: ActionItem) => x.priority == p, (x: ActionItem) => x.priority == q, (x: ActionItem) => x.priority == "low";
    FilterConcat(first, second, isP);
    FilterConcat(first, second, isQ);
    FilterKeepsAll(first, isP);
    FilterKeepsNone(second, isP);
    FilterKeepsNone(first, isQ);
    FilterKeepsAll(second, isQ);
    FilterKeepsNone(first + second, isLow);
  }

  /** A rendered row: its id and its action. */
  datatype Row = Row(id: string, item: ActionItem)

  /** `renderActionItems(items, startIndex)`: ids count on from `startIndex`. */
  function RenderActionItems(items: seq<ActionItem>, startIndex: nat): (rows: seq<Row>)
    ensures |rows| == |items|
    ensures forall i :: 0 <= i < |rows| ==> rows[i].item == items[i] && rows[i].id == NatToString(startIndex + i)
  {
    seq(|items|, i requires 0 <= i < |items| => Row(NatToString(startIndex + i), items[i]))
  }

  /** The rows of the three cards, high first, each group starting where the earlier groups stop. */
  function AllRows(items: seq<ActionItem>): seq<Row> {
    RowsOf(WithPriority(items, "high"), WithPriority(items, "medium"), WithPriority(items, "low"))
  }

  function RowsOf(high: seq<ActionItem>, medium: seq<ActionItem>, low: seq<ActionItem>): seq<Row> {
    RenderActionItems(high, 0) + RenderActionItems(medium, |high|) + RenderActionItems(low, |high| + |medium|)
  }

  /** The id of a row is its position across all three cards. */
  lemma RowIdIsPosition(items: seq<ActionItem>)
    ensures forall k :: 0 <= k < |AllRows(items)| ==> AllRows(items)[k].id == NatToString(k)
  {
    var rows := AllRows(items);
    RowsNumbered(WithPriority(items, "high"), WithPriority(items, "medium"), WithPriority(items, "low"));
    forall k | 0 <= k < |rows|
      ensures rows[k].id == NatToString(k)
    {
      assert 0 + k == k;
    }
  }

  lemma RowsNumbered(high: seq<ActionItem>, medium: seq<ActionItem>, low: seq<ActionItem>)
    ensures NumberedFrom(RowsOf(high, medium, low), 0)
  {
    var a, b, c := RenderActionItems(high, 0), RenderActionItems(medium, |high|), RenderActionItems(low, |high| + |medium|);
    RenderedNumbered(high, 0);
    RenderedNumbered(medium, |high|);
    RenderedNumbered(low, |high| + |medium|);
    NumberedThree(a, b, c);
  }

  /** Three runs, each numbered on from where the previous one stops, are numbered throughout. */
  lemma NumberedThree(a: seq<Row>, b: seq<Row>, c: seq<Row>)
    requires NumberedFrom(a, 0) && NumberedFrom(b, |a|) && NumberedFrom(c, |a| + |b|)
    ensures NumberedFrom(a + b + c, 0)
  {
    NumberedConcat(a, b, 0);
    NumberedConcat(a + b, c, 0);
  }

  lemma RenderedNumbered(items: seq<ActionItem>, start: nat)
    ensures NumberedFrom(RenderActionItems(items, start), start)
  {
  }

  /** Rows numbered on from `start`. */
  predicate NumberedFrom(rows: seq<Row>, start: nat) {
    forall i :: 0 <= i < |rows| ==> rows[i].id == NatToString(start + i)
  }

  /** A numbered run followed by a run numbered on from its end is numbered throughout. */
  lemma NumberedConcat(a: seq<Row>, b: seq<Row>, start: nat)
    requires NumberedFrom(a, start) && NumberedFrom(b, start + |a|)
    ensures NumberedFrom(a + b, start)
  {
    forall i | 0 <= i < |a + b|
      ensures (a + b)[i].id == NatToString(start + i)
    {
      if i >= |a| {
        assert (a + b)[i] == b[i - |a|];
      }
    }
  }

  /** No two rows share an id, so a check mark belongs to one row. */
  lemma RowIdsUnique(items: seq<ActionItem>)
    ensures forall i, j :: 0 <= i < j < |AllRows(items)| ==> AllRows(items)[i].id != AllRows(items)[j].id
  {
    RowIdIsPosition(items);
    forall i, j | 0 <= i < j < |AllRows(items)|
      ensures AllRows(items)[i].id != AllRows(items)[j].id
    {
      NatToStringInjective(i, j);
    }
  }

  class NextStepsCard {
    /** The ids of the checked rows, in the order they were checked. */
    var checkedItems: seq<string>

    constructor()
      ensures checkedItems == []
    {
      checkedItems := [];
    }

    predicate IsChecked(id: string)
      reads this`checkedItems
    {
      id in checkedItems
    }

    /** `toggleItem`: drop the id if present, else append it. */
    method ToggleItem(id: string)
      modifies this`checkedItems
      ensures checkedItems == Toggle(old(checkedItems), id)
      ensures IsChecked(id) <==> !old(IsChecked(id))
      ensures forall other :: other != id ==> (IsChecked(other) <==> old(IsChecked(other)))
    {
      checkedItems := Toggle(checkedItems, id);
    }
  }

  /** Two clicks on the same row restore every row's mark. */
  method ToggleTwice(card: NextStepsCard, id: string)
    modifies card`checkedItems
    ensures forall x :: card.IsChecked(x) <==> old(card.IsChecked(x))
    ensures id !in old(card.checkedItems) ==> card.checkedItems == old(card.checkedItems)
  {
    card.ToggleItem(id);
    card.ToggleItem(id);
    if id !in old(card.checkedItems) {
      ToggleTwiceAbsent(old(card.checkedItems), id);
    }
  }
}
