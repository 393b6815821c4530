/** The checklists page: joining a run's template items with its run items,
    ticking an item, the progress bar, the completion button and the tabs. */
module ChecklistsPage {

  import opened Common
  import opened Types
  import Utils

  /** A template item of a checklist. */
  datatype Item = Item(id: string, title: string, required: bool)

  /** A stored run item: whether the item was ticked in this run. */
  datatype StoredRunItem = StoredRunItem(itemId: string, checked: bool)

  /** The run item attached to a displayed item. One created by ticking on the
      page carries no item id (it spreads an absent run item). */
  datatype RunItem = RunItem(itemId: Option<string>, checked: bool)

  datatype DisplayItem = DisplayItem(item: Item, runItem: Option<RunItem>)

  /** A checklist run as the page holds it. */
  datatype Run = Run(
    id: string,
    status: ChecklistStatus,
    dueDate: Option<int>,
    items: seq<DisplayItem>,
    totalItems: nat,
    completedItems: nat,
    isOverdue: bool)

  // ---------------------------------------------------------------------------
  // Loading a run
  // ---------------------------------------------------------------------------

  /** `new Map(runItems.map(ri => [ri.item_id, ri])).get(id)`: the last stored run
      item with that item id, since a later entry overwrites an earlier one. */
  function LastFor(runItems: seq<StoredRunItem>, id: string): (r: Option<StoredRunItem>)
    ensures r.Some? ==> r.value in runItems && r.value.itemId == id
    ensures r.None? <==> forall k :: 0 <= k < |runItems| ==> runItems[k].itemId != id
    ensures r.Some? ==> exists k :: 0 <= k < |runItems| && runItems[k] == r.value &&
                          forall m :: k < m < |runItems| ==> runItems[m].itemId != id
    decreases |runItems|
  {
    if runItems == [] then None
    else
      var last := runItems[|runItems| - 1];
      var init := runItems[..|runItems| - 1];
      if last.itemId == id then Some(last)
      else
        var r := LastFor(init, id);
        assert forall k :: 0 <= k < |init| ==> init[k] == runItems[k];
        r
  }

  function Attach(items: seq<Item>, runItems: seq<StoredRunItem>): (r: seq<DisplayItem>)
    ensures |r| == |items|
    ensures forall j :: 0 <= j < |items| ==> r[j].item == items[j]
    ensures forall j :: 0 <= j < |items| ==>
      r[j].runItem == match LastFor(runItems, items[j].id)
                      case None => None
                      case Some(ri) => Some(RunItem(Some(ri.itemId), ri.checked))
  {
    seq(|items|, j requires 0 <= j < |items| =>
      DisplayItem(items[j], match LastFor(runItems, items[j].id)
                            case None => None
                            case Some(ri) => Some(RunItem(Some(ri.itemId), ri.checked))))
  }

  /** The run as `fetchData` builds it from the run row, the template items and
      the stored run items (a failed query gives `None`), at clock reading `now`. */
  function BuildRun(id: string, status: ChecklistStatus, dueDate: Option<int>,
                    items: Option<seq<Item>>, runItems: Option<seq<StoredRunItem>>, now: int): (r: Run)
    ensures r.totalItems == (if items.Some? then |items.value| else 0)
    ensures r.totalItems == |r.items|
    ensures r.completedItems == (if runItems.Some? then |Filter(runItems.value, (ri: StoredRunItem) => ri.checked)| else 0)
    ensures r.isOverdue <==> Utils.IsOverdue(dueDate, Some(ChecklistStatusName(status)), now)
    ensures forall j :: 0 <= j < |r.items| ==>
      (r.items[j].item == items.value[j] &&
       (r.items[j].runItem.Some? <==>
          exists k :: 0 <= k < |runItems.GetOr([])| && runItems.GetOr([])[k].itemId == items.value[j].id))
  {
    var rows := runItems.GetOr([]);
    var attached := if items.Some? then Attach(items.value, rows) else [];
    Run(id, status, dueDate, attached,
        if items.Some? then |items.value| else 0,
        if runItems.Some? then |Filter(runItems.value, (ri: StoredRunItem) => ri.checked)| else 0,
        Utils.IsOverdue(dueDate, Some(ChecklistStatusName(status)), now))
  }

  // ---------------------------------------------------------------------------
  // Ticking an item
  // ---------------------------------------------------------------------------

  predicate IsChecked(d: DisplayItem) {
    d.runItem.Some? && d.runItem.value.checked
  }

  function CheckedCount(items: seq<DisplayItem>): nat {
    |Filter(items, IsChecked)|
  }

  /** `{ ...item.runItem, checked }`. */
  function Ticked(d: DisplayItem, checked: bool): (r: DisplayItem)
    ensures r.item == d.item && IsChecked(r) == checked
  {
    var itemId := if d.runItem.Some? then d.runItem.value.itemId else None;
    DisplayItem(d.item, Some(RunItem(itemId, checked)))
  }

  function TickItems(items: seq<DisplayItem>, itemId: string, checked: bool): (r: seq<DisplayItem>)
    ensures |r| == |items|
    ensures forall j :: 0 <= j < |items| && items[j].item.id != itemId ==> r[j] == items[j]
    ensures forall j :: 0 <= j < |items| && items[j].item.id == itemId ==> r[j] == Ticked(items[j], checked)
  {
    seq(|items|, j requires 0 <= j < |items| =>
      if items[j].item.id == itemId then Ticked(items[j], checked) else items[j])
  }

  /** The state updater of `handleItemCheck`. */
  function CheckItem(runs: seq<Run>, runId: string, itemId: string, checked: bool): (r: seq<Run>)
    ensures |r| == |runs|
    ensures forall i :: 0 <= i < |runs| && runs[i].id != runId ==> r[i] == runs[i]
    ensures forall i :: 0 <= i < |runs| && runs[i].id == runId ==>
      var items := TickItems(runs[i].items, itemId, checked);
      r[i] == runs[i].(items := items, completedItems := CheckedCount(items))
  {
    seq(|runs|, i requires 0 <= i < |runs| =>
      if runs[i].id == runId then
        var items := TickItems(runs[i].items, itemId, checked);
        runs[i].(items := items, completedItems := CheckedCount(items))
      else runs[i])
  }

  /** After the update, the run's item with that id has the new value, and its
      count is the number of its items now ticked. */
  lemma CheckItemSetsItem(runs: seq<Run>, runId: string, itemId: string, checked: bool, i: nat, j: nat)
    requires i < |runs| && runs[i].id == runId
    requires j < |runs[i].items| && runs[i].items[j].item.id == itemId
    ensures IsChecked(CheckItem(runs, runId, itemId, checked)[i].items[j]) == checked
    ensures CheckItem(runs, runId, itemId, checked)[i].completedItems ==
            CheckedCount(CheckItem(runs, runId, itemId, checked)[i].items)
  {
  }

  /** Ticking the same item twice to the same value is the same as ticking it
      once. */
  lemma CheckItemIdempotent(runs: seq<Run>, runId: string, itemId: string, checked: bool)
    ensures CheckItem(CheckItem(runs, runId, itemId, checked), runId, itemId, checked) ==
            CheckItem(runs, runId, itemId, checked)
  {
    var once := CheckItem(runs, runId, itemId, checked);
    var twice := CheckItem(once, runId, itemId, checked);
    forall i | 0 <= i < |runs| ensures twice[i] == once[i] {
      if runs[i].id == runId {
        var items := TickItems(runs[i].items, itemId, checked);
        assert TickItems(items, itemId, checked) == items;
      }
    }
  }

  lemma {:induction false} CountPointwise(a: seq<DisplayItem>, b: seq<DisplayItem>)
    requires |a| == |b|
    requires forall j :: 0 <= j < |a| && IsChecked(a[j]) ==> IsChecked(b[j])
    ensures CheckedCount(a) <= CheckedCount(b)
  {
    if a != [] {
      CountPointwise(a[1..], b[1..]);
      assert a == [a[0]] + a[1..];
      assert b == [b[0]] + b[1..];
    }
  }

  /** Ticking never lowers a run's count, and unticking never raises it. */
  lemma CheckItemMonotone(items: seq<DisplayItem>, itemId: string, checked: bool)
    ensures checked ==> CheckedCount(items) <= CheckedCount(TickItems(items, itemId, checked))
    ensures !checked ==> CheckedCount(TickItems(items, itemId, checked)) <= CheckedCount(items)
  {
    var t := TickItems(items, itemId, checked);
    if checked {
      CountPointwise(items, t);
    } else {
      CountPointwise(t, items);
    }
  }

  /** Ticking every item of a run makes its count its number of items. */
  lemma AllTickedCount(items: seq<DisplayItem>)
    requires forall j :: 0 <= j < |items| ==> IsChecked(items[j])
    ensures CheckedCount(items) == |items|
  {
    FilterKeepsAll(items, IsChecked);
  }

  // ---------------------------------------------------------------------------
  // Progress and the completion button
  // ---------------------------------------------------------------------------

  /** `total ? Math.round(completed / total * 100) : 0`, rounding half up, on
      exact rationals. */
  function Progress(completed: nat, total: nat): (r: nat)
    ensures total == 0 ==> r == 0
    ensures total > 0 ==> 2 * total * r <= 200 * completed + total < 2 * total * (r + 1)
  {
    if total == 0 then 0 else (200 * completed + total) / (2 * total)
  }

  /** Progress stays within 0..100, is 0 with nothing done and 100 with
      everything done. */
  lemma ProgressBounds(completed: nat, total: nat)
    requires completed <= total
    ensures Progress(completed, total) <= 100
    ensures completed == 0 ==> Progress(completed, total) == 0
    ensures total > 0 && completed == total ==> Progress(completed, total) == 100
  {
    if total > 0 {
      var r, k := Progress(completed, total), 2 * total;
      assert r * k <= 200 * completed + total;
      assert 200 * completed + total < 101 * k;
      Utils.MulCancel(r, 101, k);
      if completed == total {
        assert 100 * k <= 200 * completed + total;
        assert 200 * completed + total < (r + 1) * k;
        Utils.MulCancel(100, r + 1, k);
      }
    }
  }

  /** The button of the card as written: for an unfinished run whose rounded
      progress is 100. */
  predicate CompleteButtonAsWritten(run: Run) {
    run.status != ChecklistStatus.Completed && Progress(run.completedItems, run.totalItems) == 100
  }

  /** Rounding lets the button appear with an item still unticked: in a run of
      200 or more items with a single item left, the progress rounds to 100. */
  lemma CompleteButtonBeforeAllTicked(run: Run, j: nat)
    requires run.status != ChecklistStatus.Completed
    requires run.totalItems == |run.items| >= 200 && run.completedItems == CheckedCount(run.items)
    requires j < |run.items| && !IsChecked(run.items[j])
    requires forall k :: 0 <= k < |run.items| && k != j ==> IsChecked(run.items[k])
    ensures CompleteButtonAsWritten(run)
  {
    CountAllButOne(run.items, j);
    ProgressOneShort(run.totalItems);
  }

  lemma CountAllButOne(s: seq<DisplayItem>, j: nat)
    requires j < |s| && !IsChecked(s[j])
    requires forall k :: 0 <= k < |s| && k != j ==> IsChecked(s[k])
    ensures CheckedCount(s) == |s| - 1
  {
    assert s == s[..j] + [s[j]] + s[j + 1..];
    FilterAppend(s[..j] + [s[j]], s[j + 1..], IsChecked);
    FilterAppend(s[..j], [s[j]], IsChecked);
    FilterKeepsAll(s[..j], IsChecked);
    FilterKeepsAll(s[j + 1..], IsChecked);
    FilterKeepsNone([s[j]], IsChecked);
  }

  lemma ProgressOneShort(t: nat)
    requires t >= 200
    ensures Progress(t - 1, t) == 100
  {
    var r, k := Progress(t - 1, t), 2 * t;
    assert r * k <= 200 * (t - 1) + t < (r + 1) * k;
    assert 100 * k <= 200 * (t - 1) + t < 101 * k;
    Utils.MulCancel(r, 101, k);
    Utils.MulCancel(100, r + 1, k);
  }

  /** Below 200 items, a run with one item left shows at most 99. */
  lemma ProgressOneShortBelow200(t: nat)
    requires 1 <= t < 200
    ensures Progress(t - 1, t) <= 99
  {
    var r, k := Progress(t - 1, t), 2 * t;
    assert r * k <= 200 * (t - 1) + t < 100 * k;
    Utils.MulCancel(r, 100, k);
  }

  /** The smallest such run: 199 of 200 items is exactly 99.5 %, which rounds up
      to 100; 198 of 199 (99.497... %) still shows 99. */
  lemma CompleteButtonAt200()
    ensures Progress(199, 200) == 100
    ensures Progress(198, 199) == 99
  {
  }

  /** The intended button: an unfinished run with every item ticked. */
  predicate CompleteButton(run: Run) {
    run.status != ChecklistStatus.Completed && run.totalItems > 0 && run.completedItems >= run.totalItems
  }

  /** When the counts describe the run's items, the intended button shows only
      once every item is ticked, and then the progress bar reads 100. */
  lemma CompleteButtonMeansAllTicked(run: Run)
    requires run.totalItems == |run.items| && run.completedItems == CheckedCount(run.items)
    requires CompleteButton(run)
    ensures forall j :: 0 <= j < |run.items| ==> IsChecked(run.items[j])
    ensures Progress(run.completedItems, run.totalItems) == 100
  {
    FilterFullLength(run.items, IsChecked);
    ProgressBounds(run.completedItems, run.totalItems);
  }

  /** The intended button never shows where the written one does not. */
  lemma CompleteButtonNarrower(run: Run)
    requires run.completedItems <= run.totalItems
    ensures CompleteButton(run) ==> CompleteButtonAsWritten(run)
  {
    ProgressBounds(run.completedItems, run.totalItems);
  }

  // ---------------------------------------------------------------------------
  // Lists
  // ---------------------------------------------------------------------------

  function ActiveRuns(runs: seq<Run>): (r: seq<Run>)
    ensures forall i :: 0 <= i < |r| ==> r[i].status != ChecklistStatus.Completed
  {
    Filter(runs, (c: Run) => c.status != ChecklistStatus.Completed)
  }

  function CompletedRuns(runs: seq<Run>): (r: seq<Run>)
    ensures forall i :: 0 <= i < |r| ==> r[i].status == ChecklistStatus.Completed
  {
    Filter(runs, (c: Run) => c.status == ChecklistStatus.Completed)
  }

  /** The two tabs split the runs. */
  lemma TabsPartition(runs: seq<Run>)
    ensures |ActiveRuns(runs)| + |CompletedRuns(runs)| == |runs|
    ensures multiset(ActiveRuns(runs)) + multiset(CompletedRuns(runs)) == multiset(runs)
  {
    FilterPartition(runs, (c: Run) => c.status != ChecklistStatus.Completed,
                          (c: Run) => c.status == ChecklistStatus.Completed);
  }

  /** The card lists the first three items and, when there are more, "+n". */
  function Preview(items: seq<DisplayItem>): (r: seq<DisplayItem>)
    ensures |r| <= 3 && |r| <= |items| && r == items[..|r|]
  {
    Take(items, 3)
  }

  function MoreCount(items: seq<DisplayItem>): (r: Option<nat>)
    ensures r.Some? ==> r.value > 0
  {
    if |items| > 3 then Some(|items| - 3) else None
  }

  /** The preview and the "+n" line account for every item. */
  lemma PreviewAccountsForAll(items: seq<DisplayItem>)
    ensures |Preview(items)| + MoreCount(items).GetOr(0) == |items|
  {
  }

  // ---------------------------------------------------------------------------
  // Page state
  // ---------------------------------------------------------------------------

  /** The row written when an item is ticked. */
  datatype Upsert = Upsert(runId: string, itemId: string, checked: bool, updatedBy: string, updatedAt: int)

  /** The row update written when a run is completed. */
  datatype Completion = Completion(runId: string, status: ChecklistStatus, completedAt: int)

  class ChecklistsPageState {
    var runs: seq<Run>

    constructor()
      ensures runs == []
    {
      runs := [];
    }

    /** `handleItemCheck`: with no user nothing is written; when the write fails
        the list is unchanged; otherwise the list is updated locally. */
    method HandleItemCheck(user: Option<string>, writeFails: bool, runId: string, itemId: string,
                           checked: bool, now: int) returns (written: Option<Upsert>)
      modifies this
      ensures user.None? <==> written.None?
      ensures user.Some? ==> written == Some(Upsert(runId, itemId, checked, user.value, now))
      ensures runs == if user.Some? && !writeFails then CheckItem(old(runs), runId, itemId, checked) else old(runs)
    {
      if user.None? {
        return None;
      }
      written := Some(Upsert(runId, itemId, checked, user.value, now));
      if writeFails {
        return;
      }
      runs := CheckItem(runs, runId, itemId, checked);
    }

    /** `handleComplete`: the run is marked completed; on success the list is
        reloaded (`reloaded`), on failure it is kept. */
    method HandleComplete(runId: string, writeFails: bool, now: int, reloaded: seq<Run>) returns (written: Completion)
      modifies this
      ensures written == Completion(runId, ChecklistStatus.Completed, now)
      ensures runs == if writeFails then old(runs) else reloaded
    {
      written := Completion(runId, ChecklistStatus.Completed, now);
      if !writeFails {
        runs := reloaded;
      }
    }
  }
}
