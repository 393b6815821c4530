/** The director's dashboard: the task-by-type pie (a reducer that sums the
    counts of each type), the per-branch checklist bars, the certification split
    and the colour of each pie slice. */
module DirectorDashboard {

  import opened Common

  /** A row of the tasks-by-type view; `count` is `None` for a null column. */
  datatype TaskStat = TaskStat(kind: string, count: Option<int>)

  /** A slice of the task pie. */
  datatype Slice = Slice(name: string, count: int)

  /** A null count contributes nothing (`null` is 0 in JavaScript arithmetic). */
  function CountOf(s: TaskStat): int {
    s.count.GetOr(0)
  }

  function Kinds(stats: seq<TaskStat>): (r: seq<string>)
    ensures |r| == |stats|
    ensures forall i :: 0 <= i < |stats| ==> r[i] == stats[i].kind
  {
    seq(|stats|, i requires 0 <= i < |stats| => stats[i].kind)
  }

  function Names(slices: seq<Slice>): (r: seq<string>)
    ensures |r| == |slices|
    ensures forall i :: 0 <= i < |slices| ==> r[i] == slices[i].name
  {
    seq(|slices|, i requires 0 <= i < |slices| => slices[i].name)
  }

  /** The sum of the counts of the rows of one type. */
  function TotalFor(stats: seq<TaskStat>, kind: string): int
    decreases |stats|
  {
    if stats == [] then 0
    else
      var init, last := stats[..|stats| - 1], stats[|stats| - 1];
      TotalFor(init, kind) + (if last.kind == kind then CountOf(last) else 0)
  }

  /** The sum of all counts. */
  function TotalCount(stats: seq<TaskStat>): int
    decreases |stats|
  {
    if stats == [] then 0
    else TotalCount(stats[..|stats| - 1]) + CountOf(stats[|stats| - 1])
  }

  /** `acc.find(a => a.name === name)`, as the index of the first such slice. */
  function FindSlice(slices: seq<Slice>, name: string): (r: Option<nat>)
    ensures r.Some? ==> r.value < |slices| && slices[r.value].name == name &&
                        forall j :: 0 <= j < r.value ==> slices[j].name != name
    ensures r.None? <==> forall j :: 0 <= j < |slices| ==> slices[j].name != name
    decreases |slices|
  {
    if slices == [] then None
    else if slices[0].name == name then Some(0)
    else
      match FindSlice(slices[1..], name)
      case None => None
      case Some(k) => Some(k + 1)
  }

  /** One push of the reducer: the row's count is added to the slice of its type,
      or a new slice is appended for a type not seen before. */
  function Push(data: seq<Slice>, item: TaskStat): seq<Slice> {
    match FindSlice(data, item.kind)
    case Some(k) => data[k := data[k].(count := data[k].count + CountOf(item))]
    case None => data + [Slice(item.kind, CountOf(item))]
  }

  /** The reducer's accumulator after the given rows. */
  function Reduced(stats: seq<TaskStat>): seq<Slice>
    decreases |stats|
  {
    if stats == [] then [] else Push(Reduced(stats[..|stats| - 1]), stats[|stats| - 1])
  }

  /** `taskTypeData`: the reducer run over the rows. */
  method TaskTypeData(stats: seq<TaskStat>) returns (data: seq<Slice>)
    ensures data == Reduced(stats)
    ensures Names(data) == FirstOccurrences(Kinds(stats))
    ensures forall j :: 0 <= j < |data| ==> data[j].count == TotalFor(stats, data[j].name)
  {
    data := [];
    var i := 0;
    while i < |stats|
      invariant 0 <= i <= |stats|
      invariant data == Reduced(stats[..i])
    {
      var item := stats[i];
      var existing := FindSlice(data, item.kind);
      if existing.Some? {
        var k := existing.value;
        data := data[k := data[k].(count := data[k].count + CountOf(item))];
      } else {
        data := data + [Slice(item.kind, item.count.GetOr(0))];
      }
      assert stats[..i + 1][..i] == stats[..i];
      i := i + 1;
    }
    assert stats[..|stats|] == stats;
    ReducedSlices(stats);
  }

  /** The accumulator has one slice per distinct type, in order of first
      occurrence, each carrying the sum of that type's counts. */
  lemma {:induction false} ReducedSlices(stats: seq<TaskStat>)
    ensures Names(Reduced(stats)) == FirstOccurrences(Kinds(stats))
    ensures forall j :: 0 <= j < |Reduced(stats)| ==> Reduced(stats)[j].count == TotalFor(stats, Reduced(stats)[j].name)
    decreases |stats|
  {
    if stats != [] {
      var prefix, x := stats[..|stats| - 1], stats[|stats| - 1];
      assert stats == prefix + [x];
      ReducedSlices(prefix);
      var data0, data := Reduced(prefix), Reduced(stats);
      assert data == Push(data0, x);
      assert Distinct(Names(data0));
      if FindSlice(data0, x.kind).Some? {
        SliceGrows(prefix, x, data0, data);
      } else {
        SliceJoins(prefix, x, data0, data);
      }
      KindsExtend(prefix, x);
      FirstOccurrencesExtend(Kinds(prefix), x.kind);
    }
  }

  lemma KindsExtend(prefix: seq<TaskStat>, x: TaskStat)
    ensures Kinds(prefix + [x]) == Kinds(prefix) + [x.kind]
  {
  }

  /** Pushing a row adds its count to the running sum of its own type only. */
  lemma TotalForExtend(prefix: seq<TaskStat>, x: TaskStat, kind: string)
    ensures TotalFor(prefix + [x], kind) == TotalFor(prefix, kind) + (if x.kind == kind then CountOf(x) else 0)
  {
    assert (prefix + [x])[..|prefix|] == prefix;
  }

  /** A row of a type already in the pie adds its count to that slice. */
  lemma SliceGrows(prefix: seq<TaskStat>, x: TaskStat, data0: seq<Slice>, data: seq<Slice>)
    requires Distinct(Names(data0))
    requires forall j :: 0 <= j < |data0| ==> data0[j].count == TotalFor(prefix, data0[j].name)
    requires FindSlice(data0, x.kind).Some? && data == Push(data0, x)
    ensures x.kind in Names(data0) && Names(data) == Names(data0)
    ensures forall j :: 0 <= j < |data| ==> data[j].count == TotalFor(prefix + [x], data[j].name)
  {
    var k := FindSlice(data0, x.kind).value;
    var names0 := Names(data0);
    assert names0[k] == x.kind;
    assert Names(data) == names0 by {
      assert forall j :: 0 <= j < |data| ==> Names(data)[j] == names0[j];
    }
    forall j | 0 <= j < |data|
      ensures data[j].count == TotalFor(prefix + [x], data[j].name)
    {
      TotalForExtend(prefix, x, data[j].name);
      if j != k {
        assert names0[j] != names0[k];
      }
    }
  }

  /** A row of a new type joins the pie as a slice of its own count. */
  lemma SliceJoins(prefix: seq<TaskStat>, x: TaskStat, data0: seq<Slice>, data: seq<Slice>)
    requires Names(data0) == FirstOccurrences(Kinds(prefix))
    requires forall j :: 0 <= j < |data0| ==> data0[j].count == TotalFor(prefix, data0[j].name)
    requires FindSlice(data0, x.kind).None? && data == Push(data0, x)
    ensures x.kind !in FirstOccurrences(Kinds(prefix))
    ensures Names(data) == Names(data0) + [x.kind]
    ensures forall j :: 0 <= j < |data| ==> data[j].count == TotalFor(prefix + [x], data[j].name)
  {
    var names0 := Names(data0);
    assert forall j :: 0 <= j < |names0| ==> names0[j] != x.kind;
    TotalForAbsent(prefix, x.kind);
    assert Names(data) == names0 + [x.kind] by {
      assert forall j :: 0 <= j < |data| ==> Names(data)[j] == (names0 + [x.kind])[j];
    }
    forall j | 0 <= j < |data|
      ensures data[j].count == TotalFor(prefix + [x], data[j].name)
    {
      TotalForExtend(prefix, x, data[j].name);
    }
  }

  /** A type no row has sums to 0. */
  lemma {:induction false} TotalForAbsent(stats: seq<TaskStat>, kind: string)
    requires kind !in Kinds(stats)
    ensures TotalFor(stats, kind) == 0
    decreases |stats|
  {
    if stats != [] {
      var init := stats[..|stats| - 1];
      assert Kinds(init) == Kinds(stats)[..|stats| - 1];
      TotalForAbsent(init, kind);
    }
  }

  /** The sum of the totals of the types in `order`. */
  function SumTotals(stats: seq<TaskStat>, order: seq<string>): int {
    if order == [] then 0 else TotalFor(stats, order[0]) + SumTotals(stats, order[1..])
  }

  lemma {:induction false} SumTotalsExtend(stats: seq<TaskStat>, x: TaskStat, order: seq<string>)
    requires Distinct(order)
    ensures SumTotals(stats + [x], order) ==
            SumTotals(stats, order) + (if x.kind in order then CountOf(x) else 0)
  {
    if order != [] {
      DistinctTail(order);
      SumTotalsExtend(stats, x, order[1..]);
      assert (stats + [x])[..|stats + [x]| - 1] == stats;
      assert x.kind in order <==> x.kind == order[0] || x.kind in order[1..] by {
        assert order == [order[0]] + order[1..];
      }
    }
  }

  lemma {:induction false} SumTotalsAppend(stats: seq<TaskStat>, order: seq<string>, k: string)
    ensures SumTotals(stats, order + [k]) == SumTotals(stats, order) + TotalFor(stats, k)
  {
    if order != [] {
      assert (order + [k])[1..] == order[1..] + [k];
      SumTotalsAppend(stats, order[1..], k);
    } else {
      assert ([] + [k])[1..] == [];
    }
  }

  /** The pie shows every task once: its slices add up to the sum of all counts. */
  lemma {:induction false} SlicesCoverAll(stats: seq<TaskStat>)
    ensures SumTotals(stats, FirstOccurrences(Kinds(stats))) == TotalCount(stats)
    decreases |stats|
  {
    if stats != [] {
      var init, x := stats[..|stats| - 1], stats[|stats| - 1];
      assert stats == init + [x];
      SlicesCoverAll(init);
      var ks := FirstOccurrences(Kinds(init));
      assert Kinds(stats) == Kinds(init) + [x.kind];
      FirstOccurrencesExtend(Kinds(init), x.kind);
      SumTotalsExtend(init, x, ks);
      if x.kind !in ks {
        SumTotalsAppend(stats, ks, x.kind);
        TotalForAbsent(init, x.kind);
      }
    }
  }

  // ---------------------------------------------------------------------------
  // Checklist bars and certification split
  // ---------------------------------------------------------------------------

  /** A row of the branch statistics view. */
  datatype BranchStat = BranchStat(branchName: string, overdueChecklists: Option<int>, completedChecklists7d: Option<int>)

  datatype ChecklistBar = ChecklistBar(name: string, overdue: int, completed: int)

  /** `checklistData`: the bars of the first ten branches, nulls shown as 0. */
  function ChecklistData(branchStats: seq<BranchStat>): (r: seq<ChecklistBar>)
    ensures |r| == Min(|branchStats|, 10)
    ensures forall i :: 0 <= i < |r| ==>
      r[i].name == branchStats[i].branchName &&
      (branchStats[i].overdueChecklists.None? ==> r[i].overdue == 0) &&
      (branchStats[i].overdueChecklists.Some? ==> r[i].overdue == branchStats[i].overdueChecklists.value) &&
      (branchStats[i].completedChecklists7d.None? ==> r[i].completed == 0) &&
      (branchStats[i].completedChecklists7d.Some? ==> r[i].completed == branchStats[i].completedChecklists7d.value)
  {
    var bars := seq(|branchStats|, i requires 0 <= i < |branchStats| =>
      ChecklistBar(branchStats[i].branchName,
                   branchStats[i].overdueChecklists.GetOr(0),
                   branchStats[i].completedChecklists7d.GetOr(0)));
    Take(bars, 10)
  }

  /** Branches after the tenth never reach the chart. */
  lemma ChecklistDataIgnoresRest(first: seq<BranchStat>, rest: seq<BranchStat>)
    requires |first| >= 10
    ensures ChecklistData(first + rest) == ChecklistData(first)
  {
  }

  /** The row of `get_director_dashboard` the certification pie reads. */
  datatype DirectorStats = DirectorStats(totalActiveEmployees: Option<int>, employeesWithActualCertifications: Option<int>)

  /** The stats are set only from a non-empty RPC result; they stay null otherwise. */
  function StatsOf(rows: Option<seq<DirectorStats>>): (r: Option<DirectorStats>)
    ensures r.Some? <==> rows.Some? && |rows.value| > 0
    ensures r.Some? ==> r.value == rows.value[0]
  {
    if rows.Some? && |rows.value| > 0 then Some(rows.value[0]) else None
  }

  datatype CertificationSplit = CertificationSplit(actual: int, needUpdate: int)

  function Total(stats: Option<DirectorStats>): int {
    if stats.Some? then stats.value.totalActiveEmployees.GetOr(0) else 0
  }

  function Actual(stats: Option<DirectorStats>): int {
    if stats.Some? then stats.value.employeesWithActualCertifications.GetOr(0) else 0
  }

  /** `certificationData`: the employees with current certifications, and the
      rest of the active employees. */
  function CertificationData(stats: Option<DirectorStats>): (r: CertificationSplit)
    ensures r.actual + r.needUpdate == Total(stats)
    ensures r.actual == Actual(stats)
    ensures stats.None? ==> r == CertificationSplit(0, 0)
    ensures r.needUpdate >= 0 <==> Actual(stats) <= Total(stats)
  {
    var actual := Actual(stats);
    CertificationSplit(actual, Total(stats) - actual)
  }

  // ---------------------------------------------------------------------------
  // Slice colours
  // ---------------------------------------------------------------------------

  const Colors: seq<string> := ["#3b82f6", "#10b981", "#f59e0b", "#ef4444", "#8b5cf6"]

  /** `COLORS[index % COLORS.length]`. */
  function CellColor(index: nat): (r: string)
    ensures r in Colors
  {
    Colors[index % |Colors|]
  }

  /** The colours repeat every five slices, and neighbouring slices differ. */
  lemma ColorCycle(index: nat)
    ensures CellColor(index + 5) == CellColor(index)
    ensures CellColor(index + 1) != CellColor(index)
  {
    var m := index % 5;
    assert (index + 1) % 5 == if m == 4 then 0 else m + 1;
  }
}
