/** The contacts page: the search over branches and employees, and the two
    reducers that group the filtered lists, branches by city and employees by
    role label. */
module ContactsPage {

  import opened Common
  import opened Types
  import Utils

  /** An active branch with the columns the page filters and groups on. */
  datatype Branch = Branch(id: string, name: string, city: string, address: string, phone: Option<string>)

  /** An active employee; `branchName` is the joined branch's name, if any. */
  datatype Employee = Employee(id: string, fullName: string, role: Role, branchName: Option<string>)

  // ---------------------------------------------------------------------------
  // Search
  // ---------------------------------------------------------------------------

  predicate BranchMatches(b: Branch, query: string) {
    ContainsIgnoringCase(b.name, query) || ContainsIgnoringCase(b.city, query) ||
    ContainsIgnoringCase(b.address, query)
  }

  /** The label an employee is shown and grouped under. */
  function RoleKey(e: Employee): string {
    Utils.RoleLabel(RoleName(e.role))
  }

  /** The name, the role label or the branch name contains the query; an employee
      with no branch is matched on the first two only. */
  predicate EmployeeMatches(e: Employee, query: string) {
    ContainsIgnoringCase(e.fullName, query) || ContainsIgnoringCase(RoleKey(e), query) ||
    (e.branchName.Some? && ContainsIgnoringCase(e.branchName.value, query))
  }

  /** A branch is kept exactly when it matches; the kept ones keep their order. */
  function FilteredBranches(branches: seq<Branch>, query: string): (r: seq<Branch>)
    ensures forall i :: 0 <= i < |r| ==> BranchMatches(r[i], query)
    ensures forall i :: 0 <= i < |branches| && BranchMatches(branches[i], query) ==> branches[i] in r
    ensures multiset(r) <= multiset(branches)
  {
    var p := (b: Branch) => BranchMatches(b, query);
    FilterMembers(branches, p);
    Filter(branches, p)
  }

  function FilteredEmployees(employees: seq<Employee>, query: string): (r: seq<Employee>)
    ensures forall i :: 0 <= i < |r| ==> EmployeeMatches(r[i], query)
    ensures forall i :: 0 <= i < |employees| && EmployeeMatches(employees[i], query) ==> employees[i] in r
    ensures multiset(r) <= multiset(employees)
  {
    var p := (e: Employee) => EmployeeMatches(e, query);
    FilterMembers(employees, p);
    Filter(employees, p)
  }

  /** With an empty search box both lists are shown whole. */
  lemma EmptyQueryShowsAll(branches: seq<Branch>, employees: seq<Employee>)
    ensures FilteredBranches(branches, "") == branches
    ensures FilteredEmployees(employees, "") == employees
  {
    forall b: Branch ensures BranchMatches(b, "") {
      EmptyQueryMatches(b.name);
    }
    forall e: Employee ensures EmployeeMatches(e, "") {
      EmptyQueryMatches(e.fullName);
    }
    FilterKeepsAll(branches, (b: Branch) => BranchMatches(b, ""));
    FilterKeepsAll(employees, (e: Employee) => EmployeeMatches(e, ""));
  }

  // ---------------------------------------------------------------------------
  // Grouping: a reducer that pushes each item onto the list under its key,
  // creating the list on the key's first occurrence
  // ---------------------------------------------------------------------------

  /** The key of every item, in order. */
  function Keys<T>(items: seq<T>, key: T -> string): (r: seq<string>)
    ensures |r| == |items|
    ensures forall i :: 0 <= i < |items| ==> r[i] == key(items[i])
  {
    seq(|items|, i requires 0 <= i < |items| => key(items[i]))
  }

  /** The group under `k`: the items with that key, in their original order. */
  function Group<T>(items: seq<T>, key: T -> string, k: string): (r: seq<T>)
    ensures forall i :: 0 <= i < |r| ==> key(r[i]) == k
    decreases |items|
  {
    if items == [] then []
    else
      var init := items[..|items| - 1];
      var last := items[|items| - 1];
      Group(init, key, k) + (if key(last) == k then [last] else [])
  }

  /** A group holds items of the input only, and every item with its key. */
  lemma {:induction false} GroupMembers<T>(items: seq<T>, key: T -> string, k: string)
    ensures forall i :: 0 <= i < |Group(items, key, k)| ==> Group(items, key, k)[i] in items
    ensures forall i :: 0 <= i < |items| && key(items[i]) == k ==> items[i] in Group(items, key, k)
    decreases |items|
  {
    if items != [] {
      var init, last := items[..|items| - 1], items[|items| - 1];
      assert items == init + [last];
      GroupMembers(init, key, k);
      forall i | 0 <= i < |items| && key(items[i]) == k
        ensures items[i] in Group(items, key, k)
      {
        if i < |items| - 1 {
          assert items[i] == init[i];
        }
      }
    }
  }

  /** The groups reduced from `items`: `order` is the key order of the object
      (first occurrence), and each key holds its group. */
  method GroupBy<T>(items: seq<T>, key: T -> string) returns (order: seq<string>, groups: map<string, seq<T>>)
    ensures order == FirstOccurrences(Keys(items, key))
    ensures forall k :: k in groups <==> k in order
    ensures forall k :: k in groups ==> groups[k] == Group(items, key, k)
  {
    order := [];
    groups := map[];
    var i := 0;
    assert Keys(items[..0], key) == [];
    while i < |items|
      invariant 0 <= i <= |items|
      invariant order == FirstOccurrences(Keys(items[..i], key))
      invariant forall k :: k in groups <==> k in order
      invariant forall k :: k in groups ==> groups[k] == Group(items[..i], key, k)
    {
      var item := items[i];
      var k := key(item);
      ghost var order0, groups0 := order, groups;
      if k !in groups {
        groups := groups[k := []];
        order := order + [k];
      }
      groups := groups[k := groups[k] + [item]];
      GroupByStep(items, i, key, order0, groups0, order, groups);
      i := i + 1;
    }
    assert items[..|items|] == items;
  }

  /** One push of the reducer keeps the accumulator equal to the groups of the
      items seen so far. */
  lemma GroupByStep<T>(items: seq<T>, i: nat, key: T -> string,
                       order0: seq<string>, groups0: map<string, seq<T>>,
                       order: seq<string>, groups: map<string, seq<T>>)
    requires i < |items|
    requires order0 == FirstOccurrences(Keys(items[..i], key))
    requires forall k :: k in groups0 <==> k in order0
    requires forall k :: k in groups0 ==> groups0[k] == Group(items[..i], key, k)
    requires order == if key(items[i]) in groups0 then order0 else order0 + [key(items[i])]
    requires groups == groups0[key(items[i]) :=
      (if key(items[i]) in groups0 then groups0[key(items[i])] else []) + [items[i]]]
    ensures order == FirstOccurrences(Keys(items[..i + 1], key))
    ensures forall k :: k in groups <==> k in order
    ensures forall k :: k in groups ==> groups[k] == Group(items[..i + 1], key, k)
  {
    var prefix, x := items[..i], items[i];
    assert items[..i + 1] == prefix + [x];
    KeysExtend(prefix, x, key);
    FirstOccurrencesExtend(Keys(prefix, key), key(x));
    if key(x) !in groups0 {
      GroupOfAbsentKey(prefix, key, key(x));
    }
    forall k | k in groups
      ensures groups[k] == Group(prefix + [x], key, k)
    {
      GroupExtend(prefix, x, key, k);
    }
  }

  lemma KeysExtend<T>(prefix: seq<T>, x: T, key: T -> string)
    ensures Keys(prefix + [x], key) == Keys(prefix, key) + [key(x)]
  {
  }

  /** Pushing onto the input pushes onto the group of the new item's key only. */
  lemma GroupExtend<T>(prefix: seq<T>, x: T, key: T -> string, k: string)
    ensures Group(prefix + [x], key, k) == Group(prefix, key, k) + (if key(x) == k then [x] else [])
  {
    assert (prefix + [x])[..|prefix|] == prefix;
  }

  /** `branchesByCity`. */
  method BranchesByCity(filtered: seq<Branch>) returns (cities: seq<string>, byCity: map<string, seq<Branch>>)
    ensures cities == FirstOccurrences(Keys(filtered, CityOf))
    ensures forall c :: c in byCity <==> c in cities
    ensures forall c :: c in byCity ==> byCity[c] == Group(filtered, CityOf, c)
  {
    cities, byCity := GroupBy(filtered, CityOf);
  }

  function CityOf(b: Branch): string {
    b.city
  }

  /** `employeesByRole`, keyed by the role label. */
  method EmployeesByRole(filtered: seq<Employee>) returns (labels: seq<string>, byRole: map<string, seq<Employee>>)
    ensures labels == FirstOccurrences(Keys(filtered, RoleKey))
    ensures forall l :: l in byRole <==> l in labels
    ensures forall l :: l in byRole ==> byRole[l] == Group(filtered, RoleKey, l)
  {
    labels, byRole := GroupBy(filtered, RoleKey);
  }

  // ---------------------------------------------------------------------------
  // What the grouping promises
  // ---------------------------------------------------------------------------

  /** The items of all groups under `order`, with their multiplicities. */
  function Union<T>(items: seq<T>, key: T -> string, order: seq<string>): multiset<T> {
    if order == [] then multiset{}
    else multiset(Group(items, key, order[0])) + Union(items, key, order[1..])
  }

  /** The sizes of all groups under `order`, added up. */
  function SizeSum<T>(items: seq<T>, key: T -> string, order: seq<string>): nat {
    if order == [] then 0
    else |Group(items, key, order[0])| + SizeSum(items, key, order[1..])
  }

  lemma {:induction false} KeyOccurs<T>(items: seq<T>, key: T -> string, i: nat)
    requires i < |items|
    ensures key(items[i]) in Keys(items, key)
  {
    assert Keys(items, key)[i] == key(items[i]);
  }

  /** No group is empty: every key in the order is some item's key. */
  lemma GroupsNonEmpty<T>(items: seq<T>, key: T -> string, k: string)
    requires k in FirstOccurrences(Keys(items, key))
    ensures |Group(items, key, k)| > 0
  {
    var i :| 0 <= i < |items| && Keys(items, key)[i] == k;
    GroupMembers(items, key, k);
    assert items[i] in Group(items, key, k);
  }

  /** A key that no item has holds an empty group. */
  lemma GroupOfAbsentKey<T>(items: seq<T>, key: T -> string, k: string)
    requires k !in Keys(items, key)
    ensures Group(items, key, k) == []
  {
  }

  /** Adding an item whose key is not in `order` leaves the union as it was. */
  lemma {:induction false} UnionExtendOut<T>(items: seq<T>, x: T, key: T -> string, order: seq<string>)
    requires key(x) !in order
    ensures Union(items + [x], key, order) == Union(items, key, order)
  {
    if order != [] {
      assert key(x) !in order[1..];
      UnionExtendOut(items, x, key, order[1..]);
      GroupExtend(items, x, key, order[0]);
    }
  }

  /** Adding an item whose key is among the distinct keys of `order` adds it to
      the union once. */
  lemma {:induction false} UnionExtendIn<T>(items: seq<T>, x: T, key: T -> string, order: seq<string>)
    requires Distinct(order) && key(x) in order
    ensures Union(items + [x], key, order) == Union(items, key, order) + multiset{x}
  {
    var k, tail := order[0], order[1..];
    DistinctTail(order);
    GroupExtend(items, x, key, k);
    var g, rest := multiset(Group(items, key, k)), Union(items, key, tail);
    if key(x) == k {
      UnionExtendOut(items, x, key, tail);
      assert multiset(Group(items + [x], key, k)) == g + multiset{x};
      MultisetSwap(g, multiset{x}, rest);
    } else {
      assert key(x) in tail by {
        assert order == [k] + tail;
      }
      UnionExtendIn(items, x, key, tail);
      assert multiset(Group(items + [x], key, k)) == g;
      MultisetAssoc(g, rest, multiset{x});
    }
  }

  lemma MultisetSwap<T>(a: multiset<T>, b: multiset<T>, c: multiset<T>)
    ensures a + b + c == a + c + b
  {
  }

  lemma MultisetAssoc<T>(a: multiset<T>, b: multiset<T>, c: multiset<T>)
    ensures a + (b + c) == a + b + c
  {
  }

  /** A key added at the end of the order adds its group to the union. */
  lemma {:induction false} UnionAppend<T>(items: seq<T>, key: T -> string, order: seq<string>, k: string)
    ensures Union(items, key, order + [k]) == Union(items, key, order) + multiset(Group(items, key, k))
  {
    if order != [] {
      assert (order + [k])[1..] == order[1..] + [k];
      UnionAppend(items, key, order[1..], k);
    } else {
      assert ([] + [k])[1..] == [];
    }
  }

  /** Every item lands in exactly one group: the groups under the key order hold
      the input exactly, counting repetitions. */
  lemma {:induction false} GroupsCover<T>(items: seq<T>, key: T -> string)
    ensures Union(items, key, FirstOccurrences(Keys(items, key))) == multiset(items)
    decreases |items|
  {
    if items != [] {
      var init, x := items[..|items| - 1], items[|items| - 1];
      assert items == init + [x];
      GroupsCover(init, key);
      var ks := FirstOccurrences(Keys(init, key));
      assert Keys(items, key)[..|items| - 1] == Keys(init, key);
      if key(x) in ks {
        UnionExtendIn(init, x, key, ks);
      } else {
        UnionExtendOut(init, x, key, ks);
        UnionAppend(items, key, ks, key(x));
        GroupOfAbsentKey(init, key, key(x));
        assert Group(items, key, key(x)) == [x];
      }
    }
  }

  lemma {:induction false} SizeSumIsUnionSize<T>(items: seq<T>, key: T -> string, order: seq<string>)
    ensures SizeSum(items, key, order) == |Union(items, key, order)|
  {
    if order != [] {
      SizeSumIsUnionSize(items, key, order[1..]);
    }
  }

  /** The group sizes add up to the number of filtered items. */
  lemma GroupSizesSum<T>(items: seq<T>, key: T -> string)
    ensures SizeSum(items, key, FirstOccurrences(Keys(items, key))) == |items|
  {
    GroupsCover(items, key);
    SizeSumIsUnionSize(items, key, FirstOccurrences(Keys(items, key)));
  }

  /** Each item appears under its own key and under no other. */
  lemma OwnGroupOnly<T>(items: seq<T>, key: T -> string, i: nat, k: string)
    requires i < |items|
    ensures items[i] in Group(items, key, k) <==> k == key(items[i])
  {
    GroupMembers(items, key, k);
    if items[i] in Group(items, key, k) {
      var j :| 0 <= j < |Group(items, key, k)| && Group(items, key, k)[j] == items[i];
    }
  }

  /** The groups keep the input's relative order: an item before another with the
      same key comes before it in the group. */
  lemma {:induction false} GroupKeepsOrder<T>(items: seq<T>, key: T -> string, i: nat, j: nat)
    requires i < j < |items| && key(items[i]) == key(items[j])
    ensures Group(items[..j + 1], key, key(items[j])) ==
            Group(items[..j], key, key(items[j])) + [items[j]]
    ensures items[i] in Group(items[..j], key, key(items[j]))
  {
    assert items[..j + 1][..j] == items[..j];
    assert items[..j][i] == items[i];
    GroupMembers(items[..j], key, key(items[j]));
  }
}
