/** Bulk deletion in the manager script: from the numbers of a range expression to the rewritten node list. */
module Manager {
  import opened Panel
  import opened RangeList

  /** The position a number stands for: an ordinal if there are that many nodes, else the first node with that id. */
  ghost predicate Names(ids: seq<int>, number: nat, idx: nat) {
    && idx < |ids|
    && if 1 <= number <= |ids| then idx == number - 1
       else ids[idx] == number && forall j :: 0 <= j < idx ==> ids[j] != number
  }

  ghost predicate Selected(ids: seq<int>, numbers: seq<nat>, idx: nat) {
    exists n :: n in numbers && Names(ids, n, idx)
  }

  ghost predicate Descending(s: seq<nat>) {
    forall i, j :: 0 <= i < j < |s| ==> s[i] > s[j]
  }

  /** Puts a new position where a numeric sort in reverse order would. */
  method InsertDescending(s: seq<nat>, x: nat) returns (r: seq<nat>)
    requires Descending(s) && x !in s
    ensures Descending(r) && forall y :: y in r <==> y in s || y == x
  {
    var i := 0;
    while i < |s| && s[i] > x
      invariant 0 <= i <= |s| && forall j :: 0 <= j < i ==> s[j] > x
    {
      i := i + 1;
    }
    forall j | i <= j < |s| ensures s[j] < x {
      assert s[i] in s && s[j] <= s[i];
    }
    InsertIsDescending(s, i, x);
    InsertMembers(s, i, x);
    r := s[..i] + [x] + s[i..];
  }

  lemma InsertIsDescending(s: seq<nat>, i: nat, x: nat)
    requires Descending(s) && i <= |s|
    requires (forall j :: 0 <= j < i ==> s[j] > x) && (forall j :: i <= j < |s| ==> s[j] < x)
    ensures Descending(s[..i] + [x] + s[i..])
  {
    var r := s[..i] + [x] + s[i..];
    forall a, b | 0 <= a < b < |r| ensures r[a] > r[b] {
      assert r[a] == if a < i then s[a] else if a == i then x else s[a - 1];
      assert r[b] == if b < i then s[b] else if b == i then x else s[b - 1];
    }
  }

  lemma InsertMembers(s: seq<nat>, i: nat, x: nat)
    requires i <= |s|
    ensures forall y :: y in s[..i] + [x] + s[i..] <==> y in s || y == x
  {
    assert s == s[..i] + s[i..];
    assert forall y :: y in s <==> y in s[..i] || y in s[i..];
  }

  /** The selected positions, each once, highest first. */
  method ResolveNodeIndices(ids: seq<int>, numbers: seq<nat>) returns (indices: seq<nat>)
    ensures Descending(indices)
    ensures forall idx: nat :: idx in indices <==> Selected(ids, numbers, idx)
  {
    indices := [];
    for v := 0 to |numbers|
      invariant Descending(indices)
      invariant forall idx: nat :: idx in indices <==> Selected(ids, numbers[..v], idx)
    {
      var number := numbers[v];
      SelectedStep(ids, numbers[..v], number);
      assert numbers[..v + 1] == numbers[..v] + [number];
      var position: Option<nat> := None;
      if 1 <= number <= |ids| {
        position := Some((number - 1) as nat);
      } else {
        var idx := 0;
        while idx < |ids| && ids[idx] != number
          invariant 0 <= idx <= |ids| && forall j :: 0 <= j < idx ==> ids[j] != number
        {
          idx := idx + 1;
        }
        if idx < |ids| {
          position := Some(idx);
        }
      }
      assert forall idx: nat :: Names(ids, number, idx) <==> position == Some(idx);
      if position.Some? && position.value !in indices {
        indices := InsertDescending(indices, position.value);
      }
    }
    assert numbers[..|numbers|] == numbers;
  }

  lemma SelectedStep(ids: seq<int>, numbers: seq<nat>, number: nat)
    ensures forall idx: nat :: Selected(ids, numbers + [number], idx) <==>
                               Selected(ids, numbers, idx) || Names(ids, number, idx)
  {
    assert forall n :: n in numbers + [number] <==> n in numbers || n == number;
  }

  // ---- deletion ----

  function DeleteAt<T>(nodes: seq<T>, idx: nat): seq<T> {
    if idx < |nodes| then nodes[..idx] + nodes[idx + 1..] else nodes
  }

  function DeleteEach<T>(nodes: seq<T>, indices: seq<nat>): seq<T>
    decreases |indices|
  {
    if indices == [] then nodes else DeleteEach(DeleteAt(nodes, indices[0]), indices[1..])
  }

  /** The nodes whose original position is not in `gone`, in order. */
  function Keep<T>(nodes: seq<T>, gone: set<nat>): seq<T> {
    if nodes == [] then []
    else
      var init, last := Keep(nodes[..|nodes| - 1], gone), |nodes| - 1;
      if last in gone then init else init + [nodes[last]]
  }

  function Positions(indices: seq<nat>): set<nat> {
    set idx | idx in indices
  }

  lemma {:induction false} KeepNoneBelow<T>(nodes: seq<T>, rest: seq<T>, gone: set<nat>)
    requires forall idx :: idx in gone ==> idx < |nodes|
    ensures Keep(nodes + rest, gone) == Keep(nodes, gone) + rest
  {
    if rest == [] {
      assert nodes + rest == nodes;
    } else {
      var all, init := nodes + rest, rest[..|rest| - 1];
      assert all[..|all| - 1] == nodes + init;
      KeepNoneBelow(nodes, init, gone);
    }
  }

  lemma {:induction false} KeepSkips<T>(nodes: seq<T>, gone: set<nat>, higher: nat)
    requires |nodes| <= higher
    ensures Keep(nodes, gone + {higher}) == Keep(nodes, gone)
  {
    if nodes != [] {
      KeepSkips(nodes[..|nodes| - 1], gone, higher);
    }
  }

  lemma KeepDropsLast<T>(nodes: seq<T>, x: T, gone: set<nat>)
    requires |nodes| in gone
    ensures Keep(nodes + [x], gone) == Keep(nodes, gone)
  {
    assert (nodes + [x])[..|nodes|] == nodes;
  }

  /** Deleting the highest position first leaves the others where they were. */
  lemma KeepAfterDelete<T>(low: seq<T>, x: T, high: seq<T>, rest: set<nat>)
    requires forall idx :: idx in rest ==> idx < |low|
    ensures Keep(low + high, rest) == Keep(low + [x] + high, rest + {|low|})
  {
    KeepNoneBelow(low, high, rest);
    KeepNoneBelow(low + [x], high, rest + {|low|});
    KeepDropsLast(low, x, rest + {|low|});
    KeepSkips(low, rest, |low|);
  }

  /** Deleting one by one in descending order removes exactly the positions first selected. */
  lemma {:induction false} DescendingDeletionIsFaithful<T>(nodes: seq<T>, indices: seq<nat>)
    requires Descending(indices) && (indices != [] ==> indices[0] < |nodes|)
    ensures DeleteEach(nodes, indices) == Keep(nodes, Positions(indices))
    decreases |indices|
  {
    if indices == [] {
      assert Positions(indices) == {};
      KeepAll(nodes);
    } else {
      var h, rest := indices[0], indices[1..];
      assert nodes == nodes[..h] + [nodes[h]] + nodes[h + 1..];
      assert indices == [h] + rest;
      assert Positions(indices) == Positions(rest) + {h};
      forall i | 0 <= i < |rest| ensures rest[i] < h {
        assert indices[0] > indices[i + 1];
      }
      KeepAfterDelete(nodes[..h], nodes[h], nodes[h + 1..], Positions(rest));
      DescendingDeletionIsFaithful(DeleteAt(nodes, h), rest);
    }
  }

  lemma {:induction false} KeepAll<T>(nodes: seq<T>)
    ensures Keep(nodes, {}) == nodes
  {
    if nodes != [] {
      KeepAll(nodes[..|nodes| - 1]);
    }
  }

  datatype Node = Node(id: int, config: string)

  function Ids(nodes: seq<Node>): seq<int> {
    seq(|nodes|, i requires 0 <= i < |nodes| => nodes[i].id)
  }

  /** The positions an expression selects; none when it is wrong. */
  ghost function SelectedBy(nodes: seq<Node>, input: string): set<nat> {
    var numbers := Numbers(Parts(input));
    set idx: nat | idx < |nodes| && numbers.Some? && Selected(Ids(nodes), numbers.value, idx)
  }

  /** The rewritten list: the old one without the selected positions, in order. */
  method DeleteNode(nodes: seq<Node>, input: string) returns (result: seq<Node>)
    ensures result == Keep(nodes, SelectedBy(nodes, input))
  {
    var numbers := ParseRangeList(input);
    if numbers == None {
      assert SelectedBy(nodes, input) == {};
      KeepAll(nodes);
      return nodes;
    }
    var indices := ResolveNodeIndices(Ids(nodes), numbers.value);
    assert Positions(indices) == SelectedBy(nodes, input);
    assert indices != [] ==> indices[0] in Positions(indices);
    DescendingDeletionIsFaithful(nodes, indices);
    result := DeleteIndices(nodes, indices);
  }

  method DeleteIndices(nodes: seq<Node>, indices: seq<nat>) returns (result: seq<Node>)
    ensures result == DeleteEach(nodes, indices)
  {
    result := nodes;
    for i := 0 to |indices|
      invariant DeleteEach(result, indices[i..]) == DeleteEach(nodes, indices)
    {
      assert indices[i..][1..] == indices[i + 1..];
      result := DeleteAt(result, indices[i]);
    }
  }

  /** In ascending order the second deletion hits the wrong node. */
  lemma AscendingDeletionIsNot()
    ensures exists nodes: seq<int>, indices :: DeleteEach(nodes, indices) != Keep(nodes, Positions(indices))
  {
    var nodes, indices := [10, 11], [0, 1];
    assert DeleteAt(nodes, 0) == [11] && DeleteAt([11], 1) == [11];
    assert indices[1..] == [1] && [1][1..] == [];
    assert DeleteEach([11], [1]) == DeleteEach([11], []) == [11];
    assert DeleteEach(nodes, indices) == [11];
    var gone := Positions(indices);
    assert indices[0] in gone && indices[1] in gone;
    KeepDropsLast([], 10, gone);
    KeepDropsLast([10], 11, gone);
    assert [] + [10] == [10] && [10] + [11] == nodes;
    assert Keep(nodes, gone) == [];
  }

  // ---- what one expression deletes ----

  /** A number stands for this position: as an ordinal, or as the id of the first node that has it when there are not so
      many nodes. */
  predicate StandsFor(nodes: seq<Node>, n: nat, idx: nat) {
    && idx < |nodes|
    && if n == 0 || n > |nodes| then nodes[idx].id == n && forall j :: 0 <= j < idx ==> nodes[j].id != n
       else idx + 1 == n
  }

  /** The parts of an expression name this position, by a single number or within a range. */
  ghost predicate Reaches(nodes: seq<Node>, parts: seq<Part>, idx: nat) {
    exists i, n: nat :: 0 <= i < |parts| && StandsFor(nodes, n, idx) &&
                        ((parts[i].Number? && parts[i].n == n) ||
                         (parts[i].Range? && parts[i].first <= n <= parts[i].last))
  }

  lemma NamesStandsFor(nodes: seq<Node>, n: nat, idx: nat)
    ensures Names(Ids(nodes), n, idx) <==> StandsFor(nodes, n, idx)
  {
    var ids := Ids(nodes);
    assert |ids| == |nodes|;
    assert forall j :: 0 <= j < |nodes| ==> ids[j] == nodes[j].id;
    assert forall j :: 0 <= j < |nodes| ==> nodes[j].id == ids[j];
  }

  lemma SelectedMembers(nodes: seq<Node>, input: string, idx: nat)
    ensures idx in SelectedBy(nodes, input) <==>
            Numbers(Parts(input)).Some? &&
            exists n: nat :: n in Numbers(Parts(input)).value && StandsFor(nodes, n, idx)
  {
    forall n: nat ensures Names(Ids(nodes), n, idx) <==> StandsFor(nodes, n, idx) {
      NamesStandsFor(nodes, n, idx);
    }
  }

  lemma ReachesIff(nodes: seq<Node>, parts: seq<Part>, idx: nat)
    ensures Reaches(nodes, parts, idx) <==>
            exists n: nat :: StandsFor(nodes, n, idx) && exists i :: 0 <= i < |parts| && RangeList.Names(parts[i], n)
  {
    if i, n: nat :| 0 <= i < |parts| && StandsFor(nodes, n, idx) &&
                    ((parts[i].Number? && parts[i].n == n) ||
                     (parts[i].Range? && parts[i].first <= n <= parts[i].last))
    {
      assert RangeList.Names(parts[i], n);
    }
  }

  /** Written with commas, numbers and ascending ranges select exactly the positions they name. */
  lemma ExpressionSelects(nodes: seq<Node>, parts: seq<Part>, idx: nat)
    requires parts != [] && forall i :: 0 <= i < |parts| ==> Proper(parts[i])
    ensures idx in SelectedBy(nodes, RenderAll(parts)) <==> Reaches(nodes, parts, idx)
  {
    RenderedIsReadBack(parts);
    NumbersAreNamed(parts);
    ReachesIff(nodes, parts, idx);
    SelectedMembers(nodes, RenderAll(parts), idx);
  }

  /** The number of positions before this one that stay. */
  function StayBefore(gone: set<nat>, idx: nat): nat {
    if idx == 0 then 0 else StayBefore(gone, idx - 1) + if idx - 1 in gone then 0 else 1
  }

  lemma {:induction false} KeepLength<T>(nodes: seq<T>, gone: set<nat>)
    ensures |Keep(nodes, gone)| == StayBefore(gone, |nodes|)
  {
    if nodes != [] {
      KeepLength(nodes[..|nodes| - 1], gone);
    }
  }

  /** Every node that stays is found as far down the new list as there are nodes before it that stay, and the new list
      holds nothing else. */
  lemma {:induction false} KeepIsExact<T>(nodes: seq<T>, gone: set<nat>, idx: nat)
    requires idx < |nodes| && idx !in gone
    ensures |Keep(nodes, gone)| == StayBefore(gone, |nodes|) > StayBefore(gone, idx)
    ensures Keep(nodes, gone)[StayBefore(gone, idx)] == nodes[idx]
  {
    KeepLength(nodes, gone);
    var init := nodes[..|nodes| - 1];
    KeepLength(init, gone);
    if idx < |init| {
      KeepIsExact(init, gone, idx);
    }
  }
}
