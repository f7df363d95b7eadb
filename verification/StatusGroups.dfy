/** The display order of the status page: groups are shown where their first member stands. */
module StatusGroups {
  import opened Wrappers
  import opened StatusLevels

  datatype Leaf = Leaf(key: string, group: Option<string>, status: Level)

  datatype Node =
    | Single(leaf: Leaf)
    | Group(name: string, status: Level, members: seq<Leaf>)

  /** An empty group name is no group. */
  predicate Grouped(l: Leaf) {
    l.group.Some? && l.group.value != ""
  }

  function Filter(leaves: seq<Leaf>, p: Leaf -> bool): seq<Leaf> {
    if leaves == [] then []
    else Filter(leaves[..|leaves| - 1], p) + if p(leaves[|leaves| - 1]) then [leaves[|leaves| - 1]] else []
  }

  function MembersOf(leaves: seq<Leaf>, name: string): seq<Leaf> {
    Filter(leaves, (l: Leaf) => Grouped(l) && l.group.value == name)
  }

  function StatusesOf(leaves: seq<Leaf>): seq<Level> {
    seq(|leaves|, i requires 0 <= i < |leaves| => leaves[i].status)
  }

  function Shown(n: Node): seq<Leaf> {
    if n.Single? then [n.leaf] else n.members
  }

  function StatusOf(n: Node): Level {
    if n.Single? then n.leaf.status else n.status
  }

  function Flatten(nodes: seq<Node>): seq<Leaf> {
    if nodes == [] then [] else Flatten(nodes[..|nodes| - 1]) + Shown(nodes[|nodes| - 1])
  }

  function NodeStatuses(nodes: seq<Node>): seq<Level> {
    seq(|nodes|, i requires 0 <= i < |nodes| => StatusOf(nodes[i]))
  }

  function Ungrouped(leaves: seq<Leaf>): seq<Leaf> {
    Filter(leaves, (l: Leaf) => !Grouped(l))
  }

  function InGroups(leaves: seq<Leaf>, names: set<string>): seq<Leaf> {
    Filter(leaves, (l: Leaf) => Grouped(l) && l.group.value in names)
  }

  /** Two filters that never agree, and the one that is either of them. */
  lemma {:induction false} FilterSplits(leaves: seq<Leaf>, p: Leaf -> bool, q: Leaf -> bool, either: Leaf -> bool)
    requires forall l :: l in leaves ==> !(p(l) && q(l)) && (either(l) <==> p(l) || q(l))
    ensures multiset(Filter(leaves, either)) == multiset(Filter(leaves, p)) + multiset(Filter(leaves, q))
    decreases |leaves|
  {
    if leaves != [] {
      FilterSplits(leaves[..|leaves| - 1], p, q, either);
    }
  }

  lemma {:induction false} FilterAll(leaves: seq<Leaf>, p: Leaf -> bool)
    requires forall l :: l in leaves ==> p(l)
    ensures Filter(leaves, p) == leaves
    decreases |leaves|
  {
    if leaves != [] {
      FilterAll(leaves[..|leaves| - 1], p);
    }
  }

  lemma {:induction false} FilterNone(leaves: seq<Leaf>, p: Leaf -> bool)
    requires forall l :: l in leaves ==> !p(l)
    ensures Filter(leaves, p) == []
    decreases |leaves|
  {
    if leaves != [] {
      FilterNone(leaves[..|leaves| - 1], p);
    }
  }

  lemma NoGroupsYet(leaves: seq<Leaf>, names: set<string>)
    requires names == {}
    ensures InGroups(leaves, names) == []
  {
    FilterNone(leaves, (l: Leaf) => Grouped(l) && l.group.value in names);
  }

  lemma NewGroup(leaves: seq<Leaf>, names: set<string>, name: string)
    requires name !in names
    ensures multiset(InGroups(leaves, names + {name})) == multiset(InGroups(leaves, names)) + multiset(MembersOf(leaves, name))
  {
    FilterSplits(leaves, (l: Leaf) => Grouped(l) && l.group.value in names,
                 (l: Leaf) => Grouped(l) && l.group.value == name,
                 (l: Leaf) => Grouped(l) && l.group.value in names + {name});
  }

  lemma EveryLeaf(leaves: seq<Leaf>, names: set<string>)
    requires forall l :: l in leaves && Grouped(l) ==> l.group.value in names
    ensures multiset(Ungrouped(leaves)) + multiset(InGroups(leaves, names)) == multiset(leaves)
  {
    FilterSplits(leaves, (l: Leaf) => !Grouped(l), (l: Leaf) => Grouped(l) && l.group.value in names, (l: Leaf) => true);
    FilterAll(leaves, (l: Leaf) => true);
  }

  lemma FlattenAppend(nodes: seq<Node>, n: Node)
    ensures Flatten(nodes + [n]) == Flatten(nodes) + Shown(n)
  {
    assert (nodes + [n])[..|nodes|] == nodes;
  }

  predicate WellFormed(leaves: seq<Leaf>, n: Node) {
    n.Group? ==> n.members == MembersOf(leaves, n.name) && n.status == Worst(StatusesOf(n.members)) && n.name != ""
  }

  /** Having gone through `prefix`: its ungrouped leaves and all members of the groups seen are shown. */
  ghost predicate Assembled(leaves: seq<Leaf>, prefix: seq<Leaf>, nodes: seq<Node>, seen: set<string>) {
    && multiset(Flatten(nodes)) == multiset(Ungrouped(prefix)) + multiset(InGroups(leaves, seen))
    && (forall node :: node in nodes ==> WellFormed(leaves, node))
    && (forall l :: l in prefix && Grouped(l) ==> l.group.value in seen)
  }

  lemma UngroupedAppend(prefix: seq<Leaf>, l: Leaf)
    ensures Ungrouped(prefix + [l]) == Ungrouped(prefix) + if Grouped(l) then [] else [l]
  {
    assert (prefix + [l])[..|prefix|] == prefix;
  }

  lemma ShowSingle(leaves: seq<Leaf>, prefix: seq<Leaf>, l: Leaf, nodes: seq<Node>, seen: set<string>)
    requires Assembled(leaves, prefix, nodes, seen) && !Grouped(l)
    ensures Assembled(leaves, prefix + [l], nodes + [Single(l)], seen)
  {
    FlattenAppend(nodes, Single(l));
    UngroupedAppend(prefix, l);
  }

  lemma SkipSeen(leaves: seq<Leaf>, prefix: seq<Leaf>, l: Leaf, nodes: seq<Node>, seen: set<string>)
    requires Assembled(leaves, prefix, nodes, seen) && Grouped(l) && l.group.value in seen
    ensures Assembled(leaves, prefix + [l], nodes, seen)
  {
    UngroupedAppend(prefix, l);
  }

  function GroupNode(leaves: seq<Leaf>, name: string): Node {
    Group(name, Worst(StatusesOf(MembersOf(leaves, name))), MembersOf(leaves, name))
  }

  lemma ShowGroup(leaves: seq<Leaf>, prefix: seq<Leaf>, l: Leaf, nodes: seq<Node>, seen: set<string>)
    requires Assembled(leaves, prefix, nodes, seen) && Grouped(l) && l.group.value !in seen
    ensures Assembled(leaves, prefix + [l], nodes + [GroupNode(leaves, l.group.value)], seen + {l.group.value})
  {
    NewGroup(leaves, seen, l.group.value);
    FlattenAppend(nodes, GroupNode(leaves, l.group.value));
    UngroupedAppend(prefix, l);
  }

  // ----- where the nodes stand

  predicate InGroup(l: Leaf, name: string) {
    Grouped(l) && l.group.value == name
  }

  /** An ungrouped leaf, or the first of its group. */
  predicate IsFirst(leaves: seq<Leaf>, p: nat)
    requires p < |leaves|
  {
    Grouped(leaves[p]) ==> forall q :: 0 <= q < p ==> !InGroup(leaves[q], leaves[p].group.value)
  }

  /** The leaf at `p` opens the node. */
  predicate StandsAt(leaves: seq<Leaf>, n: Node, p: nat) {
    && p < |leaves| && IsFirst(leaves, p)
    && if Grouped(leaves[p]) then n.Group? && n.name == leaves[p].group.value else n == Single(leaves[p])
  }

  /** The nodes so far are the openings among the first i leaves, in their order. */
  ghost predicate Placed(leaves: seq<Leaf>, i: nat, nodes: seq<Node>, places: seq<nat>) {
    && i <= |leaves| && |places| == |nodes|
    && (forall k :: 0 <= k < |nodes| ==> places[k] < i && StandsAt(leaves, nodes[k], places[k]))
    && (forall j, k :: 0 <= j < k < |places| ==> places[j] < places[k])
    && (forall p: nat :: p < i && IsFirst(leaves, p) ==> p in places)
  }

  ghost predicate SeenIn(leaves: seq<Leaf>, i: nat, seen: set<string>)
    requires i <= |leaves|
  {
    forall name :: name in seen <==> exists q :: 0 <= q < i && InGroup(leaves[q], name)
  }

  lemma PlaceOpening(leaves: seq<Leaf>, i: nat, nodes: seq<Node>, places: seq<nat>, n: Node)
    requires i < |leaves| && Placed(leaves, i, nodes, places) && StandsAt(leaves, n, i)
    ensures Placed(leaves, i + 1, nodes + [n], places + [i])
  {
    var ps := places + [i];
    forall p: nat | p < i + 1 && IsFirst(leaves, p) ensures p in ps {
      if p < i {
        assert p in places;
      } else {
        assert ps[|places|] == p;
      }
    }
  }

  lemma SeenGrows(leaves: seq<Leaf>, i: nat, seen: set<string>)
    requires i < |leaves| && SeenIn(leaves, i, seen)
    ensures SeenIn(leaves, i + 1, if Grouped(leaves[i]) then seen + {leaves[i].group.value} else seen)
  {
    var l := leaves[i];
    var seen' := if Grouped(l) then seen + {l.group.value} else seen;
    forall name ensures name in seen' <==> exists q :: 0 <= q < i + 1 && InGroup(leaves[q], name) {
      if q :| 0 <= q < i + 1 && InGroup(leaves[q], name) {
        assert q < i ==> name in seen;
      }
      if name in seen {
        var q :| 0 <= q < i && InGroup(leaves[q], name);
      } else if name in seen' {
        assert InGroup(leaves[i], name);
      }
    }
  }

  /** The display after the first i leaves. */
  ghost predicate Displayed(leaves: seq<Leaf>, i: nat, nodes: seq<Node>, places: seq<nat>, seen: set<string>) {
    && i <= |leaves| && Assembled(leaves, leaves[..i], nodes, seen)
    && Placed(leaves, i, nodes, places) && SeenIn(leaves, i, seen)
  }

  lemma DisplayUngrouped(leaves: seq<Leaf>, i: nat, nodes: seq<Node>, places: seq<nat>, seen: set<string>)
    requires i < |leaves| && Displayed(leaves, i, nodes, places, seen) && !Grouped(leaves[i])
    ensures Displayed(leaves, i + 1, nodes + [Single(leaves[i])], places + [i], seen)
  {
    assert leaves[..i + 1] == leaves[..i] + [leaves[i]];
    SeenGrows(leaves, i, seen);
    ShowSingle(leaves, leaves[..i], leaves[i], nodes, seen);
    PlaceOpening(leaves, i, nodes, places, Single(leaves[i]));
  }

  lemma DisplaySeen(leaves: seq<Leaf>, i: nat, nodes: seq<Node>, places: seq<nat>, seen: set<string>)
    requires i < |leaves| && Displayed(leaves, i, nodes, places, seen)
    requires Grouped(leaves[i]) && leaves[i].group.value in seen
    ensures Displayed(leaves, i + 1, nodes, places, seen)
  {
    assert leaves[..i + 1] == leaves[..i] + [leaves[i]];
    SeenGrows(leaves, i, seen);
    assert seen + {leaves[i].group.value} == seen;
    SkipSeen(leaves, leaves[..i], leaves[i], nodes, seen);
  }

  lemma DisplayGroup(leaves: seq<Leaf>, i: nat, nodes: seq<Node>, places: seq<nat>, seen: set<string>)
    requires i < |leaves| && Displayed(leaves, i, nodes, places, seen)
    requires Grouped(leaves[i]) && leaves[i].group.value !in seen
    ensures var name := leaves[i].group.value;
            Displayed(leaves, i + 1, nodes + [GroupNode(leaves, name)], places + [i], seen + {name})
  {
    assert leaves[..i + 1] == leaves[..i] + [leaves[i]];
    SeenGrows(leaves, i, seen);
    ShowGroup(leaves, leaves[..i], leaves[i], nodes, seen);
    PlaceOpening(leaves, i, nodes, places, GroupNode(leaves, leaves[i].group.value));
  }

  lemma DisplayedAll(leaves: seq<Leaf>, nodes: seq<Node>, places: seq<nat>, seen: set<string>)
    requires Displayed(leaves, |leaves|, nodes, places, seen)
    ensures multiset(Flatten(nodes)) == multiset(leaves)
    ensures Worst(NodeStatuses(nodes)) == Worst(StatusesOf(leaves))
  {
    assert leaves[..|leaves|] == leaves;
    EveryLeaf(leaves, seen);
    SameWorst(leaves, nodes);
  }

  /**
   * Every leaf is shown exactly once, the worst of the nodes is the worst of the leaves, and the
   * nodes stand in the order of the leaves that open them: the ungrouped ones and the first of
   * each group.
   */
  method AssembleNodes(leaves: seq<Leaf>) returns (nodes: seq<Node>, ghost places: seq<nat>)
    ensures Placed(leaves, |leaves|, nodes, places)
    ensures multiset(Flatten(nodes)) == multiset(leaves)
    ensures forall n :: n in nodes ==> WellFormed(leaves, n)
    ensures Worst(NodeStatuses(nodes)) == Worst(StatusesOf(leaves))
  {
    nodes, places := [], [];
    var seenGroups: set<string> := {};
    NoGroupsYet(leaves, seenGroups);
    for i := 0 to |leaves|
      invariant Displayed(leaves, i, nodes, places, seenGroups)
    {
      var l := leaves[i];
      if !Grouped(l) {
        DisplayUngrouped(leaves, i, nodes, places, seenGroups);
        nodes, places := nodes + [Single(l)], places + [i];
      } else if l.group.value in seenGroups {
        DisplaySeen(leaves, i, nodes, places, seenGroups);
      } else {
        DisplayGroup(leaves, i, nodes, places, seenGroups);
        var members := MembersOf(leaves, l.group.value);
        nodes, places := nodes + [Group(l.group.value, Worst(StatusesOf(members)), members)], places + [i];
        seenGroups := seenGroups + {l.group.value};
      }
    }
    DisplayedAll(leaves, nodes, places, seenGroups);
  }

  lemma {:induction false} FlattenFinds(nodes: seq<Node>, l: Leaf)
    ensures l in Flatten(nodes) <==> exists n :: n in nodes && l in Shown(n)
    decreases |nodes|
  {
    if nodes != [] {
      var n := |nodes| - 1;
      FlattenFinds(nodes[..n], l);
      assert nodes == nodes[..n] + [nodes[n]];
    }
  }

  /** A node is as bad as the worst leaf under it. */
  lemma NodeIsWorstShown(leaves: seq<Leaf>, n: Node)
    requires WellFormed(leaves, n)
    ensures forall l :: l in Shown(n) ==> Rank(l.status) <= Rank(StatusOf(n))
    ensures StatusOf(n) == Operational || exists l :: l in Shown(n) && l.status == StatusOf(n)
  {
    var statuses := StatusesOf(Shown(n));
    WorstIsLeastBound(statuses);
    forall l | l in Shown(n) ensures Rank(l.status) <= Rank(StatusOf(n)) {
      var i :| 0 <= i < |Shown(n)| && Shown(n)[i] == l;
      assert statuses[i] == l.status;
    }
    if n.Group? && StatusOf(n) != Operational {
      var i :| 0 <= i < |statuses| && statuses[i] == StatusOf(n);
      assert Shown(n)[i] in Shown(n);
    }
  }

  lemma NodeAbove(leaves: seq<Leaf>, nodes: seq<Node>, l: Leaf) returns (k: nat)
    requires l in Flatten(nodes) && forall n :: n in nodes ==> WellFormed(leaves, n)
    ensures k < |nodes| && Rank(l.status) <= Rank(StatusOf(nodes[k]))
  {
    FlattenFinds(nodes, l);
    var n :| n in nodes && l in Shown(n);
    NodeIsWorstShown(leaves, n);
    k :| 0 <= k < |nodes| && nodes[k] == n;
  }

  lemma NodesCoverLeaves(leaves: seq<Leaf>, nodes: seq<Node>)
    requires multiset(Flatten(nodes)) == multiset(leaves)
    requires forall n :: n in nodes ==> WellFormed(leaves, n)
    ensures Rank(Worst(StatusesOf(leaves))) <= Rank(Worst(NodeStatuses(nodes)))
  {
    var worst := Worst(StatusesOf(leaves));
    WorstIsLeastBound(StatusesOf(leaves));
    WorstIsLeastBound(NodeStatuses(nodes));
    if worst != Operational {
      var i :| 0 <= i < |leaves| && StatusesOf(leaves)[i] == worst;
      assert leaves[i] in multiset(leaves);
      assert leaves[i] in Flatten(nodes);
      var k := NodeAbove(leaves, nodes, leaves[i]);
      assert NodeStatuses(nodes)[k] == StatusOf(nodes[k]);
    }
  }

  lemma LeavesCoverNodes(leaves: seq<Leaf>, nodes: seq<Node>)
    requires multiset(Flatten(nodes)) == multiset(leaves)
    requires forall n :: n in nodes ==> WellFormed(leaves, n)
    ensures Rank(Worst(NodeStatuses(nodes))) <= Rank(Worst(StatusesOf(leaves)))
  {
    var worst := Worst(NodeStatuses(nodes));
    WorstIsLeastBound(StatusesOf(leaves));
    WorstIsLeastBound(NodeStatuses(nodes));
    if worst != Operational {
      var i :| 0 <= i < |nodes| && NodeStatuses(nodes)[i] == worst;
      assert nodes[i] in nodes;
      NodeIsWorstShown(leaves, nodes[i]);
      var l :| l in Shown(nodes[i]) && l.status == worst;
      FlattenFinds(nodes, l);
      assert l in multiset(Flatten(nodes));
      assert l in multiset(leaves);
      var k :| 0 <= k < |leaves| && leaves[k] == l;
      assert StatusesOf(leaves)[k] == worst;
    }
  }

  /** Grouping leaves the overall status as it was. */
  lemma SameWorst(leaves: seq<Leaf>, nodes: seq<Node>)
    requires multiset(Flatten(nodes)) == multiset(leaves)
    requires forall n :: n in nodes ==> WellFormed(leaves, n)
    ensures Worst(NodeStatuses(nodes)) == Worst(StatusesOf(leaves))
  {
    NodesCoverLeaves(leaves, nodes);
    LeavesCoverNodes(leaves, nodes);
  }
}
