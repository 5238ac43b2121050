// operatorapi/operator_nodes.go: how much memory every one of numNodes nodes can be given.
module Nodes {
  import opened Counting
  import opened Sorting
  import opened Wrappers

  const MAX_INT32: int := 0x7fff_ffff
  const MASTER_KEY := "node-role.kubernetes.io/master"

  datatype TaintEffect = NoSchedule | PreferNoSchedule | NoExecute
  datatype Taint = Taint(key: string, effect: TaintEffect)
  // The allocatable memory of a node may be missing from its status.
  datatype Node = Node(taints: seq<Taint>, memory: Option<int>)

  datatype NodesError = FewerThanFourNodes | ListFailed | TooManyNodes | TooFewNodes | TooFewSchedulableNodes

  function AscendingInts(): (int, int) -> bool { (x: int, y: int) => x < y }

  function WeightAtLeast(m: int): int -> nat { (x: int) => if x >= m then 1 else 0 }

  // How many sizes are m or more.
  function AtLeast(sizes: seq<int>, m: int): nat { Total(sizes, WeightAtLeast(m)) }

  // m is the largest amount that n of the sizes can all provide.
  ghost predicate Best(sizes: seq<int>, n: nat, m: int) {
    AtLeast(sizes, m) >= n && forall larger | larger > m :: AtLeast(sizes, larger) < n
  }

  lemma BestIsUnique(sizes: seq<int>, n: nat, m1: int, m2: int)
    requires Best(sizes, n, m1) && Best(sizes, n, m2)
    ensures m1 == m2
  {
    assert AtLeast(sizes, m1) >= n && AtLeast(sizes, m2) >= n;
  }

  // Asking for more nodes never yields more memory per node.
  lemma BestIsAntitone(sizes: seq<int>, n1: nat, n2: nat, m1: int, m2: int)
    requires n1 <= n2 && Best(sizes, n1, m1) && Best(sizes, n2, m2)
    ensures m2 <= m1
  {
    assert AtLeast(sizes, m2) >= n1;
  }

  // The order in which the nodes are listed does not matter.
  lemma BestIgnoresOrder(sizes: seq<int>, other: seq<int>, n: nat, m: int)
    requires multiset(sizes) == multiset(other)
    ensures Best(sizes, n, m) <==> Best(other, n, m)
  {
    forall x ensures AtLeast(sizes, x) == AtLeast(other, x) {
      TotalPermutation(sizes, other, WeightAtLeast(x));
    }
  }

  lemma SizesFromHere(sizes: seq<int>, k: nat)
    requires k < |sizes| && Ordered(sizes, AscendingInts())
    ensures AtLeast(sizes, sizes[k]) >= |sizes| - k
  {
    var tail, weight := sizes[k..], WeightAtLeast(sizes[k]);
    assert sizes == sizes[..k] + tail;
    TotalConcat(sizes[..k], tail, weight);
    forall x | x in tail ensures weight(x) == 1 {
      var i :| 0 <= i < |tail| && tail[i] == x;
      assert !AscendingInts()(sizes[k + i], sizes[k]);
    }
    TotalConstant(tail, weight, 1);
  }

  lemma SizesBeyondHere(sizes: seq<int>, k: nat, larger: int)
    requires k < |sizes| && Ordered(sizes, AscendingInts()) && larger > sizes[k]
    ensures AtLeast(sizes, larger) < |sizes| - k
  {
    var head, tail, weight := sizes[..k + 1], sizes[k + 1..], WeightAtLeast(larger);
    assert sizes == head + tail;
    TotalConcat(head, tail, weight);
    forall x | x in head ensures weight(x) == 0 {
      var i :| 0 <= i <= k && head[i] == x;
      assert !AscendingInts()(sizes[k], sizes[i]);
    }
    TotalConstant(head, weight, 0);
    AtLeastIsBounded(tail, larger);
  }

  lemma AtLeastIsBounded(sizes: seq<int>, m: int)
    ensures AtLeast(sizes, m) <= |sizes|
  {
    TotalBounded(sizes, WeightAtLeast(m), (x: int) => 1);
    TotalConstant(sizes, (x: int) => 1, 1);
  }

  // In sorted sizes the answer stands n places from the end.
  lemma SortedOrderStatistic(sizes: seq<int>, n: nat)
    requires 1 <= n <= |sizes| && Ordered(sizes, AscendingInts())
    ensures Best(sizes, n, sizes[|sizes| - n])
  {
    var k := |sizes| - n;
    SizesFromHere(sizes, k);
    forall larger | larger > sizes[k] ensures AtLeast(sizes, larger) < n {
      SizesBeyondHere(sizes, k, larger);
    }
  }

  function Min(x: int, y: int): int { if x > y then y else x }

  // A negative number of nodes makes the index run out of the sizes: the program panics.
  datatype Memory = Amount(value: int) | IndexOutOfRange

  method GetMaxClusterMemory(numNodes: int, nodesMemorySizes: array<int>) returns (r: Memory)
    requires -MAX_INT32 - 1 <= numNodes <= MAX_INT32 && nodesMemorySizes.Length <= MAX_INT32
    modifies nodesMemorySizes
    ensures multiset(nodesMemorySizes[..]) == multiset(old(nodesMemorySizes[..]))
    ensures r.IndexOutOfRange? <==> numNodes < 0
    ensures nodesMemorySizes.Length < numNodes || numNodes == 0 ==> r == Amount(0)
    ensures 1 <= numNodes <= nodesMemorySizes.Length ==>
              && Ordered(nodesMemorySizes[..], AscendingInts())
              && r == Amount(nodesMemorySizes[nodesMemorySizes.Length - numNodes])
              && Best(old(nodesMemorySizes[..]), numNodes, r.value)
  {
    var a := nodesMemorySizes;
    if a.Length < numNodes || numNodes == 0 {
      return Amount(0);
    }
    SortSlice(a, AscendingInts());
    var maxIndex := 0;
    if maxIndex >= a.Length {
      return IndexOutOfRange;
    }
    var maxAllocatableMemory := a[maxIndex];
    for i := 0 to a.Length
      invariant maxIndex == if i <= numNodes then 0 else if numNodes < 0 then i else i - numNodes
      invariant maxIndex < a.Length && maxAllocatableMemory == a[maxIndex]
    {
      if i < numNodes {
        assert i > 0 ==> !AscendingInts()(a[..][i], a[..][0]);
        maxAllocatableMemory := Min(maxAllocatableMemory, a[i]);
      } else {
        maxIndex := maxIndex + 1;
        if maxIndex >= a.Length {
          return IndexOutOfRange;
        }
        maxAllocatableMemory := a[maxIndex];
      }
    }
    SortedOrderStatistic(a[..], numNodes);
    BestIgnoresOrder(a[..], old(a[..]), numNodes, maxAllocatableMemory);
    r := Amount(maxAllocatableMemory);
  }

  // Taints.

  function NoScheduleTaint(): Taint -> nat { (t: Taint) => if t.effect == NoSchedule then 1 else 0 }
  function MasterTaint(): Taint -> nat { (t: Taint) => if t.key == MASTER_KEY then 1 else 0 }

  // The two counters of the program: one decrement for every matching taint, not for every node.
  function NoScheduleTaints(): Node -> nat { (n: Node) => Total(n.taints, NoScheduleTaint()) }
  function MasterTaints(): Node -> nat { (n: Node) => Total(n.taints, MasterTaint()) }

  predicate LacksNoSchedule(n: Node) { forall t | t in n.taints :: t.effect != NoSchedule }

  predicate Eligible(n: Node) { forall t | t in n.taints :: t.effect != NoSchedule && t.effect != NoExecute }

  predicate LacksMaster(n: Node) { forall t | t in n.taints :: t.key != MASTER_KEY }

  function NonMaster(): Node -> nat { (n: Node) => if LacksMaster(n) then 1 else 0 }

  function Schedulable(): Node -> nat { (n: Node) => if LacksNoSchedule(n) then 1 else 0 }

  // An eligible node with at least m bytes of allocatable memory.
  function Capable(m: int): Node -> nat {
    (n: Node) => if Eligible(n) && n.memory.Some? && n.memory.value >= m then 1 else 0
  }

  function EligibleMemory(nodes: seq<Node>): seq<int> {
    if nodes == [] then [] else
      var last := nodes[|nodes| - 1];
      EligibleMemory(nodes[..|nodes| - 1]) + if Eligible(last) && last.memory.Some? then [last.memory.value] else []
  }

  lemma {:induction false} CapableNodesAreSizes(nodes: seq<Node>, m: int)
    ensures Total(nodes, Capable(m)) == AtLeast(EligibleMemory(nodes), m)
  {
    if nodes == [] {
    } else {
      var init, last := nodes[..|nodes| - 1], nodes[|nodes| - 1];
      CapableNodesAreSizes(init, m);
      if Eligible(last) && last.memory.Some? {
        var s := EligibleMemory(init) + [last.memory.value];
        assert s[..|s| - 1] == EligibleMemory(init);
      } else {
        assert EligibleMemory(nodes) == EligibleMemory(init);
      }
    }
  }

  lemma NoTaintMarks(taints: seq<Taint>, mark: Taint -> nat)
    ensures Total(taints, mark) == 0 <==> forall t | t in taints :: mark(t) == 0
  {
    TotalBounded(taints, (t: Taint) => 0, mark);
    TotalConstant(taints, (t: Taint) => 0, 0);
  }

  // How many marks a node has beyond its first.
  function Extra(marks: Node -> nat): Node -> nat { (n: Node) => if marks(n) > 1 then marks(n) - 1 else 0 }

  // Subtracting every mark falls short of the unmarked nodes by the extra marks.
  lemma {:induction false} MarkCounter(nodes: seq<Node>, marks: Node -> nat, unmarked: Node -> nat)
    requires forall n | n in nodes :: unmarked(n) == if marks(n) == 0 then 1 else 0
    ensures |nodes| - Total(nodes, marks) == Total(nodes, unmarked) - Total(nodes, Extra(marks))
    ensures Total(nodes, Extra(marks)) == 0 <==> forall n | n in nodes :: marks(n) <= 1
  {
    if nodes == [] {
    } else {
      var init, last := nodes[..|nodes| - 1], nodes[|nodes| - 1];
      assert nodes == init + [last];
      MarkCounter(init, marks, unmarked);
    }
  }

  // The schedulable counter is a lower bound on the schedulable nodes,
  // and exact precisely when no node carries two NoSchedule taints.
  lemma SchedulableCounter(nodes: seq<Node>)
    ensures |nodes| - Total(nodes, NoScheduleTaints())
            == Total(nodes, Schedulable()) - Total(nodes, Extra(NoScheduleTaints()))
    ensures |nodes| - Total(nodes, NoScheduleTaints()) == Total(nodes, Schedulable())
            <==> forall n | n in nodes :: NoScheduleTaints()(n) <= 1
  {
    forall n | n in nodes ensures NoScheduleTaints()(n) == 0 <==> LacksNoSchedule(n) {
      NoTaintMarks(n.taints, NoScheduleTaint());
    }
    MarkCounter(nodes, NoScheduleTaints(), Schedulable());
  }

  // So it is with the counter of the nodes that are not masters.
  lemma NonMasterCounter(nodes: seq<Node>)
    ensures |nodes| - Total(nodes, MasterTaints()) == Total(nodes, NonMaster()) - Total(nodes, Extra(MasterTaints()))
    ensures |nodes| - Total(nodes, MasterTaints()) == Total(nodes, NonMaster())
            <==> forall n | n in nodes :: MasterTaints()(n) <= 1
  {
    forall n | n in nodes ensures MasterTaints()(n) == 0 <==> LacksMaster(n) {
      NoTaintMarks(n.taints, MasterTaint());
    }
    MarkCounter(nodes, MasterTaints(), NonMaster());
  }

  // Whether a request passes the counters.
  predicate Accepted(nodes: seq<Node>, numNodes: int) {
    && numNodes <= |nodes| - Total(nodes, NoScheduleTaints())
    && numNodes <= |nodes| - Total(nodes, MasterTaints())
  }

  // How many nodes can be asked for: there are as many schedulable ones, and as many non-masters.
  function Enough(nodes: seq<Node>): nat { Min(Total(nodes, Schedulable()), Total(nodes, NonMaster())) }

  // The surplus of nodes of either kind makes up for the taints of that kind counted twice.
  predicate SurplusCovers(nodes: seq<Node>) {
    && Total(nodes, Extra(NoScheduleTaints())) <= Total(nodes, Schedulable()) - Enough(nodes)
    && Total(nodes, Extra(MasterTaints())) <= Total(nodes, NonMaster()) - Enough(nodes)
  }

  // Requests of four nodes or more are accepted for exactly as many nodes as there are, if and only
  // if there are fewer than four or the surplus covers the taints counted twice.
  lemma AcceptedExactlyWhenEnough(nodes: seq<Node>)
    ensures (forall n :: n >= 4 ==> (Accepted(nodes, n) <==> n <= Enough(nodes)))
            <==> Enough(nodes) < 4 || SurplusCovers(nodes)
  {
    SchedulableCounter(nodes);
    NonMasterCounter(nodes);
    var most := Enough(nodes);
    assert Accepted(nodes, most) <==> SurplusCovers(nodes);
  }

  // With no taint counted twice there is nothing to cover.
  lemma SingleTaintsAreCovered(nodes: seq<Node>)
    requires forall n | n in nodes :: NoScheduleTaints()(n) <= 1 && MasterTaints()(n) <= 1
    ensures SurplusCovers(nodes)
  {
    SchedulableCounter(nodes);
    NonMasterCounter(nodes);
  }

  // The totals of marked nodes are numbers of nodes.

  // Which nodes satisfy a condition.
  ghost function Where(nodes: seq<Node>, holds: Node -> bool): set<nat> { set i: nat | i < |nodes| && holds(nodes[i]) }

  lemma WhereAtEnd(init: seq<Node>, last: Node, holds: Node -> bool)
    ensures |Where(init + [last], holds)| == |Where(init, holds)| + if holds(last) then 1 else 0
  {
    var nodes := init + [last];
    assert Where(nodes, holds) == if holds(last) then Where(init, holds) + {|init|} else Where(init, holds);
  }

  lemma {:induction false} TotalIsNumber(nodes: seq<Node>, weight: Node -> nat, holds: Node -> bool)
    requires forall n | n in nodes :: weight(n) == if holds(n) then 1 else 0
    ensures Total(nodes, weight) == |Where(nodes, holds)|
  {
    if nodes == [] {
      assert Where(nodes, holds) == {};
    } else {
      var n := |nodes| - 1;
      TotalIsNumber(nodes[..n], weight, holds);
      WhereAtEnd(nodes[..n], nodes[n], holds);
      assert nodes == nodes[..n] + [nodes[n]];
    }
  }

  lemma NodesAreCounted(nodes: seq<Node>, m: int)
    ensures Total(nodes, Schedulable())
            == |Where(nodes, (n: Node) => forall t | t in n.taints :: t.effect != NoSchedule)|
    ensures Total(nodes, NonMaster())
            == |Where(nodes, (n: Node) => forall t | t in n.taints :: t.key != "node-role.kubernetes.io/master")|
    ensures Total(nodes, Capable(m))
            == |Where(nodes, (n: Node) =>
                 n.memory.Some? && n.memory.value >= m
                 && forall t | t in n.taints :: t.effect != NoSchedule && t.effect != NoExecute)|
  {
    TotalIsNumber(nodes, Schedulable(), (n: Node) => forall t | t in n.taints :: t.effect != NoSchedule);
    TotalIsNumber(nodes, NonMaster(), (n: Node) =>
      forall t | t in n.taints :: t.key != "node-role.kubernetes.io/master");
    TotalIsNumber(nodes, Capable(m), (n: Node) =>
      n.memory.Some? && n.memory.value >= m
      && forall t | t in n.taints :: t.effect != NoSchedule && t.effect != NoExecute);
  }

  // What a successful answer m for numNodes nodes means.
  ghost predicate Answers(nodes: seq<Node>, numNodes: nat, m: int) {
    && Total(nodes, Schedulable()) >= numNodes
    && (forall larger | larger > m :: Total(nodes, Capable(larger)) < numNodes)
    && (Total(nodes, Capable(m)) >= numNodes || (m == 0 && |EligibleMemory(nodes)| < numNodes))
  }

  method CountNodes(nodes: seq<Node>) returns (schedulableNodes: int, nonMasterNodes: int)
    ensures schedulableNodes == |nodes| - Total(nodes, NoScheduleTaints())
    ensures nonMasterNodes == |nodes| - Total(nodes, MasterTaints())
  {
    schedulableNodes, nonMasterNodes := |nodes|, |nodes|;
    for i := 0 to |nodes|
      invariant schedulableNodes == |nodes| - Total(nodes[..i], NoScheduleTaints())
      invariant nonMasterNodes == |nodes| - Total(nodes[..i], MasterTaints())
    {
      var taints := nodes[i].taints;
      for j := 0 to |taints|
        invariant schedulableNodes
                  == |nodes| - Total(nodes[..i], NoScheduleTaints()) - Total(taints[..j], NoScheduleTaint())
        invariant nonMasterNodes == |nodes| - Total(nodes[..i], MasterTaints()) - Total(taints[..j], MasterTaint())
      {
        TotalExtend(taints, j, NoScheduleTaint());
        TotalExtend(taints, j, MasterTaint());
        if taints[j].effect == NoSchedule {
          schedulableNodes := schedulableNodes - 1;
        }
        if taints[j].key == MASTER_KEY {
          nonMasterNodes := nonMasterNodes - 1;
        }
      }
      assert taints[..|taints|] == taints;
      TotalExtend(nodes, i, NoScheduleTaints());
      TotalExtend(nodes, i, MasterTaints());
    }
    assert nodes[..|nodes|] == nodes;
  }

  method CollectMemory(nodes: seq<Node>) returns (availableMemSizes: seq<int>)
    ensures availableMemSizes == EligibleMemory(nodes)
  {
    availableMemSizes := [];
    label OUTER:
    for i := 0 to |nodes|
      invariant availableMemSizes == EligibleMemory(nodes[..i])
    {
      assert nodes[..i + 1][..i] == nodes[..i];
      var n := nodes[i];
      for j := 0 to |n.taints|
        invariant forall k | 0 <= k < j :: n.taints[k].effect == PreferNoSchedule
      {
        match n.taints[j].effect {
          case NoSchedule => continue OUTER;
          case NoExecute => continue OUTER;
          case PreferNoSchedule =>
        }
      }
      if n.memory.Some? {
        availableMemSizes := availableMemSizes + [n.memory.value];
      }
    }
    assert nodes[..|nodes|] == nodes;
  }

  method GetMaxAllocatableMemory(list: Option<seq<Node>>, numNodes: int) returns (r: Result<int, NodesError>)
    requires -MAX_INT32 - 1 <= numNodes <= MAX_INT32
    requires list.Some? ==> |list.value| <= MAX_INT32
    ensures r == Err(FewerThanFourNodes) <==> numNodes < 4
    ensures r == Err(ListFailed) <==> numNodes >= 4 && list.None?
    ensures numNodes >= 4 && list.Some? ==>
              var schedulable := |list.value| - Total(list.value, NoScheduleTaints());
              var workers := |list.value| - Total(list.value, MasterTaints());
              && (r == Err(TooManyNodes) <==> schedulable < numNodes < workers)
              && (r == Err(TooFewNodes) <==> workers < numNodes)
              && (r == Err(TooFewSchedulableNodes) <==> schedulable < numNodes == workers)
              && (r.Ok? <==> Accepted(list.value, numNodes))
    ensures r.Ok? ==> Answers(list.value, numNodes, r.value)
  {
    if numNodes < 4 {
      return Err(FewerThanFourNodes);
    }
    if list.None? {
      return Err(ListFailed);
    }
    var nodes := list.value;
    var schedulableNodes, nonMasterNodes := CountNodes(nodes);
    if numNodes > schedulableNodes && numNodes < nonMasterNodes {
      return Err(TooManyNodes);
    }
    if nonMasterNodes < numNodes {
      return Err(TooFewNodes);
    }
    if schedulableNodes < numNodes {
      return Err(TooFewSchedulableNodes);
    }
    var availableMemSizes := CollectMemory(nodes);
    EligibleAreFewer(nodes);
    var sizes := new int[|availableMemSizes|](i requires 0 <= i < |availableMemSizes| => availableMemSizes[i]);
    assert sizes[..] == availableMemSizes;
    var memory := GetMaxClusterMemory(numNodes, sizes);
    var m := memory.value;
    SchedulableCounter(nodes);
    AnswersFromSizes(nodes, numNodes, m);
    return Ok(m);
  }

  lemma {:induction false} EligibleAreFewer(nodes: seq<Node>)
    ensures |EligibleMemory(nodes)| <= |nodes|
  {
    if nodes == [] {
    } else {
      EligibleAreFewer(nodes[..|nodes| - 1]);
    }
  }

  lemma AnswersFromSizes(nodes: seq<Node>, numNodes: nat, m: int)
    requires numNodes > 0 && Total(nodes, Schedulable()) >= numNodes
    requires if |EligibleMemory(nodes)| < numNodes then m == 0 else Best(EligibleMemory(nodes), numNodes, m)
    ensures Answers(nodes, numNodes, m)
  {
    var sizes := EligibleMemory(nodes);
    CapableNodesAreSizes(nodes, m);
    forall larger | larger > m ensures Total(nodes, Capable(larger)) < numNodes {
      CapableNodesAreSizes(nodes, larger);
      if |sizes| < numNodes {
        AtLeastIsBounded(sizes, larger);
      }
    }
  }

  // Clusters with enough nodes of both kinds that are refused: one tainted node is counted twice.

  const FREE_NODE := Node([], Some(1))

  function FourFreeAnd(n: Node): seq<Node> { [FREE_NODE, FREE_NODE, FREE_NODE, FREE_NODE] + [n] }

  lemma TotalOfFive(n: Node, weight: Node -> nat)
    ensures Total(FourFreeAnd(n), weight) == 4 * weight(FREE_NODE) + weight(n)
  {
    var free := [FREE_NODE, FREE_NODE, FREE_NODE, FREE_NODE];
    TotalConstant(free, weight, weight(FREE_NODE));
    TotalConcat(free, [n], weight);
    TotalFirst(n, [], weight);
  }

  lemma TotalOfTwo(a: Taint, b: Taint, mark: Taint -> nat)
    ensures Total([a, b], mark) == mark(a) + mark(b)
  {
    assert [a, b] == [a] + [b];
    TotalConcat([a], [b], mark);
    TotalFirst(a, [], mark);
    TotalFirst(b, [], mark);
  }

  lemma TwiceTainted(a: Taint, b: Taint)
    requires a.effect == NoSchedule
    ensures var nodes := FourFreeAnd(Node([a, b], Some(1)));
      && Total(nodes, Schedulable()) == 4 && |nodes| == 5
      && Total(nodes, NonMaster()) == 4 + (if a.key == MASTER_KEY || b.key == MASTER_KEY then 0 else 1)
      && Total(nodes, NoScheduleTaints()) == 1 + NoScheduleTaint()(b)
      && Total(nodes, MasterTaints()) == MasterTaint()(a) + MasterTaint()(b)
  {
    var n := Node([a, b], Some(1));
    assert n.taints[0] == a && n.taints[1] == b;
    TotalOfTwo(a, b, NoScheduleTaint());
    TotalOfTwo(a, b, MasterTaint());
    TotalOfFive(n, Schedulable());
    TotalOfFive(n, NonMaster());
    TotalOfFive(n, NoScheduleTaints());
    TotalOfFive(n, MasterTaints());
  }

  // Two NoSchedule taints under other keys.
  method DoublyTaintedNodeIsCountedTwice() returns (nodes: seq<Node>, r: Result<int, NodesError>)
    ensures Enough(nodes) == 4 && r == Err(TooManyNodes)
  {
    var a, b := Taint("a", NoSchedule), Taint("b", NoSchedule);
    nodes := FourFreeAnd(Node([a, b], Some(1)));
    TwiceTainted(a, b);
    r := GetMaxAllocatableMemory(Some(nodes), 4);
  }

  // A master that must neither be scheduled on nor executed on.
  method DoublyTaintedMasterIsCountedTwice() returns (nodes: seq<Node>, r: Result<int, NodesError>)
    ensures Enough(nodes) == 4 && r == Err(TooFewNodes)
    ensures forall n | n in nodes :: NoScheduleTaints()(n) <= 1
  {
    var a, b := Taint(MASTER_KEY, NoSchedule), Taint(MASTER_KEY, NoExecute);
    nodes := FourFreeAnd(Node([a, b], Some(1)));
    TwiceTainted(a, b);
    TotalOfTwo(a, b, NoScheduleTaint());
    r := GetMaxAllocatableMemory(Some(nodes), 4);
  }
}
