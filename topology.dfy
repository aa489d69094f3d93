/** NUMA topology: which cores belong to which memory node. Detection does not read
    the machine: on Linux it splits the cores into two equal halves, elsewhere (or when
    the operating-system probe fails) it assumes a single node holding every core. */
module Topology {
  import opened Common

  /** The outcome of asking which operating system the process runs on. */
  datatype Detection =
    | LinuxOs       // the os.name property names Linux
    | OtherOs       // any other operating system
    | ProbeFailed   // the probe threw before anything was recorded

  /** Both tables of a topology: node -> its cores (in ascending order), and
      core -> its node. */
  datatype Layout = Layout(nodeToCpus: map<int, seq<int>>, cpuToNode: map<int, int>)

  /** Every core of [0, upto) on node 0. */
  function SingleNodeCpuMap(upto: int): (m: map<int, int>)
    ensures forall c :: c in m <==> 0 <= c < upto
    ensures forall c :: c in m ==> m[c] == 0
  {
    map c | c in CoreRange(0, upto) :: 0
  }

  /** The core -> node table the two-node split has written once it reached core
      `upto`: cores below `half` on node 0, the others on node 1. */
  function LinuxCpuMap(half: int, upto: int): (m: map<int, int>)
    ensures forall c :: c in m <==> 0 <= c < upto
    ensures forall c :: c in m ==> m[c] == (if c < half then 0 else 1)
  {
    map c | c in CoreRange(0, upto) :: if c < half then 0 else 1
  }

  /** The node table the two-node split has written after `nodes` of its two rounds:
      node k holds [k * half, (k + 1) * half), and an empty node is not recorded. */
  function LinuxNodes(half: int, nodes: int): (m: map<int, seq<int>>)
    ensures half <= 0 || nodes <= 0 ==> m == map[]
    ensures half > 0 && nodes > 0 ==> 0 in m
  {
    if half <= 0 || nodes <= 0 then map[]
    else if nodes == 1 then map[0 := Ascending(0, half)]
    else map[0 := Ascending(0, half), 1 := Ascending(half, 2 * half)]
  }

  /** The topology detected for a machine with `cpuCount` cores. */
  function DetectedLayout(cpuCount: nat, detection: Detection): (l: Layout)
    ensures l.nodeToCpus.Keys == if IsSplit(cpuCount, detection) then {0, 1} else {0}
    ensures forall c :: c in l.cpuToNode <==>
      0 <= c < (if IsSplit(cpuCount, detection) then 2 * (cpuCount / 2) else cpuCount)
  {
    var half := cpuCount / 2;
    if detection == LinuxOs && half > 0 then
      Layout(LinuxNodes(half, 2), LinuxCpuMap(half, 2 * half))
    else
      Layout(map[0 := Ascending(0, cpuCount)], SingleNodeCpuMap(cpuCount))
  }

  /** Whether detection produced the two-node split. */
  predicate IsSplit(cpuCount: nat, detection: Detection)
  {
    detection == LinuxOs && cpuCount / 2 > 0
  }

  class NumaTopology {
    var numaNodeToCpus: map<int, seq<int>>
    var cpuToNumaNode: map<int, int>
    /** The core count and detection outcome the tables were built from. */
    ghost const cpuCount: nat
    ghost const detection: Detection

    /** The tables are the ones detection produces. */
    ghost predicate Valid()
      reads this
    {
      Layout(numaNodeToCpus, cpuToNumaNode) == DetectedLayout(cpuCount, detection)
    }

    /** The private constructor: starts from empty tables and runs detection. */
    constructor (cpuCount: nat, detection: Detection)
      ensures this.cpuCount == cpuCount && this.detection == detection
      ensures Valid()
    {
      this.cpuCount := cpuCount;
      this.detection := detection;
      numaNodeToCpus := map[];
      cpuToNumaNode := map[];
      new;
      DetectTopology(cpuCount, detection);
    }

    /** `detectTopology`: the two-node split on Linux, a single node otherwise and
        when the probe fails. */
    method DetectTopology(cpuCount: nat, detection: Detection)
      requires numaNodeToCpus == map[] && cpuToNumaNode == map[]
      modifies this
      ensures Layout(numaNodeToCpus, cpuToNumaNode) == DetectedLayout(cpuCount, detection)
    {
      if detection == LinuxOs {
        DetectLinuxNumaTopology(cpuCount);
      } else {
        AssumeSingleNode(cpuCount);
      }
    }

    /** The single-node fallback: node 0 gets a fresh list holding 0 .. cpuCount - 1
        and every one of those cores is mapped to node 0; other entries stay. */
    method AssumeSingleNode(cpuCount: nat)
      modifies this
      ensures numaNodeToCpus == old(numaNodeToCpus)[0 := Ascending(0, cpuCount)]
      ensures cpuToNumaNode == old(cpuToNumaNode) + SingleNodeCpuMap(cpuCount)
    {
      numaNodeToCpus := numaNodeToCpus[0 := []];
      var i := 0;
      while i < cpuCount
        invariant 0 <= i <= cpuCount
        invariant numaNodeToCpus == old(numaNodeToCpus)[0 := Ascending(0, i)]
        invariant cpuToNumaNode == old(cpuToNumaNode) + SingleNodeCpuMap(i)
      {
        assert Ascending(0, i) + [i] == Ascending(0, i + 1);
        numaNodeToCpus := numaNodeToCpus[0 := numaNodeToCpus[0] + [i]];
        cpuToNumaNode := cpuToNumaNode[i := 0];
        i := i + 1;
      }
    }

    /** `detectLinuxNumaTopology`: two rounds, node k taking the cores
        [k * (cpuCount / 2), (k + 1) * (cpuCount / 2)); a node that got no core is not
        recorded, and if neither was, the single-node fallback runs. */
    method DetectLinuxNumaTopology(cpuCount: nat)
      requires numaNodeToCpus == map[] && cpuToNumaNode == map[]
      modifies this
      ensures Layout(numaNodeToCpus, cpuToNumaNode) == DetectedLayout(cpuCount, LinuxOs)
    {
      var cpusPerNode := cpuCount / 2;
      var node := 0;
      while node < 2
        invariant 0 <= node <= 2
        invariant numaNodeToCpus == LinuxNodes(cpusPerNode, node)
        invariant cpuToNumaNode == LinuxCpuMap(cpusPerNode, node * cpusPerNode)
      {
        assert node == 0 || node == 1;
        var cpus := CollectNode(node, cpusPerNode, cpuCount);
        if cpus != [] {
          numaNodeToCpus := numaNodeToCpus[node := cpus];
        }
        if cpusPerNode > 0 && node == 1 {
          assert numaNodeToCpus == map[0 := Ascending(0, cpusPerNode)][1 := cpus];
        }
        node := node + 1;
      }
      if numaNodeToCpus == map[] {
        assert cpuToNumaNode == map[];
        AssumeSingleNode(cpuCount);
        assert cpuToNumaNode == SingleNodeCpuMap(cpuCount);
      }
    }

    /** One round of the two-node split: the cores i with
        node * cpusPerNode <= i < (node + 1) * cpusPerNode and i < cpuCount, collected in
        ascending order and each mapped to `node`. */
    method CollectNode(node: int, cpusPerNode: int, cpuCount: int) returns (cpus: seq<int>)
      requires node == 0 || node == 1
      requires 0 <= cpusPerNode && 2 * cpusPerNode <= cpuCount
      requires cpuToNumaNode == LinuxCpuMap(cpusPerNode, node * cpusPerNode)
      modifies this
      ensures cpus == Ascending(node * cpusPerNode, (node + 1) * cpusPerNode)
      ensures cpuToNumaNode == LinuxCpuMap(cpusPerNode, (node + 1) * cpusPerNode)
      ensures numaNodeToCpus == old(numaNodeToCpus)
    {
      var lo := node * cpusPerNode;
      var hi := (node + 1) * cpusPerNode;
      assert node == 0 ==> lo == 0 && hi == cpusPerNode;
      assert node == 1 ==> lo == cpusPerNode && hi == 2 * cpusPerNode;
      cpus := [];
      var i := lo;
      while i < hi && i < cpuCount
        invariant lo <= i <= hi
        invariant cpus == Ascending(lo, i)
        invariant cpuToNumaNode == LinuxCpuMap(cpusPerNode, i)
        invariant numaNodeToCpus == old(numaNodeToCpus)
      {
        assert Ascending(lo, i) + [i] == Ascending(lo, i + 1);
        cpus := cpus + [i];
        cpuToNumaNode := cpuToNumaNode[i := node];
        i := i + 1;
      }
    }

    /** `getNumaNode`: the node of a core, 0 for a core the table does not hold.
        On the split, exactly the cores of [half, 2 * half) are on node 1. */
    function GetNumaNode(cpu: int): (node: int)
      reads this
      ensures Valid() ==>
        node == (if IsSplit(cpuCount, detection) && cpuCount / 2 <= cpu < 2 * (cpuCount / 2)
                 then 1 else 0)
    {
      if cpu in cpuToNumaNode then cpuToNumaNode[cpu] else 0
    }

    /** `getCpusInNode`: a copy of a node's core list, empty for an unknown node. */
    function GetCpusInNode(numaNode: int): (cpus: seq<int>)
      reads this
      ensures Valid() && IsSplit(cpuCount, detection) ==>
        cpus == (if numaNode == 0 then Ascending(0, cpuCount / 2)
                 else if numaNode == 1 then Ascending(cpuCount / 2, 2 * (cpuCount / 2))
                 else [])
      ensures Valid() && !IsSplit(cpuCount, detection) ==>
        cpus == (if numaNode == 0 then Ascending(0, cpuCount) else [])
    {
      if numaNode in numaNodeToCpus then numaNodeToCpus[numaNode] else []
    }

    /** `getLocalNumaCpus`: the cores of node 0, whatever thread asks. */
    function GetLocalNumaCpus(): (cpus: seq<int>)
      reads this
      ensures Valid() ==>
        cpus == Ascending(0, if IsSplit(cpuCount, detection) then cpuCount / 2 else cpuCount)
    {
      GetCpusInNode(0)
    }

    /** `getNumaNodes`: the recorded node numbers. */
    function GetNumaNodes(): (nodes: set<int>)
      reads this
      ensures Valid() ==> nodes == if IsSplit(cpuCount, detection) then {0, 1} else {0}
    {
      numaNodeToCpus.Keys
    }
  }

  /** The process-wide instance slot behind `getInstance`. */
  class TopologyHolder {
    var instance: NumaTopology?

    constructor ()
      ensures instance == null
    {
      instance := null;
    }

    /** `getInstance`: detection runs on the first call only; every later call returns
        the same object. */
    method GetInstance(cpuCount: nat, detection: Detection) returns (t: NumaTopology)
      modifies this
      ensures old(instance) != null ==> t == old(instance)
      ensures old(instance) == null ==>
        fresh(t) && t.Valid() && t.cpuCount == cpuCount && t.detection == detection
      ensures instance == t
    {
      if instance == null {
        instance := new NumaTopology(cpuCount, detection);
      }
      t := instance;
    }
  }

  /** The two tables describe one assignment: a core listed under node k maps to k,
      and every mapped core is listed under its node. Hence no core is on two nodes. */
  lemma {:induction false} LayoutConsistent(cpuCount: nat, detection: Detection, c: int, k: int)
    ensures var l := DetectedLayout(cpuCount, detection);
      (k in l.nodeToCpus && c in l.nodeToCpus[k]) <==> (c in l.cpuToNode && l.cpuToNode[c] == k)
  {
    var l := DetectedLayout(cpuCount, detection);
    var half := cpuCount / 2;
    if IsSplit(cpuCount, detection) {
      AscendingElements(0, half, c);
      AscendingElements(half, 2 * half, c);
    } else {
      AscendingElements(0, cpuCount, c);
    }
  }

  /** Distinct nodes share no core. */
  lemma NodesDisjoint(cpuCount: nat, detection: Detection, c: int, k1: int, k2: int)
    requires var l := DetectedLayout(cpuCount, detection);
      k1 in l.nodeToCpus && k2 in l.nodeToCpus && c in l.nodeToCpus[k1] && c in l.nodeToCpus[k2]
    ensures k1 == k2
  {
    LayoutConsistent(cpuCount, detection, c, k1);
    LayoutConsistent(cpuCount, detection, c, k2);
  }

  /** Every listed core is a real core, and each node's list ascends strictly. */
  lemma LayoutWithinMachine(cpuCount: nat, detection: Detection)
    ensures var l := DetectedLayout(cpuCount, detection);
      forall k :: k in l.nodeToCpus ==>
        (forall j :: 0 <= j < |l.nodeToCpus[k]| ==> 0 <= l.nodeToCpus[k][j] < cpuCount) &&
        (forall i, j :: 0 <= i < j < |l.nodeToCpus[k]| ==> l.nodeToCpus[k][i] < l.nodeToCpus[k][j])
  {
  }

  /** Every core 0 .. cpuCount - 1 has a node, except on the split of an odd count. */
  lemma LayoutCoversMachine(cpuCount: nat, detection: Detection, c: int)
    requires !IsSplit(cpuCount, detection) || cpuCount % 2 == 0
    requires 0 <= c < cpuCount
    ensures c in DetectedLayout(cpuCount, detection).cpuToNode
  {
  }

  /** On the split of an odd count the last core is on no node: the halves take
      2 * (cpuCount / 2) cores and the remaining one is dropped, so `getNumaNode`
      falls back to 0 for it although node 0 does not list it. */
  lemma OddLastCoreUnassigned(cpuCount: nat)
    requires cpuCount >= 3 && cpuCount % 2 == 1
    ensures var l := DetectedLayout(cpuCount, LinuxOs);
      cpuCount - 1 !in l.cpuToNode &&
      forall k :: k in l.nodeToCpus ==> cpuCount - 1 !in l.nodeToCpus[k]
  {
    var half := cpuCount / 2;
    AscendingElements(0, half, cpuCount - 1);
    AscendingElements(half, 2 * half, cpuCount - 1);
  }
}
