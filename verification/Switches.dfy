/** Splitting a node count into access switches, and the index from switches to nodes. */
module Switches {
  import opened Common
  import opened Cluster

  const ACCESS_NUM: nat := 45
  const ACCESS_SWITCH := "accessSwitch"
  const HOSTNAME := "kubernetes.io/hostname"

  type AccessIndex = map<Name, seq<Name>>

  // ---------------------------------------------------------------- sizes

  function SizeSum(sizes: seq<int>): int {
    if sizes == [] then 0 else SizeSum(sizes[..|sizes| - 1]) + sizes[|sizes| - 1]
  }

  /** As few switches as possible: all full, except that the last one may hold less. */
  predicate FullSwitches(sizes: seq<int>, n: int) {
    && |sizes| == (n + ACCESS_NUM - 1) / ACCESS_NUM
    && (forall i | 0 <= i < |sizes| - 1 :: sizes[i] == ACCESS_NUM)
    && (sizes != [] ==> 1 <= sizes[|sizes| - 1] <= ACCESS_NUM)
  }

  /** The split that the strategy asks for: "prd" spreads up to 90 nodes evenly over two switches. */
  predicate Split(strategy: string, n: int, sizes: seq<int>) {
    && SizeSum(sizes) == n
    && if strategy == "prd" && n <= 2 * ACCESS_NUM then |sizes| == 2 && sizes[0] <= sizes[1] <= sizes[0] + 1
       else FullSwitches(sizes, n)
  }

  /** The switches of the index, in the order in which they were built, have these sizes. */
  predicate InSizes(access: AccessIndex, order: seq<Name>, sizes: seq<int>) {
    && |order| == |sizes| && NoDuplicates(order) && NameSet(order) == access.Keys
    && forall i | 0 <= i < |order| :: order[i] in access && |access[order[i]]| == sizes[i]
  }

  ghost predicate SplitBy(strategy: string, access: AccessIndex, n: int) {
    exists order: seq<Name>, sizes: seq<int> :: InSizes(access, order, sizes) && Split(strategy, n, sizes)
  }

  lemma NoSizes()
    ensures InSizes(map[], [], [])
  {
  }

  lemma InSizesGrows(access: AccessIndex, order: seq<Name>, sizes: seq<int>, i: nat, sw: Name, names: seq<Name>)
    requires i < |sizes| && InSizes(access, order, sizes[..i]) && sw !in access && |names| == sizes[i]
    ensures InSizes(access[sw := names], order + [sw], sizes[..i + 1])
  {
    assert NameSet(order + [sw]) == NameSet(order) + {sw};
    assert forall j | 0 <= j < i :: order[j] in NameSet(order);
  }

  /** The loop that buildNode and buildRulesNode share. */
  method FillSwitches(nodeNumber: nat) returns (sw: seq<int>)
    ensures SizeSum(sw) == nodeNumber && FullSwitches(sw, nodeNumber)
  {
    var switchNumber, switchNumberOut := nodeNumber / ACCESS_NUM, nodeNumber % ACCESS_NUM;
    sw := [];
    for i := 0 to switchNumber
      invariant |sw| == i && SizeSum(sw) == ACCESS_NUM * i && forall j | 0 <= j < i :: sw[j] == ACCESS_NUM
    {
      assert (sw + [ACCESS_NUM])[..i] == sw;
      sw := sw + [ACCESS_NUM];
    }
    if switchNumberOut != 0 {
      assert (sw + [switchNumberOut])[..|sw|] == sw;
      sw := sw + [switchNumberOut];
    }
  }

  method BuildNode(nodeNumber: nat) returns (sw: seq<int>)
    ensures forall i | 0 <= i < |sw| :: 0 < sw[i] <= 45 && (i < |sw| - 1 ==> sw[i] == 45)
    ensures SizeSum(sw) == nodeNumber && FullSwitches(sw, nodeNumber)
  {
    sw := FillSwitches(nodeNumber);
  }

  /** The "prd" rule: up to 90 nodes are spread over two switches, evenly. */
  method BuildRulesNode(nodeNumber: nat) returns (sw: seq<int>)
    ensures forall i | 0 <= i < |sw| :: 0 <= sw[i] <= 45
    ensures nodeNumber <= 90 ==> |sw| == 2 && sw[0] <= sw[1] <= sw[0] + 1
    ensures nodeNumber > 90 ==> forall i | 0 <= i < |sw| - 1 :: sw[i] == 45
    ensures Split("prd", nodeNumber, sw)
  {
    if nodeNumber <= 2 * ACCESS_NUM {
      var sw1, sw2 := nodeNumber / 2, nodeNumber % 2;
      sw := [sw1, sw1 + sw2];
      assert sw[..1] == [sw1] && sw[..1][..0] == [];
      assert SizeSum(sw[..1]) == sw1;
    } else {
      sw := FillSwitches(nodeNumber);
    }
  }

  // ---------------------------------------------------------------- the index

  function NameSet(names: seq<Name>): set<Name> {
    set n | n in names
  }

  lemma {:induction false} NameSetSize(names: seq<Name>)
    requires NoDuplicates(names)
    ensures |NameSet(names)| == |names|
  {
    if names != [] {
      var front, last := names[..|names| - 1], names[|names| - 1];
      NameSetSize(front);
      assert NameSet(names) == NameSet(front) + {last};
    }
  }

  /** A node stored under its own name and host name, hanging from the switch. */
  predicate NodeOn(node: Node, name: Name, sw: Name) {
    && node.name == name
    && HOSTNAME in node.labels && node.labels[HOSTNAME] == name
    && ACCESS_SWITCH in node.labels && node.labels[ACCESS_SWITCH] == sw
  }

  /** The labels that nodeconfig.BuildNode writes for a node of that name. */
  function NodeLabels(labels: map<string, Name>, nodeName: Name): map<string, Name> {
    labels["kubernetes.io/arch" := Given("amd64")][HOSTNAME := nodeName]["kubernetes.io/os" := Given("linux")]
          ["node-role.kubernetes.io/node" := Given("")]["provisioner" := Given("kubesim")]
  }

  /** What a request says of a node, in the units of the request. */
  datatype NodeCapacity = NodeCapacity(gpuNumber: int, cpu: int, memory: int, storage: int)

  /** buildNodeCapacity and buildNodeAllocatable: memory comes in MiB and storage in GiB. */
  function CapacityOf(c: NodeCapacity): Capacity {
    Capacity(c.cpu, c.memory * 0x10_0000, c.storage * 0x4000_0000, 100, c.gpuNumber)
  }

  /** The labels that building a node writes, whatever the request says. */
  predicate Written(key: string) {
    key in {"accessSwitch", "kubernetes.io/arch", "kubernetes.io/hostname", "kubernetes.io/os",
            "node-role.kubernetes.io/node", "provisioner"}
  }

  /** All other labels are those of the request. */
  predicate KeepsLabels(labels: map<string, Name>, request: map<string, Name>) {
    && (forall k | k in request && !Written(k) :: k in labels && labels[k] == request[k])
    && (forall k | k in labels && !Written(k) :: k in request)
  }

  lemma KeepsLabelsStill(labels: map<string, Name>, between: map<string, Name>, request: map<string, Name>)
    requires KeepsLabels(labels, between) && KeepsLabels(between, request)
    ensures KeepsLabels(labels, request)
  {
  }

  /** A node as the request asks for it. */
  predicate AsRequested(node: Node, labels: map<string, Name>, c: NodeCapacity) {
    && KeepsLabels(node.labels, labels)
    && node.labels.Keys >= {"kubernetes.io/arch", "kubernetes.io/os", "node-role.kubernetes.io/node", "provisioner"}
    && node.labels["kubernetes.io/arch"] == Given("amd64") && node.labels["kubernetes.io/os"] == Given("linux")
    && node.labels["node-role.kubernetes.io/node"] == Given("") && node.labels["provisioner"] == Given("kubesim")
    && node.capacity == Capacity(c.cpu, c.memory * 1024 * 1024, c.storage * 1024 * 1024 * 1024, 100, c.gpuNumber)
  }

  predicate Requested(nodes: NodeStore, labels: map<string, Name>, c: NodeCapacity) {
    forall n | n in nodes :: AsRequested(nodes[n], labels, c)
  }

  lemma BuiltAsRequested(node: Node, labels: map<string, Name>, c: NodeCapacity)
    requires node.labels == NodeLabels(labels, node.name) && node.capacity == CapacityOf(c)
    ensures AsRequested(node, labels, c)
  {
  }

  /** More nodes on top of those in between, all as requested. */
  lemma RequestedGrows(base: NodeStore, before: NodeStore, nodes: NodeStore, labels: map<string, Name>, c: NodeCapacity)
    requires Requested(before - base.Keys, labels, c) && Requested(nodes - before.Keys, labels, c)
    requires forall n | n in before :: n in nodes && nodes[n] == before[n]
    ensures Requested(nodes - base.Keys, labels, c)
  {
    hide AsRequested;
    forall n | n in nodes - base.Keys ensures AsRequested(nodes[n], labels, c) {
      assert if n in before then n in before - base.Keys else n in nodes - before.Keys;
    }
  }

  lemma BuiltFor(node: Node, before: map<string, Name>, request: map<string, Name>, c: NodeCapacity)
    requires AsRequested(node, before, c) && KeepsLabels(before, request)
    ensures AsRequested(node, request, c) && KeepsLabels(node.labels, request)
  {
    KeepsLabelsStill(node.labels, before, request);
  }

  /** One more switch whose nodes were built from the labels that the switches before it have left. */
  lemma MoreRequested(base: NodeStore, before: NodeStore, uid: nat, nodes: NodeStore, nextUid: nat, sw: Name,
                      names: seq<Name>, labels: map<string, Name>, between: map<string, Name>,
                      request: map<string, Name>, c: NodeCapacity)
    requires SwitchAdded(before, uid, nodes, nextUid, sw, names)
    requires Requested(before - base.Keys, request, c) && Requested(nodes - before.Keys, between, c)
    requires KeepsLabels(labels, between) && KeepsLabels(between, request)
    ensures Requested(nodes - base.Keys, request, c) && KeepsLabels(labels, request)
  {
    RequestedStill(nodes - before.Keys, between, request, c);
    KeepsLabelsStill(labels, between, request);
    hide Requested, KeepsLabels, ListedOn;
    RequestedGrows(base, before, nodes, request, c);
  }

  lemma NothingRequested(nodes: NodeStore, request: map<string, Name>, c: NodeCapacity)
    ensures Requested(nodes - nodes.Keys, request, c) && KeepsLabels(request, request)
  {
  }

  lemma KeepsLabelsItself(labels: map<string, Name>)
    ensures KeepsLabels(labels, labels)
  {
  }

  lemma RequestedStill(nodes: NodeStore, between: map<string, Name>, labels: map<string, Name>, c: NodeCapacity)
    requires Requested(nodes, between, c) && KeepsLabels(between, labels)
    ensures Requested(nodes, labels, c)
  {
    forall n | n in nodes ensures AsRequested(nodes[n], labels, c) {
      KeepsLabelsStill(nodes[n].labels, between, labels);
    }
  }

  lemma SwitchLabelOf(node: Node, name: Name, sw: Name)
    requires NodeOn(node, name, sw)
    ensures ACCESS_SWITCH in node.labels && node.labels[ACCESS_SWITCH] == sw
  {
  }

  predicate WellNamed(nodes: NodeStore, nextUid: nat) {
    forall n | n in nodes :: OlderThan(n, nextUid)
  }

  function SwitchOf(node: Node): Name
    requires ACCESS_SWITCH in node.labels
  {
    node.labels[ACCESS_SWITCH]
  }

  /** The index is exactly the grouping of the nodes by their switch label (a switch without nodes
      keeps an empty list), and every node carries its own name as host name. */
  ghost predicate IndexOf(access: AccessIndex, nodes: NodeStore) {
    && (forall sw | sw in access :: NoDuplicates(access[sw]) && |access[sw]| <= ACCESS_NUM)
    && (forall sw | sw in access :: ListedOn(access[sw], nodes, sw))
    && (forall n | n in nodes :: Indexed(access, nodes[n], n))
  }

  predicate ListedOn(names: seq<Name>, nodes: NodeStore, sw: Name) {
    forall n | n in names :: n in nodes && NodeOn(nodes[n], n, sw)
  }

  predicate Indexed(access: AccessIndex, node: Node, n: Name) {
    ACCESS_SWITCH in node.labels && SwitchOf(node) in access && n in access[SwitchOf(node)]
  }

  /** One more switch with its nodes. */
  lemma IndexGrows(access: AccessIndex, nodes: NodeStore, sw: Name, names: seq<Name>, nodes': NodeStore)
    requires IndexOf(access, nodes) && sw !in access
    requires NoDuplicates(names) && |names| <= ACCESS_NUM
    requires nodes'.Keys == nodes.Keys + NameSet(names)
    requires forall n | n in nodes :: nodes'[n] == nodes[n]
    requires ListedOn(names, nodes', sw)
    ensures IndexOf(access[sw := names], nodes')
  {
    hide NoDuplicates, NodeOn;
    var access' := access[sw := names];
    forall s | s in access' ensures ListedOn(access'[s], nodes', s) {
      assert s != sw ==> ListedOn(access[s], nodes, s);
    }
    forall n | n in nodes' ensures Indexed(access', nodes'[n], n) {
      if n in names {
        assert NodeOn(nodes'[n], n, sw) ==> Indexed(access', nodes'[n], n) by {
          NodeOnIndexed(access', nodes'[n], n, sw);
        }
      } else {
        assert Indexed(access, nodes[n], n);
      }
    }
  }

  lemma NodeOnIndexed(access: AccessIndex, node: Node, n: Name, sw: Name)
    requires sw in access && n in access[sw]
    ensures NodeOn(node, n, sw) ==> Indexed(access, node, n)
  {
  }

  /** A fresh switch with freshly named nodes has come on top of the nodes before. */
  predicate SwitchAdded(before: NodeStore, uid: nat, nodes: NodeStore, nextUid: nat, sw: Name, names: seq<Name>) {
    && WellNamed(nodes, nextUid) && nextUid > uid
    && !OlderThan(sw, uid) && OlderThan(sw, nextUid)
    && NoDuplicates(names)
    && nodes.Keys == before.Keys + NameSet(names) && before.Keys !! NameSet(names)
    && (forall n | n in before :: nodes[n] == before[n])
    && ListedOn(names, nodes, sw)
  }

  lemma SwitchWithoutNodes(nodes: NodeStore, uid: nat, sw: Name, request: map<string, Name>, c: NodeCapacity)
    requires WellNamed(nodes, uid) && sw.Generated? && sw.uid == uid
    ensures SwitchAdded(nodes, uid, nodes, uid + 1, sw, [])
    ensures Requested(nodes - nodes.Keys, request, c)
    ensures KeepsLabels(request[ACCESS_SWITCH := sw], request)
  {
  }

  /** One more node of the switch, under a fresh name. */
  lemma NodeJoins(before: NodeStore, uid: nat, nodes: NodeStore, nextUid: nat, sw: Name, names: seq<Name>, node: Node,
                  request: map<string, Name>, c: NodeCapacity)
    requires SwitchAdded(before, uid, nodes, nextUid, sw, names) && Requested(nodes - before.Keys, request, c)
    requires node.name.Generated? && node.name.uid == nextUid && NodeOn(node, node.name, sw)
    requires AsRequested(node, request, c)
    ensures SwitchAdded(before, uid, nodes[node.name := node], nextUid + 1, sw, names + [node.name])
    ensures Requested(nodes[node.name := node] - before.Keys, request, c)
  {
    hide NodeOn, AsRequested, NoDuplicates;
    OneMoreName(names, node.name);
    assert node.name !in nodes;
    var added := nodes[node.name := node] - before.Keys;
    forall n | n in added ensures AsRequested(added[n], request, c) {
      assert n == node.name || n in nodes - before.Keys;
    }
  }

  /** A batch of switches on top of the nodes in `base`. */
  ghost predicate Batch(base: NodeStore, nodes: NodeStore, access: AccessIndex, nextUid: nat) {
    && WellNamed(nodes, nextUid)
    && (forall n | n in base :: n in nodes && nodes[n] == base[n])
    && IndexOf(access, nodes - base.Keys)
    && (forall sw | sw in access :: OlderThan(sw, nextUid))
  }

  lemma EmptyBatch(nodes: NodeStore, nextUid: nat)
    requires WellNamed(nodes, nextUid)
    ensures Batch(nodes, nodes, map[], nextUid)
  {
    assert nodes - nodes.Keys == map[];
  }

  lemma BatchGrows(base: NodeStore, before: NodeStore, access: AccessIndex, uid: nat,
                   sw: Name, names: seq<Name>, nodes: NodeStore, nextUid: nat)
    requires Batch(base, before, access, uid) && SwitchAdded(before, uid, nodes, nextUid, sw, names)
    requires |names| <= ACCESS_NUM
    ensures Batch(base, nodes, access[sw := names], nextUid)
  {
    hide NodeOn, NoDuplicates, IndexOf;
    var added, added' := before - base.Keys, nodes - base.Keys;
    assert added'.Keys == added.Keys + NameSet(names);
    assert forall n | n in names :: n in NameSet(names);
    assert ListedOn(names, added', sw);
    hide ListedOn;
    IndexGrows(access, added, sw, names, added');
  }

  lemma StoreGrows(before: NodeStore, uid: nat, nodes: NodeStore, nextUid: nat, sw: Name, names: seq<Name>)
    requires SwitchAdded(before, uid, nodes, nextUid, sw, names)
    ensures WellNamed(nodes, nextUid) && nextUid >= uid
    ensures |nodes| == |before| + |names|
  {
    NameSetSize(names);
    assert |nodes.Keys| == |before.Keys| + |NameSet(names)|;
  }

  /** On an empty store, one batch is the whole store. */
  lemma FreshIndex(none: NodeStore, nodes: NodeStore, access: AccessIndex, nextUid: nat, count: nat,
                   request: map<string, Name>, c: NodeCapacity)
    requires none == map[]
    requires count > 0 ==> Batch(none, nodes, access, nextUid) && Requested(nodes - none.Keys, request, c)
    requires count == 0 ==> nodes == map[] && access == map[]
    ensures IndexOf(access, nodes) && Requested(nodes, request, c)
  {
    assert nodes - none.Keys == nodes;
  }

  lemma NextName(items: seq<Name>, i: nat)
    requires NoDuplicates(items) && i < |items|
    ensures NameSet(items[..i + 1]) == NameSet(items[..i]) + {items[i]}
    ensures items[i] !in NameSet(items[..i]) && items[i] in NameSet(items)
  {
    assert items[..i + 1] == items[..i] + [items[i]];
  }

  /** Deleting the next node of a list of all nodes. */
  lemma DropOne(store: NodeStore, items: seq<Name>, i: nat)
    requires NoDuplicates(items) && NameSet(items) == store.Keys && i < |items|
    ensures store - NameSet(items[..i]) - {items[i]} == store - NameSet(items[..i + 1])
    ensures |store - NameSet(items[..i + 1])| == |store - NameSet(items[..i])| - 1
  {
    hide NoDuplicates;
    NextName(items, i);
    var gone, last := NameSet(items[..i]), items[i];
    hide NameSet;
    assert (store - (gone + {last})).Keys == (store - gone).Keys - {last};
    assert |(store - gone).Keys - {last}| == |(store - gone).Keys| - 1;
  }

  lemma FreshSwitch(base: NodeStore, before: NodeStore, access: AccessIndex, uid: nat,
                    nodes: NodeStore, nextUid: nat, sw: Name, names: seq<Name>)
    requires Batch(base, before, access, uid) && SwitchAdded(before, uid, nodes, nextUid, sw, names)
    ensures sw !in access
  {
  }

  lemma OneMoreName(names: seq<Name>, n: Name)
    ensures NameSet(names + [n]) == NameSet(names) + {n}
    ensures NoDuplicates(names) && n !in NameSet(names) ==> NoDuplicates(names + [n])
  {
    assert forall j | 0 <= j < |names| :: names[j] in NameSet(names);
  }

  /** A batch in the making: the switches of the first sizes are there, with nodes as requested, and the
      shared label map has kept what the request says. */
  ghost predicate Growing(base: NodeStore, nodes: NodeStore, access: AccessIndex, nextUid: nat, order: seq<Name>,
                          sizes: seq<int>, labels: map<string, Name>, request: map<string, Name>, c: NodeCapacity) {
    && Batch(base, nodes, access, nextUid) && WellNamed(nodes, nextUid)
    && |nodes| == |base| + SizeSum(sizes) && InSizes(access, order, sizes)
    && Requested(nodes - base.Keys, request, c) && KeepsLabels(labels, request)
  }

  lemma StartsGrowing(nodes: NodeStore, nextUid: nat, request: map<string, Name>, c: NodeCapacity)
    requires WellNamed(nodes, nextUid)
    ensures Growing(nodes, nodes, map[], nextUid, [], [], request, request, c)
  {
    hide Batch, WellNamed, InSizes, Requested, KeepsLabels;
    EmptyBatch(nodes, nextUid);
    NothingRequested(nodes, request, c);
    NoSizes();
  }

  lemma SwitchJoins(base: NodeStore, before: NodeStore, access: AccessIndex, uid: nat, order: seq<Name>,
                    sizes: seq<int>, i: nat, between: map<string, Name>, request: map<string, Name>, c: NodeCapacity,
                    sw: Name, names: seq<Name>, nodes: NodeStore, nextUid: nat, labels: map<string, Name>)
    requires i < |sizes| && Growing(base, before, access, uid, order, sizes[..i], between, request, c)
    requires SwitchAdded(before, uid, nodes, nextUid, sw, names) && |names| == sizes[i] <= ACCESS_NUM
    requires Requested(nodes - before.Keys, between, c) && KeepsLabels(labels, between)
    ensures Growing(base, nodes, access[sw := names], nextUid, order + [sw], sizes[..i + 1], labels, request, c)
    ensures nextUid >= uid
  {
    hide Batch, WellNamed, InSizes, Requested, KeepsLabels, SwitchAdded;
    assert sizes[..i + 1][..i] == sizes[..i];
    MoreRequested(base, before, uid, nodes, nextUid, sw, names, labels, between, request, c);
    StoreGrows(before, uid, nodes, nextUid, sw, names);
    BatchGrows(base, before, access, uid, sw, names, nodes, nextUid);
    FreshSwitch(base, before, access, uid, nodes, nextUid, sw, names);
    InSizesGrows(access, order, sizes, i, sw, names);
  }

  // ---------------------------------------------------------------- what is saved

  function SwitchSum(list: seq<AccessSwitch>): int {
    if list == [] then 0 else SwitchSum(list[..|list| - 1]) + list[|list| - 1].nodeNumber
  }

  /** The list holds each switch of the index once, in some order. */
  ghost predicate Lists(list: seq<AccessSwitch>, access: AccessIndex) {
    && (forall i | 0 <= i < |list| ::
          && list[i].name in access && list[i].nodeNameList == access[list[i].name]
          && list[i].nodeNumber == Int32(|access[list[i].name]|))
    && (forall i, j | 0 <= i < j < |list| :: list[i].name != list[j].name)
  }

  function SwitchNames(list: seq<AccessSwitch>): set<Name> {
    set s | s in list :: s.name
  }

  /** Saving one more switch of the index. */
  lemma ListsOneMore(list: seq<AccessSwitch>, access: AccessIndex, name: Name)
    requires Lists(list, access) && name in access && name !in SwitchNames(list)
    ensures var sw := AccessSwitch(name, Int32(|access[name]|), access[name]);
            Lists(list + [sw], access) && SwitchNames(list + [sw]) == SwitchNames(list) + {name}
  {
    hide Int32;
    assert forall i | 0 <= i < |list| :: list[i] in list;
    var more := list + [AccessSwitch(name, Int32(|access[name]|), access[name])];
    assert more[|list|] in more && forall s :: s in list ==> s in more;
  }

  /** The nodes that the switches list. */
  function ListedNodes(list: seq<AccessSwitch>): set<Name> {
    set s, n | s in list && n in s.nodeNameList :: n
  }

  /** The nodes that hang from the given switches. */
  ghost function HungFrom(nodes: NodeStore, switches: set<Name>): set<Name> {
    set n | n in nodes && ACCESS_SWITCH in nodes[n].labels && SwitchOf(nodes[n]) in switches
  }

  lemma HungFromOneMore(access: AccessIndex, nodes: NodeStore, switches: set<Name>, sw: Name)
    requires IndexOf(access, nodes) && sw in access && sw !in switches
    ensures |HungFrom(nodes, switches + {sw})| == |HungFrom(nodes, switches)| + |access[sw]|
  {
    hide NoDuplicates;
    NameSetSize(access[sw]);
    var before := HungFrom(nodes, switches);
    assert ListedOn(access[sw], nodes, sw);
    forall n ensures n in HungFrom(nodes, switches + {sw}) <==> n in before + NameSet(access[sw]) {
      if n in nodes {
        assert Indexed(access, nodes[n], n);
      }
    }
    assert HungFrom(nodes, switches + {sw}) == before + NameSet(access[sw]);
    assert before !! NameSet(access[sw]);
  }

  lemma {:induction false} SumCountsNodes(list: seq<AccessSwitch>, access: AccessIndex, nodes: NodeStore)
    requires IndexOf(access, nodes) && Lists(list, access)
    ensures SwitchSum(list) == |HungFrom(nodes, SwitchNames(list))|
  {
    hide IndexOf;
    if list == [] {
      assert HungFrom(nodes, SwitchNames(list)) == {};
    } else {
      var front, last := list[..|list| - 1], list[|list| - 1];
      SumCountsNodes(front, access, nodes);
      assert SwitchNames(list) == SwitchNames(front) + {last.name};
      HungFromOneMore(access, nodes, SwitchNames(front), last.name);
      SmallSwitch(access, nodes, last.name);
    }
  }

  lemma SmallSwitch(access: AccessIndex, nodes: NodeStore, sw: Name)
    requires IndexOf(access, nodes) && sw in access
    ensures |access[sw]| <= ACCESS_NUM && Int32(|access[sw]|) == |access[sw]|
    ensures ListedOn(access[sw], nodes, sw)
  {
  }

  /** Conservation: the saved node numbers add up to the nodes there are, each switch holds at most
      45, the nodes listed are exactly those there are, and none is listed under two switches. */
  lemma Conservation(list: seq<AccessSwitch>, access: AccessIndex, nodes: NodeStore)
    requires IndexOf(access, nodes) && Lists(list, access) && SwitchNames(list) == access.Keys
    ensures SwitchSum(list) == |nodes|
    ensures forall i | 0 <= i < |list| :: list[i].nodeNumber == |list[i].nodeNameList| <= 45
    ensures forall i, j | 0 <= i < j < |list| ::
              NameSet(list[i].nodeNameList) !! NameSet(list[j].nodeNameList)
    ensures ListedNodes(list) == nodes.Keys
  {
    SumCountsNodes(list, access, nodes);
    AllHung(access, nodes);
    forall i | 0 <= i < |list|
      ensures list[i].nodeNumber == |list[i].nodeNameList| <= ACCESS_NUM
      ensures ListedOn(list[i].nodeNameList, nodes, list[i].name)
    {
      SmallSwitch(access, nodes, list[i].name);
    }
    AllListed(list, access, nodes);
  }

  lemma AllListed(list: seq<AccessSwitch>, access: AccessIndex, nodes: NodeStore)
    requires IndexOf(access, nodes) && Lists(list, access) && SwitchNames(list) == access.Keys
    ensures ListedNodes(list) == nodes.Keys
  {
    hide NoDuplicates;
    forall n | n in nodes ensures n in ListedNodes(list) {
      assert Indexed(access, nodes[n], n);
      var s :| s in list && s.name == SwitchOf(nodes[n]);
    }
    forall s, n | s in list && n in s.nodeNameList ensures n in nodes {
      SmallSwitch(access, nodes, s.name);
    }
  }

  lemma AllHung(access: AccessIndex, nodes: NodeStore)
    requires IndexOf(access, nodes)
    ensures HungFrom(nodes, access.Keys) == nodes.Keys
    ensures |HungFrom(nodes, access.Keys)| == |nodes|
  {
    forall n | n in nodes ensures n in HungFrom(nodes, access.Keys) {
      assert Indexed(access, nodes[n], n);
    }
  }
}
