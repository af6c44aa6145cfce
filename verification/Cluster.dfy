/** The stores of the API server, the scheduler, and the pods that are put in and taken out. */
module Cluster {
  import opened Common
  import opened Reports

  const NO_NODE := Given("")

  type NodeName = n: Name | n != NO_NODE witness Given("node")

  /** The external scheduler's answer to one pending pod. */
  datatype Answer = Placed(nodeName: NodeName) | Refused(message: string)

  /** Doubles as capacity and as what is allocatable; CPU in thousandths, memory and storage in bytes. */
  datatype Capacity = Capacity(cpu: int, memory: int, storage: int, pods: int, gpus: int)

  datatype Node = Node(name: Name, labels: map<string, Name>, capacity: Capacity)

  type NodeStore = map<Name, Node>

  /** What the scheduler sees: the nodes and the pods there are, and which of these is up for
      scheduling. */
  datatype Scene = Scene(nodes: NodeStore, pods: PodStore, pending: Pod)

  /** The scheduler: its answer may depend on the scene and on the moment, in any way. */
  type Scheduler = (Scene, nat) -> Answer

  type Replicas = r: int | 0 < r <= MAX_INT32 witness 1

  datatype PodRequest = PodRequest(pod: Pod, replicas: Replicas)

  datatype PodCondition = PodCondition(kind: string, status: string, reason: string, message: string)

  // ---------------------------------------------------------------- the pod store

  datatype PodKey = PodKey(namespace: string, name: Name)

  type PodStore = map<PodKey, Pod>

  const POD_PROVISIONER := "kubesim.kubernetes.io/provisioned"
  const DEFAULT_SCHEDULER := "default-scheduler"

  function KeyOf(p: Pod): PodKey {
    PodKey(p.namespace, p.name)
  }

  /** The label selector provisioner=kubesim. */
  predicate Provisioned(p: Pod) {
    "provisioner" in p.labels && p.labels["provisioner"] == "kubesim"
  }

  predicate Pending(p: Pod) {
    Provisioned(p) && p.nodeName == NO_NODE
  }

  /** The pod that nextPod builds from the template. */
  function PendingPod(template: Pod, uid: nat): (p: Pod)
    ensures Pending(p) && HasProvisioner(p) && p.name == Generated(template.name, uid)
  {
    template.(nodeName := NO_NODE, name := Generated(template.name, uid), schedulerName := DEFAULT_SCHEDULER,
              annotations := template.annotations[POD_PROVISIONER := DEFAULT_SCHEDULER],
              labels := template.labels["provisioner" := "kubesim"])
  }

  predicate HasProvisioner(p: Pod) {
    POD_PROVISIONER in p.annotations
  }

  /** The pending pod once the scheduler has placed it. */
  function BoundPod(pending: Pod, nodeName: NodeName): (p: Pod)
    ensures KeyOf(p) == KeyOf(pending)
  {
    pending.(nodeName := nodeName, phase := Running)
  }

  /** A pod made from the template: it asks for the same, under a generated name, and carries the
      simulator's marks besides its own labels and annotations. */
  predicate MadeFrom(p: Pod, template: Pod) {
    && p.namespace == template.namespace && p.nodeSelector == template.nodeSelector
    && p.containers == template.containers && p.name.Generated? && p.name.base == template.name
    && p.schedulerName == "default-scheduler"
    && Marked(p.labels, template.labels, "provisioner", "kubesim")
    && Marked(p.annotations, template.annotations, "kubesim.kubernetes.io/provisioned", "default-scheduler")
  }

  /** The map `m` is `from`, but for the one mark. */
  predicate Marked(m: map<string, string>, from: map<string, string>, key: string, value: string) {
    && m.Keys == from.Keys + {key} && m[key] == value
    && forall k | k in from && k != key :: m[k] == from[k]
  }

  /** What the scheduler is asked about is the template in every respect that is not the simulator's. */
  lemma PendingIsTemplate(template: Pod, uid: nat)
    ensures MadeFrom(PendingPod(template, uid), template)
    ensures var p := PendingPod(template, uid); p.nodeName == Given("") && p.phase == template.phase
  {
  }

  predicate OlderThan(n: Name, uid: nat) {
    n.Generated? ==> n.uid < uid
  }

  predicate WellKeyed(pods: PodStore, nextUid: nat) {
    forall k | k in pods :: KeyOf(pods[k]) == k && OlderThan(k.name, nextUid)
  }

  /** The pods that CleanPod leaves alone. */
  function RealPods(pods: PodStore): PodStore {
    map k | k in pods && !Provisioned(pods[k]) :: pods[k]
  }

  predicate NoSimulatedPods(pods: PodStore) {
    forall k | k in pods :: !Provisioned(pods[k])
  }

  lemma AllReal(pods: PodStore)
    requires NoSimulatedPods(pods)
    ensures RealPods(pods) == pods
  {
  }

  function KeysOf(pods: seq<Pod>): set<PodKey> {
    set p | p in pods :: KeyOf(p)
  }

  /** The store `pods` is `base` plus the bound pods of one run. */
  ghost predicate Extends(pods: PodStore, base: PodStore, bound: seq<Pod>) {
    && pods.Keys == base.Keys + KeysOf(bound)
    && (forall k | k in base :: pods[k] == base[k])
    && (forall i | 0 <= i < |bound| ::
          && KeyOf(bound[i]) !in base && pods[KeyOf(bound[i])] == bound[i]
          && Provisioned(bound[i]) && bound[i].nodeName != NO_NODE)
    && (forall i, j | 0 <= i < j < |bound| :: KeyOf(bound[i]) != KeyOf(bound[j]))
  }

  lemma ExtendsKeepsReal(pods: PodStore, base: PodStore, bound: seq<Pod>)
    requires Extends(pods, base, bound)
    ensures RealPods(pods) == RealPods(base)
  {
    forall k | k in pods && k !in base ensures Provisioned(pods[k]) {
      var p :| p in bound && KeyOf(p) == k;
      var i :| 0 <= i < |bound| && bound[i] == p;
    }
  }

  lemma ExtendsByOne(pods: PodStore, base: PodStore, bound: seq<Pod>, p: Pod)
    requires Extends(pods, base, bound) && KeyOf(p) !in pods
    requires Provisioned(p) && p.nodeName != NO_NODE
    ensures Extends(pods[KeyOf(p) := p], base, bound + [p])
  {
    assert forall q :: q in bound + [p] <==> q in bound || q == p;
    forall i | 0 <= i < |bound| ensures KeyOf(bound[i]) in pods {
      assert bound[i] in bound;
    }
  }

  /** The pending pod of a run becomes its next bound pod. */
  lemma ExtendsByBinding(pods: PodStore, base: PodStore, bound: seq<Pod>, p: Pod, q: Pod)
    requires KeyOf(q) == KeyOf(p) && Provisioned(q) && q.nodeName != NO_NODE
    requires Extends(pods - {KeyOf(p)}, base, bound)
    ensures Extends(pods[KeyOf(p) := q], base, bound + [q])
  {
    var rest := pods - {KeyOf(p)};
    ExtendsByOne(rest, base, bound, q);
    assert rest[KeyOf(q) := q] == pods[KeyOf(p) := q];
  }

  predicate Distinct(pods: seq<Pod>) {
    forall i, j | 0 <= i < j < |pods| :: KeyOf(pods[i]) != KeyOf(pods[j])
  }

  /** The pods can be deleted one after the other: all are there, none is named twice. */
  predicate Removable(store: PodStore, pods: seq<Pod>) {
    Distinct(pods) && forall i | 0 <= i < |pods| :: KeyOf(pods[i]) in store
  }

  /** Deleting the pods one after the other gets stuck at the n-th. */
  predicate StuckAt(store: PodStore, pods: seq<Pod>, n: nat) {
    n < |pods| && Removable(store, pods[..n]) && !Removable(store, pods[..n + 1])
  }

  /** When a vertical job leaves the store as it was: its old pods can all be taken away and are the
      store's own, or not even the first of them can. */
  predicate LeavesNoTrace(store: PodStore, oldPods: seq<Pod>) {
    if Removable(store, oldPods) then Matches(store, oldPods) else oldPods != [] && KeyOf(oldPods[0]) !in store
  }

  lemma StuckLeavesTrace(store: PodStore, pods: seq<Pod>, n: nat)
    requires StuckAt(store, pods, n)
    ensures !Removable(store, pods)
    ensures store - KeysOf(pods[..n]) == store <==> LeavesNoTrace(store, pods)
  {
    RemovableStep(store, pods, n);
    var first := pods[..1];
    assert first == [pods[0]];
    if n > 0 {
      assert pods[..n][0] == pods[0] && pods[0] in pods[..n];
      assert KeyOf(pods[0]) in store && KeyOf(pods[0]) !in store - KeysOf(pods[..n]);
    } else {
      assert KeysOf(pods[..n]) == {};
    }
  }

  /** What is left of the store when deleting the pods got stuck. */
  ghost predicate LostPods(store: PodStore, pods: seq<Pod>, left: PodStore) {
    exists n: nat :: StuckAt(store, pods, n) && left == store - KeysOf(pods[..n])
  }

  lemma StuckNotBefore(store: PodStore, pods: seq<Pod>, m: nat, n: nat)
    requires m < n <= |pods| && Removable(store, pods[..n])
    ensures !StuckAt(store, pods, m)
  {
    assert pods[..n][..m + 1] == pods[..m + 1];
  }

  /** There is only one place to get stuck, so what is left is determined. */
  lemma StuckOnce(store: PodStore, pods: seq<Pod>, m: nat, n: nat)
    requires StuckAt(store, pods, m) && StuckAt(store, pods, n)
    ensures m == n
  {
    if m < n {
      StuckNotBefore(store, pods, m, n);
    } else if n < m {
      StuckNotBefore(store, pods, n, m);
    }
  }

  /** A pod that a vertical job lists twice matches the store, yet is lost: the second delete fails. */
  lemma ListedTwiceIsLost(store: PodStore, p: Pod)
    requires KeyOf(p) in store && store[KeyOf(p)] == p
    ensures Matches(store, [p, p]) && StuckAt(store, [p, p], 1) && !LeavesNoTrace(store, [p, p])
    ensures KeyOf(p) !in store - KeysOf([p, p][..1])
  {
    assert [p, p][..1] == [p] && [p, p][..2] == [p, p];
    assert KeyOf([p, p][0]) == KeyOf([p, p][1]);
    assert p in [p];
  }

  /** Simulated pods that a vertical job has listed are in the store no more, and no other pod has
      taken their names, which were generated. */
  predicate SimulatedGone(oldPods: seq<Pod>, store: PodStore) {
    forall p | p in oldPods && Provisioned(p) :: KeyOf(p) !in store
  }

  /** A pod that a vertical job lists before one that is gone by now, say a simulated one of the job
      that ran when it was pushed, is lost. */
  lemma ListedGoneIsLost(store: PodStore, p: Pod, gone: Pod)
    requires KeyOf(p) in store && KeyOf(gone) !in store
    ensures StuckAt(store, [p, gone], 1) && !LeavesNoTrace(store, [p, gone])
    ensures KeyOf(p) !in store - KeysOf([p, gone][..1])
  {
    assert [p, gone][..1] == [p] && [p, gone][..2] == [p, gone];
    assert KeyOf([p, gone][1]) !in store && p in [p];
  }

  /** The store with the pods put into it, the later ones winning. */
  function WithPods(store: PodStore, pods: seq<Pod>): PodStore {
    if pods == [] then store
    else
      var p := pods[|pods| - 1];
      WithPods(store, pods[..|pods| - 1])[KeyOf(p) := p]
  }

  lemma WithOneMore(store: PodStore, pods: seq<Pod>, p: Pod)
    ensures WithPods(store, pods + [p]) == WithPods(store, pods)[KeyOf(p) := p]
  {
    assert (pods + [p])[..|pods|] == pods;
  }

  /** The pods are the store's own. */
  predicate Matches(store: PodStore, pods: seq<Pod>) {
    forall p | p in pods :: KeyOf(p) in store && store[KeyOf(p)] == p
  }

  lemma RemovableStep(store: PodStore, pods: seq<Pod>, i: nat)
    requires i < |pods| && Removable(store, pods[..i])
    ensures Removable(store, pods[..i + 1]) <==> KeyOf(pods[i]) in store - KeysOf(pods[..i])
    ensures KeysOf(pods[..i + 1]) == KeysOf(pods[..i]) + {KeyOf(pods[i])}
    ensures Removable(store, pods) ==> Removable(store, pods[..i + 1])
  {
    var a, b := pods[..i], pods[..i + 1];
    assert b == a + [pods[i]];
    assert forall p :: p in b <==> p in a || p == pods[i];
    assert forall j | 0 <= j < i :: b[j] == a[j] && a[j] in a;
    if KeyOf(pods[i]) in KeysOf(a) {
      var j :| 0 <= j < i && KeyOf(a[j]) == KeyOf(pods[i]);
      assert KeyOf(b[j]) == KeyOf(b[i]);
    }
  }

  lemma {:induction false} WithPodsKeys(store: PodStore, pods: seq<Pod>)
    ensures WithPods(store, pods).Keys == store.Keys + KeysOf(pods)
  {
    if pods != [] {
      var front := pods[..|pods| - 1];
      WithPodsKeys(store, front);
      assert forall p :: p in pods <==> p in front || p == pods[|pods| - 1];
    }
  }

  lemma WithPodsStep(store: PodStore, pods: seq<Pod>, i: nat)
    requires i < |pods| && Distinct(pods) && KeysOf(pods) !! store.Keys
    ensures KeyOf(pods[i]) !in WithPods(store, pods[..i])
    ensures WithPods(store, pods[..i + 1]) == WithPods(store, pods[..i])[KeyOf(pods[i]) := pods[i]]
  {
    WithPodsKeys(store, pods[..i]);
    assert pods[..i + 1][..i] == pods[..i];
    assert KeyOf(pods[i]) in KeysOf(pods);
    assert KeyOf(pods[i]) !in KeysOf(pods[..i]);
  }

  /** Deleting pods and putting them back restores the store exactly when they were its own. */
  lemma {:induction false} RoundTripRestores(store: PodStore, pods: seq<Pod>)
    requires Removable(store, pods)
    ensures WithPods(store - KeysOf(pods), pods).Keys == store.Keys
    ensures WithPods(store - KeysOf(pods), pods) == store <==> Matches(store, pods)
  {
    var rest := store - KeysOf(pods);
    WithPodsKeys(rest, pods);
    assert KeysOf(pods) <= store.Keys;
    WithPodsAt(rest, pods);
    var back := WithPods(rest, pods);
    if back == store {
      forall p | p in pods ensures KeyOf(p) in store && store[KeyOf(p)] == p {
        var i :| 0 <= i < |pods| && pods[i] == p;
      }
    }
    if Matches(store, pods) {
      forall k | k in store ensures back[k] == store[k] {
        if k in KeysOf(pods) {
          var p :| p in pods && KeyOf(p) == k;
          var i :| 0 <= i < |pods| && pods[i] == p;
        }
      }
    }
  }

  lemma {:induction false} WithPodsAt(store: PodStore, pods: seq<Pod>)
    requires Distinct(pods)
    ensures var all := WithPods(store, pods);
            && (forall k | k in store && k !in KeysOf(pods) :: k in all && all[k] == store[k])
            && (forall i | 0 <= i < |pods| :: KeyOf(pods[i]) in all && all[KeyOf(pods[i])] == pods[i])
  {
    if pods != [] {
      var front := pods[..|pods| - 1];
      WithPodsAt(store, front);
      assert forall p :: p in pods <==> p in front || p == pods[|pods| - 1];
      assert forall i | 0 <= i < |front| :: front[i] == pods[i];
    }
  }

  lemma RealTwice(pods: PodStore)
    ensures RealPods(RealPods(pods)) == RealPods(pods)
  {
  }

  /** Putting the old pods back after a clean pass. */
  lemma PutBack(store: PodStore, oldPods: seq<Pod>, nextUid: nat)
    requires Removable(store, oldPods) && WellKeyed(store, nextUid) && NoSimulatedPods(store)
    requires SimulatedGone(oldPods, store)
    ensures var rest := store - KeysOf(oldPods); var back := WithPods(rest, oldPods);
            && Distinct(oldPods) && KeysOf(oldPods) !! rest.Keys
            && WellKeyed(back, nextUid) && NoSimulatedPods(back)
            && back.Keys == store.Keys && (back == store <==> Matches(store, oldPods))
  {
    RoundTripRestores(store, oldPods);
    var rest := store - KeysOf(oldPods);
    WithPodsAt(rest, oldPods);
    var back := WithPods(rest, oldPods);
    forall k | k in back ensures KeyOf(back[k]) == k && !Provisioned(back[k]) {
      if k in KeysOf(oldPods) {
        var p :| p in oldPods && KeyOf(p) == k;
        var i :| 0 <= i < |oldPods| && oldPods[i] == p;
      }
    }
  }

  // ---------------------------------------------------------------- predictions

  datatype AccessSwitch = AccessSwitch(name: Name, nodeNumber: int, nodeNameList: seq<Name>)

  datatype PredictionNodeReview = PredictionNodeReview(
    minNode: int, maxNode: int, predictionNode: int, access: seq<AccessSwitch>)
}
