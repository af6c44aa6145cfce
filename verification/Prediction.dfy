/** What a finished prediction has established, from its trials to the review it saved. */
module Prediction {
  import opened Common
  import opened Reports
  import opened Cluster
  import opened Runs
  import opened Switches
  import opened NodeSearch

  /** What a prediction is asked: the apps, on nodes with these labels and this capacity, among the
      pods that are there anyway, under this scheduler. */
  datatype Task = Task(apps: seq<PodRequest>, nodeLabels: map<string, Name>, nodeCapacity: NodeCapacity,
                       pods: PodStore, scheduler: Scheduler)

  /** A cluster of the task: the pods there are anyway, and only nodes as requested. */
  predicate ClusterFor(w: World, task: Task) {
    w.pods == task.pods && Requested(w.nodes, task.nodeLabels, task.nodeCapacity)
  }

  /** One trial of the search: the world it was made in, its switch index, and the verdict. */
  datatype Probe = Probe(count: int, access: AccessIndex, world: World, prediction: SchedulerPrediction)

  ghost predicate GoodProbe(p: Probe, task: Task) {
    && |p.world.nodes| == p.count && IndexOf(p.access, p.world.nodes) && ClusterFor(p.world, task)
    && TrialOf(p.prediction, task.apps, task.scheduler, p.world)
  }

  /** On every cluster of the task with k nodes or more, all apps fit. */
  ghost predicate EnoughNodes(task: Task, k: nat) {
    forall w: World | ClusterFor(w, task) && |w.nodes| >= k :: AllFit(task.scheduler, w, task.apps)
  }

  function Verdicts(probes: seq<Probe>): (v: seq<bool>)
    ensures |v| == |probes|
  {
    if probes == [] then []
    else Verdicts(probes[..|probes| - 1]) + [probes[|probes| - 1].prediction.predictionGo]
  }

  /** The probes are those that the search asks for, one after the other. */
  ghost predicate Asked(n: int, probes: seq<Probe>) {
    probes == [] ||
    var front := probes[..|probes| - 1];
    var m := Walk(Start(n), Verdicts(front));
    Asked(n, front) && m.Searching? && probes[|probes| - 1].count == Middle(m.c)
  }

  ghost predicate Tracked(n: int, probes: seq<Probe>, task: Task) {
    Asked(n, probes) && forall p | p in probes :: GoodProbe(p, task)
  }

  /** The backup that is kept belongs to the successful probe of the given count. */
  predicate Backup(probes: seq<Probe>, count: int, list: seq<Review>, access: AccessIndex) {
    exists p :: p in probes && IsBackup(p, count, list, access)
  }

  predicate IsBackup(p: Probe, count: int, list: seq<Review>, access: AccessIndex) {
    p.count == count && p.prediction.predictionGo && p.prediction.reportList == list && p.access == access
  }

  lemma {:induction false} TrialsAreProbes(n: int, probes: seq<Probe>)
    requires Asked(n, probes)
    ensures var h := Trials(Start(n), Verdicts(probes));
            && |h| == |probes|
            && forall i | 0 <= i < |probes| :: h[i] == Trial(probes[i].count, probes[i].prediction.predictionGo)
  {
    if probes != [] {
      var front := probes[..|probes| - 1];
      TrialsAreProbes(n, front);
      var v := Verdicts(probes);
      assert v[..|v| - 1] == Verdicts(front);
    }
  }

  lemma TrackedExtend(n: int, probes: seq<Probe>, p: Probe, task: Task, c: Cursor)
    requires Tracked(n, probes, task) && GoodProbe(p, task)
    requires Walk(Start(n), Verdicts(probes)) == Searching(c) && p.count == Middle(c)
    ensures Tracked(n, probes + [p], task)
    ensures Walk(Start(n), Verdicts(probes + [p])) == Step(c, p.prediction.predictionGo)
  {
    hide GoodProbe;
    assert (probes + [p])[..|probes|] == probes;
    var v := Verdicts(probes + [p]);
    assert v == Verdicts(probes) + [p.prediction.predictionGo];
    assert v[..|v| - 1] == Verdicts(probes);
    assert forall q :: q in probes + [p] <==> q in probes || q == p;
  }

  lemma EnoughGo(p: Probe, task: Task, k: nat)
    requires GoodProbe(p, task) && EnoughNodes(task, k) && p.count >= k
    ensures p.prediction.predictionGo
  {
    hide TrialOf, IndexOf, ClusterFor, AllFit;
    GoIffAllFit(p.prediction, task.apps, task.scheduler, p.world);
  }

  /** With enough nodes the scheduler's verdicts are yes from k nodes on. */
  lemma ProbesEnoughFrom(n: int, probes: seq<Probe>, task: Task, k: nat)
    requires Tracked(n, probes, task) && EnoughNodes(task, k)
    ensures EnoughFrom(Trials(Start(n), Verdicts(probes)), k)
  {
    hide TrialOf, IndexOf;
    TrialsAreProbes(n, probes);
    var h := Trials(Start(n), Verdicts(probes));
    forall t | t in h && t.count >= k ensures t.go {
      var i :| 0 <= i < |h| && h[i] == t;
      var p := probes[i];
      assert p in probes;
      EnoughGo(p, task, k);
    }
  }

  /** Some probe of that count gave that verdict. */
  predicate Probed(probes: seq<Probe>, count: int, go: bool) {
    exists p :: p in probes && p.count == count && p.prediction.predictionGo == go
  }

  lemma TrialIffProbed(n: int, probes: seq<Probe>, count: int, go: bool)
    requires Asked(n, probes)
    ensures Trial(count, go) in Trials(Start(n), Verdicts(probes)) <==> Probed(probes, count, go)
  {
    hide Asked, Trials, Verdicts;
    TrialsAreProbes(n, probes);
    var h := Trials(Start(n), Verdicts(probes));
    if Trial(count, go) in h {
      var i :| 0 <= i < |h| && h[i] == Trial(count, go);
      assert probes[i] in probes;
    }
    if Probed(probes, count, go) {
      var p :| p in probes && p.count == count && p.prediction.predictionGo == go;
      var i :| 0 <= i < |probes| && probes[i] == p;
      assert h[i] == Trial(count, go);
    }
  }

  /** The bounds of a search, or the move that ended it, against the probes made. */
  predicate Kept(m: Move, probes: seq<Probe>) {
    if m.Searching? then
      && Shape(m.c) && m.c.minNode < Middle(m.c) < m.c.maxNode
      && (m.c.maxNode < m.c.fMaxNode <==> Probed(probes, m.c.maxNode, true))
      && (m.c.minNode > m.c.fMinNode <==> Probed(probes, m.c.minNode, false))
    else if m.TakeMax? then
      m.c.minNode + 1 == m.c.maxNode && Probed(probes, m.c.maxNode, true) && Probed(probes, m.c.minNode, false)
    else
      m.c.minNode == 0 && m.c.maxNode == 1 && Probed(probes, 1, true)
  }

  /** The search invariant, read off the probes: every probe lies strictly between the bounds; a
      bound has moved exactly when its count was probed with the matching verdict. */
  lemma SearchKeeps(n: int, probes: seq<Probe>, task: Task)
    requires 0 <= n && !InGap(n) && Tracked(n, probes, task)
    ensures Kept(Walk(Start(n), Verdicts(probes)), probes)
  {
    hide Probed, Walk, Verdicts, Trials, Start;
    AskedOf(n, probes, task);
    WalkSettled(n, Verdicts(probes));
    var c := Walk(Start(n), Verdicts(probes)).c;
    TrialIffProbed(n, probes, c.maxNode, true);
    TrialIffProbed(n, probes, c.minNode, false);
  }

  /** Every probe burns fuel. */
  lemma ProbeBurnsFuel(n: int, probes: seq<Probe>, p: Probe, task: Task, c: Cursor,
                       k: nat)
    requires 0 <= n && !InGap(n) && Tracked(n, probes, task)
    requires Walk(Start(n), Verdicts(probes)) == Searching(c) && p.count == Middle(c)
    requires GoodProbe(p, task) && EnoughNodes(task, k)
    ensures var m := Step(c, p.prediction.predictionGo); m.Searching? ==> Fuel(m.c, k) < Fuel(c, k)
  {
    hide TrialOf, IndexOf;
    SearchKeeps(n, probes, task);
    if p.count >= k {
      EnoughGo(p, task, k);
    }
    StepBurnsFuel(c, p.prediction.predictionGo, k);
  }

  /** One round of the loop: the probe joins the others, the bounds move as Step says, fuel burns. */
  lemma Round(n: int, probes: seq<Probe>, p: Probe, task: Task, c: Cursor, k: nat)
    requires 0 <= n && !InGap(n) && Tracked(n, probes, task) && EnoughNodes(task, k)
    requires Walk(Start(n), Verdicts(probes)) == Searching(c)
    requires p.count == Middle(c) && GoodProbe(p, task)
    ensures Tracked(n, probes + [p], task)
    ensures Walk(Start(n), Verdicts(probes + [p])) == Step(c, p.prediction.predictionGo)
    ensures var m := Step(c, p.prediction.predictionGo); m.Searching? ==> Fuel(m.c, k) < Fuel(c, k)
  {
    hide Tracked, GoodProbe, EnoughNodes, Walk, Verdicts, Step, Fuel;
    TrackedExtend(n, probes, p, task, c);
    ProbeBurnsFuel(n, probes, p, task, c, k);
  }

  // ---------------------------------------------------------------- the finished job

  /** The last trial, on the cluster without nodes, if the search ended with it. */
  datatype ZeroTrial = NotTried | Tried(world: World, prediction: SchedulerPrediction)

  ghost predicate Predicted(n: int, probes: seq<Probe>, zero: ZeroTrial, task: Task,
                            saved: int, list: seq<Review>, access: AccessIndex) {
    var m := Walk(Start(n), Verdicts(probes));
    && Tracked(n, probes, task) && !m.Searching? && (m.TryZero? <==> zero.Tried?)
    && (zero.Tried? ==>
          && zero.world.nodes == map[] && ClusterFor(zero.world, task)
          && TrialOf(zero.prediction, task.apps, task.scheduler, zero.world))
    && saved == Saved(m, zero.Tried? && zero.prediction.predictionGo)
    && (if zero.Tried? && zero.prediction.predictionGo then list == zero.prediction.reportList && access == map[]
        else Backup(probes, saved, list, access))
  }

  /** The review that is saved for a count and its switch index. */
  ghost predicate ReviewOf(review: PredictionNodeReview, access: AccessIndex, saved: int) {
    var minNode := if saved == 0 then 0 else saved - 1;
    && Lists(review.access, access) && SwitchNames(review.access) == access.Keys
    && review.predictionNode == Int32(saved)
    && review.minNode == Int32(minNode) && review.maxNode == Int32(minNode + 1)
  }

  /** A list and a review that some finished run of the search has saved. */
  ghost predicate Outcome(n: int, task: Task, list: seq<Review>,
                          review: PredictionNodeReview) {
    exists probes, zero, saved, access ::
      && Predicted(n, probes, zero, task, saved, list, access)
      && ReviewOf(review, access, saved)
  }

  lemma PredictedMax(n: int, probes: seq<Probe>, task: Task, list: seq<Review>,
                     access: AccessIndex)
    requires Tracked(n, probes, task)
    requires Walk(Start(n), Verdicts(probes)).TakeMax?
    requires Backup(probes, Walk(Start(n), Verdicts(probes)).c.maxNode, list, access)
    ensures Predicted(n, probes, NotTried, task, Walk(Start(n), Verdicts(probes)).c.maxNode, list, access)
  {
  }

  lemma PredictedZero(n: int, probes: seq<Probe>, w: World, p: SchedulerPrediction, task: Task,
                      list: seq<Review>, access: AccessIndex)
    requires Tracked(n, probes, task)
    requires Walk(Start(n), Verdicts(probes)).TryZero?
    requires w.nodes == map[] && ClusterFor(w, task) && TrialOf(p, task.apps, task.scheduler, w)
    requires if p.predictionGo then list == p.reportList && access == map[] else Backup(probes, 1, list, access)
    ensures Predicted(n, probes, Tried(w, p), task, if p.predictionGo then 0 else 1, list, access)
  {
  }

  /** The backup after one more probe. */
  lemma BackupExtend(probes: seq<Probe>, p: Probe, count: int, list: seq<Review>, access: AccessIndex)
    requires if p.prediction.predictionGo then count == p.count && list == p.prediction.reportList && access == p.access
             else Backup(probes, count, list, access)
    ensures Backup(probes + [p], count, list, access)
  {
    assert p in probes + [p] && forall q :: q in probes ==> q in probes + [p];
    if !p.prediction.predictionGo {
      var q :| q in probes && IsBackup(q, count, list, access);
    } else {
      assert IsBackup(p, count, list, access);
    }
  }

  lemma NothingTracked(n: int, task: Task)
    ensures Tracked(n, [], task)
    ensures Walk(Start(n), Verdicts([])) == Searching(Start(n))
  {
  }

  /** The verdicts of all trials are those of the oracle, the empty cluster included. */
  ghost predicate OracleOf(feasible: nat -> bool, probes: seq<Probe>, zero: ZeroTrial) {
    && (forall p | p in probes && p.count >= 0 :: p.prediction.predictionGo == feasible(p.count))
    && (zero.Tried? ==> zero.prediction.predictionGo == feasible(0))
  }

  /** The verdicts of a finished search are those of the oracle "at least the saved count". */
  lemma TrialsMatchSaved(n: int, verdicts: seq<bool>, zeroGo: bool, t: Trial)
    requires 0 <= n && !InGap(n) && !Walk(Start(n), verdicts).Searching? && t in Trials(Start(n), verdicts)
    ensures t.go == (t.count >= Saved(Walk(Start(n), verdicts), zeroGo))
  {
    hide Walk, Trials, Start;
    WalkSettled(n, verdicts);
  }

  lemma ProbeIsTrial(n: int, probes: seq<Probe>, p: Probe)
    requires Asked(n, probes) && p in probes
    ensures Trial(p.count, p.prediction.predictionGo) in Trials(Start(n), Verdicts(probes))
  {
    hide Asked, Trials, Start, Verdicts;
    TrialsAreProbes(n, probes);
    var i :| 0 <= i < |probes| && probes[i] == p;
    assert Trials(Start(n), Verdicts(probes))[i] == Trial(p.count, p.prediction.predictionGo);
  }

  /** Every finished job has such an oracle, and a monotone one, whatever the scheduler answered. */
  lemma OracleExists(n: int, probes: seq<Probe>, zero: ZeroTrial, task: Task,
                     saved: int, list: seq<Review>, access: AccessIndex)
    requires 0 <= n && !InGap(n)
    requires Predicted(n, probes, zero, task, saved, list, access)
    ensures exists feasible: nat -> bool :: Monotone(feasible) && OracleOf(feasible, probes, zero)
  {
    hide Tracked, Backup, TrialOf, Walk, Trials, Start, Verdicts, Asked;
    AskedOf(n, probes, task);
    WalkSettled(n, Verdicts(probes));
    var feasible := (k: nat) => k >= saved;
    forall p | p in probes && p.count >= 0 ensures p.prediction.predictionGo == feasible(p.count) {
      ProbeIsTrial(n, probes, p);
      TrialsMatchSaved(n, Verdicts(probes), zero.Tried? && zero.prediction.predictionGo,
                       Trial(p.count, p.prediction.predictionGo));
    }
    assert Monotone(feasible) && OracleOf(feasible, probes, zero);
  }

  /** The saved count is the least feasible one, over all node counts. */
  lemma PredictionIsLeast(n: int, probes: seq<Probe>, zero: ZeroTrial, task: Task,
                          saved: int, list: seq<Review>, access: AccessIndex, feasible: nat -> bool)
    requires 0 <= n && !InGap(n)
    requires Predicted(n, probes, zero, task, saved, list, access)
    requires Monotone(feasible) && OracleOf(feasible, probes, zero)
    ensures saved >= 0 && Least(feasible, saved)
  {
    hide Tracked, Backup, TrialOf;
    var h := Trials(Start(n), Verdicts(probes));
    AskedOf(n, probes, task);
    TrialsAreProbes(n, probes);
    forall t | t in h && t.count >= 0 ensures t.go == feasible(t.count) {
      var i :| 0 <= i < |h| && h[i] == t;
      assert probes[i] in probes;
    }
    SavedIsLeast(n, Verdicts(probes), feasible);
  }

  /** Whether the apps fit depends on the number of nodes alone. */
  ghost predicate FitByCount(task: Task, feasible: nat -> bool) {
    forall w: World | ClusterFor(w, task) :: AllFit(task.scheduler, w, task.apps) == feasible(|w.nodes|)
  }

  /** With a scheduler under which the number of nodes decides, and more nodes never hurt, the job saves
      the least number of nodes on which the apps fit. */
  lemma LeastForScheduler(n: int, probes: seq<Probe>, zero: ZeroTrial, task: Task,
                          saved: int, list: seq<Review>, access: AccessIndex, feasible: nat -> bool)
    requires 0 <= n && !InGap(n)
    requires Predicted(n, probes, zero, task, saved, list, access)
    requires Monotone(feasible) && FitByCount(task, feasible)
    ensures saved >= 0 && Least(feasible, saved)
  {
    hide TrialOf, Backup, Asked, Least, Monotone, ClusterFor, AllFit, IndexOf;
    forall p | p in probes && p.count >= 0 ensures p.prediction.predictionGo == feasible(p.count) {
      GoIffAllFit(p.prediction, task.apps, task.scheduler, p.world);
    }
    if zero.Tried? {
      GoIffAllFit(zero.prediction, task.apps, task.scheduler, zero.world);
      assert |zero.world.nodes| == 0;
    }
    PredictionIsLeast(n, probes, zero, task, saved, list, access, feasible);
  }

  /** For a scheduler that places the pods from c nodes on and refuses them below, c is saved. */
  lemma ThresholdIsSaved(n: int, probes: seq<Probe>, zero: ZeroTrial, task: Task,
                         saved: int, list: seq<Review>, access: AccessIndex, c: nat)
    requires 0 <= n && !InGap(n) && task.apps != []
    requires Predicted(n, probes, zero, task, saved, list, access)
    requires forall scene: Scene, m: nat | AsksFor(scene, task.apps) ::
               task.scheduler(scene, m).Placed? <==> |scene.nodes| >= c
    ensures saved == c
  {
    hide TrialOf, Predicted, ClusterFor, AllFit, AsksFor;
    var feasible := (k: nat) => k >= c;
    forall w: World | ClusterFor(w, task) ensures AllFit(task.scheduler, w, task.apps) == feasible(|w.nodes|) {
      if |w.nodes| >= c {
        PlacedAllFit(task.scheduler, w, task.apps);
      } else {
        RefusedNoneFit(task.scheduler, w, task.apps);
      }
    }
    LeastForScheduler(n, probes, zero, task, saved, list, access, feasible);
    assert feasible(c);
  }

  lemma AskedOf(n: int, probes: seq<Probe>, task: Task)
    requires Tracked(n, probes, task)
    ensures Asked(n, probes)
  {
  }

  /** The number of trials, the one on the empty cluster included, given that k nodes are enough. */
  lemma PredictionTrialBound(n: int, probes: seq<Probe>, zero: ZeroTrial, task: Task,
                             saved: int, list: seq<Review>, access: AccessIndex, k: nat)
    requires 0 <= n && !InGap(n) && EnoughNodes(task, k)
    requires Predicted(n, probes, zero, task, saved, list, access)
    ensures |probes| + (if zero.Tried? then 1 else 0) <= Fuel(Start(n), k)
  {
    hide Tracked, Backup, TrialOf, Fuel;
    AskedOf(n, probes, task);
    ProbesEnoughFrom(n, probes, task, k);
    TrialBound(n, Verdicts(probes), k);
    TrialsAreProbes(n, probes);
  }

  /** What is saved belongs together: the report list is that of a successful trial on exactly the
      nodes that the saved switches list, each as requested, among the pods that are there anyway; so the
      job reads as succeeded.  Their number is the saved count, and the switches' numbers add up to it. */
  lemma SavedTogether(n: int, probes: seq<Probe>, zero: ZeroTrial, task: Task,
                      saved: int, list: seq<Review>, access: AccessIndex, switches: seq<AccessSwitch>, status: string)
    requires Predicted(n, probes, zero, task, saved, list, access)
    requires Lists(switches, access) && SwitchNames(switches) == access.Keys
    requires IsStatusOf(status, Some(list))
    ensures SwitchSum(switches) == saved == |ListedNodes(switches)|
    ensures forall i | 0 <= i < |switches| :: switches[i].nodeNumber == |switches[i].nodeNameList| <= 45
    ensures forall i, j | 0 <= i < j < |switches| ::
              NameSet(switches[i].nodeNameList) !! NameSet(switches[j].nodeNameList)
    ensures status == if task.apps == [] then "" else "succeed"
    ensures exists w: World, p: SchedulerPrediction ::
              && p.reportList == list && p.predictionGo && w.nodes.Keys == ListedNodes(switches)
              && ClusterFor(w, task) && TrialOf(p, task.apps, task.scheduler, w)
  {
    hide Tracked, Lists, IndexOf, RunReports, ClusterFor;
    if zero.Tried? && zero.prediction.predictionGo {
      NoSwitches(switches, access);
      GoSucceeds(zero.prediction, task, zero.world, status);
      assert zero.world.nodes.Keys == ListedNodes(switches);
    } else {
      var p :| p in probes && IsBackup(p, saved, list, access);
      TrackedGood(n, probes, task, p);
      Conservation(switches, access, p.world.nodes);
      GoSucceeds(p.prediction, task, p.world, status);
      assert |p.world.nodes.Keys| == saved;
    }
  }

  lemma TrackedGood(n: int, probes: seq<Probe>, task: Task, p: Probe)
    requires Tracked(n, probes, task) && p in probes
    ensures GoodProbe(p, task)
  {
  }

  lemma NoSwitches(switches: seq<AccessSwitch>, access: AccessIndex)
    requires access == map[] && Lists(switches, access)
    ensures switches == [] && SwitchSum(switches) == 0 && ListedNodes(switches) == {}
  {
    if switches != [] {
      SomeSwitch(switches, access);
    }
  }

  lemma SomeSwitch(switches: seq<AccessSwitch>, access: AccessIndex)
    requires switches != [] && Lists(switches, access)
    ensures access != map[]
  {
    assert switches[0].name in access;
  }

  lemma GoSucceeds(p: SchedulerPrediction, task: Task, w: World, status: string)
    requires TrialOf(p, task.apps, task.scheduler, w) && p.predictionGo
    requires IsStatusOf(status, Some(p.reportList))
    ensures status == if task.apps == [] then "" else "succeed"
  {
  }
}
