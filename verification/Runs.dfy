/** What the placement runs of a job do to the cluster, as a function of the scheduler, and what the
    reports of the runs say about it. */
module Runs {
  import opened Common
  import opened Reports
  import opened Cluster

  /** The stores, the supply of UUIDs, and the count of answers that the scheduler has given. */
  datatype World = World(nodes: NodeStore, pods: PodStore, nextUid: nat, clock: nat)

  // ---------------------------------------------------------------- one run

  /** What the scheduler sees when the next pod of the template is up, after those in `bound`. */
  function SceneAfter(w: World, template: Pod, bound: seq<Pod>): Scene {
    var pending := PendingPod(template, w.nextUid + |bound|);
    Scene(w.nodes, WithPods(w.pods, bound)[KeyOf(pending) := pending], pending)
  }

  function AnswerTo(scheduler: Scheduler, w: World, template: Pod, bound: seq<Pod>): Answer {
    scheduler(SceneAfter(w, template, bound), w.clock + |bound|)
  }

  /** The pods that get bound when up to n pods of the template are put up, one after the other, until
      the scheduler refuses one. */
  function Placements(scheduler: Scheduler, w: World, template: Pod, n: nat): (bound: seq<Pod>)
    ensures |bound| <= n
  {
    if n == 0 then []
    else
      var front := Placements(scheduler, w, template, n - 1);
      if |front| < n - 1 then front
      else
        match AnswerTo(scheduler, w, template, front)
        case Placed(nodeName) => front + [BoundPod(PendingPod(template, w.nextUid + |front|), nodeName)]
        case Refused(_) => front
  }

  function RunOf(scheduler: Scheduler, w: World, app: PodRequest): (bound: seq<Pod>)
    ensures |bound| <= app.replicas
  {
    Placements(scheduler, w, app.pod, app.replicas)
  }

  /** All replicas find a place. */
  predicate Fits(scheduler: Scheduler, w: World, app: PodRequest) {
    |RunOf(scheduler, w, app)| == app.replicas
  }

  /** The answers a run uses up: one per placed pod, and the refusal if there is one. */
  function AnswersUsed(scheduler: Scheduler, w: World, app: PodRequest): nat {
    var bound := |RunOf(scheduler, w, app)|;
    if bound == app.replicas then bound else bound + 1
  }

  /** A run leaves its bound pods in the store; each answer was about one more pod. */
  function AfterRun(scheduler: Scheduler, w: World, app: PodRequest): World {
    var used := AnswersUsed(scheduler, w, app);
    World(w.nodes, WithPods(w.pods, RunOf(scheduler, w, app)), w.nextUid + used, w.clock + used)
  }

  lemma NextPlacement(scheduler: Scheduler, w: World, template: Pod, n: nat)
    ensures var bound := Placements(scheduler, w, template, n); var a := AnswerTo(scheduler, w, template, bound);
            |bound| == n && a.Placed? ==>
              Placements(scheduler, w, template, n + 1)
              == bound + [BoundPod(PendingPod(template, w.nextUid + n), a.nodeName)]
  {
    hide AnswerTo, BoundPod, PendingPod;
  }

  /** Where a run went on to the n-th pod, the pods before it are the first of the run. */
  lemma {:induction false} PlacementsAt(scheduler: Scheduler, w: World, template: Pod, n: nat, i: nat)
    requires i < |Placements(scheduler, w, template, n)|
    ensures var bound := Placements(scheduler, w, template, n);
            var a := AnswerTo(scheduler, w, template, bound[..i]);
            a.Placed? && bound[i] == BoundPod(PendingPod(template, w.nextUid + i), a.nodeName)
  {
    hide AnswerTo, BoundPod, PendingPod;
    var front := Placements(scheduler, w, template, n - 1);
    if i < |front| {
      PlacementsAt(scheduler, w, template, n - 1, i);
      assert Placements(scheduler, w, template, n)[..i] == front[..i];
    } else {
      assert Placements(scheduler, w, template, n)[..i] == front;
    }
  }

  /** A run that ends early has met a refusal. */
  lemma {:induction false} PlacementsStop(scheduler: Scheduler, w: World, template: Pod, n: nat)
    requires |Placements(scheduler, w, template, n)| < n
    ensures AnswerTo(scheduler, w, template, Placements(scheduler, w, template, n)).Refused?
  {
    hide AnswerTo, BoundPod, PendingPod;
    if |Placements(scheduler, w, template, n - 1)| < n - 1 {
      PlacementsStop(scheduler, w, template, n - 1);
    }
  }

  /** Once a pod is refused, asking for more changes nothing. */
  lemma {:induction false} PlacementsStay(scheduler: Scheduler, w: World, template: Pod, m: nat, n: nat)
    requires m <= n && |Placements(scheduler, w, template, m)| < m
    ensures Placements(scheduler, w, template, n) == Placements(scheduler, w, template, m)
  {
    hide AnswerTo, BoundPod, PendingPod;
    if m < n {
      PlacementsStay(scheduler, w, template, m, n - 1);
    }
  }

  /** Every bound pod of a run is a running pod of the template, on the node that the scheduler named
      when it saw the cluster with the pods bound before and this one pending; after the last one there
      were all replicas, or a refusal. */
  lemma RunIsAnswers(scheduler: Scheduler, w: World, app: PodRequest)
    ensures var bound := RunOf(scheduler, w, app);
            && (forall i | 0 <= i < |bound| ::
                  var a := AnswerTo(scheduler, w, app.pod, bound[..i]);
                  && a.Placed? && bound[i].nodeName == a.nodeName && bound[i].phase.Running?
                  && MadeFrom(bound[i], app.pod) && bound[i].name.uid == w.nextUid + i)
            && (|bound| < app.replicas ==> AnswerTo(scheduler, w, app.pod, bound).Refused?)
  {
    var bound := RunOf(scheduler, w, app);
    forall i | 0 <= i < |bound|
      ensures var a := AnswerTo(scheduler, w, app.pod, bound[..i]);
              && a.Placed? && bound[i].nodeName == a.nodeName && bound[i].phase.Running?
              && MadeFrom(bound[i], app.pod) && bound[i].name.uid == w.nextUid + i
    {
      PlacementsAt(scheduler, w, app.pod, app.replicas, i);
      PendingIsTemplate(app.pod, w.nextUid + i);
    }
    if |bound| < app.replicas {
      PlacementsStop(scheduler, w, app.pod, app.replicas);
    }
  }

  // ---------------------------------------------------------------- the pods of the runs stay

  /** The bound pods come under fresh names. */
  lemma FreshlyNamed(scheduler: Scheduler, w: World, template: Pod, n: nat, i: nat)
    requires WellKeyed(w.pods, w.nextUid) && i < |Placements(scheduler, w, template, n)|
    ensures var p := Placements(scheduler, w, template, n)[i];
            && KeyOf(p) !in w.pods && Provisioned(p) && p.nodeName != NO_NODE
            && p.name == Generated(template.name, w.nextUid + i)
  {
    PlacementsAt(scheduler, w, template, n, i);
  }

  /** A run keeps the store as it is and adds its bound pods, nothing else. */
  lemma RunExtends(scheduler: Scheduler, w: World, app: PodRequest)
    requires WellKeyed(w.pods, w.nextUid)
    ensures var t := AfterRun(scheduler, w, app);
            WellKeyed(t.pods, t.nextUid) && Extends(t.pods, w.pods, RunOf(scheduler, w, app))
    ensures RealPods(AfterRun(scheduler, w, app).pods) == RealPods(w.pods)
  {
    var bound, t := RunOf(scheduler, w, app), AfterRun(scheduler, w, app);
    forall i | 0 <= i < |bound| ensures AddsTo(w.pods, bound[i], app.pod.name, w.nextUid + i) {
      FreshlyNamed(scheduler, w, app.pod, app.replicas, i);
    }
    hide RunOf;
    AddedExtend(w.pods, w.nextUid, bound, app.pod.name, t.nextUid);
    ExtendsKeepsReal(t.pods, w.pods, bound);
  }

  /** A pod that comes on top of the store under the name with that number. */
  predicate AddsTo(store: PodStore, p: Pod, base: Name, uid: nat) {
    KeyOf(p) !in store && Provisioned(p) && p.nodeName != NO_NODE && p.name == Generated(base, uid)
  }

  lemma AddedExtend(store: PodStore, uid: nat, bound: seq<Pod>, base: Name, nextUid: nat)
    requires WellKeyed(store, uid) && nextUid >= uid + |bound|
    requires forall i | 0 <= i < |bound| :: AddsTo(store, bound[i], base, uid + i)
    ensures WellKeyed(WithPods(store, bound), nextUid) && Extends(WithPods(store, bound), store, bound)
  {
    hide Provisioned, WithPods;
    var all := WithPods(store, bound);
    WithPodsKeys(store, bound);
    forall i, j | 0 <= i < j < |bound| ensures KeyOf(bound[i]) != KeyOf(bound[j]) {
      assert AddsTo(store, bound[i], base, uid + i) && AddsTo(store, bound[j], base, uid + j);
    }
    WithPodsAt(store, bound);
    AddedKeys(store, bound);
    forall k | k in all ensures KeyOf(all[k]) == k && OlderThan(k.name, nextUid) {
      if k !in store {
        var p :| p in bound && KeyOf(p) == k;
        var i :| 0 <= i < |bound| && bound[i] == p;
        assert AddsTo(store, bound[i], base, uid + i);
      }
    }
  }

  lemma AddedKeys(store: PodStore, bound: seq<Pod>)
    requires forall i | 0 <= i < |bound| :: KeyOf(bound[i]) !in store
    ensures KeysOf(bound) !! store.Keys
  {
  }

  // ---------------------------------------------------------------- several runs

  /** The world after the runs of the apps, one after the other, on the store that they fill up. */
  function AfterRuns(scheduler: Scheduler, w: World, apps: seq<PodRequest>): World {
    if apps == [] then w
    else AfterRun(scheduler, AfterRuns(scheduler, w, apps[..|apps| - 1]), apps[|apps| - 1])
  }

  lemma RunsExtend(scheduler: Scheduler, w: World, apps: seq<PodRequest>, i: nat)
    requires i < |apps|
    ensures AfterRuns(scheduler, w, apps[..i + 1]) == AfterRun(scheduler, AfterRuns(scheduler, w, apps[..i]), apps[i])
  {
    assert apps[..i + 1][..i] == apps[..i];
  }

  /** The real pods are those there were before. */
  lemma {:induction false} RunsKeepReal(scheduler: Scheduler, w: World, apps: seq<PodRequest>)
    requires WellKeyed(w.pods, w.nextUid)
    ensures var t := AfterRuns(scheduler, w, apps);
            && WellKeyed(t.pods, t.nextUid) && RealPods(t.pods) == RealPods(w.pods)
            && t.nodes == w.nodes && t.nextUid >= w.nextUid
  {
    hide WellKeyed, RealPods, RunOf;
    if apps != [] {
      var front := apps[..|apps| - 1];
      RunsKeepReal(scheduler, w, front);
      RunExtends(scheduler, AfterRuns(scheduler, w, front), apps[|apps| - 1]);
    }
  }

  /** An app runs among the pods there were at the start and all those that earlier apps have bound. */
  lemma {:induction false} RunsAccumulate(scheduler: Scheduler, w: World, apps: seq<PodRequest>, i: nat)
    requires WellKeyed(w.pods, w.nextUid) && i < |apps|
    ensures var t := AfterRuns(scheduler, w, apps);
            && (forall k | k in w.pods :: k in t.pods && t.pods[k] == w.pods[k])
            && (forall p | p in RunOf(scheduler, AfterRuns(scheduler, w, apps[..i]), apps[i]) ::
                  KeyOf(p) in t.pods && t.pods[KeyOf(p)] == p)
  {
    hide WellKeyed, RunOf;
    var front := apps[..|apps| - 1];
    var u := AfterRuns(scheduler, w, front);
    RunsKeepReal(scheduler, w, front);
    RunExtends(scheduler, u, apps[|front|]);
    if i < |front| {
      RunsAccumulate(scheduler, w, front, i);
      assert front[..i] == apps[..i];
    } else if |front| > 0 {
      RunsAccumulate(scheduler, w, front, 0);
    }
  }

  predicate AllFit(scheduler: Scheduler, w: World, apps: seq<PodRequest>) {
    forall i | 0 <= i < |apps| :: Fits(scheduler, AfterRuns(scheduler, w, apps[..i]), apps[i])
  }

  /** The scene is one that a run of these apps may ask about. */
  ghost predicate AsksFor(scene: Scene, apps: seq<PodRequest>) {
    exists app, uid: nat :: app in apps && scene.pending == PendingPod(app.pod, uid)
  }

  /** What the runs ask the scheduler about. */
  lemma RunAsks(scheduler: Scheduler, w: World, apps: seq<PodRequest>, i: nat, bound: seq<Pod>)
    requires i < |apps|
    ensures var u := AfterRuns(scheduler, w, apps[..i]);
            var scene := SceneAfter(u, apps[i].pod, bound);
            AsksFor(scene, apps) && scene.nodes == w.nodes
  {
    hide PendingPod;
    NodesStay(scheduler, w, apps[..i]);
    var u := AfterRuns(scheduler, w, apps[..i]);
    assert apps[i] in apps;
    assert SceneAfter(u, apps[i].pod, bound).pending == PendingPod(apps[i].pod, u.nextUid + |bound|);
  }

  lemma {:induction false} NodesStay(scheduler: Scheduler, w: World, apps: seq<PodRequest>)
    ensures AfterRuns(scheduler, w, apps).nodes == w.nodes
  {
    if apps != [] {
      NodesStay(scheduler, w, apps[..|apps| - 1]);
    }
  }

  /** Where every pod is placed, all apps fit. */
  lemma PlacedAllFit(scheduler: Scheduler, w: World, apps: seq<PodRequest>)
    requires forall scene: Scene, m: nat | scene.nodes == w.nodes && AsksFor(scene, apps) :: scheduler(scene, m).Placed?
    ensures AllFit(scheduler, w, apps)
  {
    hide AsksFor, SceneAfter, RunOf;
    forall i | 0 <= i < |apps| ensures Fits(scheduler, AfterRuns(scheduler, w, apps[..i]), apps[i]) {
      var u := AfterRuns(scheduler, w, apps[..i]);
      RunAsks(scheduler, w, apps, i, RunOf(scheduler, u, apps[i]));
      RunIsAnswers(scheduler, u, apps[i]);
    }
  }

  /** Where every pod is refused, not even the first app fits. */
  lemma RefusedNoneFit(scheduler: Scheduler, w: World, apps: seq<PodRequest>)
    requires apps != []
    requires forall scene: Scene, m: nat | scene.nodes == w.nodes && AsksFor(scene, apps) ::
               scheduler(scene, m).Refused?
    ensures !AllFit(scheduler, w, apps)
  {
    hide AsksFor, SceneAfter, RunOf;
    var u := AfterRuns(scheduler, w, apps[..0]);
    var bound := RunOf(scheduler, u, apps[0]);
    RunAsks(scheduler, w, apps, 0, bound[..0]);
    RunIsAnswers(scheduler, u, apps[0]);
    assert !Fits(scheduler, u, apps[0]);
  }

  // ---------------------------------------------------------------- what a report says

  /** The report of the app's run: how many replicas were bound, how the run ended, and for each node
      that got pods of the run, how many. */
  ghost predicate RunReport(r: Review, app: PodRequest, scheduler: Scheduler, w: World) {
    var bound := RunOf(scheduler, w, app);
    && r.desiredReplicas == app.replicas && r.replicas == |bound|
    && (if |bound| == app.replicas then
          r.reason == Reason("Schedulable", "Schedule the number of simulated pods: " + Decimal(app.replicas))
        else
          var a := AnswerTo(scheduler, w, app.pod, bound);
          a.Refused? && r.reason == Reason("Unschedulable", Trim(FirstLine(a.message))))
    && |r.pods| == 1 && r.pods[0].usName == app.pod.name
    && InstancesSum(r.pods[0].replicasOnNodes) == r.replicas
    && IsHistogram(r.pods[0].replicasOnNodes, bound, |bound|, 1, 0)
  }

  predicate Unschedulable(r: Review) {
    r.reason.kind == UNSCHEDULABLE
  }

  /** Reports of the first apps' runs, each on the world that the runs before it have left. */
  ghost predicate RunReports(reports: seq<Review>, apps: seq<PodRequest>, scheduler: Scheduler, w: World) {
    && |reports| <= |apps|
    && forall i | 0 <= i < |reports| :: RunReport(reports[i], apps[i], scheduler, AfterRuns(scheduler, w, apps[..i]))
  }

  /** The report's type tells how the run ended, and the replica count agrees with it. */
  lemma TypeTellsOutcome(r: Review, app: PodRequest, scheduler: Scheduler, w: World)
    requires RunReport(r, app, scheduler, w)
    ensures Unschedulable(r) <==> !Fits(scheduler, w, app)
    ensures Unschedulable(r) <==>
              exists i :: 0 <= i <= |RunOf(scheduler, w, app)| && i < app.replicas
                          && AnswerTo(scheduler, w, app.pod, RunOf(scheduler, w, app)[..i]).Refused?
    ensures Unschedulable(r) <==> r.replicas < r.desiredReplicas
    ensures Unschedulable(r) || r.reason.kind == SCHEDULABLE
  {
    hide Decimal, Trim, FirstLine, AnswerTo, RunOf, IsHistogram, MadeFrom;
    var bound := RunOf(scheduler, w, app);
    RunIsAnswers(scheduler, w, app);
    assert bound[..|bound|] == bound;
    assert SCHEDULABLE[0] != UNSCHEDULABLE[0];
  }

  lemma RunReportsExtend(reports: seq<Review>, apps: seq<PodRequest>, scheduler: Scheduler, w: World, r: Review)
    requires RunReports(reports, apps, scheduler, w) && |reports| < |apps|
    requires RunReport(r, apps[|reports|], scheduler, AfterRuns(scheduler, w, apps[..|reports|]))
    ensures RunReports(reports + [r], apps, scheduler, w)
  {
    hide RunReport;
  }

  /** What CreateApps answers about the apps on the current cluster. */
  datatype SchedulerPrediction = SchedulerPrediction(
    successAppsName: seq<Name>, successAppsCount: int, failedAppsCount: int,
    firstAppFailedReason: string, predictionGo: bool, reportList: seq<Review>)

  /** The trial: apps run one after the other until the first that cannot be placed; it says go
      exactly when there is none. */
  ghost predicate TrialOf(p: SchedulerPrediction, apps: seq<PodRequest>, scheduler: Scheduler, w: World) {
    var n := p.successAppsCount;
    && RunReports(p.reportList, apps, scheduler, w)
    && 0 <= n <= |apps| && n + p.failedAppsCount == |apps|
    && |p.successAppsName| == n && (forall i | 0 <= i < n :: p.successAppsName[i] == apps[i].pod.name)
    && (p.predictionGo <==> n == |apps|)
    && |p.reportList| == (if p.predictionGo then n else n + 1)
    && (forall i | 0 <= i < n :: !Unschedulable(p.reportList[i]))
    && (if p.predictionGo then p.firstAppFailedReason == ""
        else Unschedulable(p.reportList[n]) && p.firstAppFailedReason == p.reportList[n].reason.message)
  }

  /** The trial so far: the first n apps have been placed. */
  ghost predicate TrialUpTo(n: int, reports: seq<Review>, names: seq<Name>, apps: seq<PodRequest>,
                            scheduler: Scheduler, w: World) {
    && 0 <= n <= |apps| && n == |reports| == |names| && RunReports(reports, apps, scheduler, w)
    && forall i | 0 <= i < n :: !Unschedulable(reports[i]) && names[i] == apps[i].pod.name
  }

  lemma TrialBegins(apps: seq<PodRequest>, scheduler: Scheduler, w: World)
    ensures TrialUpTo(0, [], [], apps, scheduler, w) && AfterRuns(scheduler, w, apps[..0]) == w
  {
  }

  lemma Refuses(r: Review)
    ensures Unschedulable(r) <==> r.reason.kind == UNSCHEDULABLE
  {
  }

  lemma TrialGoesOn(n: int, reports: seq<Review>, names: seq<Name>, apps: seq<PodRequest>, scheduler: Scheduler,
                    w: World, r: Review)
    requires TrialUpTo(n, reports, names, apps, scheduler, w) && n < |apps|
    requires RunReport(r, apps[n], scheduler, AfterRuns(scheduler, w, apps[..n])) && !Unschedulable(r)
    ensures TrialUpTo(n + 1, reports + [r], names + [apps[n].pod.name], apps, scheduler, w)
  {
    hide RunReport, RunReports, Unschedulable;
    RunReportsExtend(reports, apps, scheduler, w, r);
  }

  lemma TrialFails(n: int, reports: seq<Review>, names: seq<Name>, apps: seq<PodRequest>, scheduler: Scheduler,
                   w: World, r: Review)
    requires TrialUpTo(n, reports, names, apps, scheduler, w) && n < |apps|
    requires RunReport(r, apps[n], scheduler, AfterRuns(scheduler, w, apps[..n])) && Unschedulable(r)
    ensures TrialOf(SchedulerPrediction(names, n, |apps| - n, r.reason.message, false, reports + [r]),
                    apps, scheduler, w)
  {
    hide RunReport, RunReports, Unschedulable;
    RunReportsExtend(reports, apps, scheduler, w, r);
  }

  lemma TrialSucceeds(reports: seq<Review>, names: seq<Name>, apps: seq<PodRequest>, scheduler: Scheduler, w: World)
    requires TrialUpTo(|apps|, reports, names, apps, scheduler, w)
    ensures TrialOf(SchedulerPrediction(names, |apps|, 0, "", true, reports), apps, scheduler, w)
  {
    hide RunReports, Unschedulable;
  }

  /** A trial says go exactly when each app fits beside the apps before it. */
  lemma GoIffAllFit(p: SchedulerPrediction, apps: seq<PodRequest>, scheduler: Scheduler, w: World)
    requires TrialOf(p, apps, scheduler, w)
    ensures p.predictionGo <==> AllFit(scheduler, w, apps)
  {
    hide RunReport, Fits, AnswerTo, RunOf, Unschedulable;
    forall i | 0 <= i < |p.reportList|
      ensures Unschedulable(p.reportList[i]) <==> !Fits(scheduler, AfterRuns(scheduler, w, apps[..i]), apps[i])
    {
      TypeTellsOutcome(p.reportList[i], apps[i], scheduler, AfterRuns(scheduler, w, apps[..i]));
    }
  }

  // ---------------------------------------------------------------- job status

  const JOB_SUCCEED := "succeed"
  const JOB_FAILED := "failed"
  const JOB_STOPPED := "stopped"
  const JOB_QUEUING := "queuing"
  const JOB_PROCESSING := "processing"

  /** The status a reader derives from a saved list; None is a nil pointer. */
  ghost predicate IsStatusOf(status: string, saved: Option<seq<Review>>) {
    if saved.None? then status == "stopped"
    else if saved.value == [] then status == ""
    else if AnyUnschedulable(saved.value) then status == "failed"
    else status == "succeed"
  }

  ghost predicate AnyUnschedulable(reports: seq<Review>) {
    exists i :: 0 <= i < |reports| && Unschedulable(reports[i])
  }

  lemma FailedMeansUnschedulable(status: string, reports: seq<Review>)
    requires IsStatusOf(status, Some(reports))
    ensures status == JOB_FAILED <==> AnyUnschedulable(reports)
  {
    assert JOB_FAILED[0] != JOB_SUCCEED[0];
  }

  /** The apps of the vertical job's second pass: free to go to any node. */
  function Relaxed(apps: seq<PodRequest>): (r: seq<PodRequest>)
    ensures |r| == |apps|
    ensures forall i | 0 <= i < |apps| ::
              && r[i].pod == apps[i].pod.(nodeName := Given(""), nodeSelector := map[])
              && r[i].replicas == apps[i].replicas
  {
    seq(|apps|, i requires 0 <= i < |apps| =>
      apps[i].(pod := apps[i].pod.(nodeName := NO_NODE, nodeSelector := map[])))
  }

  /** CleanPod, as seen from outside. */
  function Cleaned(w: World): World {
    w.(pods := RealPods(w.pods))
  }

  /** The vertical job's saved list: a failed first pass stays in front of the second one. */
  ghost predicate VerticalReports(list: seq<Review>, apps: seq<PodRequest>, scheduler: Scheduler, w: World) {
    exists first: seq<Review>, second: seq<Review> :: TwoPasses(list, first, second, apps, scheduler, w)
  }

  /** The second pass runs without node selectors, on the cluster cleaned of what the first has bound. */
  ghost predicate TwoPasses(list: seq<Review>, first: seq<Review>, second: seq<Review>,
                            apps: seq<PodRequest>, scheduler: Scheduler, w: World) {
    && list == first + second && |first| == |apps| && RunReports(first, apps, scheduler, w)
    && (if AnyUnschedulable(first) then
          && |second| == |apps|
          && RunReports(second, Relaxed(apps), scheduler, Cleaned(AfterRuns(scheduler, w, apps)))
        else second == [])
  }

  /** A vertical job reads as failed exactly when its first pass failed: the second pass, however
      well it goes, never changes the verdict. */
  lemma SecondPassIsIgnored(list: seq<Review>, first: seq<Review>, second: seq<Review>, apps: seq<PodRequest>,
                            scheduler: Scheduler, w: World, status: string)
    requires TwoPasses(list, first, second, apps, scheduler, w)
    requires IsStatusOf(status, Some(list))
    ensures status == JOB_FAILED <==> !AllFit(scheduler, w, apps)
  {
    FirstPassTells(first, apps, scheduler, w);
    hide RunReports, AllFit;
    assert JOB_FAILED[0] != JOB_SUCCEED[0];
    if AnyUnschedulable(first) {
      var i :| 0 <= i < |first| && Unschedulable(first[i]);
      assert list[i] == first[i];
    } else {
      assert list == first;
    }
  }

  lemma FirstPassTells(reports: seq<Review>, apps: seq<PodRequest>, scheduler: Scheduler, w: World)
    requires |reports| == |apps| && RunReports(reports, apps, scheduler, w)
    ensures AnyUnschedulable(reports) <==> !AllFit(scheduler, w, apps)
  {
    hide RunReport, Fits, AnswerTo, RunOf, Unschedulable;
    forall i | 0 <= i < |reports|
      ensures Unschedulable(reports[i]) <==> !Fits(scheduler, AfterRuns(scheduler, w, apps[..i]), apps[i])
    {
      TypeTellsOutcome(reports[i], apps[i], scheduler, AfterRuns(scheduler, w, apps[..i]));
    }
  }

  /** A scheduler on one node that refuses pods bound to a node by a selector, as the first pass of a
      vertical job asks for when that node is full. */
  function NoSelectors(scene: Scene, moment: nat): Answer {
    if scene.pending.nodeSelector == map[] then Placed(Given("node")) else Refused("")
  }

  function RefusedReview(name: Name): Review {
    Review(1, 0, Reason(UNSCHEDULABLE, ""), [PodReview(name, [])])
  }

  function PlacedReview(name: Name): Review {
    Review(1, 1, Reason(SCHEDULABLE, ALL_PLACED + Decimal(1)), [PodReview(name, [ReplicasOnNode(Given("node"), 1)])])
  }

  /** The first pass fails, the second places every pod, and the job still reads as failed. */
  lemma RetryInVain(pod: Pod, w: World)
    requires pod.nodeSelector != map[]
    ensures var first, second := [RefusedReview(pod.name)], [PlacedReview(pod.name)];
            && TwoPasses(first + second, first, second, [PodRequest(pod, 1)], NoSelectors, w)
            && AnyUnschedulable(first) && !AnyUnschedulable(second)
            && IsStatusOf("failed", Some(first + second))
  {
    hide RunReport, RunReports, RefusedReview, PlacedReview, AfterRuns;
    var app := PodRequest(pod, 1);
    var r, p := RefusedReview(pod.name), PlacedReview(pod.name);
    var again := Relaxed([app])[0];
    RefusedReport(app, w);
    PlacedReport(again, Cleaned(AfterRuns(NoSelectors, w, [app])));
    SingleReport(r, app, NoSelectors, w);
    SingleReport(p, again, NoSelectors, Cleaned(AfterRuns(NoSelectors, w, [app])));
    assert Relaxed([app]) == [again];
    assert ([r] + [p])[0] == [r][0] == r && [p][0] == p;
  }

  lemma SingleReport(r: Review, app: PodRequest, scheduler: Scheduler, w: World)
    requires RunReport(r, app, scheduler, w)
    ensures RunReports([r], [app], scheduler, w)
  {
    hide RunReport;
    assert [app][..0] == [];
  }

  /** One replica: a single answer decides. */
  lemma OneAnswer(scheduler: Scheduler, w: World, app: PodRequest)
    requires app.replicas == 1
    ensures var a := AnswerTo(scheduler, w, app.pod, []);
            RunOf(scheduler, w, app)
            == if a.Placed? then [BoundPod(PendingPod(app.pod, w.nextUid), a.nodeName)] else []
  {
    hide AnswerTo;
    assert Placements(scheduler, w, app.pod, 0) == [];
  }

  lemma RefusedReport(app: PodRequest, w: World)
    requires app.pod.nodeSelector != map[] && app.replicas == 1
    ensures RunReport(RefusedReview(app.pod.name), app, NoSelectors, w)
    ensures Unschedulable(RefusedReview(app.pod.name))
  {
    OneAnswer(NoSelectors, w, app);
    NothingToTrim();
    hide Decimal, FirstLine, Trim, RunOf;
  }

  lemma NothingToTrim()
    ensures Trim(FirstLine("")) == ""
  {
  }

  lemma PlacedReport(app: PodRequest, w: World)
    requires app.pod.nodeSelector == map[] && app.replicas == 1
    ensures RunReport(PlacedReview(app.pod.name), app, NoSelectors, w)
    ensures !Unschedulable(PlacedReview(app.pod.name))
  {
    OneAnswer(NoSelectors, w, app);
    OneCounted(BoundPod(PendingPod(app.pod, w.nextUid), Given("node")));
    hide Decimal, IsHistogram, RunOf;
    assert SCHEDULABLE[0] != UNSCHEDULABLE[0];
    assert [ReplicasOnNode(Given("node"), 1)][..0] == [];
  }

  lemma OneCounted(p: Pod)
    requires p.nodeName == Given("node")
    ensures IsHistogram([ReplicasOnNode(Given("node"), 1)], [p], 1, 1, 0)
  {
    assert CountOn([p], 0, 1, 0, Given("node")) == 0;
    assert [ReplicasOnNode(Given("node"), 1)][0] in [ReplicasOnNode(Given("node"), 1)];
  }

  // ---------------------------------------------------------------- pods take room

  /** A cluster with room for one pod. */
  function OnePlace(scene: Scene, moment: nat): Answer {
    if exists k :: k in scene.pods && scene.pods[k].nodeName == Given("node") then Refused("")
    else Placed(Given("node"))
  }

  predicate Taken(w: World) {
    exists k :: k in w.pods && w.pods[k].nodeName == Given("node")
  }

  lemma FitsIfFree(w: World, app: PodRequest)
    requires WellKeyed(w.pods, w.nextUid) && app.replicas == 1
    ensures Fits(OnePlace, w, app) <==> !Taken(w)
    ensures Taken(AfterRun(OnePlace, w, app))
  {
    OneAnswer(OnePlace, w, app);
    var pending := PendingPod(app.pod, w.nextUid);
    var scene := SceneAfter(w, app.pod, []);
    assert scene.pods == w.pods[KeyOf(pending) := pending];
    if Taken(w) {
      var k :| k in w.pods && w.pods[k].nodeName == Given("node");
      assert k in scene.pods && scene.pods[k].nodeName == Given("node");
    }
    StaysTaken(w, app);
  }

  lemma StaysTaken(w: World, app: PodRequest)
    requires WellKeyed(w.pods, w.nextUid) && app.replicas == 1
    requires RunOf(OnePlace, w, app) != [] ==> RunOf(OnePlace, w, app)[0].nodeName == Given("node")
    requires RunOf(OnePlace, w, app) == [] ==> Taken(w)
    ensures Taken(AfterRun(OnePlace, w, app))
  {
    RunExtends(OnePlace, w, app);
    hide RunOf;
    var bound, t := RunOf(OnePlace, w, app), AfterRun(OnePlace, w, app);
    if bound == [] {
      var k :| k in w.pods && w.pods[k].nodeName == Given("node");
      assert k in t.pods && t.pods[k].nodeName == Given("node");
    } else {
      assert KeyOf(bound[0]) in t.pods && t.pods[KeyOf(bound[0])].nodeName == Given("node");
    }
  }

  /** Two apps that both fit alone do not fit one after the other: the first one's pod stays. */
  lemma EarlierAppsTakeRoom(w: World, a: PodRequest, b: PodRequest)
    requires WellKeyed(w.pods, w.nextUid) && a.replicas == b.replicas == 1 && !Taken(w)
    ensures AllFit(OnePlace, w, [a]) && AllFit(OnePlace, w, [b]) && !AllFit(OnePlace, w, [a, b])
  {
    hide Fits, AfterRun, Taken, OnePlace;
    FitsIfFree(w, a);
    FitsIfFree(w, b);
    RunExtends(OnePlace, w, a);
    FitsIfFree(AfterRun(OnePlace, w, a), b);
    assert AfterRuns(OnePlace, w, [a][..0]) == w && AfterRuns(OnePlace, w, [b][..0]) == w;
    assert [a, b][..1] == [a] && [a, b][..1][..0] == [];
    assert AfterRuns(OnePlace, w, [a, b][..1]) == AfterRun(OnePlace, w, a);
    assert !Fits(OnePlace, AfterRuns(OnePlace, w, [a, b][..1]), [a, b][1]);
  }

  /** A replacement that only fits because the pod it replaces was taken away first. */
  lemma OldPodsTakeRoom(w: World, q: Pod, app: PodRequest)
    requires WellKeyed(w.pods, w.nextUid) && app.replicas == 1
    requires w.pods == map[KeyOf(q) := q] && q.nodeName == Given("node")
    ensures !AllFit(OnePlace, w, [app]) && AllFit(OnePlace, w.(pods := w.pods - KeysOf([q])), [app])
  {
    hide Fits, OnePlace;
    var free := w.(pods := w.pods - KeysOf([q]));
    assert KeyOf(q) in w.pods && w.pods[KeyOf(q)].nodeName == Given("node");
    assert q in [q] && free.pods == map[];
    FitsIfFree(w, app);
    FitsIfFree(free, app);
    assert [app][..0] == [];
  }
}
