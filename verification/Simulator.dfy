/** The simulator object: placement runs against an external scheduler, the jobs built from them,
    and the prediction search over fake clusters. */
module Simulator {
  import opened Common
  import opened Reports
  import opened Cluster
  import opened Runs
  import opened Placement
  import opened Switches
  import opened Prediction
  import NodeSearch
  import opened Fifo

  class NodeConfig {
    const nodeCapacity: NodeCapacity
    var nodeNumber: int
    var nodeLabels: map<string, Name>

    constructor (nodeNumber: int, nodeCapacity: NodeCapacity, nodeLabels: map<string, Name>)
      ensures this.nodeNumber == nodeNumber && this.nodeLabels == nodeLabels && this.nodeCapacity == nodeCapacity
    {
      this.nodeNumber := nodeNumber;
      this.nodeCapacity := nodeCapacity;
      this.nodeLabels := nodeLabels;
    }
  }

  datatype NodeSpec = NodeSpec(nodeNumber: int, nodeCapacity: NodeCapacity, nodeLabels: map<string, Name>)

  datatype AppGroup = AppGroup(emulatorType: string, nodes: seq<NodeSpec>, apps: seq<PodRequest>, oldPods: seq<Pod>)

  datatype JobReport = JobReport(
    jobId: string, status: string, report: seq<Review>, predictionNode: Option<PredictionNodeReview>)

  /** What the worker needs of a job: the node count of a prediction is outside the gap, and simulated
      pods among the old pods of a vertical job are gone. */
  predicate Runnable(job: AppGroup, pods: PodStore) {
    && (job.emulatorType == "VerticalEmulator" ==> SimulatedGone(job.oldPods, pods))
    && (job.emulatorType == "Prediction" ==>
          && job.nodes != [] && 0 <= job.nodes[|job.nodes| - 1].nodeNumber
          && !NodeSearch.InGap(job.nodes[|job.nodes| - 1].nodeNumber))
  }

  /** The jobs that end with a result: an unknown type has none, a vertical job only if its old pods
      can all be taken away. */
  predicate Saves(job: AppGroup, pods: PodStore) {
    || job.emulatorType in {"AppsEmulator", "HorizontalEmulator", "Prediction"}
    || (job.emulatorType == "VerticalEmulator" && Removable(pods, job.oldPods))
  }

  class Kubesim {
    // The environment: the external scheduler, and how many answers it has given.
    const scheduler: Scheduler
    const addNodeStrategy: string
    const fifoQueue: FIFOQueue<AppGroup>
    var clock: nat
    // UUID supply
    var nextUid: nat

    // The API server's stores; it keeps copies of what it is given.
    var pods: PodStore
    var nodes: NodeStore

    var simulatedPod: Pod
    var lastSimulatedPod: Pod
    var maxSimulated: int
    var simulated: int
    var status: Status

    // ks.stop, ks.informerStopCh and ks.schedulerCh are the last entry.
    var channels: seq<RunChannels>
    var closed: bool

    // Results by job id; None is a nil pointer.
    var emulatorResult: map<string, Option<seq<Review>>>
    var predictionNode: map<string, PredictionNodeReview>

    function View(): RunState
      reads this
    {
      RunState(pods, nextUid, simulatedPod, lastSimulatedPod, maxSimulated, simulated, status, channels, closed)
    }

    function TheWorld(): World
      reads this
    {
      World(nodes, pods, nextUid, clock)
    }

    constructor (scheduler: Scheduler, addNodeStrategy: string, pods: PodStore, nodes: map<Name, Node>)
      requires WellKeyed(pods, 0)
      ensures Idle(View()) && this.pods == pods && this.nodes == nodes && clock == 0
      ensures this.scheduler == scheduler && this.addNodeStrategy == addNodeStrategy
      ensures emulatorResult == map[] && predictionNode == map[]
      ensures fresh(fifoQueue) && fifoQueue.Valid() && fifoQueue.Entries() == []
    {
      this.scheduler, this.addNodeStrategy := scheduler, addNodeStrategy;
      this.fifoQueue := new FIFOQueue<AppGroup>();
      this.pods, this.nodes := pods, nodes;
      clock, nextUid, maxSimulated, simulated := 0, 0, 0, 0;
      status, channels, closed := Status([], ""), [], false;
      emulatorResult, predictionNode := map[], map[];
      var none := Pod("", Given(""), NO_NODE, NotRunning, map[], map[], map[], [], "");
      simulatedPod, lastSimulatedPod := none, none;
    }

    // ---------------------------------------------------------------- one run

    method UpdatePodRequest(pod: Pod, replicas: Replicas)
      requires Idle(View())
      modifies `simulatedPod, `maxSimulated, `simulated, `channels
      ensures Opened(View())
      ensures View() == old(View()).(simulatedPod := pod, maxSimulated := replicas, simulated := 0,
                                     channels := old(channels) + [FRESH])
    {
      simulatedPod := pod;
      maxSimulated := replicas;
      simulated := 0;
      channels := channels + [FRESH];
    }

    /** ks.stop <- struct{}{}: panics when the channel is closed. */
    method SendStop()
      requires channels != [] && !Last(View()).stop.closed
      modifies `channels
      ensures View() == AfterSend(old(View()))
    {
      var c := channels[|channels| - 1];
      channels := channels[|channels| - 1 := c.(stop := c.stop.(sends := c.stop.sends + 1))];
    }

    /** close(ks.stop): panics when the channel is closed already. */
    method CloseStop()
      requires channels != [] && !Last(View()).stop.closed
      modifies `channels
      ensures View() == WithLast(old(View()), Last(old(View())).(stop := Channel(old(Last(View())).stop.sends, true)))
    {
      var c := channels[|channels| - 1];
      channels := channels[|channels| - 1 := c.(stop := c.stop.(closed := true))];
    }

    /** Closing either channel a second time would panic. */
    method Close()
      requires channels != []
      requires !closed ==> !Last(View()).scheduler.closed && !Last(View()).informerStop.closed
      modifies `channels, `closed
      ensures View() == AfterClose(old(View()))
    {
      if closed {
        return;
      }
      var c := channels[|channels| - 1];
      channels := channels[|channels| - 1 := c.(scheduler := c.scheduler.(closed := true),
                                                informerStop := c.informerStop.(closed := true))];
      closed := true;
    }

    /** Put one more pending pod of the template into the store; the name is fresh, so creating it
        succeeds. */
    method NextPod()
      requires WellKeyed(pods, nextUid)
      modifies `pods, `nextUid, `simulated, `lastSimulatedPod
      ensures View() == AfterNextPod(old(View()))
    {
      var pod := simulatedPod;
      pod := pod.(nodeName := NO_NODE);
      pod := pod.(name := Generated(simulatedPod.name, nextUid));
      nextUid := nextUid + 1;
      pod := pod.(schedulerName := DEFAULT_SCHEDULER);
      pod := pod.(annotations := pod.annotations[POD_PROVISIONER := DEFAULT_SCHEDULER]);
      pod := pod.(labels := pod.labels["provisioner" := "kubesim"]);
      simulated := simulated + 1;
      lastSimulatedPod := pod;
      pods := pods[KeyOf(pod) := pod];
    }

    /** The answer "placed": bind the pending pod, then end the run or put up the next pod. */
    method Bind(p: Pod, nodeName: NodeName, ghost base: PodStore)
      requires Live(View(), base) && p == lastSimulatedPod
      modifies `pods, `nextUid, `simulated, `lastSimulatedPod, `status, `channels, `closed
      ensures View() == AfterBind(old(View()), nodeName)
    {
      var updatedPod := pods[KeyOf(p)].(nodeName := nodeName, phase := Running);
      pods := pods[KeyOf(updatedPod) := updatedPod];
      status := status.(pods := status.pods + [updatedPod]);
      if maxSimulated > 0 && simulated >= maxSimulated {
        status := status.(stopReason := StopReason(SCHEDULABLE, ALL_PLACED + Decimal(maxSimulated)));
        Close();
        SendStop();
        return;
      }
      NextPod();
    }

    /** A condition update on the pending pod; only an Unschedulable one on a pod that the simulator
        provisioned matters. */
    method Update(pod: Pod, podCondition: PodCondition, ghost base: PodStore)
      requires Live(View(), base) && pod == lastSimulatedPod
      modifies `pods, `status, `channels, `closed
      ensures View() == if podCondition == PodCondition("PodScheduled", "False", UNSCHEDULABLE, podCondition.message)
                        then AfterRefusal(old(View()), podCondition.message) else old(View())
    {
      var stop := podCondition.kind == "PodScheduled" && podCondition.status == "False"
                  && podCondition.reason == UNSCHEDULABLE;
      if stop && HasProvisioner(pod) {
        status := status.(stopReason := StopReason(podCondition.reason, podCondition.message));
        Close();
        CleanPendingPod(pod);
        SendStop();
      }
    }

    method CleanPendingPod(pod: Pod)
      modifies `pods
      ensures pods == old(pods) - {KeyOf(pod)}
    {
      pods := pods - {KeyOf(pod)};
    }

    /** The external scheduler looks at the stores and gives its one answer to the pending pod. */
    method Answer(ghost base: PodStore)
      requires Live(View(), base)
      modifies `pods, `nextUid, `simulated, `lastSimulatedPod, `status, `channels, `closed, `clock
      ensures View() == AfterAnswer(old(View()), scheduler(SceneOf(old(View()), nodes), old(clock)))
      ensures clock == old(clock) + 1
    {
      hide WellKeyed, Extends, AfterBind, AfterRefusal;
      var answer := scheduler(Scene(nodes, pods, pods[KeyOf(lastSimulatedPod)]), clock);
      clock := clock + 1;
      match answer
      case Placed(nodeName) =>
        Bind(lastSimulatedPod, nodeName, base);
      case Refused(message) =>
        Update(lastSimulatedPod, PodCondition("PodScheduled", "False", UNSCHEDULABLE, message), base);
    }

    /** Put up the first pod, then wait while the scheduler answers each pending pod once, until the
        send on the stop channel arrives. */
    method SchedulerPod(ghost app: PodRequest)
      requires Opened(View()) && WellKeyed(pods, nextUid) && status.pods == []
      requires simulated == 0 && simulatedPod == app.pod && maxSimulated == app.replicas
      modifies `pods, `nextUid, `simulated, `lastSimulatedPod, `status, `channels, `closed, `clock
      ensures AllFinished(channels) && |channels| == |old(channels)| && closed && WellKeyed(pods, nextUid)
      ensures Concluded(View(), app, scheduler, old(TheWorld()), clock)
    {
      hide Live, Stopped, Concluded, Underway, AfterAnswer, Extends, WellKeyed, AllFinished, Opened;
      ghost var w := TheWorld();
      RunStarts(View());
      RunBegins(View(), app, scheduler, w);
      NextPod();
      SentOrNot(View(), w.pods);
      while channels[|channels| - 1].stop.sends == 0
        invariant |channels| == |old(channels)|
        invariant Answered(View(), app, scheduler, w, clock)
        invariant |status.pods| <= maxSimulated
        invariant Sent(View()) ==> !Last(View()).stop.closed
        decreases channels[|channels| - 1].stop.sends == 0, maxSimulated - |status.pods|
      {
        AnswerStep(View(), app, scheduler, w, clock);
        Answer(w.pods);
        SentOrNot(View(), w.pods);
      }
      ghost var stopped := View();
      CloseStop();
      RunCloses(stopped, View(), w.pods);
      StaysConcluded(stopped, View(), app, scheduler, w, clock);
    }

    /** Report, for the one template of the run. */
    method Report() returns (report: Review)
      requires ':' in FirstLine(status.stopReason)
      ensures report.desiredReplicas == maxSimulated && report.replicas == Int32(|status.pods|)
      ensures report.reason == GetMainFailReason(status.stopReason)
      ensures Reviewed(report.pods, [simulatedPod], status.pods, |status.pods|)
      ensures TotalSum(report.pods) == |status.pods|
    {
      report := GetReport([simulatedPod], status, maxSimulated);
    }

    /** Forgetting the pods of an ended run makes the simulator ready for the next one; the stop
        reason and everything else stay. */
    method CleanStatusPods()
      requires Ended(View())
      modifies `status
      ensures Idle(View())
      ensures View() == old(View()).(status := Status([], old(status.stopReason)))
    {
      status := status.(pods := []);
    }

    /** Report a concluded run and forget its pods. */
    method ReportAndClean(ghost app: PodRequest, ghost w: World) returns (report: Review)
      requires Ended(View()) && simulatedPod == app.pod && maxSimulated == app.replicas
      requires Concluded(View(), app, scheduler, w, clock)
      modifies `status
      ensures Idle(View()) && RunReport(report, app, scheduler, w)
    {
      hide RunReport, GetMainFailReason, Reviewed, TotalSum, FirstLine, Concluded, Ended;
      ReasonParses(View(), app, scheduler, w, clock);
      report := Report();
      ReportShowsRun(report, app, View(), scheduler, w, clock);
      CleanStatusPods();
    }

    /** Request and place the pods of one app. */
    method PlaceApp(app: PodRequest)
      requires Idle(View())
      modifies `pods, `nextUid, `clock, `simulatedPod,
               `lastSimulatedPod, `maxSimulated, `simulated, `status, `channels, `closed
      ensures simulatedPod == app.pod && maxSimulated == app.replicas
      ensures Ended(View()) && |channels| == |old(channels)| + 1
      ensures Concluded(View(), app, scheduler, old(TheWorld()), clock)
    {
      hide Concluded, AllFinished, WellKeyed, Opened;
      UpdatePodRequest(app.pod, app.replicas);
      SchedulerPod(app);
    }

    /** The four calls that every job makes for every app: the app's pods stay in the store. */
    method RunApp(app: PodRequest) returns (report: Review)
      requires Idle(View())
      modifies `pods, `nextUid, `clock, `simulatedPod,
               `lastSimulatedPod, `maxSimulated, `simulated, `status, `channels, `closed
      ensures Idle(View()) && |channels| == |old(channels)| + 1
      ensures TheWorld() == AfterRun(scheduler, old(TheWorld()), app)
      ensures RunReport(report, app, scheduler, old(TheWorld()))
    {
      hide RunReport, AfterRun, RunOf, AnswerTo, Idle, Ended, StopReason, Decimal;
      PlaceApp(app);
      report := ReportAndClean(app, old(TheWorld()));
    }

    /** Delete everything labelled provisioner=kubesim, listing again until nothing is left. */
    method CleanPod()
      modifies `pods
      ensures pods == RealPods(old(pods))
      ensures forall k | k in pods :: k in old(pods) && pods[k] == old(pods)[k]
      ensures forall k | k in old(pods) ::
                k !in pods <==> "provisioner" in old(pods)[k].labels && old(pods)[k].labels["provisioner"] == "kubesim"
    {
      var items := set k | k in pods && Provisioned(pods[k]);
      while items != {}
        invariant items == set k | k in pods && Provisioned(pods[k])
        invariant RealPods(pods) == RealPods(old(pods))
        decreases |items|
      {
        ghost var listed := pods;
        var todo := items;
        while todo != {}
          invariant todo <= items && pods == listed - (items - todo)
          decreases |todo|
        {
          var k :| k in todo;
          pods := pods - {k};
          todo := todo - {k};
        }
        items := set k | k in pods && Provisioned(pods[k]);
        assert items == {};
      }
      assert forall k | k in pods :: k !in items;
    }

    // ---------------------------------------------------------------- jobs over a list of apps

    /** The loop of the apps, horizontal and vertical jobs. */
    method RunApps(apps: seq<PodRequest>) returns (reports: seq<Review>)
      requires Idle(View())
      modifies `pods, `nextUid, `clock, `simulatedPod,
               `lastSimulatedPod, `maxSimulated, `simulated, `status, `channels, `closed
      ensures Idle(View()) && |channels| == |old(channels)| + |apps|
      ensures TheWorld() == AfterRuns(scheduler, old(TheWorld()), apps)
      ensures |reports| == |apps| && RunReports(reports, apps, scheduler, old(TheWorld()))
    {
      hide RunReport, AfterRun;
      reports := [];
      for i := 0 to |apps|
        invariant Idle(View()) && |channels| == |old(channels)| + i
        invariant TheWorld() == AfterRuns(scheduler, old(TheWorld()), apps[..i])
        invariant |reports| == i && RunReports(reports, apps, scheduler, old(TheWorld()))
      {
        RunsExtend(scheduler, old(TheWorld()), apps, i);
        var report := RunApp(apps[i]);
        RunReportsExtend(reports, apps, scheduler, old(TheWorld()), report);
        reports := reports + [report];
      }
      assert apps[..|apps|] == apps;
    }

    /** CleanPod and CleanStatusPods, at the end of every pass. */
    method CleanUp()
      requires Idle(View())
      modifies `pods, `status
      ensures Idle(View()) && TheWorld() == Cleaned(old(TheWorld()))
    {
      CleanPod();
      CleanStatusPods();
    }

    /** appsEmulator; HorizontalEmulator is the same, line for line. */
    method AppsEmulator(apps: seq<PodRequest>, key: string) returns (reportList: seq<Review>)
      requires Idle(View())
      modifies `pods, `nextUid, `clock, `simulatedPod,
               `lastSimulatedPod, `maxSimulated, `simulated, `status, `channels, `closed, `emulatorResult
      ensures Idle(View()) && |channels| == |old(channels)| + |apps|
      ensures pods == RealPods(old(pods))
      ensures TheWorld() == Cleaned(AfterRuns(scheduler, old(TheWorld()), apps))
      ensures |reportList| == |apps| && RunReports(reportList, apps, scheduler, old(TheWorld()))
      ensures emulatorResult == old(emulatorResult)[key := Some(reportList)]
    {
      hide RunReports, AfterRuns, RealPods, WellKeyed;
      RunsKeepReal(scheduler, TheWorld(), apps);
      reportList := RunApps(apps);
      CleanUp();
      emulatorResult := emulatorResult[key := Some(reportList)];
    }

    method DeleteAppsPod(p: Pod) returns (ok: bool)
      modifies `pods
      ensures ok == (PodKey(p.namespace, p.name) in old(pods)) && pods == old(pods) - {PodKey(p.namespace, p.name)}
    {
      ok := KeyOf(p) in pods;
      pods := pods - {KeyOf(p)};
    }

    method CreateAppsPod(p: Pod) returns (ok: bool)
      modifies `pods
      ensures ok == (PodKey(p.namespace, p.name) !in old(pods))
      ensures pods == if ok then old(pods)[PodKey(p.namespace, p.name) := p] else old(pods)
    {
      ok := KeyOf(p) !in pods;
      if ok {
        pods := pods[KeyOf(p) := p];
      }
    }

    /** Delete the pods one by one, giving up at the first that is not there; those before it are gone. */
    method DeleteOldPods(oldPods: seq<Pod>) returns (ok: bool, ghost n: nat)
      modifies `pods
      ensures ok == Removable(old(pods), oldPods)
      ensures if ok then n == |oldPods| else StuckAt(old(pods), oldPods, n)
      ensures n <= |oldPods| && pods == old(pods) - KeysOf(oldPods[..n])
    {
      assert KeysOf(oldPods[..0]) == {};
      for i := 0 to |oldPods|
        invariant Removable(old(pods), oldPods[..i]) && pods == old(pods) - KeysOf(oldPods[..i])
      {
        RemovableStep(old(pods), oldPods, i);
        var deleted := DeleteAppsPod(oldPods[i]);
        if !deleted {
          return false, i;
        }
      }
      assert oldPods[..|oldPods|] == oldPods;
      return true, |oldPods|;
    }

    method CreateOldPods(oldPods: seq<Pod>) returns (ok: bool)
      requires Distinct(oldPods) && KeysOf(oldPods) !! pods.Keys
      modifies `pods
      ensures ok && pods == WithPods(old(pods), oldPods)
    {
      assert oldPods[..0] == [];
      for i := 0 to |oldPods|
        invariant pods == WithPods(old(pods), oldPods[..i])
      {
        WithPodsStep(old(pods), oldPods, i);
        var created := CreateAppsPod(oldPods[i]);
        if !created {
          return false;
        }
      }
      assert oldPods[..|oldPods|] == oldPods;
      return true;
    }

    /** The verdict loop of the vertical job and of the status reader. */
    method DeriveStatus(reports: seq<Review>) returns (status: string)
      ensures IsStatusOf(status, Some(reports))
    {
      status := "";
      for i := 0 to |reports|
        invariant forall j | 0 <= j < i :: !Unschedulable(reports[j])
        invariant status == if i == 0 then "" else JOB_SUCCEED
      {
        if reports[i].reason.kind == UNSCHEDULABLE {
          return JOB_FAILED;
        } else {
          status := JOB_SUCCEED;
        }
      }
    }

    /** Both passes of the vertical job, without the old pods. */
    method VerticalPasses(apps: seq<PodRequest>) returns (reportlist: seq<Review>)
      requires Idle(View())
      modifies `pods, `nextUid, `clock, `simulatedPod,
               `lastSimulatedPod, `maxSimulated, `simulated, `status, `channels, `closed
      ensures Idle(View()) && nextUid >= old(nextUid)
      ensures pods == RealPods(old(pods))
      ensures VerticalReports(reportlist, apps, scheduler, old(TheWorld()))
    {
      hide RunReports, AfterRuns, RealPods, IsStatusOf, WellKeyed;
      ghost var w := TheWorld();
      RunsKeepReal(scheduler, w, apps);
      RealTwice(w.pods);
      var first := RunApps(apps);
      ghost var second: seq<Review> := [];
      reportlist := first;
      var verdict := DeriveStatus(first);
      FailedMeansUnschedulable(verdict, first);
      if verdict == JOB_FAILED {
        CleanUp();
        RunsKeepReal(scheduler, TheWorld(), Relaxed(apps));
        var again := RunApps(Relaxed(apps));
        second := again;
        reportlist := reportlist + again;
      } else {
        assert first + [] == first;
      }
      CleanUp();
      assert TwoPasses(reportlist, first, second, apps, scheduler, w);
    }

    /** The vertical job: take the old pods away, place the new ones, put the old pods back. */
    method VerticalEmulator(apps: seq<PodRequest>, oldPods: seq<Pod>, key: string) returns (r: Result<seq<Review>>)
      requires Idle(View()) && NoSimulatedPods(pods)
      requires SimulatedGone(oldPods, pods)
      modifies `pods, `nextUid, `clock, `simulatedPod,
               `lastSimulatedPod, `maxSimulated, `simulated, `status, `channels, `closed, `emulatorResult
      ensures Idle(View()) && NoSimulatedPods(pods)
      ensures r.Success? <==> Removable(old(pods), oldPods)
      ensures r.Success? ==> pods.Keys == old(pods).Keys && (pods == old(pods) <==> Matches(old(pods), oldPods))
      ensures r.Success? ==> emulatorResult == old(emulatorResult)[key := Some(r.value)]
      ensures r.Success? ==>
                VerticalReports(r.value, apps, scheduler, old(TheWorld()).(pods := old(pods) - KeysOf(oldPods)))
      ensures r.Failure? ==> emulatorResult == old(emulatorResult) && clock == old(clock)
      ensures r.Failure? ==> LostPods(old(pods), oldPods, pods)
      ensures pods == old(pods) <==> LeavesNoTrace(old(pods), oldPods)
    {
      hide VerticalReports, Removable, Matches, WithPods, StuckAt;
      var deleted, n := DeleteOldPods(oldPods);
      if !deleted {
        StuckLeavesTrace(old(pods), oldPods, n);
        return Failure("unable delete old pod");
      }
      assert oldPods[..n] == oldPods;
      ghost var rest := pods;
      var reportlist := VerticalPasses(apps);
      AllReal(rest);
      PutBack(old(pods), oldPods, nextUid);
      var created := CreateOldPods(oldPods);
      if !created {
        return Failure("unable create old pod");
      }
      emulatorResult := emulatorResult[key := Some(reportlist)];
      return Success(reportlist);
    }

    // ---------------------------------------------------------------- prediction

    /** One trial on the current cluster: stop at the first app that cannot be placed. */
    method CreateApps(apps: seq<PodRequest>) returns (prediction: SchedulerPrediction)
      requires Idle(View())
      modifies `pods, `nextUid, `clock, `simulatedPod,
               `lastSimulatedPod, `maxSimulated, `simulated, `status, `channels, `closed
      ensures Idle(View()) && pods == RealPods(old(pods)) && nextUid >= old(nextUid)
      ensures TrialOf(prediction, apps, scheduler, old(TheWorld()))
    {
      hide RunReport, RunReports, RealPods, AfterRun, AfterRuns, TrialOf, TrialUpTo, Unschedulable;
      ghost var w := TheWorld();
      var successAppsName: seq<Name>, successCount, failedMessage, predictionGo := [], 0, "", true;
      var reportlist: seq<Review> := [];
      TrialBegins(apps, scheduler, w);
      ghost var made: nat := 0;
      while successCount < |apps|
        invariant Idle(View()) && 0 <= made == successCount <= |apps| && predictionGo && failedMessage == ""
        invariant TheWorld() == AfterRuns(scheduler, w, apps[..made])
        invariant TrialUpTo(successCount, reportlist, successAppsName, apps, scheduler, w)
      {
        ghost var before := reportlist;
        RunsExtend(scheduler, w, apps, successCount);
        made := made + 1;
        var report := RunApp(apps[successCount]);
        reportlist := reportlist + [report];
        if report.reason.kind == UNSCHEDULABLE {
          Refuses(report);
          TrialFails(successCount, before, successAppsName, apps, scheduler, w, report);
          failedMessage := report.reason.message;
          predictionGo := false;
          break;
        }
        Refuses(report);
        TrialGoesOn(successCount, before, successAppsName, apps, scheduler, w, report);
        successAppsName := successAppsName + [apps[successCount].pod.name];
        successCount := successCount + 1;
      }
      if predictionGo {
        TrialSucceeds(reportlist, successAppsName, apps, scheduler, w);
      }
      var failedCount := |apps| - successCount;
      RunsKeepReal(scheduler, w, apps[..made]);
      CleanPod();
      prediction := SchedulerPrediction(successAppsName, successCount, failedCount, failedMessage, predictionGo,
                                        reportlist);
    }

    // ---------------------------------------------------------------- the fake cluster

    /** nodeconfig.BuildNode writes into the label map of the caller; the node that is stored keeps
        a copy of the map as it is now. */
    method BuildFakeNode(nodeConfig: NodeConfig, nodeName: Name) returns (node: Node)
      requires ACCESS_SWITCH in nodeConfig.nodeLabels
      modifies nodeConfig`nodeLabels
      ensures NodeOn(node, nodeName, old(nodeConfig.nodeLabels[ACCESS_SWITCH]))
      ensures nodeConfig.nodeLabels == node.labels == NodeLabels(old(nodeConfig.nodeLabels), nodeName)
      ensures AsRequested(node, old(nodeConfig.nodeLabels), nodeConfig.nodeCapacity)
    {
      var labels := nodeConfig.nodeLabels;
      labels := labels["kubernetes.io/arch" := Given("amd64")];
      labels := labels[HOSTNAME := nodeName];
      labels := labels["kubernetes.io/os" := Given("linux")];
      labels := labels["node-role.kubernetes.io/node" := Given("")];
      labels := labels["provisioner" := Given("kubesim")];
      nodeConfig.nodeLabels := labels;
      node := Node(nodeName, labels, CapacityOf(nodeConfig.nodeCapacity));
      BuiltAsRequested(node, old(nodeConfig.nodeLabels), nodeConfig.nodeCapacity);
    }

    /** The inner loop of addNodes: one switch with its nodes. */
    method AddSwitch(nodeConfig: NodeConfig, swNumber: nat) returns (sw: Name, fakeNameList: seq<Name>)
      requires WellNamed(nodes, nextUid)
      modifies nodeConfig`nodeLabels, `nodes, `nextUid
      ensures |fakeNameList| == swNumber
      ensures SwitchAdded(old(nodes), old(nextUid), nodes, nextUid, sw, fakeNameList)
      ensures Requested(nodes - old(nodes).Keys, old(nodeConfig.nodeLabels), nodeConfig.nodeCapacity)
      ensures KeepsLabels(nodeConfig.nodeLabels, old(nodeConfig.nodeLabels))
    {
      hide NodeOn, NodeLabels, NoDuplicates, KeepsLabels, AsRequested, Requested, SwitchAdded;
      ghost var request := nodeConfig.nodeLabels;
      sw := Generated(Given("access"), nextUid);
      nextUid := nextUid + 1;
      nodeConfig.nodeLabels := nodeConfig.nodeLabels[ACCESS_SWITCH := sw];
      fakeNameList := [];
      SwitchWithoutNodes(nodes, old(nextUid), sw, request, nodeConfig.nodeCapacity);
      for i := 0 to swNumber
        invariant SwitchAdded(old(nodes), old(nextUid), nodes, nextUid, sw, fakeNameList) && |fakeNameList| == i
        invariant ACCESS_SWITCH in nodeConfig.nodeLabels && nodeConfig.nodeLabels[ACCESS_SWITCH] == sw
        invariant Requested(nodes - old(nodes).Keys, request, nodeConfig.nodeCapacity)
        invariant KeepsLabels(nodeConfig.nodeLabels, request)
      {
        var nodeName := Generated(Given("fake-"), nextUid);
        fakeNameList := fakeNameList + [nodeName];
        ghost var labels := nodeConfig.nodeLabels;
        var v1Node := BuildFakeNode(nodeConfig, nodeName);
        SwitchLabelOf(v1Node, nodeName, sw);
        BuiltFor(v1Node, labels, request, nodeConfig.nodeCapacity);
        NodeJoins(old(nodes), old(nextUid), nodes, nextUid, sw, fakeNameList[..i], v1Node,
                  request, nodeConfig.nodeCapacity);
        nextUid := nextUid + 1;
        nodes := nodes[nodeName := v1Node];
        assert fakeNameList[..i] + [nodeName] == fakeNameList;
      }
    }

    /** addNodes: one switch after the other, all nodes built from one shared label map. */
    method AddNodeBatch(nodeConfig: NodeConfig) returns (access: AccessIndex)
      requires WellNamed(nodes, nextUid) && nodeConfig.nodeNumber >= 0
      modifies nodeConfig`nodeLabels, `nodes, `nextUid
      ensures Batch(old(nodes), nodes, access, nextUid) && nextUid >= old(nextUid)
      ensures |nodes| == |old(nodes)| + nodeConfig.nodeNumber
      ensures SplitBy(addNodeStrategy, access, nodeConfig.nodeNumber)
      ensures Requested(nodes - old(nodes).Keys, old(nodeConfig.nodeLabels), nodeConfig.nodeCapacity)
      ensures KeepsLabels(nodeConfig.nodeLabels, old(nodeConfig.nodeLabels))
    {
      ghost var request := nodeConfig.nodeLabels;
      hide Batch, FullSwitches, SwitchAdded, InSizes, KeepsLabels, Requested, WellNamed;
      var swList: seq<int>;
      if addNodeStrategy == "prd" {
        swList := BuildRulesNode(nodeConfig.nodeNumber);
      } else {
        swList := Switches.BuildNode(nodeConfig.nodeNumber);
      }
      assert Split(addNodeStrategy, nodeConfig.nodeNumber, swList);
      access := map[];
      ghost var order: seq<Name> := [];
      StartsGrowing(nodes, nextUid, request, nodeConfig.nodeCapacity);
      assert swList[..0] == [];
      for i := 0 to |swList|
        invariant WellNamed(nodes, nextUid) && nextUid >= old(nextUid)
        invariant Growing(old(nodes), nodes, access, nextUid, order, swList[..i],
                          nodeConfig.nodeLabels, request, nodeConfig.nodeCapacity)
      {
        ghost var before, uid, between := nodes, nextUid, nodeConfig.nodeLabels;
        var accessSwitchName, fakeNameList := AddSwitch(nodeConfig, swList[i]);
        SwitchJoins(old(nodes), before, access, uid, order, swList, i, between, request, nodeConfig.nodeCapacity,
                    accessSwitchName, fakeNameList, nodes, nextUid, nodeConfig.nodeLabels);
        access := access[accessSwitchName := fakeNameList];
        order := order + [accessSwitchName];
      }
      assert swList[..|swList|] == swList;
    }

    /** The node list of the API server, in some order. */
    method ListNodes() returns (items: seq<Name>)
      ensures NoDuplicates(items) && NameSet(items) == nodes.Keys && |items| == |nodes|
    {
      items := [];
      var todo := nodes.Keys;
      while todo != {}
        invariant NoDuplicates(items) && todo <= nodes.Keys && NameSet(items) == nodes.Keys - todo
        decreases |todo|
      {
        var n :| n in todo;
        assert NameSet(items + [n]) == NameSet(items) + {n};
        assert forall i | 0 <= i < |items| :: items[i] in NameSet(items);
        items := items + [n];
        todo := todo - {n};
      }
      NameSetSize(items);
    }

    /** Delete the first `count` nodes of the list. */
    method DeleteListed(items: seq<Name>, count: nat)
      requires NoDuplicates(items) && count <= |items|
      requires NameSet(items) == nodes.Keys && |items| == |nodes|
      modifies `nodes
      ensures nodes == old(nodes) - NameSet(items[..count]) && |nodes| == |old(nodes)| - count
    {
      assert NameSet(items[..0]) == {};
      for i := 0 to count
        invariant nodes == old(nodes) - NameSet(items[..i]) && |nodes| == |old(nodes)| - i
      {
        DropOne(old(nodes), items, i);
        nodes := nodes - {items[i]};
      }
    }

    /** The whole node store is emptied: the list is not restricted to simulated nodes. */
    method DeleteNodes()
      requires Idle(View())
      modifies `pods, `nodes
      ensures Idle(View()) && pods == RealPods(old(pods)) && nodes == map[]
    {
      CleanPod();
      var items := ListNodes();
      DeleteListed(items, |items|);
      assert items[..|items|] == items;
    }

    /** Reconcile the number of nodes.  The access map that is returned is that of the last batch,
        and NodeNumber is left at the size of that batch. */
    method AddNodes(nodeConfig: NodeConfig) returns (access: AccessIndex)
      requires WellNamed(nodes, nextUid) && nodeConfig.nodeNumber >= 0
      modifies nodeConfig, `nodes, `nextUid
      ensures WellNamed(nodes, nextUid) && nextUid >= old(nextUid)
      ensures |nodes| == old(nodeConfig.nodeNumber)
      ensures |old(nodes)| < old(nodeConfig.nodeNumber) ==>
                && Batch(old(nodes), nodes, access, nextUid)
                && nodeConfig.nodeNumber == old(nodeConfig.nodeNumber) - |old(nodes)|
                && SplitBy(addNodeStrategy, access, nodeConfig.nodeNumber)
                && Requested(nodes - old(nodes).Keys, old(nodeConfig.nodeLabels), nodeConfig.nodeCapacity)
      ensures KeepsLabels(nodeConfig.nodeLabels, old(nodeConfig.nodeLabels))
      ensures |old(nodes)| >= old(nodeConfig.nodeNumber) ==>
                && access == map[] && nodeConfig.nodeNumber == old(nodeConfig.nodeNumber)
                && forall n | n in nodes :: n in old(nodes) && nodes[n] == old(nodes)[n]
    {
      hide IndexOf, SplitBy, AsRequested, Requested;
      KeepsLabelsItself(nodeConfig.nodeLabels);
      hide KeepsLabels;
      var nodeCount := nodeConfig.nodeNumber;
      access := map[];
      while true
        invariant WellNamed(nodes, nextUid) && nextUid >= old(nextUid)
        invariant KeepsLabels(nodeConfig.nodeLabels, old(nodeConfig.nodeLabels))
        invariant |nodes| != nodeCount ==>
                    && nodes == old(nodes) && nodeConfig.nodeNumber == nodeCount && access == map[]
                    && nodeConfig.nodeLabels == old(nodeConfig.nodeLabels)
        invariant |nodes| == nodeCount && |old(nodes)| < nodeCount ==>
                    && Batch(old(nodes), nodes, access, nextUid)
                    && nodeConfig.nodeNumber == nodeCount - |old(nodes)|
                    && SplitBy(addNodeStrategy, access, nodeConfig.nodeNumber)
                    && Requested(nodes - old(nodes).Keys, old(nodeConfig.nodeLabels), nodeConfig.nodeCapacity)
        invariant |nodes| == nodeCount && |old(nodes)| >= nodeCount ==>
                    && access == map[] && nodeConfig.nodeNumber == nodeCount
                    && forall n | n in nodes :: n in old(nodes) && nodes[n] == old(nodes)[n]
        decreases |nodes| != nodeCount
      {
        var items := ListNodes();
        if |items| < nodeCount {
          var failedNode := nodeCount - |items|;
          nodeConfig.nodeNumber := failedNode;
          access := AddNodeBatch(nodeConfig);
        } else if |items| > nodeCount {
          DeleteListed(items, |items| - nodeCount);
        } else {
          break;
        }
      }
    }

    method CreateFakeNode(nodeConfig: NodeConfig, predictionNode: nat) returns (access: AccessIndex)
      requires Idle(View())
      modifies nodeConfig, `pods, `nodes, `nextUid
      ensures Idle(View()) && pods == RealPods(old(pods))
      ensures |nodes| == predictionNode && IndexOf(access, nodes)
      ensures predictionNode > 0 ==> SplitBy(addNodeStrategy, access, predictionNode)
      ensures Requested(nodes, old(nodeConfig.nodeLabels), nodeConfig.nodeCapacity)
      ensures KeepsLabels(nodeConfig.nodeLabels, old(nodeConfig.nodeLabels))
    {
      hide IndexOf, SplitBy, Requested, KeepsLabels, Batch;
      ghost var request := nodeConfig.nodeLabels;
      DeleteNodes();
      ghost var none := nodes;
      nodeConfig.nodeNumber := predictionNode;
      access := AddNodes(nodeConfig);
      FreshIndex(none, nodes, access, nextUid, predictionNode, request, nodeConfig.nodeCapacity);
    }

    /** The switches as they are published, each once. */
    method SwitchList(access: AccessIndex) returns (accessswitchlist: seq<AccessSwitch>)
      ensures Lists(accessswitchlist, access) && SwitchNames(accessswitchlist) == access.Keys
    {
      accessswitchlist := [];
      var todo := access.Keys;
      assert Lists([], access) && SwitchNames([]) == {};
      hide Lists, SwitchNames;
      while todo != {}
        invariant todo <= access.Keys && Lists(accessswitchlist, access)
        invariant SwitchNames(accessswitchlist) == access.Keys - todo
        decreases |todo|
      {
        var name :| name in todo;
        var sw := AccessSwitch(name, Int32(|access[name]|), access[name]);
        ListsOneMore(accessswitchlist, access, name);
        accessswitchlist := accessswitchlist + [sw];
        todo := todo - {name};
      }
    }

    /** Publish the split and the report list under the job's key, in one critical section. */
    method SavePrediction(access: AccessIndex, key: string, minNode: int, maxNode: int, predictionNode: int,
                          reportList: Option<seq<Review>>)
      modifies `predictionNode, `emulatorResult
      ensures emulatorResult == old(emulatorResult)[key := reportList]
      ensures key in this.predictionNode
      ensures this.predictionNode == old(this.predictionNode)[key := this.predictionNode[key]]
      ensures var review := this.predictionNode[key];
              && Lists(review.access, access) && SwitchNames(review.access) == access.Keys
              && review.minNode == Int32(minNode) && review.maxNode == Int32(maxNode)
              && review.predictionNode == Int32(predictionNode)
    {
      var accessswitchlist := SwitchList(access);
      var prediction := PredictionNodeReview(Int32(minNode), Int32(maxNode), Int32(predictionNode), accessswitchlist);
      this.predictionNode := this.predictionNode[key := prediction];
      emulatorResult := emulatorResult[key := reportList];
    }

    /** The prediction that is asked for, on the pods that stay. */
    ghost function TaskOf(apps: seq<PodRequest>, spec: NodeSpec): Task
      reads this
    {
      Task(apps, spec.nodeLabels, spec.nodeCapacity, RealPods(pods), scheduler)
    }

    /** One trial of the search: a fresh cluster of `count` nodes, and every app on it. */
    method TryCount(nodeConfig: NodeConfig, count: nat, apps: seq<PodRequest>, ghost task: Task)
      returns (access: AccessIndex, schedulerPrediction: SchedulerPrediction, ghost probe: Probe)
      requires Idle(View()) && apps == task.apps && scheduler == task.scheduler && RealPods(pods) == task.pods
      requires nodeConfig.nodeCapacity == task.nodeCapacity && KeepsLabels(nodeConfig.nodeLabels, task.nodeLabels)
      modifies nodeConfig, `pods, `nodes, `nextUid, `clock, `simulatedPod,
               `lastSimulatedPod, `maxSimulated, `simulated, `status, `channels, `closed
      ensures Idle(View()) && pods == RealPods(old(pods))
      ensures KeepsLabels(nodeConfig.nodeLabels, task.nodeLabels)
      ensures GoodProbe(probe, task)
      ensures probe.count == count && probe.access == access && probe.prediction == schedulerPrediction
    {
      hide IndexOf, TrialOf, KeepsLabels, AsRequested, RealPods, Requested;
      ghost var between := nodeConfig.nodeLabels;
      access := CreateFakeNode(nodeConfig, count);
      RequestedStill(nodes, between, task.nodeLabels, task.nodeCapacity);
      KeepsLabelsStill(nodeConfig.nodeLabels, between, task.nodeLabels);
      ghost var w := TheWorld();
      schedulerPrediction := CreateApps(apps);
      RealTwice(old(pods));
      probe := Probe(count, access, w, schedulerPrediction);
    }

    /** What a prediction leaves behind. */
    twostate predicate PredictionSaved(key: string, list: seq<Review>, access: AccessIndex, saved: int)
      reads this
    {
      && Idle(View()) && pods == RealPods(old(pods)) && nodes == map[]
      && emulatorResult == old(emulatorResult)[key := Some(list)]
      && key in predictionNode && predictionNode == old(predictionNode)[key := predictionNode[key]]
      && ReviewOf(predictionNode[key], access, saved)
    }

    /** The exit when both bounds have moved: save maxNode. */
    method FinishAtMax(key: string, minNode: int, maxNode: int, access: AccessIndex, list: Option<seq<Review>>)
      requires Idle(View()) && maxNode == minNode + 1 && minNode >= 0
      modifies `pods, `nodes, `emulatorResult, `predictionNode
      ensures list.Some? ==> PredictionSaved(key, list.value, access, maxNode)
    {
      hide Lists, RealPods;
      DeleteNodes();
      SavePrediction(access, key, minNode, maxNode, maxNode, list);
    }

    /** The exit at the lower end: one more trial, without any node, decides between 0 and 1. */
    method FinishAtZero(apps: seq<PodRequest>, key: string, backupPrediction: AccessIndex,
                        backupEmulator: Option<seq<Review>>, ghost task: Task)
      returns (reportList: Option<seq<Review>>, ghost zero: ZeroTrial, ghost access: AccessIndex)
      requires Idle(View()) && apps == task.apps && scheduler == task.scheduler && RealPods(pods) == task.pods
      modifies `pods, `nodes, `nextUid, `clock, `simulatedPod,
               `lastSimulatedPod, `maxSimulated, `simulated, `status, `channels, `closed,
               `emulatorResult, `predictionNode
      ensures zero.Tried? && zero.world.nodes == map[] && ClusterFor(zero.world, task)
      ensures TrialOf(zero.prediction, apps, scheduler, zero.world)
      ensures reportList.Some? ==>
                PredictionSaved(key, reportList.value, access, if zero.prediction.predictionGo then 0 else 1)
      ensures if zero.prediction.predictionGo then reportList == Some(zero.prediction.reportList) && access == map[]
              else reportList == backupEmulator && access == backupPrediction
    {
      hide Lists, RealPods, TrialOf;
      DeleteNodes();
      ghost var w := TheWorld();
      var schedulerPrediction := CreateApps(apps);
      RealTwice(old(pods));
      zero := Tried(w, schedulerPrediction);
      if schedulerPrediction.predictionGo {
        var accesssw: AccessIndex := map[];
        reportList, access := Some(schedulerPrediction.reportList), accesssw;
        SavePrediction(accesssw, key, 0, 1, 0, reportList);
      } else {
        reportList, access := backupEmulator, backupPrediction;
        SavePrediction(backupPrediction, key, 0, 1, 1, reportList);
      }
    }

    /** The search loop: try, narrow, then stop, widen or go on. */
    method PredictionEmulator(apps: seq<PodRequest>, spec: NodeSpec, key: string, ghost k: nat)
      returns (reportList: Option<seq<Review>>, ghost probes: seq<Probe>, ghost zero: ZeroTrial,
               ghost saved: int, ghost savedAccess: AccessIndex)
      requires Idle(View()) && 0 <= spec.nodeNumber && !NodeSearch.InGap(spec.nodeNumber)
      requires EnoughNodes(TaskOf(apps, spec), k)
      modifies `pods, `nodes, `nextUid, `clock, `simulatedPod,
               `lastSimulatedPod, `maxSimulated, `simulated, `status, `channels, `closed,
               `emulatorResult, `predictionNode
      ensures reportList.Some?
      ensures Predicted(spec.nodeNumber, probes, zero, old(TaskOf(apps, spec)), saved, reportList.value, savedAccess)
      ensures PredictionSaved(key, reportList.value, savedAccess, saved)
      ensures |probes| + (if zero.Tried? then 1 else 0) <= NodeSearch.Fuel(NodeSearch.Start(spec.nodeNumber), k)
    {
      hide GoodProbe, Tracked, TrialOf, EnoughNodes, NodeSearch.Fuel, Predicted, Backup, RealPods;
      hide Idle, NodeSearch.Walk, NodeSearch.Half, NodeSearch.GenerateMaxNode, Verdicts, Probed, Lists, SwitchNames;
      hide KeepsLabels, ClusterFor, ReviewOf, Requested;
      ghost var task, nodeNumber := TaskOf(apps, spec), spec.nodeNumber;
      KeepsLabelsItself(spec.nodeLabels);
      var nodeConfig := new NodeConfig(spec.nodeNumber, spec.nodeCapacity, spec.nodeLabels);
      var minNode := nodeConfig.nodeNumber;
      var FminNode := minNode;
      var FmaxNode := NodeSearch.GenerateMaxNode(minNode);
      var maxNode := FmaxNode;
      var predictionNodeCount := NodeSearch.Half(minNode + FmaxNode);
      var backupEmulator: Option<seq<Review>>, backupPrediction: AccessIndex := None, map[];
      probes, zero := [], NotTried;
      NothingTracked(nodeNumber, task);
      while true
        invariant Idle(View()) && RealPods(pods) == RealPods(old(pods))
        invariant emulatorResult == old(emulatorResult) && predictionNode == old(predictionNode)
        invariant fresh(nodeConfig) && KeepsLabels(nodeConfig.nodeLabels, spec.nodeLabels)
        invariant Tracked(nodeNumber, probes, task)
        invariant NodeSearch.Walk(NodeSearch.Start(nodeNumber), Verdicts(probes))
                  == NodeSearch.Searching(NodeSearch.Cursor(minNode, maxNode, FminNode, FmaxNode))
        invariant predictionNodeCount == NodeSearch.Half(minNode + maxNode)
        invariant maxNode < FmaxNode ==>
                    backupEmulator.Some? && Backup(probes, maxNode, backupEmulator.value, backupPrediction)
        decreases NodeSearch.Fuel(NodeSearch.Cursor(minNode, maxNode, FminNode, FmaxNode), k)
      {
        ghost var c := NodeSearch.Cursor(minNode, maxNode, FminNode, FmaxNode);
        SearchKeeps(nodeNumber, probes, task);
        var access, schedulerPrediction, probe := TryCount(nodeConfig, predictionNodeCount, apps, task);
        RealTwice(old(pods));
        Round(nodeNumber, probes, probe, task, c, k);
        if schedulerPrediction.predictionGo {
          maxNode := predictionNodeCount;
          backupEmulator := Some(schedulerPrediction.reportList);
          backupPrediction := access;
        } else {
          minNode := predictionNodeCount;
        }
        if maxNode < FmaxNode {
          BackupExtend(probes, probe, maxNode, backupEmulator.value, backupPrediction);
        }
        probes := probes + [probe];
        predictionNodeCount := NodeSearch.Half(minNode + maxNode);
        if maxNode - minNode == 1 && FmaxNode != maxNode && FminNode != minNode {
          saved, savedAccess, reportList := maxNode, backupPrediction, backupEmulator;
          if schedulerPrediction.predictionGo {
            FinishAtMax(key, minNode, maxNode, access, Some(schedulerPrediction.reportList));
          } else {
            FinishAtMax(key, minNode, maxNode, backupPrediction, backupEmulator);
          }
          PredictedMax(nodeNumber, probes, task, reportList.value, savedAccess);
          PredictionTrialBound(nodeNumber, probes, zero, task, saved, reportList.value, savedAccess, k);
          return;
        } else if maxNode - minNode == 1 && FmaxNode == maxNode {
          FmaxNode := FmaxNode + 100;
          maxNode := FmaxNode;
          predictionNodeCount := NodeSearch.Half(minNode + maxNode);
        } else if maxNode - minNode == 1 && FminNode == minNode && NodeSearch.Half(maxNode + minNode) != 0 {
          FminNode := NodeSearch.Half(FminNode);
          minNode := FminNode;
          predictionNodeCount := NodeSearch.Half(minNode + maxNode);
        } else if maxNode - minNode == 1 && FminNode == minNode && NodeSearch.Half(maxNode + minNode) == 0 {
          SearchKeeps(nodeNumber, probes, task);
          reportList, zero, savedAccess := FinishAtZero(apps, key, backupPrediction, backupEmulator, task);
          saved := if zero.prediction.predictionGo then 0 else 1;
          PredictedZero(nodeNumber, probes, zero.world, zero.prediction, task,
                        reportList.value, savedAccess);
          PredictionTrialBound(nodeNumber, probes, zero, task, saved, reportList.value, savedAccess, k);
          return;
        }
      }
    }

    // ---------------------------------------------------------------- the worker and the reader

    /** One round of the worker loop: take the front job and run it.  Whatever the job was, and also
        when it ended with an error, no simulated pod survives it. */
    method ServeNext(ghost k: nat) returns (key: string, served: Option<AppGroup>)
      requires Idle(View()) && NoSimulatedPods(pods) && fifoQueue.Valid()
      requires fifoQueue.Entries() != [] ==>
                 var job := fifoQueue.Entries()[0].1;
                 Runnable(job, pods) && (job.emulatorType == "Prediction" ==>
                   EnoughNodes(TaskOf(job.apps, job.nodes[|job.nodes| - 1]), k))
      modifies this, fifoQueue
      ensures Idle(View()) && NoSimulatedPods(pods) && fifoQueue.Valid()
      ensures (fifoQueue.queue, fifoQueue.appGroup) == AfterPop(old(fifoQueue.queue), old(fifoQueue.appGroup))
      ensures served.None? <==> old(fifoQueue.Entries()) == []
      ensures served.None? ==> unchanged(this)
      ensures served.Some? ==> old(fifoQueue.Entries()) == [(key, served.value)] + fifoQueue.Entries()
      ensures served.Some? ==> ResultsSaved(key, served.value) && Served(key, served.value)
    {
      hide Idle, EnoughNodes, RunReports, VerticalReports, Outcome, LeavesNoTrace, Removable;
      ContentsExact(fifoQueue.queue, fifoQueue.appGroup);
      served, key := fifoQueue.Pop();
      if served.None? {
        return;
      }
      RunJob(served.value, key, k);
    }

    /** The results that a job saves, by its type; no others change. */
    twostate predicate ResultsSaved(key: string, job: AppGroup)
      reads this
    {
      && emulatorResult == (if Saves(job, old(pods)) && key in emulatorResult
                            then old(emulatorResult)[key := emulatorResult[key]] else old(emulatorResult))
      && (Saves(job, old(pods)) ==> key in emulatorResult && emulatorResult[key].Some?)
      && predictionNode == (if job.emulatorType == "Prediction" && key in predictionNode
                            then old(predictionNode)[key := predictionNode[key]] else old(predictionNode))
      && (job.emulatorType == "Prediction" ==> key in predictionNode)
    }

    /** What a job leaves in the stores, and what the results it has saved say, by its type. */
    twostate predicate Served(key: string, job: AppGroup)
      requires ResultsSaved(key, job)
      reads this
    {
      if job.emulatorType == "AppsEmulator" || job.emulatorType == "HorizontalEmulator" then
        && pods == old(pods) && nodes == old(nodes) && |emulatorResult[key].value| == |job.apps|
        && RunReports(emulatorResult[key].value, job.apps, scheduler, old(TheWorld()))
      else if job.emulatorType == "VerticalEmulator" then
        && nodes == old(nodes) && (pods == old(pods) <==> LeavesNoTrace(old(pods), job.oldPods))
        && (if Removable(old(pods), job.oldPods) then
              VerticalReports(emulatorResult[key].value, job.apps, scheduler,
                              old(TheWorld()).(pods := old(pods) - KeysOf(job.oldPods)))
            else LostPods(old(pods), job.oldPods, pods))
      else if job.emulatorType == "Prediction" && job.nodes != [] then
        && pods == old(pods) && nodes == map[]
        && Outcome(job.nodes[|job.nodes| - 1].nodeNumber, old(TaskOf(job.apps, job.nodes[|job.nodes| - 1])),
                   emulatorResult[key].value, predictionNode[key])
      else pods == old(pods) && nodes == old(nodes)
    }

    /** The switch of the worker loop. */
    method RunJob(appgroup: AppGroup, key: string, ghost k: nat)
      requires Idle(View()) && NoSimulatedPods(pods) && Runnable(appgroup, pods)
      requires appgroup.emulatorType == "Prediction" ==>
                 EnoughNodes(TaskOf(appgroup.apps, appgroup.nodes[|appgroup.nodes| - 1]), k)
      modifies this
      ensures Idle(View()) && NoSimulatedPods(pods)
      ensures ResultsSaved(key, appgroup) && Served(key, appgroup)
    {
      hide Idle, EnoughNodes, RunReports, VerticalReports, Predicted, ReviewOf, LeavesNoTrace, Removable;
      AllReal(pods);
      if appgroup.emulatorType == "AppsEmulator" || appgroup.emulatorType == "HorizontalEmulator" {
        var list := AppsEmulator(appgroup.apps, key);
      } else if appgroup.emulatorType == "VerticalEmulator" {
        var result := VerticalEmulator(appgroup.apps, appgroup.oldPods, key);
      } else if appgroup.emulatorType == "Prediction" {
        var spec := appgroup.nodes[|appgroup.nodes| - 1];
        var list, probes, zero, saved, access :=
          PredictionEmulator(appgroup.apps, spec, key, k);
        assert ReviewOf(predictionNode[key], access, saved);
      }
    }

    /** The report closure: results first, the queue only for a job without results. */
    method EmulatorReport(id: string) returns (r: JobReport)
      ensures r.jobId == id
      ensures id in emulatorResult ==> IsStatusOf(r.status, emulatorResult[id])
      ensures id !in emulatorResult ==>
                r.status == (if id in fifoQueue.appGroup then "queuing" else "processing") && r.report == []
      ensures id in emulatorResult ==>
                r.report == if emulatorResult[id].Some? then emulatorResult[id].value else []
      ensures r.predictionNode == if id in predictionNode then Some(predictionNode[id]) else None
    {
      var status := "";
      var reportList: seq<Review> := [];
      var queue := fifoQueue.Get();
      if id in emulatorResult {
        var reportlist := emulatorResult[id];
        if reportlist.Some? {
          reportList := reportlist.value;
          status := DeriveStatus(reportList);
        } else {
          status := JOB_STOPPED;
        }
      } else if id in queue {
        status := JOB_QUEUING;
      } else {
        status := JOB_PROCESSING;
      }
      var prediction := if id in predictionNode then Some(predictionNode[id]) else None;
      r := JobReport(id, status, reportList, prediction);
    }
  }
}
