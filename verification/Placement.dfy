/** The placement run as a state machine: one pending pod at a time, one scheduler answer each. */
module Placement {
  import opened Common
  import opened Reports
  import opened Cluster
  import opened Runs

  /** A Go channel, as far as panics go: sending on or closing a closed channel panics. */
  datatype Channel = Channel(sends: nat, closed: bool)

  /** The three channels that UpdatePodRequest makes. */
  datatype RunChannels = RunChannels(stop: Channel, informerStop: Channel, scheduler: Channel)

  const FRESH := RunChannels(Channel(0, false), Channel(0, false), Channel(0, false))

  /** The fields of the simulator that a run touches.  The channel fields hold the last entry of
      `channels`; the entries before it are the channels of earlier runs. */
  datatype RunState = RunState(
    pods: PodStore, nextUid: nat,
    simulatedPod: Pod, lastSimulatedPod: Pod, maxSimulated: int, simulated: int,
    status: Status, channels: seq<RunChannels>, closed: bool)

  // ---------------------------------------------------------------- steps

  function AfterNextPod(s: RunState): RunState {
    var p := PendingPod(s.simulatedPod, s.nextUid);
    s.(pods := s.pods[KeyOf(p) := p], nextUid := s.nextUid + 1, lastSimulatedPod := p, simulated := s.simulated + 1)
  }

  function Last(s: RunState): RunChannels
    requires s.channels != []
  {
    s.channels[|s.channels| - 1]
  }

  function WithLast(s: RunState, c: RunChannels): RunState
    requires s.channels != []
  {
    s.(channels := s.channels[|s.channels| - 1 := c])
  }

  /** Close: it closes the last pair of channels only if no pair was ever closed. */
  function AfterClose(s: RunState): RunState
    requires s.channels != []
  {
    if s.closed then s
    else
      var c := Last(s);
      WithLast(s, c.(scheduler := c.scheduler.(closed := true), informerStop := c.informerStop.(closed := true)))
        .(closed := true)
  }

  function AfterSend(s: RunState): RunState
    requires s.channels != []
  {
    WithLast(s, Last(s).(stop := Last(s).stop.(sends := Last(s).stop.sends + 1)))
  }

  /** The store and the status right after a binding, before Bind looks at the count. */
  function Bound(s: RunState, nodeName: NodeName): RunState {
    var p := BoundPod(s.lastSimulatedPod, nodeName);
    s.(pods := s.pods[KeyOf(p) := p], status := s.status.(pods := s.status.pods + [p]))
  }

  function AfterBind(s: RunState, nodeName: NodeName): RunState
    requires s.channels != []
  {
    var bound := Bound(s, nodeName);
    if s.maxSimulated > 0 && s.simulated >= s.maxSimulated then
      var reason := StopReason(SCHEDULABLE, ALL_PLACED + Decimal(s.maxSimulated));
      AfterSend(AfterClose(bound.(status := bound.status.(stopReason := reason))))
    else AfterNextPod(bound)
  }

  function AfterRefusal(s: RunState, message: string): RunState
    requires s.channels != []
  {
    var closing := AfterClose(s.(status := s.status.(stopReason := StopReason(UNSCHEDULABLE, message))));
    AfterSend(closing.(pods := closing.pods - {KeyOf(s.lastSimulatedPod)}))
  }

  function AfterAnswer(s: RunState, a: Answer): RunState
    requires s.channels != []
    ensures AfterAnswer(s, a).nextUid >= s.nextUid
    ensures |AfterAnswer(s, a).channels| == |s.channels| && AfterAnswer(s, a).maxSimulated == s.maxSimulated
  {
    match a
    case Placed(nodeName) => AfterBind(s, nodeName)
    case Refused(message) => AfterRefusal(s, message)
  }

  // ---------------------------------------------------------------- invariants

  /** A finished run: one send, then closed.  `closed` is never reset, so only the first run ever
      closes its other two channels. */
  function Finished(run: nat): RunChannels {
    RunChannels(Channel(1, true), Channel(0, run == 0), Channel(0, run == 0))
  }

  predicate AllFinished(runs: seq<RunChannels>) {
    forall i | 0 <= i < |runs| :: runs[i] == Finished(i)
  }

  /** No run is going on, but the last one's pods may still be in the status. */
  ghost predicate Ended(s: RunState) {
    WellKeyed(s.pods, s.nextUid) && AllFinished(s.channels) && s.closed == (s.channels != [])
  }

  /** Between runs: ready for the next one. */
  ghost predicate Idle(s: RunState) {
    Ended(s) && s.status.pods == []
  }

  /** The channels of the current run are made and untouched; those of earlier runs are finished. */
  ghost predicate Opened(s: RunState) {
    && s.channels != [] && AllFinished(s.channels[..|s.channels| - 1])
    && Last(s) == FRESH && s.closed == (|s.channels| > 1)
  }

  /** A live run over the store `base`: one pod is up for scheduling, all before it are bound. */
  ghost predicate Live(s: RunState, base: PodStore) {
    && Opened(s) && WellKeyed(s.pods, s.nextUid)
    && 1 <= s.simulated <= s.maxSimulated && |s.status.pods| == s.simulated - 1
    && Pending(s.lastSimulatedPod) && HasProvisioner(s.lastSimulatedPod)
    && KeyOf(s.lastSimulatedPod) in s.pods && s.pods[KeyOf(s.lastSimulatedPod)] == s.lastSimulatedPod
    && Extends(s.pods - {KeyOf(s.lastSimulatedPod)}, base, s.status.pods)
  }

  predicate Sent(s: RunState) {
    s.channels != [] && Last(s).stop.sends != 0
  }

  /** A run that has sent once on its stop channel, which is not closed yet: nothing is pending,
      and the stop reason tells which of the two ends it was. */
  ghost predicate Stopped(s: RunState, base: PodStore) {
    && s.channels != [] && AllFinished(s.channels[..|s.channels| - 1])
    && Last(s) == Finished(|s.channels| - 1).(stop := Channel(1, false)) && s.closed
    && WellKeyed(s.pods, s.nextUid) && Extends(s.pods, base, s.status.pods)
    && |s.status.pods| <= s.maxSimulated
    && if |s.status.pods| == s.maxSimulated then
         s.status.stopReason == StopReason(SCHEDULABLE, ALL_PLACED + Decimal(s.maxSimulated))
       else
         exists message :: s.status.stopReason == StopReason(UNSCHEDULABLE, message)
  }

  /** While a run is live, exactly one of the simulated pods is pending, if none was before it. */
  lemma OnePending(s: RunState, base: PodStore, k: PodKey)
    requires Live(s, base) && forall b | b in base :: !Pending(base[b])
    ensures k in s.pods && Pending(s.pods[k]) <==> k == KeyOf(s.lastSimulatedPod)
  {
    if k in s.pods && k !in base && k != KeyOf(s.lastSimulatedPod) {
      var rest := s.pods - {KeyOf(s.lastSimulatedPod)};
      assert k in rest;
      var p :| p in s.status.pods && KeyOf(p) == k;
      var i :| 0 <= i < |s.status.pods| && s.status.pods[i] == p;
    }
  }

  lemma NextPodIsFresh(s: RunState)
    requires WellKeyed(s.pods, s.nextUid)
    ensures KeyOf(AfterNextPod(s).lastSimulatedPod) !in s.pods
    ensures AfterNextPod(s).pods - {KeyOf(AfterNextPod(s).lastSimulatedPod)} == s.pods
    ensures WellKeyed(AfterNextPod(s).pods, AfterNextPod(s).nextUid)
  {
    var t := AfterNextPod(s);
    assert forall k | k in s.pods :: t.pods[k] == s.pods[k];
  }

  /** The first pod of a run. */
  lemma RunStarts(s: RunState)
    requires Opened(s) && WellKeyed(s.pods, s.nextUid) && s.status.pods == []
    requires s.simulated == 0 && 0 < s.maxSimulated
    ensures Live(AfterNextPod(s), s.pods)
  {
    NextPodIsFresh(s);
  }

  lemma BoundExtends(s: RunState, base: PodStore, nodeName: NodeName)
    requires Live(s, base)
    ensures var t := Bound(s, nodeName); Extends(t.pods, base, t.status.pods) && WellKeyed(t.pods, t.nextUid)
  {
    var p := BoundPod(s.lastSimulatedPod, nodeName);
    ExtendsByBinding(s.pods, base, s.status.pods, s.lastSimulatedPod, p);
  }

  /** The end of a run closes its channels but the stop channel, and sends on that once. */
  lemma ClosesLast(s: RunState)
    requires Opened(s)
    ensures var t := AfterSend(AfterClose(s));
            && t == s.(channels := t.channels, closed := true) && t.channels != []
            && AllFinished(t.channels[..|t.channels| - 1])
            && Last(t) == Finished(|t.channels| - 1).(stop := Channel(1, false))
  {
  }

  lemma LastBindStops(s: RunState, base: PodStore, nodeName: NodeName)
    requires Live(s, base) && s.simulated == s.maxSimulated
    ensures var t := AfterBind(s, nodeName); Stopped(t, base) && |t.status.pods| == t.maxSimulated
  {
    BoundExtends(s, base, nodeName);
    var bound := Bound(s, nodeName);
    ClosesLast(bound.(status := bound.status.(stopReason :=
      StopReason(SCHEDULABLE, ALL_PLACED + Decimal(s.maxSimulated)))));
    hide Extends, WellKeyed, StopReason, Decimal, AfterSend, AfterClose, AllFinished, Finished;
  }

  lemma BindGoesOn(s: RunState, base: PodStore, nodeName: NodeName)
    requires Live(s, base) && s.simulated < s.maxSimulated
    ensures var t := AfterBind(s, nodeName); Live(t, base) && t.simulated == s.simulated + 1
  {
    BoundExtends(s, base, nodeName);
    NextPodIsFresh(Bound(s, nodeName));
  }

  lemma BindKeeps(s: RunState, base: PodStore, nodeName: NodeName)
    requires Live(s, base)
    ensures var t := AfterBind(s, nodeName);
            if s.simulated == s.maxSimulated then Stopped(t, base) && |t.status.pods| == t.maxSimulated
            else Live(t, base) && t.simulated == s.simulated + 1
  {
    SentOrNot(s, base);
    hide Live, Stopped, AfterBind;
    if s.simulated == s.maxSimulated {
      LastBindStops(s, base, nodeName);
    } else {
      BindGoesOn(s, base, nodeName);
    }
  }

  lemma RefusalKeeps(s: RunState, base: PodStore, message: string)
    requires Live(s, base)
    ensures var t := AfterRefusal(s, message);
            Stopped(t, base) && |t.status.pods| < t.maxSimulated && KeyOf(s.lastSimulatedPod) !in t.pods
  {
    assert AfterRefusal(s, message).status.stopReason == StopReason(UNSCHEDULABLE, message);
  }

  /** Closing the stop channel, after the one send, finishes the run. */
  lemma RunCloses(s: RunState, t: RunState, base: PodStore)
    requires Stopped(s, base)
    requires t == WithLast(s, Last(s).(stop := Channel(Last(s).stop.sends, true)))
    ensures AllFinished(t.channels) && t.closed && WellKeyed(t.pods, t.nextUid) && Extends(t.pods, base, t.status.pods)
  {
  }

  /** Some answers in a row; those that come after the run has stopped are not asked for. */
  function Play(s: RunState, answers: seq<Answer>): RunState
    requires s.channels != []
    ensures Play(s, answers).channels != []
    decreases |answers|
  {
    if answers == [] || Sent(s) then s else Play(AfterAnswer(s, answers[0]), answers[1..])
  }

  lemma SentOrNot(s: RunState, base: PodStore)
    ensures Live(s, base) ==> !Sent(s) && s.channels != [] && !Stopped(s, base)
    ensures Live(s, base) ==> |s.status.pods| == s.simulated - 1 && 1 <= s.simulated <= s.maxSimulated
    ensures Stopped(s, base) ==> Sent(s) && !Last(s).stop.closed && |s.status.pods| <= s.maxSimulated
  {
  }

  /** The run invariant for every sequence of answers: the run is live until it stops, stops after
      at most as many answers as there are replicas, and stops fully bound exactly when every
      answer it asked for placed its pod. */
  lemma {:induction false} RunInvariant(s: RunState, base: PodStore, answers: seq<Answer>)
    requires Live(s, base)
    ensures var t := Play(s, answers);
            && (Sent(t) <==> Stopped(t, base))
            && (!Sent(t) ==> Live(t, base) && t.simulated == s.simulated + |answers|)
            && (|answers| > s.maxSimulated - s.simulated ==> Sent(t))
            && (Sent(t) ==> (|t.status.pods| == t.maxSimulated <==>
                  |answers| > s.maxSimulated - s.simulated
                  && forall i | 0 <= i <= s.maxSimulated - s.simulated :: answers[i].Placed?))
    decreases |answers|
  {
    hide Stopped, Live, AfterBind, AfterRefusal;
    SentOrNot(s, base);
    if answers != [] {
      var t := AfterAnswer(s, answers[0]);
      SentOrNot(t, base);
      match answers[0]
      case Refused(message) =>
        RefusalKeeps(s, base, message);
      case Placed(nodeName) =>
        BindKeeps(s, base, nodeName);
        if s.simulated < s.maxSimulated {
          RunInvariant(t, base, answers[1..]);
          assert forall i | 1 <= i < |answers| :: answers[i] == answers[1..][i - 1];
        }
    }
  }

  // ---------------------------------------------------------------- the run that the scheduler makes of it

  /** What the scheduler sees: the stores, and the pending pod as it is stored. */
  function SceneOf(s: RunState, nodes: NodeStore): Scene
    requires KeyOf(s.lastSimulatedPod) in s.pods
  {
    Scene(nodes, s.pods, s.pods[KeyOf(s.lastSimulatedPod)])
  }

  /** In the middle of the app's run that started in world w. */
  ghost predicate Underway(s: RunState, app: PodRequest, scheduler: Scheduler, w: World, clock: nat) {
    var bound := s.status.pods;
    && bound == Placements(scheduler, w, app.pod, |bound|) && clock == w.clock + |bound|
    && s.lastSimulatedPod == PendingPod(app.pod, w.nextUid + |bound|) && s.nextUid == w.nextUid + |bound| + 1
    && s.pods == WithPods(w.pods, bound)[KeyOf(s.lastSimulatedPod) := s.lastSimulatedPod]
  }

  /** How the run has ended: the bound pods are those of the run, the world is the one after it, and the
      stop reason says which end it was. */
  ghost predicate Concluded(s: RunState, app: PodRequest, scheduler: Scheduler, w: World, clock: nat) {
    var bound := RunOf(scheduler, w, app);
    && s.status.pods == bound && World(w.nodes, s.pods, s.nextUid, clock) == AfterRun(scheduler, w, app)
    && if |bound| == app.replicas then
         s.status.stopReason == StopReason(SCHEDULABLE, ALL_PLACED + Decimal(app.replicas))
       else
         var a := AnswerTo(scheduler, w, app.pod, bound);
         a.Refused? && s.status.stopReason == StopReason(UNSCHEDULABLE, a.message)
  }

  /** What the scheduler's answers have done to a run that started in world w. */
  ghost predicate Answered(s: RunState, app: PodRequest, scheduler: Scheduler, w: World, clock: nat) {
    && s.simulatedPod == app.pod && s.maxSimulated == app.replicas
    && if !Sent(s) then Live(s, w.pods) && Underway(s, app, scheduler, w, clock)
       else Stopped(s, w.pods) && Concluded(s, app, scheduler, w, clock)
  }

  /** The scheduler is asked about the scene that the run's specification names. */
  lemma AskedAsSpecified(s: RunState, app: PodRequest, scheduler: Scheduler, w: World, clock: nat)
    requires Live(s, w.pods) && Underway(s, app, scheduler, w, clock)
    ensures SceneOf(s, w.nodes) == SceneAfter(w, app.pod, s.status.pods)
    ensures scheduler(SceneOf(s, w.nodes), clock) == AnswerTo(scheduler, w, app.pod, s.status.pods)
  {
    hide PendingPod, Placements;
  }

  /** What is asked about is the template, however far the run has come. */
  lemma AskedAboutTemplate(s: RunState, app: PodRequest, scheduler: Scheduler, w: World, clock: nat)
    requires Answered(s, app, scheduler, w, clock) && !Sent(s)
    ensures KeyOf(s.lastSimulatedPod) in s.pods
    ensures MadeFrom(SceneOf(s, w.nodes).pending, app.pod) && SceneOf(s, w.nodes).pending.nodeName == Given("")
  {
    hide Placements, MadeFrom;
    PendingIsTemplate(app.pod, w.nextUid + |s.status.pods|);
  }

  lemma RunBegins(s: RunState, app: PodRequest, scheduler: Scheduler, w: World)
    requires Live(AfterNextPod(s), w.pods) && s.pods == w.pods && s.nextUid == w.nextUid && s.status.pods == []
    requires s.simulatedPod == app.pod && s.maxSimulated == app.replicas
    ensures Answered(AfterNextPod(s), app, scheduler, w, w.clock)
  {
    SentOrNot(AfterNextPod(s), w.pods);
    hide Live, Stopped, PendingPod;
    assert Placements(scheduler, w, app.pod, 0) == [];
  }

  /** One more binding of the run. */
  lemma BindingIsNext(s: RunState, app: PodRequest, scheduler: Scheduler, w: World, clock: nat)
    requires Underway(s, app, scheduler, w, clock)
    requires AnswerTo(scheduler, w, app.pod, s.status.pods).Placed?
    ensures var t := Bound(s, AnswerTo(scheduler, w, app.pod, s.status.pods).nodeName);
            && |t.status.pods| == |s.status.pods| + 1
            && t.status.pods == Placements(scheduler, w, app.pod, |t.status.pods|)
            && t.pods == WithPods(w.pods, t.status.pods)
  {
    hide AnswerTo, PendingPod, BoundPod, Placements, WithPods;
    NextPlacement(scheduler, w, app.pod, |s.status.pods|);
    WithOneMore(w.pods, s.status.pods, BoundPod(s.lastSimulatedPod,
      AnswerTo(scheduler, w, app.pod, s.status.pods).nodeName));
  }

  /** Taking the refused pod away leaves the bound ones. */
  lemma RefusalLeavesBound(s: RunState, app: PodRequest, scheduler: Scheduler, w: World, clock: nat)
    requires Live(s, w.pods) && Underway(s, app, scheduler, w, clock)
    ensures s.pods - {KeyOf(s.lastSimulatedPod)} == WithPods(w.pods, s.status.pods)
  {
    hide Placements, PendingPod, Opened, WellKeyed;
    WithPodsKeys(w.pods, s.status.pods);
    assert KeyOf(s.lastSimulatedPod) !in (s.pods - {KeyOf(s.lastSimulatedPod)}).Keys;
  }

  lemma SendKeeps(s: RunState)
    requires s.channels != []
    ensures var t := AfterSend(AfterClose(s)); t == s.(channels := t.channels, closed := t.closed)
  {
  }

  lemma NextIsUnderway(s: RunState, app: PodRequest, scheduler: Scheduler, w: World, clock: nat)
    requires Underway(s, app, scheduler, w, clock) && s.simulatedPod == app.pod
    requires AnswerTo(scheduler, w, app.pod, s.status.pods).Placed?
    ensures var t := AfterNextPod(Bound(s, AnswerTo(scheduler, w, app.pod, s.status.pods).nodeName));
            Underway(t, app, scheduler, w, clock + 1) && |t.status.pods| == |s.status.pods| + 1
  {
    BindingIsNext(s, app, scheduler, w, clock);
    hide AnswerTo, PendingPod, WithPods, Placements, BoundPod;
  }

  lemma LastIsConcluded(s: RunState, app: PodRequest, scheduler: Scheduler, w: World, clock: nat)
    requires Underway(s, app, scheduler, w, clock) && s.channels != []
    requires s.maxSimulated == app.replicas == |s.status.pods| + 1
    requires AnswerTo(scheduler, w, app.pod, s.status.pods).Placed?
    ensures var bound := Bound(s, AnswerTo(scheduler, w, app.pod, s.status.pods).nodeName);
            var t := bound.(status := bound.status.(stopReason :=
              StopReason(SCHEDULABLE, ALL_PLACED + Decimal(s.maxSimulated))));
            Concluded(AfterSend(AfterClose(t)), app, scheduler, w, clock + 1)
  {
    BindingIsNext(s, app, scheduler, w, clock);
    hide AnswerTo, PendingPod, WithPods, Placements, BoundPod, StopReason, Decimal, AfterSend, AfterClose;
    var bound := Bound(s, AnswerTo(scheduler, w, app.pod, s.status.pods).nodeName);
    SendKeeps(bound.(status := bound.status.(stopReason :=
      StopReason(SCHEDULABLE, ALL_PLACED + Decimal(s.maxSimulated)))));
  }

  lemma PlacedStep(s: RunState, app: PodRequest, scheduler: Scheduler, w: World, clock: nat)
    requires Answered(s, app, scheduler, w, clock) && !Sent(s)
    requires AnswerTo(scheduler, w, app.pod, s.status.pods).Placed?
    ensures var s' := AfterBind(s, AnswerTo(scheduler, w, app.pod, s.status.pods).nodeName);
            && Answered(s', app, scheduler, w, clock + 1)
            && (!Sent(s') ==> |s'.status.pods| == |s.status.pods| + 1)
  {
    var nodeName := AnswerTo(scheduler, w, app.pod, s.status.pods).nodeName;
    SentOrNot(s, w.pods);
    SentOrNot(AfterBind(s, nodeName), w.pods);
    BindKeeps(s, w.pods, nodeName);
    hide Live, Stopped, AnswerTo, Underway, Concluded, AfterSend, AfterClose;
    if s.simulated == s.maxSimulated {
      LastIsConcluded(s, app, scheduler, w, clock);
    } else {
      NextIsUnderway(s, app, scheduler, w, clock);
    }
  }

  lemma RefusalFields(s: RunState, message: string)
    requires s.channels != []
    ensures var t := AfterRefusal(s, message);
            && t.pods == s.pods - {KeyOf(s.lastSimulatedPod)} && t.nextUid == s.nextUid
            && t.status == Status(s.status.pods, StopReason(UNSCHEDULABLE, message))
  {
    hide StopReason;
  }

  lemma RefusedRun(scheduler: Scheduler, w: World, app: PodRequest, n: nat)
    requires n < app.replicas && |Placements(scheduler, w, app.pod, n)| == n
    requires AnswerTo(scheduler, w, app.pod, Placements(scheduler, w, app.pod, n)).Refused?
    ensures RunOf(scheduler, w, app) == Placements(scheduler, w, app.pod, n)
  {
    hide AnswerTo;
    assert Placements(scheduler, w, app.pod, n + 1) == Placements(scheduler, w, app.pod, n);
    PlacementsStay(scheduler, w, app.pod, n + 1, app.replicas);
  }

  lemma RefusalConcludes(s: RunState, app: PodRequest, scheduler: Scheduler, w: World, clock: nat)
    requires Live(s, w.pods) && Underway(s, app, scheduler, w, clock) && |s.status.pods| < app.replicas
    requires AnswerTo(scheduler, w, app.pod, s.status.pods).Refused?
    ensures Concluded(AfterRefusal(s, AnswerTo(scheduler, w, app.pod, s.status.pods).message),
                      app, scheduler, w, clock + 1)
  {
    var message := AnswerTo(scheduler, w, app.pod, s.status.pods).message;
    RefusalLeavesBound(s, app, scheduler, w, clock);
    RefusedRun(scheduler, w, app, |s.status.pods|);
    hide AnswerTo, PendingPod, WithPods, Placements, StopReason, AfterRefusal, RunOf;
    RefusalFields(s, message);
  }

  lemma RefusedStep(s: RunState, app: PodRequest, scheduler: Scheduler, w: World, clock: nat)
    requires Answered(s, app, scheduler, w, clock) && !Sent(s)
    requires AnswerTo(scheduler, w, app.pod, s.status.pods).Refused?
    ensures var s' := AfterRefusal(s, AnswerTo(scheduler, w, app.pod, s.status.pods).message);
            Answered(s', app, scheduler, w, clock + 1) && Sent(s')
  {
    var message := AnswerTo(scheduler, w, app.pod, s.status.pods).message;
    SentOrNot(s, w.pods);
    SentOrNot(AfterRefusal(s, message), w.pods);
    RefusalKeeps(s, w.pods, message);
    RefusalConcludes(s, app, scheduler, w, clock);
    hide Live, Stopped, AnswerTo, Underway, Concluded;
  }

  /** Each answer takes the run one step on, until it has concluded. */
  lemma AnswerStep(s: RunState, app: PodRequest, scheduler: Scheduler, w: World, clock: nat)
    requires Answered(s, app, scheduler, w, clock) && !Sent(s)
    ensures KeyOf(s.lastSimulatedPod) in s.pods
    ensures var s' := AfterAnswer(s, scheduler(SceneOf(s, w.nodes), clock));
            && Answered(s', app, scheduler, w, clock + 1)
            && (!Sent(s') ==> |s'.status.pods| == |s.status.pods| + 1)
  {
    AskedAsSpecified(s, app, scheduler, w, clock);
    var a := AnswerTo(scheduler, w, app.pod, s.status.pods);
    if a.Placed? {
      PlacedStep(s, app, scheduler, w, clock);
    } else {
      RefusedStep(s, app, scheduler, w, clock);
    }
    hide Answered, Underway, AnswerTo, AfterBind, AfterRefusal;
  }

  /** The channels do not matter for how a run has ended. */
  lemma StaysConcluded(s: RunState, t: RunState, app: PodRequest, scheduler: Scheduler, w: World, clock: nat)
    requires Concluded(s, app, scheduler, w, clock) && t == s.(channels := t.channels)
    ensures Concluded(t, app, scheduler, w, clock)
  {
    hide RunOf, AnswerTo, AfterRun, StopReason, Decimal;
  }

  // ---------------------------------------------------------------- the report of a run

  lemma ReasonParses(s: RunState, app: PodRequest, scheduler: Scheduler, w: World, clock: nat)
    requires Concluded(s, app, scheduler, w, clock)
    ensures ':' in FirstLine(s.status.stopReason)
    ensures var r := GetMainFailReason(s.status.stopReason); var bound := RunOf(scheduler, w, app);
            if |bound| == app.replicas then r == Reason(SCHEDULABLE, ALL_PLACED + Decimal(app.replicas))
            else
              var a := AnswerTo(scheduler, w, app.pod, bound);
              a.Refused? && r == Reason(UNSCHEDULABLE, Trim(FirstLine(a.message)))
  {
    hide GetMainFailReason, StopReason, FirstLine, Trim, Decimal, RunOf, AnswerTo, AfterRun;
    var bound := RunOf(scheduler, w, app);
    if |bound| == app.replicas {
      AllPlacedParses(app.replicas);
    } else {
      RefusalParses(AnswerTo(scheduler, w, app.pod, bound).message);
    }
  }

  /** The report that GetReport builds from a concluded run tells what the run did. */
  lemma ReportShowsRun(r: Review, app: PodRequest, s: RunState, scheduler: Scheduler, w: World, clock: nat)
    requires Concluded(s, app, scheduler, w, clock)
    requires ':' in FirstLine(s.status.stopReason)
    requires r.desiredReplicas == app.replicas && r.replicas == Int32(|s.status.pods|)
    requires r.reason == GetMainFailReason(s.status.stopReason)
    requires Reviewed(r.pods, [app.pod], s.status.pods, |s.status.pods|) && TotalSum(r.pods) == |s.status.pods|
    ensures RunReport(r, app, scheduler, w)
  {
    hide GetMainFailReason, StopReason, FirstLine, Trim, Decimal, IsHistogram, RunOf, AnswerTo, AfterRun;
    ReasonParses(s, app, scheduler, w, clock);
    assert r.pods[..0] == [];
  }
}
