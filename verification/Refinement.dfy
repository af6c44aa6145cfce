/** The class of the simulator refines the board of jobs: what its methods do in one go are steps of
    the board, and what others do in between changes nothing about the worker's round. */
module Refinement {
  import opened Common
  import opened Reports
  import opened Cluster
  import opened Runs
  import opened Fifo
  import opened Simulator
  import opened JobBoard
  import Placement
  import Prediction

  /** The board shows the simulator's queue and results; the worker is between two jobs. */
  ghost predicate Shows(ks: Kubesim, s: Service)
    reads ks, ks.fifoQueue
  {
    && ks.fifoQueue.queue == s.slots && ks.fifoQueue.appGroup == s.live && s.current.None?
    && ks.emulatorResult == s.emulatorResult && ks.predictionNode == s.predictionNode
  }

  lemma QueueIsValid(s: Service)
    requires Inv(s)
    ensures Covered(s.slots, s.live)
  {
  }

  /** The job at the front is the one that was pushed under its id. */
  lemma FrontIsPushed(s: Service)
    requires Inv(s) && Contents(s.slots, s.live) != []
    ensures var front := Contents(s.slots, s.live)[0];
            front.0 in s.live && front.0 in s.jobs && front.1 == s.jobs[front.0]
  {
    QueueIsValid(s);
    ContentsExact(s.slots, s.live);
  }

  /** How the worker's round ends on the board. */
  function EndOf(job: AppGroup, saves: bool, list: Option<seq<Review>>,
                 review: Option<PredictionNodeReview>): (e: Event)
    ensures Finishes(e) && (e.Fail? <==> !saves)
  {
    if !saves then Fail
    else if IsPrediction(job) && review.Some? then SavePrediction(list, review.value)
    else SaveResult(list)
  }

  /** The board without its readers: what the worker and the pushers can see of it. */
  function Alone(s: Service): Service {
    s.(readers := map[])
  }

  /** The event that ends a round is enabled after the Pop, and puts the job's results on the board. */
  lemma RoundEnds(s: Service, key: string, job: AppGroup, saves: bool,
                  results: map<string, Option<seq<Review>>>, reviews: map<string, PredictionNodeReview>)
    requires key in s.jobs && job == s.jobs[key] && s.current == Some(key) && s.readers == map[]
    requires IsPrediction(job) ==> saves && key in reviews
    requires saves ==> key in results
    requires results == if saves then s.emulatorResult[key := results[key]] else s.emulatorResult
    requires reviews == if IsPrediction(job) then s.predictionNode[key := reviews[key]] else s.predictionNode
    ensures var e := EndOf(job, saves, if saves then results[key] else None,
                           if IsPrediction(job) then Some(reviews[key]) else None);
            && Enabled(s, e)
            && Apply(s, e).emulatorResult == results && Apply(s, e).predictionNode == reviews
            && Apply(s, e).slots == s.slots && Apply(s, e).live == s.live && Apply(s, e).current.None?
  {
    hide IsPrediction;
  }

  /** A round of the worker is a Pop and then, if there was a job, the event that ends it: its result
      is saved, or it ends with an error, exactly as the type and the old pods of the job say. */
  method ServeNextRefines(ks: Kubesim, ghost s: Service, ghost k: nat) returns (ghost e: Option<Event>)
    requires Placement.Idle(ks.View()) && NoSimulatedPods(ks.pods) && ks.fifoQueue.Valid()
    requires ks.fifoQueue.Entries() != [] ==>
               var job := ks.fifoQueue.Entries()[0].1;
               && Runnable(job, ks.pods)
               && (job.emulatorType == "Prediction" ==>
                     Prediction.EnoughNodes(ks.TaskOf(job.apps, job.nodes[|job.nodes| - 1]), k))
    requires Inv(s) && Shows(ks, s)
    modifies ks, ks.fifoQueue
    ensures e.None? <==> Contents(s.slots, s.live) == []
    ensures e.None? ==> Shows(ks, Apply(s, Pop))
    ensures e.Some? ==>
              && Finishes(e.value) && Enabled(Apply(Alone(s), Pop), e.value)
              && (e.value.Fail? <==> !Saves(Contents(s.slots, s.live)[0].1, old(ks.pods)))
              && Shows(ks, Apply(Apply(Alone(s), Pop), e.value))
  {
    hide Placement.Idle, Prediction.EnoughNodes, Kubesim.Served, Runnable, Removable, Contents, AfterPop, Inv;
    var key, served := ks.ServeNext(k);
    e := None;
    if served.Some? {
      var job, saves := served.value, Saves(served.value, old(ks.pods));
      FrontIsPushed(s);
      RoundEnds(Apply(Alone(s), Pop), key, job, saves, ks.emulatorResult, ks.predictionNode);
      e := Some(EndOf(job, saves, if saves then ks.emulatorResult[key] else None,
                      if IsPrediction(job) then Some(ks.predictionNode[key]) else None));
    }
  }

  /** A push of the service is a Push of the board. */
  method PushRefines(ks: Kubesim, ghost s: Service, id: string, job: AppGroup)
    requires Inv(s) && Shows(ks, s) && ks.fifoQueue.Valid() && Enabled(s, Push(id, job))
    modifies ks.fifoQueue
    ensures ks.fifoQueue.Valid() && Shows(ks, Apply(s, Push(id, job)))
  {
    hide Inv, Contents;
    ks.fifoQueue.Push(id, job);
  }

  // ---------------------------------------------------------------- rounds with others in between

  /** What goes on beside the worker: pushes, and the steps of report reads. */
  predicate Beside(e: Event) {
    e.Push? || e.BeginRead? || e.LookInQueue? || e.EndRead?
  }

  /** The events can happen one after the other, from s on. */
  predicate Happen(s: Service, es: seq<Event>)
    decreases |es|, 0
  {
    es == [] ||
    var front := es[..|es| - 1];
    Happen(s, front) && Enabled(End(s, front), es[|es| - 1])
  }

  function End(s: Service, es: seq<Event>): Service
    requires Happen(s, es)
    decreases |es|, 1
  {
    if es == [] then s else Apply(End(s, es[..|es| - 1]), es[|es| - 1])
  }

  function Pushes(es: seq<Event>): seq<Event> {
    if es == [] then []
    else
      var front, last := es[..|es| - 1], es[|es| - 1];
      if last.Push? then Pushes(front) + [last] else Pushes(front)
  }

  lemma HappensOn(s: Service, es: seq<Event>, e: Event)
    requires Happen(s, es) && Enabled(End(s, es), e)
    ensures Happen(s, es + [e]) && End(s, es + [e]) == Apply(End(s, es), e)
  {
    assert (es + [e])[..|es|] == es;
  }

  /** Beside the worker, only its readers may keep it waiting: the event that ends its round stays
      enabled, and comes to the same whether it is before or after a push. */
  lemma EndCommutes(u: Service, m: Event, e: Event)
    requires Inv(u) && Beside(m) && Enabled(u, m) && Finishes(e) && Enabled(Alone(u), e)
    ensures Enabled(Alone(Apply(u, m)), e)
    ensures if m.Push? then Enabled(Apply(Alone(u), e), m)
                            && Apply(Alone(Apply(u, m)), e) == Apply(Apply(Alone(u), e), m)
            else Alone(Apply(u, m)) == Alone(u)
  {
    PlacesDisjoint(u, u.current.value);
    hide Inv, IsPrediction;
  }

  /** A push commutes with a Pop that takes a job: the job is the same. */
  lemma PopCommutes(s: Service, m: Event)
    requires Inv(s) && s.current.None? && s.slots != [] && m.Push? && Enabled(Apply(s, Pop), m)
    ensures Enabled(s, m) && Apply(Apply(s, m), Pop) == Apply(Apply(s, Pop), m)
    ensures Apply(s, m).slots[0] == s.slots[0]
  {
    var t := Apply(s, m);
    assert s.slots[0] in Keys(s.slots);
    PushIsAfterwards(s.slots, s.live, m.id, m.job);
    hide Inv;
  }

  lemma PushIsAfterwards(slots: seq<string>, live: map<string, AppGroup>, id: string, job: AppGroup)
    requires slots != [] && slots[0] in live && id != slots[0]
    ensures AfterPop(slots + [id], live[id := job])
            == (AfterPop(slots, live).0 + [id], AfterPop(slots, live).1[id := job])
  {
    assert live[id := job] - {slots[0]} == (live - {slots[0]})[id := job];
    assert (slots + [id])[1..] == slots[1..] + [id];
  }

  /** Pushes behind a job that has been taken might as well have come before. */
  lemma {:induction false} PushesFirst(s: Service, pushes: seq<Event>)
    requires Inv(s) && s.current.None? && s.slots != []
    requires (forall m | m in pushes :: m.Push?) && Happen(Apply(s, Pop), pushes)
    ensures Happen(s, pushes)
    ensures var u := End(s, pushes);
            && Inv(u) && u.current.None? && u.slots != [] && u.slots[0] == s.slots[0]
            && Apply(u, Pop) == End(Apply(s, Pop), pushes)
  {
    hide Inv, Contents;
    if pushes != [] {
      var front, m := pushes[..|pushes| - 1], pushes[|pushes| - 1];
      PushesFirst(s, front);
      PopCommutes(End(s, front), m);
      StepKeeps(End(s, front), m);
    }
  }

  /** A round of the worker with pushes and reads between the Pop and the event that ends it: that
      event is enabled as soon as no reader holds the lock, and it leaves the board as if the round
      had been made in one go and the pushes afterwards. */
  lemma {:induction false} RoundCommutes(t: Service, between: seq<Event>, e: Event)
    requires Inv(t) && Finishes(e) && Enabled(Alone(t), e)
    requires (forall m | m in between :: Beside(m)) && Happen(t, between)
    ensures var u := End(t, between); var done := Apply(Alone(t), e);
            && Inv(u) && Enabled(Alone(u), e) && Happen(done, Pushes(between))
            && (e.Fail? || u.readers == map[] ==>
                  Enabled(u, e) && Apply(u, e) == End(done, Pushes(between)).(readers := u.readers))
            && Apply(Alone(u), e) == End(done, Pushes(between))
  {
    hide Inv, Apply, Enabled;
    if between != [] {
      var front, m := between[..|between| - 1], between[|between| - 1];
      RoundCommutes(t, front, e);
      var u, done := End(t, front), Apply(Alone(t), e);
      EndCommutes(u, m, e);
      StepKeeps(u, m);
      if m.Push? {
        HappensOn(done, Pushes(front), m);
      }
    }
    EndsWithReaders(End(t, between), e);
  }

  lemma EndsWithReaders(u: Service, e: Event)
    requires Finishes(e) && Enabled(Alone(u), e)
    ensures Alone(Apply(Alone(u), e)) == Apply(Alone(u), e)
    ensures e.Fail? || u.readers == map[] ==>
              Enabled(u, e) && Apply(u, e) == Apply(Alone(u), e).(readers := u.readers)
  {
  }

  // ---------------------------------------------------------------- readers

  /** The status that a finding stands for. */
  ghost predicate Says(status: string, f: Finding, s: Service, id: string) {
    match f
    case InResults => id in s.emulatorResult && IsStatusOf(status, s.emulatorResult[id])
    case InQueue => status == "queuing"
    case Nowhere => status == "processing"
    case NotInResults => false
  }

  /** What a read that nobody interrupts finds. */
  function FindingOf(s: Service, id: string): Finding {
    if id in s.emulatorResult then InResults else if id in s.live then InQueue else Nowhere
  }

  /** The state in which an uninterrupted read answers. */
  lemma ReadAnswers(s: Service, r: nat, id: string)
    requires r !in s.readers
    ensures var t := Apply(s, BeginRead(r, id));
            var u := if id in s.emulatorResult then t else Apply(t, LookInQueue(r));
            && Enabled(u, EndRead(r)) && u.readers[r] == Reader(id, FindingOf(s, id))
            && Apply(u, EndRead(r)) == s
  {
  }

  /** The report closure answers with the status that the board's finding stands for, and with the
      review that the board holds. */
  method EmulatorReportRefines(ks: Kubesim, ghost s: Service, id: string) returns (r: JobReport)
    requires Shows(ks, s)
    ensures Says(r.status, FindingOf(s, id), s, id)
    ensures r.predictionNode == if id in s.predictionNode then Some(s.predictionNode[id]) else None
  {
    r := ks.EmulatorReport(id);
  }

  /** The four kinds of status are told apart by their text, so a status has one finding. */
  lemma StatusTellsFinding(status: string, f: Finding, g: Finding, s: Service, id: string)
    requires Says(status, f, s, id) && Says(status, g, s, id)
    ensures f == g
  {
    assert JOB_QUEUING[0] != JOB_PROCESSING[0];
    assert JOB_SUCCEED[0] != JOB_QUEUING[0] && JOB_FAILED[0] != JOB_QUEUING[0] && JOB_STOPPED[0] != JOB_QUEUING[0];
    assert JOB_SUCCEED[0] != JOB_PROCESSING[0] && JOB_FAILED[0] != JOB_PROCESSING[0];
    assert JOB_STOPPED[0] != JOB_PROCESSING[0];
  }
}
