/** The simulator as a service: request handlers push jobs, one worker takes and finishes them, and
    report readers look on.  Every critical section is one event; a read of a report is three,
    because the queue is looked at under the report lock but not under the queue's own order. */
module JobBoard {
  import opened Common
  import opened Reports
  import opened Cluster
  import opened Runs
  import opened Fifo
  import opened Simulator

  /** What a reader has found out so far; it holds the report lock until it answers. */
  datatype Finding = InResults | NotInResults | InQueue | Nowhere

  datatype Reader = Reader(id: string, finding: Finding)

  datatype Service = Service(
    slots: seq<string>, live: map<string, AppGroup>,
    current: Option<string>,
    emulatorResult: map<string, Option<seq<Review>>>, predictionNode: map<string, PredictionNodeReview>,
    readers: map<nat, Reader>,
    // history: jobs in push order, finished jobs in order, those among them that ended with an error
    jobs: map<string, AppGroup>, pushed: seq<string>, finished: seq<string>, failed: set<string>)

  datatype Event =
    | Push(id: string, job: AppGroup)
    | Pop
    | SaveResult(list: Option<seq<Review>>)
    | SavePrediction(list: Option<seq<Review>>, review: PredictionNodeReview)
    | Fail
    | BeginRead(reader: nat, readId: string)
    | LookInQueue(reader: nat)
    | EndRead(reader: nat)

  const EMPTY := Service([], map[], None, map[], map[], map[], map[], [], [], {})

  predicate IsPrediction(job: AppGroup) {
    job.emulatorType == "Prediction"
  }

  /** Job ids are fresh UUIDs; a writer waits until no reader holds the report lock. */
  predicate Enabled(s: Service, e: Event) {
    match e
    case Push(id, job) => id !in s.pushed
    case Pop => s.current.None?
    case SaveResult(list) =>
      s.current.Some? && s.current.value in s.jobs && !IsPrediction(s.jobs[s.current.value]) && s.readers == map[]
    case SavePrediction(list, review) =>
      s.current.Some? && s.current.value in s.jobs && IsPrediction(s.jobs[s.current.value]) && s.readers == map[]
    case Fail => s.current.Some?
    case BeginRead(r, id) => r !in s.readers
    case LookInQueue(r) => r in s.readers && s.readers[r].finding.NotInResults?
    case EndRead(r) => r in s.readers && !s.readers[r].finding.NotInResults?
  }

  function Done(s: Service): Service
    requires s.current.Some?
  {
    s.(current := None, finished := s.finished + [s.current.value])
  }

  function Apply(s: Service, e: Event): Service
    requires Enabled(s, e)
  {
    match e
    case Push(id, job) =>
      s.(slots := s.slots + [id], live := s.live[id := job], jobs := s.jobs[id := job], pushed := s.pushed + [id])
    case Pop =>
      var (slots, live) := AfterPop(s.slots, s.live);
      var front := Contents(s.slots, s.live);
      s.(slots := slots, live := live, current := if front == [] then None else Some(front[0].0))
    case SaveResult(list) => Done(s).(emulatorResult := s.emulatorResult[s.current.value := list])
    case SavePrediction(list, review) =>
      Done(s).(emulatorResult := s.emulatorResult[s.current.value := list],
               predictionNode := s.predictionNode[s.current.value := review])
    case Fail => Done(s).(failed := s.failed + {s.current.value})
    case BeginRead(r, id) =>
      s.(readers := s.readers[r := Reader(id, if id in s.emulatorResult then InResults else NotInResults)])
    case LookInQueue(r) =>
      var id := s.readers[r].id;
      s.(readers := s.readers[r := Reader(id, if id in s.live then InQueue else Nowhere)])
    case EndRead(r) => s.(readers := s.readers - {r})
  }

  /** A history of events from the start, and the state after it. */
  predicate Legal(es: seq<Event>)
    decreases |es|, 0
  {
    es == [] ||
    var front := es[..|es| - 1];
    Legal(front) && Enabled(After(front), es[|es| - 1])
  }

  function After(es: seq<Event>): Service
    requires Legal(es)
    decreases |es|, 1
  {
    if es == [] then EMPTY else Apply(After(es[..|es| - 1]), es[|es| - 1])
  }

  // ---------------------------------------------------------------- the invariant

  function CurrentSeq(s: Service): seq<string> {
    if s.current.Some? then [s.current.value] else []
  }

  /** Jobs leave the board in the order in which they were pushed: finished, then current, then queued. */
  predicate InOrder(s: Service) {
    NoDuplicates(s.pushed) && s.pushed == s.finished + CurrentSeq(s) + s.slots
  }

  predicate QueueSound(s: Service) {
    && s.live.Keys == Keys(s.slots) && s.jobs.Keys == Keys(s.pushed)
    && forall id | id in s.live :: id in s.jobs && s.live[id] == s.jobs[id]
  }

  predicate ResultsSound(s: Service) {
    && s.failed <= Keys(s.finished)
    && s.emulatorResult.Keys == Keys(s.finished) - s.failed
    && s.predictionNode.Keys <= s.emulatorResult.Keys
    && forall id | id in s.emulatorResult :: id in s.jobs && (id in s.predictionNode <==> IsPrediction(s.jobs[id]))
  }

  /** The report lock: no result appears under the eyes of a reader. */
  predicate ReadersSound(s: Service) {
    forall r | r in s.readers :: s.readers[r].finding.InResults? <==> s.readers[r].id in s.emulatorResult
  }

  predicate Inv(s: Service) {
    InOrder(s) && QueueSound(s) && ResultsSound(s) && ReadersSound(s)
  }

  lemma KeysAppend(a: seq<string>, b: seq<string>)
    ensures Keys(a + b) == Keys(a) + Keys(b)
  {
  }

  lemma PushKeepsOrder(s: Service, id: string, job: AppGroup)
    requires InOrder(s) && id !in s.pushed
    ensures InOrder(Apply(s, Push(id, job)))
  {
    var t := Apply(s, Push(id, job));
    assert t.pushed == s.finished + CurrentSeq(s) + t.slots;
  }

  lemma PushKeepsQueue(s: Service, id: string, job: AppGroup)
    requires QueueSound(s) && id !in s.pushed
    ensures QueueSound(Apply(s, Push(id, job)))
  {
    KeysAppend(s.slots, [id]);
    KeysAppend(s.pushed, [id]);
    assert Keys([id]) == {id};
  }

  lemma PushKeepsResults(s: Service, id: string, job: AppGroup)
    requires InOrder(s) && ResultsSound(s) && id !in s.pushed
    ensures ResultsSound(Apply(s, Push(id, job)))
  {
    assert id !in Keys(s.finished) by {
      assert forall i | 0 <= i < |s.finished| :: s.pushed[i] == s.finished[i];
    }
    hide InOrder, Keys, IsPrediction;
  }

  lemma PushKeeps(s: Service, id: string, job: AppGroup)
    requires Inv(s) && id !in s.pushed
    ensures Inv(Apply(s, Push(id, job)))
  {
    PushKeepsOrder(s, id, job);
    PushKeepsQueue(s, id, job);
    PushKeepsResults(s, id, job);
    hide InOrder, QueueSound, ResultsSound;
  }

  lemma Partition(a: seq<string>, b: seq<string>, c: seq<string>)
    requires NoDuplicates(a + b + c)
    ensures Keys(a) !! Keys(b) && Keys(a) !! Keys(c) && Keys(b) !! Keys(c)
    ensures Keys(a + b + c) == Keys(a) + Keys(b) + Keys(c)
  {
    var all := a + b + c;
    assert forall i | 0 <= i < |a| :: all[i] == a[i];
    assert forall i | 0 <= i < |b| :: all[|a| + i] == b[i];
    assert forall i | 0 <= i < |c| :: all[|a| + |b| + i] == c[i];
  }

  lemma PopKeeps(s: Service)
    requires Inv(s) && s.current.None?
    ensures Inv(Apply(s, Pop))
  {
    if s.slots != [] {
      var id, rest := s.slots[0], s.slots[1..];
      assert s.slots == [id] + rest;
      assert s.pushed == s.finished + [id] + rest;
      Partition(s.finished, [id], rest);
      KeysAppend([id], rest);
      assert id in Keys(s.slots) && id in Keys([id]);
    }
  }

  predicate Finishes(e: Event) {
    e.SaveResult? || e.SavePrediction? || e.Fail?
  }

  lemma FinishKeepsOrder(s: Service, e: Event)
    requires InOrder(s) && QueueSound(s) && Enabled(s, e) && Finishes(e)
    ensures InOrder(Apply(s, e)) && QueueSound(Apply(s, e))
  {
    hide NoDuplicates;
    var t := Apply(s, e);
    assert t.finished + CurrentSeq(t) + t.slots == s.finished + [s.current.value] + s.slots;
  }

  lemma FinishedGrows(s: Service, id: string)
    requires InOrder(s) && s.current == Some(id)
    ensures Keys(s.finished + [id]) == Keys(s.finished) + {id}
    ensures id !in Keys(s.finished) && id in Keys(s.pushed)
  {
    Partition(s.finished, [id], s.slots);
    hide NoDuplicates;
    KeysAppend(s.finished, [id]);
    assert id in Keys([id]) && Keys([id]) == {id};
  }

  lemma FailKeepsResults(s: Service)
    requires InOrder(s) && ResultsSound(s) && Enabled(s, Fail)
    ensures ResultsSound(Apply(s, Fail))
  {
    var id, t := s.current.value, Apply(s, Fail);
    FinishedGrows(s, id);
    hide InOrder, Keys, IsPrediction;
    assert Keys(t.finished) - t.failed == Keys(s.finished) - s.failed;
  }

  lemma SaveKeepsResults(s: Service, e: Event)
    requires InOrder(s) && ResultsSound(s) && Enabled(s, e) && (e.SaveResult? || e.SavePrediction?)
    ensures ResultsSound(Apply(s, e))
  {
    var id, t := s.current.value, Apply(s, e);
    FinishedGrows(s, id);
    hide InOrder, Keys, IsPrediction;
    assert id !in s.failed;
    assert t.emulatorResult.Keys == s.emulatorResult.Keys + {id};
    assert Keys(t.finished) - t.failed == Keys(s.finished) - s.failed + {id};
  }

  lemma FinishKeeps(s: Service, e: Event)
    requires Inv(s) && Enabled(s, e) && Finishes(e)
    ensures Inv(Apply(s, e))
  {
    FinishKeepsOrder(s, e);
    if e.Fail? {
      FailKeepsResults(s);
    } else {
      SaveKeepsResults(s, e);
    }
    hide InOrder, QueueSound, ResultsSound;
  }

  lemma StepKeeps(s: Service, e: Event)
    requires Inv(s) && Enabled(s, e)
    ensures Inv(Apply(s, e))
  {
    if Finishes(e) {
      FinishKeeps(s, e);
    } else if e.Push? {
      PushKeeps(s, e.id, e.job);
    } else if e.Pop? {
      PopKeeps(s);
    } else {
      ReadKeeps(s, e);
    }
  }

  lemma ReadKeeps(s: Service, e: Event)
    requires Inv(s) && Enabled(s, e) && (e.BeginRead? || e.LookInQueue? || e.EndRead?)
    ensures Inv(Apply(s, e))
  {
    hide NoDuplicates, Keys, IsPrediction;
  }

  lemma {:induction false} AlwaysInv(es: seq<Event>)
    requires Legal(es)
    ensures Inv(After(es))
  {
    hide Inv, Apply, Enabled;
    if es == [] {
      EmptyInv();
    } else {
      AlwaysInv(es[..|es| - 1]);
      StepKeeps(After(es[..|es| - 1]), es[|es| - 1]);
    }
  }

  lemma EmptyInv()
    ensures Inv(EMPTY)
  {
  }

  // ---------------------------------------------------------------- where a job is

  datatype JobPhase = Unknown | Queued | InProgress | Failed | Recorded

  function PhaseOf(s: Service, id: string): JobPhase {
    if id in s.emulatorResult then Recorded
    else if id in s.live then Queued
    else if s.current == Some(id) then InProgress
    else if id in s.failed then Failed
    else Unknown
  }

  function Rank(p: JobPhase): nat {
    match p
    case Unknown => 0
    case Queued => 1
    case InProgress => 2
    case Failed => 2
    case Recorded => 3
  }

  function One(b: bool): nat {
    if b then 1 else 0
  }

  /** Job conservation: in every reachable state a pushed job is in exactly one place. */
  lemma ExactlyOnePlace(es: seq<Event>, id: string)
    requires Legal(es)
    ensures var s := After(es);
            One(id in s.live) + One(s.current == Some(id)) + One(id in s.emulatorResult) + One(id in s.failed)
            == One(id in s.pushed)
  {
    AlwaysInv(es);
    PlacesDisjoint(After(es), id);
  }

  lemma PlacesDisjoint(s: Service, id: string)
    requires Inv(s)
    ensures One(id in s.live) + One(s.current == Some(id)) + One(id in s.emulatorResult) + One(id in s.failed)
            == One(id in s.pushed)
  {
    hide ReadersSound, NoDuplicates;
    Partition(s.finished, CurrentSeq(s), s.slots);
    assert id in s.pushed <==> id in Keys(s.pushed);
    assert s.current == Some(id) <==> id in Keys(CurrentSeq(s));
  }

  /** From phase p to phase q a job has not gone back. */
  predicate Forward(p: JobPhase, q: JobPhase) {
    Rank(p) <= Rank(q) && (p.Failed? ==> q.Failed?)
  }

  lemma PopForward(s: Service, id: string)
    requires Inv(s) && s.current.None?
    ensures Forward(PhaseOf(s, id), PhaseOf(Apply(s, Pop), id))
  {
    PlacesDisjoint(s, id);
    hide Inv, Contents, AfterPop;
    PopTakesFirst(s.slots, s.live);
  }

  lemma FinishForward(s: Service, e: Event, id: string)
    requires Inv(s) && Enabled(s, e) && Finishes(e)
    ensures Forward(PhaseOf(s, id), PhaseOf(Apply(s, e), id))
  {
    if id == s.current.value {
      CurrentOnly(s);
      CurrentEnds(s, e);
    } else {
      OthersStay(s, e, id);
    }
    hide Inv, Apply, PhaseOf;
  }

  lemma CurrentEnds(s: Service, e: Event)
    requires Enabled(s, e) && Finishes(e) && PhaseOf(s, s.current.value).InProgress?
    ensures var p := PhaseOf(Apply(s, e), s.current.value); p.Failed? || p.Recorded?
  {
  }

  lemma OthersStay(s: Service, e: Event, id: string)
    requires Enabled(s, e) && Finishes(e) && s.current != Some(id)
    ensures PhaseOf(Apply(s, e), id) == PhaseOf(s, id)
  {
  }

  lemma CurrentOnly(s: Service)
    requires Inv(s) && s.current.Some?
    ensures PhaseOf(s, s.current.value).InProgress? && s.current.value !in s.failed
  {
    PlacesDisjoint(s, s.current.value);
    hide Inv;
  }

  lemma RankStep(s: Service, e: Event, id: string)
    requires Inv(s) && Enabled(s, e)
    ensures Forward(PhaseOf(s, id), PhaseOf(Apply(s, e), id))
    ensures id in s.pushed ==> id in Apply(s, e).pushed
  {
    PlacesDisjoint(s, id);
    match e
    case Push(_, _) =>
    case Pop => PopForward(s, id);
    case SaveResult(_) => FinishForward(s, e, id);
    case SavePrediction(_, _) => FinishForward(s, e, id);
    case Fail => FinishForward(s, e, id);
    case BeginRead(_, _) =>
    case LookInQueue(_) =>
    case EndRead(_) =>
  }

  /** A job only moves forward, and a job that ended with an error stays there. */
  lemma {:induction false} PhaseForward(es: seq<Event>, n: nat, id: string)
    requires Legal(es) && n <= |es|
    ensures Legal(es[..n])
    ensures Forward(PhaseOf(After(es[..n]), id), PhaseOf(After(es), id))
    ensures id in After(es[..n]).pushed ==> id in After(es).pushed
  {
    hide Inv, Apply, Enabled, PhaseOf;
    if n == |es| {
      assert es[..n] == es;
    } else {
      var front := es[..|es| - 1];
      PhaseForward(front, n, id);
      assert front[..n] == es[..n];
      AlwaysInv(front);
      RankStep(After(front), es[|es| - 1], id);
    }
  }

  /** A job ends with an error only while it is in progress. */
  lemma FailsFromProgress(s: Service, e: Event, id: string)
    requires Inv(s) && Enabled(s, e)
    requires PhaseOf(Apply(s, e), id).Failed? && !PhaseOf(s, id).Failed?
    ensures PhaseOf(s, id).InProgress?
  {
    PlacesDisjoint(s, id);
    hide Inv, IsPrediction;
  }

  /** A job that has come to fail was in progress on the way. */
  lemma {:induction false} FailedWasInProgress(es: seq<Event>, i: nat, id: string) returns (k: nat)
    requires Legal(es) && i <= |es| && Legal(es[..i])
    requires !PhaseOf(After(es[..i]), id).Failed? && PhaseOf(After(es), id).Failed?
    ensures i <= k < |es| && Legal(es[..k]) && PhaseOf(After(es[..k]), id).InProgress?
  {
    hide Inv, Apply, Enabled, PhaseOf;
    var front := es[..|es| - 1];
    assert es[..|es|] == es;
    assert front[..i] == es[..i];
    AlwaysInv(front);
    if PhaseOf(After(front), id).Failed? {
      k := FailedWasInProgress(front, i, id);
      assert front[..k] == es[..k];
    } else {
      FailsFromProgress(After(front), es[|es| - 1], id);
      k := |front|;
    }
  }

  // ---------------------------------------------------------------- what readers are told

  /** What a finding says of a job: "processing", said of a job found nowhere, means in progress. */
  predicate TrueOf(f: Finding, p: JobPhase) {
    match f
    case InResults => p.Recorded?
    case InQueue => p.Queued?
    case Nowhere => p.InProgress?
    case NotInResults => true
  }

  /** In which phases a reader can come to a finding. */
  predicate SeenIn(f: Finding, p: JobPhase) {
    TrueOf(f, p) || (f.Nowhere? && (p.Failed? || p.Unknown?))
  }

  /** Reader r is in the middle of the read of id that it began with event i. */
  predicate Reading(es: seq<Event>, i: nat, r: nat, id: string) {
    && i < |es| && es[i] == BeginRead(r, id)
    && forall j | i < j < |es| :: es[j] != EndRead(r)
  }

  ghost predicate SeenAt(es: seq<Event>, k: nat, id: string, f: Finding)
    requires Legal(es)
  {
    k <= |es| && Legal(es[..k]) && SeenIn(f, PhaseOf(After(es[..k]), id))
  }

  ghost predicate TrueAt(es: seq<Event>, k: nat, id: string, f: Finding)
    requires Legal(es)
  {
    k <= |es| && Legal(es[..k]) && TrueOf(f, PhaseOf(After(es[..k]), id))
  }

  /** A finding is always made in some instant of the read. */
  lemma {:induction false} FindingWasMade(es: seq<Event>, i: nat, r: nat, id: string)
    requires Legal(es) && Reading(es, i, r, id)
    ensures r in After(es).readers && After(es).readers[r].id == id
    ensures exists k :: i <= k < |es| && SeenAt(es, k, id, After(es).readers[r].finding)
  {
    hide Inv, Apply, Enabled, PhaseOf, TrueOf, SeenIn;
    var front, last := es[..|es| - 1], es[|es| - 1];
    AlwaysInv(front);
    if i == |front| {
      BeginSees(After(front), r, id);
      assert SeenAt(es, i, id, After(es).readers[r].finding);
    } else {
      FindingWasMade(front, i, r, id);
      if last == LookInQueue(r) {
        QueueLookSees(After(front), r);
        assert SeenAt(es, |front|, id, After(es).readers[r].finding);
      } else {
        OthersLeaveReader(After(front), last, r);
        var k :| i <= k < |front| && SeenAt(front, k, id, After(front).readers[r].finding);
        assert front[..k] == es[..k];
        assert SeenAt(es, k, id, After(es).readers[r].finding);
      }
    }
  }

  lemma BeginSees(s: Service, r: nat, id: string)
    requires Enabled(s, BeginRead(r, id))
    ensures var t := Apply(s, BeginRead(r, id));
            r in t.readers && t.readers[r].id == id && SeenIn(t.readers[r].finding, PhaseOf(s, id))
  {
  }

  lemma QueueLookSees(s: Service, r: nat)
    requires Inv(s) && Enabled(s, LookInQueue(r))
    ensures var t := Apply(s, LookInQueue(r));
            && r in t.readers && t.readers[r].id == s.readers[r].id
            && SeenIn(t.readers[r].finding, PhaseOf(s, s.readers[r].id))
  {
    PlacesDisjoint(s, s.readers[r].id);
  }

  lemma OthersLeaveReader(s: Service, e: Event, r: nat)
    requires Enabled(s, e) && r in s.readers && e != LookInQueue(r) && e != EndRead(r)
    ensures r in Apply(s, e).readers && Apply(s, e).readers[r] == s.readers[r]
  {
  }

  /** Linearizability: what a reader is about to answer of a pushed job was true at some instant of
      its read, for every interleaving with the worker, the pushers and the other readers, exactly
      unless it says "processing" of a job that had ended with an error before the read began. */
  lemma AnswerWasTrue(es: seq<Event>, i: nat, r: nat, id: string)
    requires Legal(es) && Reading(es, i, r, id)
    requires Legal(es[..i]) && id in After(es[..i]).pushed
    ensures r in After(es).readers && After(es).readers[r].id == id
    ensures (exists k :: i <= k < |es| && TrueAt(es, k, id, After(es).readers[r].finding))
            <==> !(After(es).readers[r].finding.Nowhere? && PhaseOf(After(es[..i]), id).Failed?)
  {
    hide After, Legal, PhaseOf, TrueOf;
    FindingWasMade(es, i, r, id);
    var f := After(es).readers[r].finding;
    var seen :| i <= seen < |es| && SeenAt(es, seen, id, f);
    assert es[..seen][..i] == es[..i];
    PhaseForward(es[..seen], i, id);
    KnownPhase(es[..seen], id);
    if f.Nowhere? && PhaseOf(After(es[..i]), id).Failed? {
      forall k | i <= k < |es| ensures !TrueAt(es, k, id, f) {
        LegalPrefix(es, k);
        assert es[..k][..i] == es[..i];
        PhaseForward(es[..k], i, id);
        FailedIsUntrue(PhaseOf(After(es[..k]), id));
      }
    } else if !TrueAt(es, seen, id, f) {
      SeenButUntrue(f, PhaseOf(After(es[..seen]), id));
      var k := FailedWasInProgress(es[..seen], i, id);
      assert es[..seen][..k] == es[..k];
      ProgressIsTrue(f, PhaseOf(After(es[..k]), id));
      assert TrueAt(es, k, id, f);
    }
  }

  lemma FailedIsUntrue(p: JobPhase)
    requires p.Failed?
    ensures !TrueOf(Nowhere, p)
  {
  }

  lemma SeenButUntrue(f: Finding, p: JobPhase)
    requires SeenIn(f, p) && !TrueOf(f, p) && p != Unknown
    ensures f.Nowhere? && p.Failed?
  {
  }

  lemma ProgressIsTrue(f: Finding, p: JobPhase)
    requires f.Nowhere? && p.InProgress?
    ensures TrueOf(f, p)
  {
  }

  function AnswerRank(f: Finding): nat {
    match f
    case InQueue => 1
    case Nowhere => 2
    case InResults => 3
    case NotInResults => 0
  }

  /** A read that ends with event j. */
  predicate Read(es: seq<Event>, i: nat, j: nat, r: nat, id: string, f: Finding)
    requires Legal(es)
  {
    && i < j < |es| && es[j] == EndRead(r) && Legal(es[..j]) && Reading(es[..j], i, r, id)
    && r in After(es[..j]).readers && After(es[..j]).readers[r] == Reader(id, f)
  }

  /** Of two reads of a pushed job, one after the other, the later never answers with an earlier status. */
  lemma ReadsNeverGoBack(es: seq<Event>, i1: nat, j1: nat, r1: nat, f1: Finding,
                         i2: nat, j2: nat, r2: nat, f2: Finding, id: string)
    requires Legal(es)
    requires Read(es, i1, j1, r1, id, f1) && Read(es, i2, j2, r2, id, f2) && j1 < i2
    requires Legal(es[..i1]) && id in After(es[..i1]).pushed
    ensures AnswerRank(f1) <= AnswerRank(f2)
  {
    hide After, Legal, SeenIn;
    var k1 := SeenInstant(es, i1, j1, r1, f1, id);
    var k2 := SeenInstant(es, i2, j2, r2, f2, id);
    assert es[..k2][..k1] == es[..k1] && es[..k1][..i1] == es[..i1];
    PhaseForward(es[..k1], i1, id);
    KnownPhase(es[..k1], id);
    PhaseForward(es[..k2], k1, id);
    KnownPhase(es[..k2], id);
    RanksAgree(f1, PhaseOf(After(es[..k1]), id));
    RanksAgree(f2, PhaseOf(After(es[..k2]), id));
  }

  lemma RanksAgree(f: Finding, p: JobPhase)
    requires SeenIn(f, p) && !f.NotInResults? && p != Unknown
    ensures AnswerRank(f) == Rank(p)
  {
  }

  /** The instant within a finished read at which its finding was made. */
  lemma SeenInstant(es: seq<Event>, i: nat, j: nat, r: nat, f: Finding, id: string) returns (k: nat)
    requires Legal(es) && Read(es, i, j, r, id, f)
    ensures i <= k < j && Legal(es[..k]) && SeenIn(f, PhaseOf(After(es[..k]), id)) && !f.NotInResults?
  {
    hide After, Legal, SeenIn;
    FindingWasMade(es[..j], i, r, id);
    k :| i <= k < j && SeenAt(es[..j], k, id, f);
    assert es[..j][..k] == es[..k];
    EndedRead(es, j, r);
  }

  lemma KnownPhase(es: seq<Event>, id: string)
    requires Legal(es) && id in After(es).pushed
    ensures PhaseOf(After(es), id) != Unknown
  {
    AlwaysInv(es);
    PlacesDisjoint(After(es), id);
  }

  lemma EndedRead(es: seq<Event>, j: nat, r: nat)
    requires Legal(es) && j < |es| && es[j] == EndRead(r) && Legal(es[..j]) && r in After(es[..j]).readers
    ensures !After(es[..j]).readers[r].finding.NotInResults?
  {
    LegalPrefix(es, j + 1);
    assert es[..j + 1][..j] == es[..j];
  }

  lemma {:induction false} LegalPrefix(es: seq<Event>, n: nat)
    requires Legal(es) && n <= |es|
    ensures Legal(es[..n])
  {
    if n == |es| {
      assert es[..n] == es;
    } else {
      LegalPrefix(es[..|es| - 1], n);
      assert es[..|es| - 1][..n] == es[..n];
    }
  }

  ghost predicate InProgressAt(es: seq<Event>, k: nat, id: string)
    requires Legal(es)
  {
    k <= |es| && Legal(es[..k]) && PhaseOf(After(es[..k]), id).InProgress?
  }

  /** A read that answers "processing" of a pushed job speaks the truth at some instant exactly when
      the job had not ended with an error before the read began; once it has, every read says
      "processing" for good. */
  lemma FailedReadsProcessing(es: seq<Event>, i: nat, j: nat, r: nat, f: Finding, id: string)
    requires Legal(es) && Read(es, i, j, r, id, f)
    requires Legal(es[..i]) && id in After(es[..i]).pushed
    ensures PhaseOf(After(es[..i]), id).Failed? ==> f.Nowhere?
    ensures f.Nowhere? ==>
              ((exists k :: i <= k < j && InProgressAt(es, k, id)) <==> !PhaseOf(After(es[..i]), id).Failed?)
  {
    hide After, Legal, PhaseOf;
    var seen := SeenInstant(es, i, j, r, f, id);
    assert es[..seen][..i] == es[..i];
    PhaseForward(es[..seen], i, id);
    assert es[..j][..i] == es[..i];
    if f.Nowhere? {
      AnswerWasTrue(es[..j], i, r, id);
      if PhaseOf(After(es[..i]), id).Failed? {
        forall k | i <= k < j ensures !InProgressAt(es, k, id) {
          LegalPrefix(es, k);
          assert es[..k][..i] == es[..i];
          PhaseForward(es[..k], i, id);
        }
      } else {
        var k :| i <= k < j && TrueAt(es[..j], k, id, f);
        assert es[..j][..k] == es[..k];
        assert InProgressAt(es, k, id);
      }
    }
  }

  /** The board after one job was pushed, taken, and ended with an error. */
  function OneFailed(id: string, job: AppGroup): Service {
    EMPTY.(jobs := map[id := job], pushed := [id], finished := [id], failed := {id})
  }

  lemma JobFails(id: string, job: AppGroup)
    ensures Legal([Push(id, job), Pop, Fail]) && After([Push(id, job), Pop, Fail]) == OneFailed(id, job)
  {
    var s1 := EMPTY.(slots := [id], live := map[id := job], jobs := map[id := job], pushed := [id]);
    var s2 := s1.(slots := [], live := map[], current := Some(id));
    assert [id][1..] == [] && map[id := job] - {id} == map[];
    NothingYet([]);
    hide Legal, After;
    assert [] + [Push(id, job)] == [Push(id, job)];
    Reached([], EMPTY, Push(id, job), s1);
    assert [Push(id, job)] + [Pop] == [Push(id, job), Pop];
    Reached([Push(id, job)], s1, Pop, s2);
    assert [Push(id, job), Pop] + [Fail] == [Push(id, job), Pop, Fail];
    Reached([Push(id, job), Pop], s2, Fail, OneFailed(id, job));
  }

  lemma FailedIsLookedFor(s: Service, es: seq<Event>, id: string)
    requires Legal(es) && After(es) == s && s.readers == map[] && id !in s.emulatorResult && id !in s.live
    ensures Legal(es + [BeginRead(0, id), LookInQueue(0)])
    ensures After(es + [BeginRead(0, id), LookInQueue(0)]) == s.(readers := map[0 := Reader(id, Nowhere)])
  {
    hide Legal, After;
    var t := s.(readers := map[0 := Reader(id, NotInResults)]);
    Reached(es, s, BeginRead(0, id), t);
    Reached(es + [BeginRead(0, id)], t, LookInQueue(0), s.(readers := map[0 := Reader(id, Nowhere)]));
    assert es + [BeginRead(0, id)] + [LookInQueue(0)] == es + [BeginRead(0, id), LookInQueue(0)];
  }

  /** A history in which a job that ended with an error is read: the answer is "processing". */
  lemma FailedJobIsRead(id: string, job: AppGroup)
    ensures var es := [Push(id, job), Pop, Fail, BeginRead(0, id), LookInQueue(0), EndRead(0)];
            && Legal(es) && Legal(es[..3]) && id in After(es[..3]).pushed
            && PhaseOf(After(es[..3]), id).Failed? && Read(es, 3, 5, 0, id, Nowhere)
  {
    hide Legal, After;
    var failed, looked := [Push(id, job), Pop, Fail], [BeginRead(0, id), LookInQueue(0)];
    var s := OneFailed(id, job);
    JobFails(id, job);
    FailedIsLookedFor(s, failed, id);
    var t := s.(readers := map[0 := Reader(id, Nowhere)]);
    Reached(failed + looked, t, EndRead(0), s);
    var es := [Push(id, job), Pop, Fail, BeginRead(0, id), LookInQueue(0), EndRead(0)];
    assert es == failed + looked + [EndRead(0)];
    assert es[..5] == failed + looked && es[..3] == failed;
  }

  lemma NothingYet(es: seq<Event>)
    requires es == []
    ensures Legal(es) && After(es) == EMPTY
  {
  }

  lemma Reached(es: seq<Event>, s: Service, e: Event, t: Service)
    requires Legal(es) && After(es) == s && Enabled(s, e) && Apply(s, e) == t
    ensures Legal(es + [e]) && After(es + [e]) == t
  {
    assert (es + [e])[..|es|] == es;
  }

  /** A prediction's review and its report list are seen together or not at all. */
  lemma ReviewWithReports(es: seq<Event>, r: nat)
    requires Legal(es) && Enabled(After(es), EndRead(r))
    ensures var s := After(es); var id := s.readers[r].id;
            id in s.predictionNode <==>
              s.readers[r].finding.InResults? && id in s.jobs && IsPrediction(s.jobs[id])
  {
    AlwaysInv(es);
  }

  /** The worker takes and finishes jobs in push order. */
  lemma PushOrder(es: seq<Event>)
    requires Legal(es)
    ensures var s := After(es); s.finished + CurrentSeq(s) + s.slots == s.pushed && NoDuplicates(s.pushed)
  {
    AlwaysInv(es);
  }
}
