/** All runs of the document lifecycle: endpoints, ingest jobs with their two commits, failure paths, queue
    retries and the stale sweep, interleaved in any way, one transaction at a time. */
module Lifecycle {
  import opened Wrappers
  import opened Documents

  type Worker = int

  /** The table, the ids ever given out, the ids an ingest job was ever enqueued for, the workers between the
      two commits of a job, and the times of the last step and of the last sweep. */
  datatype State = State(
    docs: Docs,
    used: set<Id>,
    enqueued: set<Id>,
    busy: map<Worker, Id>,
    now: int,
    lastSweep: int)

  /** A queue may run a job for an enqueued document at any later time and any number of times. HandleFailure
      is the failure handler, a job failing outside its two commits, or a retry whose enqueueing failed. A job
      cut short by its time limit may commit, together with its failure, the chunk rows it had already added
      to the session. */
  datatype Action =
    | Initiate(id: Id, user: User, size: nat)
    | Upload(id: Id, user: User, size: nat)
    | Confirm(id: Id, user: User, head: Head)
    | Retry(id: Id, user: User)
    | Delete(id: Id, user: User, storageOk: bool)
    | StartJob(worker: Worker, id: Id)
    | FinishJob(worker: Worker, chunkCount: nat)
    | FailJob(worker: Worker, flushed: nat, error: string)
    | CrashJob(worker: Worker)
    | HandleFailure(id: Id, reason: Reason)
    | Sweep

  /** Whether the step can happen now: fresh ids, jobs that were enqueued, at least one chunk on success. */
  predicate Enabled(s: State, a: Action) {
    match a
    case Initiate(id, _, _) => id !in s.used
    case Upload(id, _, _) => id !in s.used
    case StartJob(w, id) => w !in s.busy && id in s.enqueued
    case FinishJob(w, n) => w in s.busy && n >= 1
    case FailJob(w, _, _) => w in s.busy
    case CrashJob(w) => w in s.busy
    case HandleFailure(id, _) => id in s.enqueued
    case _ => true
  }

  function DocsAfter(s: State, a: Action, now: int): Docs
    requires Enabled(s, a)
  {
    match a
    case Initiate(id, user, size) => Created(s.docs, id, user, size, PENDING_UPLOAD, now)
    case Upload(id, user, size) => Created(s.docs, id, user, size, PENDING, now)
    case Confirm(id, user, head) => Confirmed(s.docs, id, user, head, now)
    case Retry(id, user) => Retried(s.docs, id, user, now)
    case Delete(id, user, storageOk) => Deleted(s.docs, id, user, storageOk)
    case StartJob(_, id) => Started(s.docs, id, now)
    case FinishJob(w, n) => Finished(s.docs, s.busy[w], n, now)
    case FailJob(w, flushed, error) => FailedIngest(s.docs, s.busy[w], flushed, error, now)
    case CrashJob(_) => s.docs
    case HandleFailure(id, reason) => WithFailure(s.docs, id, reason, now)
    case Sweep => Swept(s.docs, now)
  }

  /** The step ends by enqueueing an ingest job. */
  predicate Enqueues(before: Docs, a: Action, after: Docs)
    ensures Enqueues(before, a, after) ==> (a.Upload? || a.Confirm? || a.Retry?) && a.id in after
  {
    match a
    case Upload(id, _, _) => id in after
    case Confirm(id, user, _) => Owned(before, id, user) && id in after && before[id].status == PENDING_UPLOAD
                                 && after[id].status == PENDING
    case Retry(id, user) => Owned(before, id, user) && id in after && before[id].status == FAILED
    case _ => false
  }

  function BusyAfter(s: State, a: Action): map<Worker, Id>
    requires Enabled(s, a)
  {
    if a.StartJob? && a.id in s.docs && s.docs[a.id].status != READY then s.busy[a.worker := a.id]
    else if a.FinishJob? || a.FailJob? || a.CrashJob? then s.busy - {a.worker}
    else s.busy
  }

  function Step(s: State, a: Action, now: int): State
    requires Enabled(s, a)
  {
    var docs := DocsAfter(s, a, now);
    s.(docs := docs,
       used := if a.Initiate? || a.Upload? then s.used + {a.id} else s.used,
       enqueued := if Enqueues(s.docs, a, docs) then s.enqueued + {a.id} else s.enqueued,
       busy := BusyAfter(s, a),
       now := now,
       lastSweep := if a.Sweep? then now else s.lastSweep)
  }

  function Initial(start: int): State {
    State(map[], {}, {}, map[], start, start)
  }

  /** What the deployment rules out: nothing, a second worker, or a second job for a document in progress. */
  datatype Deployment = AnyWorkers | OneWorker | OneJobPerDocument

  predicate Permits(deployment: Deployment, s: State, a: Action) {
    match deployment
    case AnyWorkers => true
    case OneWorker => a.StartJob? ==> a.worker == 0
    case OneJobPerDocument => a.StartJob? ==> !Held(s.busy, a.id)
  }

  /** Some worker is between the two commits of a job for the document. */
  predicate Held(busy: map<Worker, Id>, id: Id) {
    exists w :: w in busy && busy[w] == id
  }

  predicate CanStep(deployment: Deployment, s: State, a: Action, now: int) {
    Enabled(s, a) && Permits(deployment, s, a) && s.now <= now
  }

  datatype Timed = Timed(action: Action, now: int)

  /** The state after a run, None when some step was not possible or the clock went back. */
  function Run(deployment: Deployment, start: int, steps: seq<Timed>): Option<State> {
    if steps == [] then Some(Initial(start))
    else
      var s := Run(deployment, start, steps[..|steps| - 1]);
      var t := steps[|steps| - 1];
      if s.Some? && CanStep(deployment, s.value, t.action, t.now) then Some(Step(s.value, t.action, t.now)) else None
  }

  ghost predicate Reachable(deployment: Deployment, s: State) {
    exists start, steps :: Run(deployment, start, steps) == Some(s)
  }

  lemma StartReachable(deployment: Deployment, start: int)
    ensures Reachable(deployment, Initial(start))
  {
    assert Run(deployment, start, []) == Some(Initial(start));
  }

  lemma StepReachable(deployment: Deployment, s: State, a: Action, now: int)
    requires Reachable(deployment, s) && CanStep(deployment, s, a, now)
    ensures Reachable(deployment, Step(s, a, now))
  {
    hide Step, Enabled;
    var start, steps :| Run(deployment, start, steps) == Some(s);
    var longer := steps + [Timed(a, now)];
    assert longer[..|longer| - 1] == steps;
    assert Run(deployment, start, longer) == Some(Step(s, a, now));
  }

  // ---------------------------------------------------------------- ready documents are complete

  /** What is known of a row, given whether a job was ever enqueued and whether one is between its commits. */
  predicate Sane(d: Doc, enqueued: bool, busy: bool) {
    && (d.status == PENDING_UPLOAD ==> !enqueued)
    && (d.status in {PENDING, PROCESSING, READY} ==> enqueued)
    && (d.status in {PENDING_UPLOAD, PENDING} ==> d.chunks == multiset{} && !busy)
    && (busy ==> d.chunks == multiset{} && d.status in {PROCESSING, FAILED})
    && (d.status == READY ==> Complete(d))
    && (d.status == FAILED ==> d.error.Some?)
  }

  /** At least one chunk, and exactly one row per index below the chunk count. */
  predicate Complete(d: Doc) {
    d.chunkCount.Some? && d.chunkCount.value >= 1 && d.chunks == Indices(d.chunkCount.value)
  }

  /** No document is in the hands of two workers. */
  predicate Injective(busy: map<Worker, Id>) {
    forall v, w :: v in busy && w in busy && busy[v] == busy[w] ==> v == w
  }

  ghost predicate Invariant(s: State) {
    && s.docs.Keys <= s.used && s.enqueued <= s.used
    && Injective(s.busy) && (forall w :: w in s.busy ==> s.busy[w] in s.enqueued)
    && forall id :: id in s.docs ==> Sane(s.docs[id], id in s.enqueued, Held(s.busy, id))
  }

  ghost predicate RowKept(s: State, a: Action, now: int, id: Id)
    requires Enabled(s, a)
  {
    var t := Step(s, a, now);
    id in t.docs ==> Sane(t.docs[id], id in t.enqueued, Held(t.busy, id))
  }

  ghost predicate Safe(s: State, a: Action) {
    Invariant(s) && Enabled(s, a) && Permits(OneJobPerDocument, s, a)
  }

  lemma CreateKeepsRow(s: State, a: Action, now: int, id: Id)
    requires Safe(s, a) && (a.Initiate? || a.Upload?)
    ensures RowKept(s, a, now, id)
  {
  }

  lemma ConfirmKeepsRow(s: State, a: Action, now: int, id: Id)
    requires Safe(s, a) && a.Confirm?
    ensures RowKept(s, a, now, id)
  {
    hide Complete, Held, Injective;
  }

  lemma RetryKeepsRow(s: State, a: Action, now: int, id: Id)
    requires Safe(s, a) && (a.Retry? || a.Delete?)
    ensures RowKept(s, a, now, id)
  {
  }

  lemma StartKeepsRow(s: State, a: Action, now: int, id: Id)
    requires Safe(s, a) && a.StartJob?
    ensures RowKept(s, a, now, id)
  {
    StartHolds(s.busy, a.worker, a.id);
  }

  lemma EndKeepsRow(s: State, a: Action, now: int, id: Id)
    requires Safe(s, a) && (a.FinishJob? || a.FailJob? || a.CrashJob?)
    ensures RowKept(s, a, now, id)
  {
    EndFrees(s.busy, a.worker);
    assert forall m: multiset<nat> :: multiset{} + m == m;
  }

  lemma FailureKeepsRow(s: State, a: Action, now: int, id: Id)
    requires Safe(s, a) && (a.HandleFailure? || a.Sweep?)
    ensures RowKept(s, a, now, id)
  {
  }

  lemma StepKeepsRow(s: State, a: Action, now: int, id: Id)
    requires Safe(s, a)
    ensures RowKept(s, a, now, id)
  {
    hide RowKept, Safe;
    match a
    case Initiate(_, _, _) | Upload(_, _, _) => CreateKeepsRow(s, a, now, id);
    case Confirm(_, _, _) => ConfirmKeepsRow(s, a, now, id);
    case Retry(_, _) | Delete(_, _, _) => RetryKeepsRow(s, a, now, id);
    case StartJob(_, _) => StartKeepsRow(s, a, now, id);
    case FinishJob(_, _) | FailJob(_, _, _) | CrashJob(_) => EndKeepsRow(s, a, now, id);
    case HandleFailure(_, _) | Sweep => FailureKeepsRow(s, a, now, id);
  }

  lemma StartHolds(busy: map<Worker, Id>, w: Worker, id: Id)
    requires w !in busy
    ensures forall x :: Held(busy[w := id], x) <==> x == id || Held(busy, x)
    ensures Injective(busy) && !Held(busy, id) ==> Injective(busy[w := id])
  {
    var after := busy[w := id];
    assert after[w] == id;
    forall x | Held(busy, x) ensures Held(after, x) {
      var v :| v in busy && busy[v] == x;
      assert after[v] == x;
    }
  }

  lemma EndFrees(busy: map<Worker, Id>, w: Worker)
    requires Injective(busy) && w in busy
    ensures forall x :: Held(busy - {w}, x) <==> x != busy[w] && Held(busy, x)
    ensures Injective(busy - {w})
  {
    var after := busy - {w};
    forall x | Held(busy, x) && x != busy[w] ensures Held(after, x) {
      var v :| v in busy && busy[v] == x;
      assert after[v] == x;
    }
  }

  lemma StepKeepsIds(s: State, a: Action, now: int)
    requires Safe(s, a)
    ensures var t := Step(s, a, now);
            && t.docs.Keys <= t.used && t.enqueued <= t.used
            && Injective(t.busy) && forall w :: w in t.busy ==> t.busy[w] in t.enqueued
  {
    if a.StartJob? {
      StartHolds(s.busy, a.worker, a.id);
    } else if a.FinishJob? || a.FailJob? || a.CrashJob? {
      EndFrees(s.busy, a.worker);
    }
    hide Injective, Sane;
  }

  /** Every step keeps the invariant when no second job is started for a document in progress. */
  lemma StepKeepsInvariant(s: State, a: Action, now: int)
    requires Invariant(s) && Enabled(s, a) && Permits(OneJobPerDocument, s, a)
    ensures Invariant(Step(s, a, now))
  {
    var t := Step(s, a, now);
    forall id | id in t.docs ensures Sane(t.docs[id], id in t.enqueued, Held(t.busy, id)) {
      StepKeepsRow(s, a, now, id);
    }
    StepKeepsIds(s, a, now);
    hide Step, Sane;
  }

  lemma {:induction false} RunKeepsInvariant(start: int, steps: seq<Timed>)
    requires Run(OneJobPerDocument, start, steps).Some?
    ensures Invariant(Run(OneJobPerDocument, start, steps).value)
  {
    if steps != [] {
      var n := |steps| - 1;
      RunKeepsInvariant(start, steps[..n]);
      StepKeepsInvariant(Run(OneJobPerDocument, start, steps[..n]).value, steps[n].action, steps[n].now);
    }
  }

  lemma ReachableInvariant(s: State)
    requires Reachable(OneJobPerDocument, s)
    ensures Invariant(s)
  {
    var start, steps :| Run(OneJobPerDocument, start, steps) == Some(s);
    RunKeepsInvariant(start, steps);
  }

  /** A single worker never has two jobs for one document, so its runs are among those with one job each. */
  lemma {:induction false} OneWorkerRun(start: int, steps: seq<Timed>)
    requires Run(OneWorker, start, steps).Some?
    ensures Run(OneJobPerDocument, start, steps) == Run(OneWorker, start, steps)
    ensures Run(OneWorker, start, steps).value.busy.Keys <= {0}
  {
    if steps != [] {
      hide DocsAfter;
      OneWorkerRun(start, steps[..|steps| - 1]);
    }
  }

  lemma OneWorkerIsEnough(s: State)
    requires Reachable(OneWorker, s)
    ensures Reachable(OneJobPerDocument, s)
  {
    var start, steps :| Run(OneWorker, start, steps) == Some(s);
    OneWorkerRun(start, steps);
  }

  /** If no document has two jobs at once, then in every reachable state a READY document has at least one
      chunk and exactly one chunk row for each index below its chunk count, a FAILED one says why, and a job was
      enqueued for every document past its upload and for none before. */
  lemma ReadyDocumentsAreComplete(s: State, id: Id)
    requires Reachable(OneJobPerDocument, s) && id in s.docs
    ensures s.docs[id].status == READY ==> Complete(s.docs[id])
    ensures s.docs[id].status == FAILED ==> s.docs[id].error.Some?
    ensures s.docs[id].status in {PENDING, PROCESSING, READY} ==> id in s.enqueued
    ensures s.docs[id].status == PENDING_UPLOAD ==> id !in s.enqueued
  {
    ReachableInvariant(s);
  }

  /** Every step but the sweep touches at most one document and one worker. */
  lemma OneDocumentAStep(s: State, a: Action, now: int, id: Id, w: Worker)
    requires Enabled(s, a) && a != Sweep
    ensures var t := Step(s, a, now);
            var touched := if a.FinishJob? || a.FailJob? then id == s.busy[a.worker]
                           else !a.CrashJob? && id == a.id;
            !touched ==> (id in t.docs <==> id in s.docs) && (id in s.docs ==> t.docs[id] == s.docs[id])
    ensures var t := Step(s, a, now);
            if a.FinishJob? || a.FailJob? || a.CrashJob? then
              t.busy.Keys == s.busy.Keys - {a.worker} && (w in t.busy ==> t.busy[w] == s.busy[w])
            else if a.StartJob? && a.id in s.docs && s.docs[a.id].status != READY then
              t.busy == s.busy[a.worker := a.id]
            else t.busy == s.busy
  {
    hide Indices, Enqueues;
  }

  /** What the steps of jobs do: they end READY with the rows, FAILED with the reason, or leave everything. */
  lemma JobsDo(s: State, a: Action, now: int)
    requires Safe(s, a) && (a.FinishJob? || a.FailJob? || a.CrashJob?) && s.busy[a.worker] in s.docs
    ensures var id := s.busy[a.worker];
            var before, docs := s.docs[id], Step(s, a, now).docs;
            && id in docs
            && (a.CrashJob? ==> docs == s.docs)
            && (a.FinishJob? ==>
                  docs[id] == before.(status := READY, updatedAt := now, chunkCount := Some(a.chunkCount),
                                      chunks := Indices(a.chunkCount)))
            && (a.FailJob? ==>
                  var kept := if |a.error| <= 500 then a.error else a.error[..500];
                  docs[id] == before.(status := FAILED, updatedAt := now, error := Some(Raised(kept)),
                                      chunks := Indices(a.flushed)))
  {
    assert Held(s.busy, s.busy[a.worker]);
    assert forall m: multiset<nat> :: multiset{} + m == m;
    hide Indices, Injective;
  }

  /** What the steps of users and of the failure handler do to their document. */
  lemma RequestsDo(s: State, a: Action, now: int)
    requires Safe(s, a) && (a.Retry? || a.Delete? || a.HandleFailure? || a.StartJob?) && a.id in s.docs
    ensures var before, t := s.docs[a.id], Step(s, a, now);
            && (a.Delete? && before.user == a.user && a.storageOk ==> a.id !in t.docs)
            && (a.Delete? && !(before.user == a.user && a.storageOk) ==> t.docs == s.docs)
            && (a.Retry? && before.user == a.user && before.status == FAILED ==>
                  && a.id in t.docs && a.id in t.enqueued
                  && t.docs[a.id] == before.(status := PROCESSING, updatedAt := now))
            && (a.Retry? && !(before.user == a.user && before.status == FAILED) ==> t.docs == s.docs)
            && (a.HandleFailure? ==>
                  && a.id in t.docs
                  && t.docs[a.id] == before.(status := FAILED, updatedAt := now, error := Some(a.reason)))
            && (a.StartJob? && before.status == READY ==> t.docs == s.docs && t.busy == s.busy)
            && (a.StartJob? && before.status != READY ==>
                  && a.id in t.docs && a.worker in t.busy && t.busy[a.worker] == a.id
                  && t.docs[a.id] == before.(status := PROCESSING, updatedAt := now, chunks := multiset{}))
  {
    hide Indices, Injective, Complete;
  }

  // Runs with the single document 1, for the examples.

  function Single(d: Doc, enqueued: set<Id>, busy: map<Worker, Id>, now: int, lastSweep: int): State {
    State(map[1 := d], {1}, enqueued, busy, now, lastSweep)
  }

  function Row(status: Status, updatedAt: int): Doc {
    Doc(7, 10, status, updatedAt, None, None, multiset{})
  }

  function Pending(): State { Single(Row(PENDING, 0), {1}, map[], 0, 0) }
  function Processing(): State { Single(Row(PROCESSING, 1), {1}, map[0 := 1], 1, 0) }
  function Ready(): State {
    Single(Row(READY, 2).(chunkCount := Some(1), chunks := Indices(1)), {1}, map[], 2, 0)
  }
  function Overtaken(): State {
    Single(Row(FAILED, 2000).(error := Some(IngestTimedOut)), {1}, map[0 := 1], 2000, 2000)
  }

  lemma UploadStep()
    ensures Step(Initial(0), Upload(1, 7, 10), 0) == Pending()
  {
    assert ActiveIds(map[], 7) == {};
  }

  lemma StartStep()
    ensures Step(Pending(), StartJob(0, 1), 1) == Processing()
  {
  }

  lemma FinishStep()
    ensures Step(Processing(), FinishJob(0, 1), 2) == Ready()
  {
    assert multiset{} + Indices(1) == Indices(1);
    assert map[0 := 1] - {0} == map[];
    hide Indices;
  }

  lemma SweepStep()
    ensures Step(Processing(), Sweep, 2000) == Overtaken()
  {
  }

  lemma ExampleRuns(deployment: Deployment)
    ensures Reachable(deployment, Pending()) && Reachable(deployment, Processing())
    ensures Reachable(deployment, Ready()) && Reachable(deployment, Overtaken())
  {
    hide Step, Reachable, Indices;
    StartReachable(deployment, 0);
    UploadStep();
    StepReachable(deployment, Initial(0), Upload(1, 7, 10), 0);
    StartStep();
    StepReachable(deployment, Pending(), StartJob(0, 1), 1);
    FinishStep();
    StepReachable(deployment, Processing(), FinishJob(0, 1), 2);
    SweepStep();
    StepReachable(deployment, Processing(), Sweep, 2000);
  }

  function Doubled(): State { Single(Row(PROCESSING, 2), {1}, map[0 := 1, 1 := 1], 2, 0) }

  lemma SecondStart()
    ensures Step(Processing(), StartJob(1, 1), 2) == Doubled()
  {
  }

  /** Commits for one chunk by two workers. */
  lemma SecondCommit()
    ensures var t := Step(Doubled(), FinishJob(0, 1), 3);
            && t.now == 3 && Enabled(t, FinishJob(1, 1))
            && Step(t, FinishJob(1, 1), 4).docs
                 == map[1 := Row(READY, 4).(chunkCount := Some(1), chunks := Indices(1) + Indices(1))]
  {
    assert multiset{} + Indices(1) == Indices(1);
  }

  /** With two running jobs for one document both commits insert their rows. */
  lemma TwoWorkersDuplicateRows()
    ensures exists s :: Reachable(AnyWorkers, s) && 1 in s.docs && s.docs[1].status == READY && !Complete(s.docs[1])
  {
    hide Step, Reachable, Indices;
    ExampleRuns(AnyWorkers);
    SecondStart();
    StepReachable(AnyWorkers, Processing(), StartJob(1, 1), 2);
    var t := Step(Doubled(), FinishJob(0, 1), 3);
    StepReachable(AnyWorkers, Doubled(), FinishJob(0, 1), 3);
    SecondCommit();
    StepReachable(AnyWorkers, t, FinishJob(1, 1), 4);
    var d := Step(t, FinishJob(1, 1), 4).docs[1];
    assert d.chunks[0] == 2 && d.chunkCount == Some(1);
  }

  // ---------------------------------------------------------------- nothing stays in limbo

  /** Since the last sweep, no waiting document is older than its cutoff was then. */
  predicate Timely(d: Doc, now: int, lastSweep: int) {
    && d.updatedAt <= now
    && (d.status == PENDING_UPLOAD ==> d.updatedAt >= lastSweep - UPLOAD_CUTOFF)
    && (d.status in {PENDING, PROCESSING} ==> d.updatedAt >= lastSweep - INGEST_CUTOFF)
  }

  predicate AllTimely(s: State) {
    s.lastSweep <= s.now && forall id :: id in s.docs ==> Timely(s.docs[id], s.now, s.lastSweep)
  }

  lemma StepKeepsTimely(s: State, a: Action, now: int)
    requires AllTimely(s) && Enabled(s, a) && s.now <= now
    ensures AllTimely(Step(s, a, now))
  {
    hide Indices;
  }

  lemma {:induction false} RunKeepsTimely(deployment: Deployment, start: int, steps: seq<Timed>)
    requires Run(deployment, start, steps).Some?
    ensures AllTimely(Run(deployment, start, steps).value)
  {
    if steps != [] {
      var n := |steps| - 1;
      RunKeepsTimely(deployment, start, steps[..n]);
      StepKeepsTimely(Run(deployment, start, steps[..n]).value, steps[n].action, steps[n].now);
    }
  }

  /** Bounded limbo: if the last sweep is at most `gap` old, no document has been PENDING_UPLOAD for more than
      15 minutes and the gap, nor PENDING or PROCESSING for more than 30 minutes and the gap. With a sweep
      every five minutes these are 20 and 35 minutes. Any number of workers may run. */
  lemma NoDocumentStaysInLimbo(s: State, id: Id, at: int, gap: nat)
    requires Reachable(AnyWorkers, s) && id in s.docs
    requires at <= s.lastSweep + gap
    ensures var d := s.docs[id];
            && (d.status == PENDING_UPLOAD ==> at - d.updatedAt <= UPLOAD_CUTOFF + gap)
            && (d.status in {PENDING, PROCESSING} ==> at - d.updatedAt <= INGEST_CUTOFF + gap)
            && (gap == 300 && d.status == PENDING_UPLOAD ==> at - d.updatedAt <= 20 * 60)
            && (gap == 300 && d.status in {PENDING, PROCESSING} ==> at - d.updatedAt <= 35 * 60)
  {
    var start, steps :| Run(AnyWorkers, start, steps) == Some(s);
    RunKeepsTimely(AnyWorkers, start, steps);
  }

  // ---------------------------------------------------------------- which status changes happen

  /** The steps that write a status the transition table does not allow: the sweep on a stale PENDING row, the
      failure handler on a PENDING or READY row, and the second commit of a job whose row was failed meanwhile. */
  predicate BypassesTable(s: State, a: Action, now: int, id: Id)
    requires Enabled(s, a) && id in s.docs
  {
    match a
    case Sweep => s.docs[id].status == PENDING && StaleIngest(s.docs[id], now)
    case HandleFailure(failing, _) => failing == id && s.docs[id].status in {PENDING, READY}
    case FinishJob(w, _) => s.busy[w] == id && s.docs[id].status == FAILED
    case _ => false
  }

  /** The step keeps the status or moves it as the table allows, unless it bypasses the table. */
  predicate InTableUnlessBypassed(s: State, a: Action, now: int, id: Id)
    requires Enabled(s, a) && id in s.docs
  {
    var docs := Step(s, a, now).docs;
    id in docs ==>
      var from, to := s.docs[id].status, docs[id].status;
      && (to == from || to in Allowed(from) <==> !BypassesTable(s, a, now, id))
      && (BypassesTable(s, a, now, id) ==> to == if from == FAILED then READY else FAILED)
  }

  lemma UserStepInTable(s: State, a: Action, now: int, id: Id)
    requires Safe(s, a) && id in s.docs
    requires a.Initiate? || a.Upload? || a.Confirm? || a.Retry? || a.Delete?
    ensures InTableUnlessBypassed(s, a, now, id)
  {
    hide Sane, Held, Injective;
  }

  lemma JobStepInTable(s: State, a: Action, now: int, id: Id)
    requires Safe(s, a) && id in s.docs
    requires a.StartJob? || a.FinishJob? || a.FailJob? || a.CrashJob?
    ensures InTableUnlessBypassed(s, a, now, id)
  {
    hide Indices;
    assert a.worker in s.busy ==> Held(s.busy, s.busy[a.worker]);
  }

  lemma FailureStepInTable(s: State, a: Action, now: int, id: Id)
    requires Safe(s, a) && id in s.docs && (a.HandleFailure? || a.Sweep?)
    ensures InTableUnlessBypassed(s, a, now, id)
  {
  }

  /** A step of a run keeps a document's status or moves it as the table allows, if and only if it is none of
      the three bypassing steps; those lead to FAILED, and from FAILED to READY. */
  lemma StatusStaysInTable(s: State, a: Action, now: int, id: Id)
    requires Reachable(OneJobPerDocument, s) && CanStep(OneJobPerDocument, s, a, now)
    requires id in s.docs && id in Step(s, a, now).docs
    ensures var from, to := s.docs[id].status, Step(s, a, now).docs[id].status;
            && (to == from || to in Allowed(from) <==> !BypassesTable(s, a, now, id))
            && (BypassesTable(s, a, now, id) ==> to == if from == FAILED then READY else FAILED)
  {
    ReachableInvariant(s);
    assert Safe(s, a);
    assert InTableUnlessBypassed(s, a, now, id) by {
      hide Safe, Step, InTableUnlessBypassed;
      match a
      case Initiate(_, _, _) | Upload(_, _, _) | Confirm(_, _, _) | Retry(_, _) | Delete(_, _, _) =>
        UserStepInTable(s, a, now, id);
      case StartJob(_, _) | FinishJob(_, _) | FailJob(_, _, _) | CrashJob(_) => JobStepInTable(s, a, now, id);
      case HandleFailure(_, _) | Sweep => FailureStepInTable(s, a, now, id);
    }
  }

  /** A READY document keeps its rows and its count until it fails or goes. */
  lemma ReadyRowsAreFrozen(s: State, a: Action, now: int, id: Id)
    requires Reachable(OneJobPerDocument, s) && CanStep(OneJobPerDocument, s, a, now)
    requires id in s.docs && s.docs[id].status == READY && id in Step(s, a, now).docs
    ensures var before, after := s.docs[id], Step(s, a, now).docs[id];
            after == before || (after.error.Some? && after == Failed(before, after.error.value, now))
  {
    ReachableInvariant(s);
    hide Indices, Reachable;
    assert forall w :: w in s.busy ==> Held(s.busy, s.busy[w]);
  }

  /** The status changes of all runs: those of the transition table and three more. */
  predicate CanMove(from: Status, to: Status) {
    || to in Allowed(from)
    || (from == PENDING && to == FAILED)
    || (from == READY && to == FAILED)
    || (from == FAILED && to == READY)
  }

  ghost predicate Moves(deployment: Deployment, s: State, a: Action, now: int, id: Id, from: Status, to: Status) {
    && Reachable(deployment, s) && CanStep(deployment, s, a, now)
    && id in s.docs && s.docs[id].status == from
    && id in Step(s, a, now).docs && Step(s, a, now).docs[id].status == to
  }

  ghost predicate Happens(deployment: Deployment, from: Status, to: Status) {
    exists s, a, now, id :: Moves(deployment, s, a, now, id, from, to)
  }

  lemma UploadMoves(to: Status)
    requires to in {PENDING, FAILED}
    ensures Happens(OneWorker, PENDING_UPLOAD, to)
  {
    var s := Single(Row(PENDING_UPLOAD, 0), {}, map[], 0, 0);
    assert ActiveIds(map[], 7) == {};
    assert Step(Initial(0), Initiate(1, 7, 10), 0) == s;
    StartReachable(OneWorker, 0);
    StepReachable(OneWorker, Initial(0), Initiate(1, 7, 10), 0);
    var a := Confirm(1, 7, Length(if to == FAILED then 100 else 10));
    assert Moves(OneWorker, s, a, 0, 1, PENDING_UPLOAD, to);
  }

  lemma PendingMoves(to: Status)
    requires to in {PROCESSING, FAILED}
    ensures Happens(OneWorker, PENDING, to)
  {
    ExampleRuns(OneWorker);
    hide Reachable;
    var a := if to == PROCESSING then StartJob(0, 1) else Sweep;
    assert Moves(OneWorker, Pending(), a, 2000, 1, PENDING, to);
  }

  lemma ProcessingMoves(to: Status)
    requires to in {READY, FAILED}
    ensures Happens(OneWorker, PROCESSING, to)
  {
    ExampleRuns(OneWorker);
    hide Reachable;
    var a := if to == READY then FinishJob(0, 1) else Sweep;
    assert Moves(OneWorker, Processing(), a, 2000, 1, PROCESSING, to);
  }

  lemma ReadyMoves()
    ensures Happens(OneWorker, READY, FAILED)
  {
    ExampleRuns(OneWorker);
    hide Reachable;
    assert Moves(OneWorker, Ready(), HandleFailure(1, Raised("")), 2, 1, READY, FAILED);
  }

  lemma FailedMoves(to: Status)
    requires to in {PROCESSING, READY}
    ensures Happens(OneWorker, FAILED, to)
  {
    ExampleRuns(OneWorker);
    hide Reachable;
    var a := if to == PROCESSING then Retry(1, 7) else FinishJob(0, 1);
    assert Moves(OneWorker, Overtaken(), a, 2000, 1, FAILED, to);
  }

  /** A status change happens in some run if and only if it is in the table or one of three more, even with a
      single worker; in particular none leads back to a status before PROCESSING. */
  lemma StatusChanges(deployment: Deployment, from: Status, to: Status)
    requires deployment != AnyWorkers && from != to
    ensures Happens(deployment, from, to) <==> CanMove(from, to)
  {
    if CanMove(from, to) {
      ChangeHappens(from, to);
      OneWorkerMoves(deployment, from, to);
    } else if Happens(deployment, from, to) {
      hide Step, Enabled, Reachable;
      var s, a, now, id :| Moves(deployment, s, a, now, id, from, to);
      OneJobStep(deployment, s, a, now);
      StatusStaysInTable(s, a, now, id);
    }
  }

  lemma ChangeHappens(from: Status, to: Status)
    requires from != to && CanMove(from, to)
    ensures Happens(OneWorker, from, to)
  {
    hide Happens;
    match from
    case PENDING_UPLOAD => UploadMoves(to);
    case PENDING => PendingMoves(to);
    case PROCESSING => ProcessingMoves(to);
    case READY => ReadyMoves();
    case FAILED => FailedMoves(to);
  }

  lemma OneWorkerMoves(deployment: Deployment, from: Status, to: Status)
    requires deployment != AnyWorkers && Happens(OneWorker, from, to)
    ensures Happens(deployment, from, to)
  {
    hide Step, Enabled, Reachable;
    var s, a, now, id :| Moves(OneWorker, s, a, now, id, from, to);
    OneJobStep(OneWorker, s, a, now);
    assert Moves(deployment, s, a, now, id, from, to);
  }

  lemma OneJobStep(deployment: Deployment, s: State, a: Action, now: int)
    requires deployment != AnyWorkers && Reachable(deployment, s) && CanStep(deployment, s, a, now)
    ensures Reachable(OneJobPerDocument, s) && CanStep(OneJobPerDocument, s, a, now)
  {
    if deployment == OneWorker {
      hide DocsAfter;
      OneWorkerIsEnough(s);
      var start, steps :| Run(OneWorker, start, steps) == Some(s);
      OneWorkerRun(start, steps);
    }
  }

  // ---------------------------------------------------------------- the document limit

  function Active(s: State, user: User): nat {
    |ActiveIds(s.docs, user)|
  }

  /** The steps that make a failed document of the user count again, none of which looks at the limit. */
  predicate Revives(s: State, a: Action, user: User)
    requires Enabled(s, a)
  {
    match a
    case Retry(id, owner) => owner == user && Owned(s.docs, id, user) && s.docs[id].status == FAILED
    case StartJob(_, id) => Owned(s.docs, id, user) && s.docs[id].status == FAILED
    case FinishJob(w, _) => Owned(s.docs, s.busy[w], user) && s.docs[s.busy[w]].status == FAILED
    case _ => false
  }

  lemma SubsetSize(a: set<Id>, b: set<Id>)
    requires a <= b
    ensures |a| <= |b|
  {
    assert b == a + (b - a);
  }

  lemma {:induction false} IdsUsed(deployment: Deployment, start: int, steps: seq<Timed>)
    requires Run(deployment, start, steps).Some?
    ensures var s := Run(deployment, start, steps).value; s.docs.Keys <= s.used
  {
    if steps != [] {
      hide Indices;
      IdsUsed(deployment, start, steps[..|steps| - 1]);
    }
  }

  /** A step that revives a document adds it to those that count. */
  lemma RevivalAddsOne(s: State, a: Action, now: int, user: User)
    requires Enabled(s, a) && Revives(s, a, user)
    ensures Active(Step(s, a, now), user) == Active(s, user) + 1
  {
    hide Indices;
    var id := if a.FinishJob? then s.busy[a.worker] else a.id;
    assert ActiveIds(DocsAfter(s, a, now), user) == ActiveIds(s.docs, user) + {id};
  }

  /** Any other step but a creation leaves no more documents that count. */
  lemma OtherStepsAddNone(s: State, a: Action, now: int, user: User)
    requires Enabled(s, a) && s.docs.Keys <= s.used && !Revives(s, a, user)
    requires !((a.Initiate? || a.Upload?) && a.user == user)
    ensures Active(Step(s, a, now), user) <= Active(s, user)
  {
    hide Indices;
    var before, after := ActiveIds(s.docs, user), ActiveIds(DocsAfter(s, a, now), user);
    forall id | id in after ensures id in before {
      assert id in s.docs;
      assert s.docs[id].user == user;
    }
    SubsetSize(after, before);
  }

  lemma CreationKeepsLimit(s: State, a: Action, now: int, user: User)
    requires Enabled(s, a) && (a.Initiate? || a.Upload?) && Active(s, user) <= MAX_DOCS_PER_USER
    ensures Active(Step(s, a, now), user) <= MAX_DOCS_PER_USER
  {
    var before, after := ActiveIds(s.docs, user), ActiveIds(DocsAfter(s, a, now), user);
    if a.user == user && |before| < MAX_DOCS_PER_USER {
      SubsetSize(after, before + {a.id});
    } else {
      assert after <= before;
      SubsetSize(after, before);
    }
  }

  /** In all runs, a step from within the limit stays within it if and only if it does not revive a document
      of a user who is at the limit. */
  lemma LimitKeptExactly(deployment: Deployment, s: State, a: Action, now: int, user: User)
    requires Reachable(deployment, s) && Enabled(s, a) && Active(s, user) <= MAX_DOCS_PER_USER
    ensures Active(Step(s, a, now), user) <= MAX_DOCS_PER_USER
       <==> !(Revives(s, a, user) && Active(s, user) == MAX_DOCS_PER_USER)
  {
    hide Step, Active;
    var start, steps :| Run(deployment, start, steps) == Some(s);
    IdsUsed(deployment, start, steps);
    if Revives(s, a, user) {
      RevivalAddsOne(s, a, now, user);
    } else if a.Initiate? || a.Upload? {
      CreationKeepsLimit(s, a, now, user);
    } else {
      OtherStepsAddNone(s, a, now, user);
    }
  }

  function Below(n: nat): (r: set<Id>)
    ensures forall id :: id in r <==> 0 <= id < n
  {
    if n == 0 then {} else Below(n - 1) + {n - 1}
  }

  /** User 7 with documents 0 to n - 1, all failed, the first r of them retried. */
  function Retrying(n: nat, r: nat): State {
    var docs := map id | id in Below(n) :: Row(if id < r then PROCESSING else FAILED, 0).(error := WrongSize());
    State(docs, Below(n), Below(r), map[], 0, 0)
  }

  function WrongSize(): Option<Reason> { Some(SizeDiffers(100, 10)) }

  lemma NoneActive(n: nat)
    ensures ActiveIds(Retrying(n, 0).docs, 7) == {} && Active(Retrying(n, 0), 7) == 0
  {
    assert ActiveIds(Retrying(n, 0).docs, 7) == {};
  }

  /** User 7 with n failed documents and a new one. */
  function WithUpload(n: nat): State {
    var s := Retrying(n, 0);
    s.(docs := s.docs[n := Row(PENDING_UPLOAD, 0)], used := s.used + {n})
  }

  lemma InitiateAdds(s: State, id: Id, user: User, size: nat)
    requires id !in s.used && Active(s, user) < MAX_DOCS_PER_USER
    ensures var row := Doc(user, size, PENDING_UPLOAD, s.now, None, None, multiset{});
            Step(s, Initiate(id, user, size), s.now) == s.(docs := s.docs[id := row], used := s.used + {id})
  {
  }

  lemma InitiateOneMore(n: nat)
    ensures CanStep(OneWorker, Retrying(n, 0), Initiate(n, 7, 10), 0)
    ensures Step(Retrying(n, 0), Initiate(n, 7, 10), 0) == WithUpload(n)
  {
    NoneActive(n);
    hide Step, Active;
    InitiateAdds(Retrying(n, 0), n, 7, 10);
  }

  lemma FailOneMore(n: nat)
    ensures CanStep(OneWorker, WithUpload(n), Confirm(n, 7, Length(100)), 0)
    ensures Step(WithUpload(n), Confirm(n, 7, Length(100)), 0) == Retrying(n + 1, 0)
  {
    var t := Step(WithUpload(n), Confirm(n, 7, Length(100)), 0);
    assert t.docs == Retrying(n, 0).docs[n := Row(FAILED, 0).(error := WrongSize())];
    assert t.docs == Retrying(n + 1, 0).docs;
  }

  lemma RetryOneMore(n: nat, r: nat)
    requires r < n
    ensures CanStep(OneWorker, Retrying(n, r), Retry(r, 7), 0)
    ensures Step(Retrying(n, r), Retry(r, 7), 0) == Retrying(n, r + 1)
    ensures Active(Retrying(n, r + 1), 7) == Active(Retrying(n, r), 7) + 1
  {
    hide Active, ActiveIds;
    var s, t := Retrying(n, r), Step(Retrying(n, r), Retry(r, 7), 0);
    assert t.docs == Retrying(n, r + 1).docs;
    assert t.enqueued == Retrying(n, r + 1).enqueued;
    RevivalAddsOne(s, Retry(r, 7), 0, 7);
  }

  lemma {:induction false} FailingReachable(n: nat)
    ensures Reachable(OneWorker, Retrying(n, 0))
  {
    hide Reachable;
    if n == 0 {
      StartReachable(OneWorker, 0);
      assert Retrying(0, 0) == Initial(0);
    } else {
      hide Retrying, WithUpload, Step, CanStep;
      FailingReachable(n - 1);
      InitiateOneMore(n - 1);
      StepReachable(OneWorker, Retrying(n - 1, 0), Initiate(n - 1, 7, 10), 0);
      FailOneMore(n - 1);
      StepReachable(OneWorker, WithUpload(n - 1), Confirm(n - 1, 7, Length(100)), 0);
    }
  }

  lemma {:induction false} RetryingReachable(n: nat, r: nat)
    requires r <= n
    ensures Reachable(OneWorker, Retrying(n, r)) && Active(Retrying(n, r), 7) == r
  {
    hide Reachable, Retrying, Step, CanStep, Active;
    if r == 0 {
      FailingReachable(n);
      NoneActive(n);
    } else {
      RetryingReachable(n, r - 1);
      RetryOneMore(n, r - 1);
      StepReachable(OneWorker, Retrying(n, r - 1), Retry(r - 1, 7), 0);
    }
  }

  /** The limit of 20 is no limit: with one worker, a user can have any number of documents that count. */
  lemma LimitUnbounded(n: nat)
    ensures exists s :: Reachable(OneWorker, s) && Active(s, 7) == n
  {
    hide Reachable;
    RetryingReachable(n, n);
  }
}
