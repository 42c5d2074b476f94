/**
 The RAB job protocol as a step relation: concurrent submitters under one lock, workers on a bounded queue, the
 shutdown drain, and crash and restart, over the persistent tables and the upload files.
 */
module Rab {
  import opened Bytes
  import opened Jobs

  type Sid = nat

  datatype Config = Config(capacity: nat, workers: nat)

  datatype Request = Request(key: Key, fingerprint: nat)

  datatype Verdict = CLEAN | MALICIOUS | SUSPICIOUS | PUA | ERROR | UNSUPPORTED | NOT_SCANNED | UNKNOWN

  /** What the scanners make of a job: the verdicts of all results, or an exception inside the scan. */
  datatype Scan = Results(verdicts: set<Verdict>) | Raises

  /** `aggregate_verdict`. */
  function Aggregate(verdicts: set<Verdict>): Verdict {
    if MALICIOUS in verdicts then MALICIOUS
    else if PUA in verdicts then PUA
    else if SUSPICIOUS in verdicts then SUSPICIOUS
    else if ERROR in verdicts then if verdicts == {ERROR} then ERROR else UNKNOWN
    else if CLEAN in verdicts then CLEAN
    else if UNKNOWN in verdicts then UNKNOWN
    else if UNSUPPORTED in verdicts then UNSUPPORTED
    else NOT_SCANNED
  }

  /** The state a scan leaves its job in. */
  function StatusOf(scan: Scan): JobStatus {
    match scan
    case Raises => FAILED
    case Results(verdicts) => if Aggregate(verdicts) in {MALICIOUS, SUSPICIOUS, PUA} then QUARANTINED else COMPLETE
  }

  /** A queue entry: the job object with the state it carries in memory, or the `None` that stops a worker. */
  datatype Item = Work(id: Id, mem: JobStatus) | Sentinel

  datatype Worker = Idle | Holding(id: Id, mem: JobStatus) | Executing(id: Id) | Cleaning(id: Id) | Exited

  /** How far a submitter has come with the job it is creating under the lock. */
  datatype Stage = IsCreated | IsStaged | IsQueued | IsMoved | IsRecorded

  datatype Submitter = Uploading(req: Request) | Checking(req: Request) | Working(req: Request, id: Id, stage: Stage) | Finished

  datatype Phase = Down | Reconciling(any: bool) | Sweeping(todo: set<Id>)
                 | Serving | Draining(held: Option<Held>) | Stopping(sent: nat) | Stopped

  /** The job the shutdown drain has taken off the queue. */
  datatype Held = Held(id: Id, saved: bool)

  datatype Acceptance = Acceptance(key: Key, fingerprint: nat, id: Id)

  /** Where a job is.  `Lost` jobs belong to no one: their holder crashed, or queueing them failed. */
  datatype Place = AtSubmitter(sid: Sid) | InQueue | AtWorker(w: nat) | AtShutdown | AtRest | Lost

  /**
   Persistent: `jobs`, `rab`, `uploads`.  Volatile: the queue, the workers, the submitters, the lock, the phase.
   Log of the run, read by no step: `history` (every state saved for a job), `place`, `accepted`, `crashed`, `failedPuts`.
   */
  datatype State = State(
    jobs: map<Id, Job>, rab: map<Key, Record>, uploads: set<Id>,
    queue: seq<Item>, workers: seq<Worker>, subs: map<Sid, Submitter>, lock: Option<Sid>, phase: Phase,
    history: map<Id, seq<JobStatus>>, place: map<Id, Place>, accepted: set<Acceptance>, crashed: bool, failedPuts: set<Id>)

  predicate Up(s: State) {
    s.phase in {Serving, Stopped} || s.phase.Draining? || s.phase.Stopping?
  }

  /** A transition of the holder's copy, saved. */
  function Save(s: State, id: Id, status: JobStatus): State
    requires id in s.jobs && id in s.history
  {
    s.(jobs := s.jobs[id := s.jobs[id].(status := status)], history := s.history[id := s.history[id] + [status]])
  }

  datatype Action =
    | Arrive(sid: Sid, req: Request) | AbortUpload(sid: Sid) | Lock(sid: Sid)
    | Duplicate(sid: Sid) | Refuse(sid: Sid) | Create(sid: Sid, id: Id)
    | SaveStaged(sid: Sid) | SaveQueued(sid: Sid) | MoveUpload(sid: Sid) | SaveRecord(sid: Sid) | Put(sid: Sid) | PutFails(sid: Sid)
    | Take(w: nat) | Begin(w: nat) | Reject(w: nat) | Finish(w: nat, scan: Scan) | Remove(w: nat)
    | StartDrain | DrainTake | DrainFail | DrainRemove | DrainEnd | PutSentinel | Join
    | Crash | StartReconcile | ReconcileOne(id: Id) | ReconcileEnd | Sweep(id: Id) | Start

  predicate IsWorking(s: State, sid: Sid, stage: Stage) {
    Up(s) && sid in s.subs && s.subs[sid].Working? && s.subs[sid].stage == stage
      && s.subs[sid].id in s.jobs && s.subs[sid].id in s.history
  }

  predicate IsChecking(s: State, sid: Sid) {
    Up(s) && sid in s.subs && s.subs[sid].Checking?
  }

  predicate HasWorker(s: State, w: nat) {
    Up(s) && w < |s.workers|
  }

  predicate IsSaved(s: State, id: Id) {
    id in s.jobs && id in s.history
  }

  predicate Enabled(c: Config, s: State, a: Action) {
    match a
    case Arrive(sid, _) => Up(s) && sid !in s.subs
    case AbortUpload(sid) => Up(s) && sid in s.subs && s.subs[sid].Uploading?
    case Lock(sid) => Up(s) && sid in s.subs && s.subs[sid].Uploading? && s.lock.None?
    // Under the lock: an existing record decides; otherwise analyzers and the queue's room do.
    case Duplicate(sid) =>
      IsChecking(s, sid) && s.subs[sid].req.key in s.rab && s.rab[s.subs[sid].req.key].fingerprint == s.subs[sid].req.fingerprint
    case Refuse(sid) =>
      // Conflict, unavailable analyzer or full queue.
      IsChecking(s, sid) && (s.subs[sid].req.key in s.rab ==> s.rab[s.subs[sid].req.key].fingerprint != s.subs[sid].req.fingerprint)
    case Create(sid, id) =>
      IsChecking(s, sid) && s.subs[sid].req.key !in s.rab && |s.queue| < c.capacity
      && id !in s.jobs && id !in s.history && id !in s.place
    case SaveStaged(sid) => IsWorking(s, sid, IsCreated)
    case SaveQueued(sid) => IsWorking(s, sid, IsStaged)
    case MoveUpload(sid) => IsWorking(s, sid, IsQueued)
    case SaveRecord(sid) => IsWorking(s, sid, IsMoved)
    case Put(sid) => IsWorking(s, sid, IsRecorded) && |s.queue| < c.capacity
    case PutFails(sid) => IsWorking(s, sid, IsRecorded) && |s.queue| >= c.capacity
    case Take(w) => HasWorker(s, w) && s.workers[w].Idle? && s.queue != []
    case Begin(w) => HasWorker(s, w) && s.workers[w].Holding? && s.workers[w].mem == QUEUED && IsSaved(s, s.workers[w].id)
    case Reject(w) => HasWorker(s, w) && s.workers[w].Holding? && s.workers[w].mem != QUEUED && IsSaved(s, s.workers[w].id)
    case Finish(w, _) => HasWorker(s, w) && s.workers[w].Executing? && IsSaved(s, s.workers[w].id)
    case Remove(w) => HasWorker(s, w) && s.workers[w].Cleaning?
    case StartDrain => s.phase == Serving
    case DrainTake => s.phase == Draining(None) && s.queue != []
    case DrainFail => s.phase.Draining? && s.phase.held.Some? && !s.phase.held.value.saved && IsSaved(s, s.phase.held.value.id)
    case DrainRemove => s.phase.Draining? && s.phase.held.Some? && s.phase.held.value.saved
    case DrainEnd => s.phase == Draining(None) && s.queue == []
    case PutSentinel => s.phase.Stopping? && s.phase.sent < |s.workers| && |s.queue| < c.capacity
    case Join => s.phase == Stopping(|s.workers|) && forall w | 0 <= w < |s.workers| :: s.workers[w].Exited?
    case Crash => true
    case StartReconcile => s.phase == Down
    case ReconcileOne(id) => s.phase.Reconciling? && IsSaved(s, id) && Stale(s.jobs[id])
    case ReconcileEnd => s.phase.Reconciling? && forall id | id in s.jobs :: !Stale(s.jobs[id])
    case Sweep(id) => s.phase.Sweeping? && id in s.phase.todo
    case Start => s.phase == Sweeping({})
  }

  /** The submitter leaves the locked section. */
  function Leave(s: State, sid: Sid): State {
    s.(subs := s.subs[sid := Finished], lock := None)
  }

  function Advance(s: State, sid: Sid, stage: Stage): State
    requires sid in s.subs && s.subs[sid].Working?
  {
    s.(subs := s.subs[sid := s.subs[sid].(stage := stage)])
  }

  function SetWorker(s: State, w: nat, worker: Worker): State
    requires w < |s.workers|
  {
    s.(workers := s.workers[w := worker])
  }

  function IdleWorkers(n: nat): seq<Worker> {
    seq(n, i => Idle)
  }

  /** The recorded jobs whose interruption was noted: what the sweep removes uploads of. */
  function Interrupted(s: State): set<Id> {
    set key | key in s.rab && s.rab[key].id in s.jobs && s.jobs[s.rab[key].id].interrupted :: s.rab[key].id
  }

  function Apply(c: Config, s: State, a: Action): State
    requires Enabled(c, s, a)
  {
    match a
    case Arrive(sid, req) => s.(subs := s.subs[sid := Uploading(req)])
    case AbortUpload(sid) => s.(subs := s.subs[sid := Finished])
    case Lock(sid) => s.(subs := s.subs[sid := Checking(s.subs[sid].req)], lock := Some(sid))
    case Duplicate(sid) =>
      var req := s.subs[sid].req;
      Leave(s, sid).(accepted := s.accepted + {Acceptance(req.key, req.fingerprint, s.rab[req.key].id)})
    case Refuse(sid) => Leave(s, sid)
    case Create(sid, id) =>
      s.(jobs := s.jobs[id := Job(true, CREATED, false)], history := s.history[id := [CREATED]],
         place := s.place[id := AtSubmitter(sid)], subs := s.subs[sid := Working(s.subs[sid].req, id, IsCreated)])
    case SaveStaged(sid) => Advance(Save(s, s.subs[sid].id, STAGED), sid, IsStaged)
    case SaveQueued(sid) => Advance(Save(s, s.subs[sid].id, QUEUED), sid, IsQueued)
    case MoveUpload(sid) => Advance(s, sid, IsMoved).(uploads := s.uploads + {s.subs[sid].id})
    case SaveRecord(sid) =>
      Advance(s, sid, IsRecorded).(rab := s.rab[s.subs[sid].req.key := Record(s.subs[sid].id, s.subs[sid].req.fingerprint)])
    case Put(sid) =>
      var sub := s.subs[sid];
      Leave(s, sid).(queue := s.queue + [Work(sub.id, QUEUED)], place := s.place[sub.id := InQueue],
                     accepted := s.accepted + {Acceptance(sub.req.key, sub.req.fingerprint, sub.id)})
    case PutFails(sid) =>
      Leave(s, sid).(place := s.place[s.subs[sid].id := Lost], failedPuts := s.failedPuts + {s.subs[sid].id})
    case Take(w) =>
      if s.queue[0].Sentinel? then SetWorker(s, w, Exited).(queue := s.queue[1..])
      else SetWorker(s, w, Holding(s.queue[0].id, s.queue[0].mem)).(queue := s.queue[1..], place := s.place[s.queue[0].id := AtWorker(w)])
    case Begin(w) => SetWorker(Save(s, s.workers[w].id, RUNNING), w, Executing(s.workers[w].id))
    case Reject(w) =>
      // `execute_queued` raised: the worker fails whatever row it finds.
      SetWorker(Save(s, s.workers[w].id, FAILED), w, Cleaning(s.workers[w].id))
    case Finish(w, scan) => SetWorker(Save(s, s.workers[w].id, StatusOf(scan)), w, Cleaning(s.workers[w].id))
    case Remove(w) =>
      SetWorker(s, w, Idle).(uploads := s.uploads - {s.workers[w].id}, place := s.place[s.workers[w].id := AtRest])
    case StartDrain => s.(phase := Draining(None))
    case DrainTake =>
      if s.queue[0].Sentinel? then s.(queue := s.queue[1..])
      else s.(queue := s.queue[1..], phase := Draining(Some(Held(s.queue[0].id, false))), place := s.place[s.queue[0].id := AtShutdown])
    case DrainFail => Save(s, s.phase.held.value.id, FAILED).(phase := Draining(Some(Held(s.phase.held.value.id, true))))
    case DrainRemove =>
      s.(uploads := s.uploads - {s.phase.held.value.id}, phase := Draining(None), place := s.place[s.phase.held.value.id := AtRest])
    case DrainEnd => s.(phase := Stopping(0))
    case PutSentinel => s.(queue := s.queue + [Sentinel], phase := Stopping(s.phase.sent + 1))
    case Join => s.(phase := Stopped)
    case Crash =>
      s.(queue := [], workers := [], subs := map[], lock := None, phase := Down, crashed := true,
         place := map id | id in s.place :: if s.place[id].AtRest? then AtRest else Lost)
    case StartReconcile => s.(phase := Reconciling(false))
    case ReconcileOne(id) =>
      s.(jobs := s.jobs[id := Interrupt(s.jobs[id])], history := s.history[id := s.history[id] + [FAILED]],
         phase := Reconciling(true))
    case ReconcileEnd => s.(phase := Sweeping(if s.phase.any then Interrupted(s) else {}))
    case Sweep(id) => s.(uploads := s.uploads - {id}, phase := Sweeping(s.phase.todo - {id}))
    case Start => s.(queue := [], workers := IdleWorkers(c.workers), subs := map[], lock := None, phase := Serving)
  }

  /** A new installation: empty tables, nothing running. */
  function Init(): State {
    State(map[], map[], {}, [], [], map[], None, Down, map[], map[], {}, false, {})
  }

  /** A run: a state after every step, the first being `Init()`. */
  ghost predicate IsRun(c: Config, states: seq<State>, actions: seq<Action>) {
    && |states| == |actions| + 1 && states[0] == Init()
    && forall i | 0 <= i < |actions| :: Enabled(c, states[i], actions[i]) && states[i + 1] == Apply(c, states[i], actions[i])
  }
}
