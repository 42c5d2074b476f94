/**
 The inductive invariant of the RAB protocol.  Each part is a predicate of just the components it relates, so that a
 step keeps every part whose components it leaves alone.
 */
module RabInvariant {
  import opened Bytes
  import opened Jobs
  import opened Rab

  type Places = map<Id, Place>
  type Subs = map<Sid, Submitter>
  type Table = map<Id, Job>

  /** Every job has one row, one history ending in that row's state, and one place. */
  ghost predicate Rows(jobs: Table, history: map<Id, seq<JobStatus>>, place: Places) {
    && history.Keys == jobs.Keys && place.Keys == jobs.Keys
    && forall id | id in jobs :: RowRight(jobs[id], history[id])
  }

  ghost predicate RowRight(job: Job, path: seq<JobStatus>) {
    ValidPath(path) && path[|path| - 1] == job.status && job.rab
  }

  /** A job in the queue is QUEUED, in memory and in its row, and is queued once. */
  ghost predicate QueueRight(queue: seq<Item>, place: Places, jobs: Table) {
    && (forall i | 0 <= i < |queue| && queue[i].Work? :: ItemRight(queue[i], place, jobs))
    && (forall i, j | 0 <= i < j < |queue| && queue[i].Work? && queue[j].Work? :: queue[i].id != queue[j].id)
    && (forall id | id in place && place[id] == InQueue :: Work(id, QUEUED) in queue)
  }

  predicate ItemRight(item: Item, place: Places, jobs: Table)
    requires item.Work?
  {
    && item.mem == QUEUED && item.id in place && place[item.id] == InQueue
    && item.id in jobs && jobs[item.id].status == QUEUED
  }

  function JobOf(w: Worker): Option<Id> {
    match w
    case Holding(id, _) => Some(id)
    case Executing(id) => Some(id)
    case Cleaning(id) => Some(id)
    case _ => None
  }

  /** A worker's job is the worker's alone, and its row has the state the worker believes it has. */
  ghost predicate WorkersRight(workers: seq<Worker>, place: Places, jobs: Table) {
    && (forall w | 0 <= w < |workers| :: WorkerRight(workers[w], w, place, jobs))
    && (forall id | id in place && place[id].AtWorker? ::
          place[id].w < |workers| && JobOf(workers[place[id].w]) == Some(id))
  }

  predicate WorkerRight(worker: Worker, w: nat, place: Places, jobs: Table) {
    match JobOf(worker)
    case None => true
    case Some(id) =>
      && id in place && place[id] == AtWorker(w) && id in jobs
      && (worker.Holding? ==> worker.mem == QUEUED && jobs[id].status == QUEUED)
      && (worker.Executing? ==> jobs[id].status == RUNNING)
      && (worker.Cleaning? ==> Terminal(jobs[id].status))
  }

  predicate InLock(sub: Submitter) {
    sub.Checking? || sub.Working?
  }

  /** The lock holder is the only submitter in the locked section. */
  ghost predicate LockRight(lock: Option<Sid>, subs: Subs) {
    && (forall sid | sid in subs :: InLock(subs[sid]) <==> lock == Some(sid))
    && (lock.Some? ==> lock.value in subs)
  }

  function StageStatus(stage: Stage): JobStatus {
    match stage
    case IsCreated => CREATED
    case IsStaged => STAGED
    case _ => QUEUED
  }

  /** A submitter's new job is its own, and recorded only at the end. */
  ghost predicate SubmittersRight(subs: Subs, place: Places, jobs: Table, rab: map<Key, Record>) {
    && (forall sid | sid in subs && subs[sid].Working? :: SubmitterRight(subs[sid], sid, place, jobs, rab))
    && (forall id | id in place && place[id].AtSubmitter? :: IsAtWork(subs, place[id].sid, id))
  }

  predicate SubmitterRight(sub: Submitter, sid: Sid, place: Places, jobs: Table, rab: map<Key, Record>)
    requires sub.Working?
  {
    && sub.id in place && place[sub.id] == AtSubmitter(sid)
    && sub.id in jobs && jobs[sub.id].status == StageStatus(sub.stage)
    && (if sub.stage.IsRecorded? then sub.req.key in rab && rab[sub.req.key] == Record(sub.id, sub.req.fingerprint)
        else sub.req.key !in rab)
  }

  predicate IsAtWork(subs: Subs, sid: Sid, id: Id) {
    sid in subs && subs[sid].Working? && subs[sid].id == id
  }

  /** The drained job is the shutdown's alone. */
  ghost predicate ShutdownRight(phase: Phase, place: Places, jobs: Table) {
    && (forall id | id in place && place[id].AtShutdown? :: phase.Draining? && phase.held.Some? && phase.held.value.id == id)
    && (phase.Draining? && phase.held.Some? ==> HeldRight(phase.held.value, place, jobs))
  }

  predicate HeldRight(held: Held, place: Places, jobs: Table) {
    && held.id in place && place[held.id].AtShutdown? && held.id in jobs
    && jobs[held.id].status == if held.saved then FAILED else QUEUED
  }

  /** Jobs at rest are terminal. */
  ghost predicate RestRight(place: Places, jobs: Table) {
    forall id | id in place && place[id].AtRest? :: id in jobs && Terminal(jobs[id].status)
  }

  /** Without a crash the jobs lost are those whose queueing failed, and they stay QUEUED. */
  ghost predicate LostRight(crashed: bool, failedPuts: set<Id>, place: Places, jobs: Table) {
    !crashed ==>
      && (forall id | id in place && place[id].Lost? :: id in failedPuts)
      && (forall id | id in failedPuts :: id in place && place[id].Lost? && id in jobs && jobs[id].status == QUEUED)
  }

  /** A record names a job, one its submitter (if it still works on it) has recorded under that very key. */
  ghost predicate RecordsRight(rab: map<Key, Record>, place: Places, subs: Subs) {
    forall key | key in rab :: RecordRight(rab[key].id, key, place, subs)
  }

  predicate RecordRight(id: Id, key: Key, place: Places, subs: Subs) {
    && id in place
    && (place[id].AtSubmitter? ==> HasRecorded(subs, place[id].sid, key))
  }

  predicate HasRecorded(subs: Subs, sid: Sid, key: Key) {
    sid in subs && subs[sid].Working? && subs[sid].stage.IsRecorded? && subs[sid].req.key == key
  }

  /** Every acceptance is what the record for its key says, and the accepted job has left its submitter. */
  ghost predicate AcceptancesRight(accepted: set<Acceptance>, rab: map<Key, Record>, place: Places) {
    forall a | a in accepted ::
      && a.key in rab && rab[a.key] == Record(a.id, a.fingerprint)
      && a.id in place && !place[a.id].AtSubmitter?
  }

  /** Until the sentinels are sent the queue has room for the job of the submitter that checked it. */
  predicate RoomRight(capacity: nat, queue: seq<Item>, lock: Option<Sid>, subs: Subs, phase: Phase) {
    phase == Serving || phase.Draining? ==>
      && Sentinel !in queue && |queue| <= capacity
      && (lock.Some? && lock.value in subs && subs[lock.value].Working? ==> |queue| < capacity)
  }

  /** The upload file of the job should exist. */
  predicate NeedsUpload(place: Place, subs: Subs) {
    match place
    case AtSubmitter(sid) => sid in subs && subs[sid].Working? && subs[sid].stage in {IsMoved, IsRecorded}
    case InQueue => true
    case AtWorker(_) => true
    case AtShutdown => true
    case AtRest => false
    case Lost => false
  }

  /** Lost jobs aside, the upload files are exactly those needed. */
  ghost predicate UploadsRight(uploads: set<Id>, place: Places, subs: Subs) {
    && uploads <= place.Keys
    && forall id | id in place && !place[id].Lost? :: id in uploads <==> NeedsUpload(place[id], subs)
  }


  /** Nothing but a restart removes the upload of a job whose queueing failed. */
  predicate FailedRight(crashed: bool, failedPuts: set<Id>, uploads: set<Id>) {
    !crashed ==> failedPuts <= uploads
  }

  /** Outside service nothing runs. */
  ghost predicate QuietRight(s: State) {
    !Up(s) ==>
      && s.queue == [] && s.workers == [] && s.subs == map[] && s.lock == None
      && (forall id | id in s.place :: s.place[id].AtRest? || s.place[id].Lost?)
      && (!s.crashed ==> s.jobs == map[])
  }

  /** After reconciliation nothing is stale. */
  ghost predicate SweepRight(phase: Phase, jobs: Table) {
    phase.Sweeping? ==>
      && (forall id | id in jobs :: !Stale(jobs[id]))
      && (forall id | id in phase.todo :: id in jobs)
  }

  /** Who holds which job. */
  ghost predicate HoldersRight(s: State) {
    && QueueRight(s.queue, s.place, s.jobs)
    && WorkersRight(s.workers, s.place, s.jobs)
    && SubmittersRight(s.subs, s.place, s.jobs, s.rab)
    && ShutdownRight(s.phase, s.place, s.jobs)
    && RestRight(s.place, s.jobs)
    && LostRight(s.crashed, s.failedPuts, s.place, s.jobs)
  }

  ghost predicate TablesRight(c: Config, s: State) {
    && RecordsRight(s.rab, s.place, s.subs)
    && AcceptancesRight(s.accepted, s.rab, s.place)
    && RoomRight(c.capacity, s.queue, s.lock, s.subs, s.phase)
    && UploadsRight(s.uploads, s.place, s.subs)
    && FailedRight(s.crashed, s.failedPuts, s.uploads)
    && QuietRight(s)
    && SweepRight(s.phase, s.jobs)
  }

  ghost predicate Inv(c: Config, s: State) {
    && Rows(s.jobs, s.history, s.place)
    && LockRight(s.lock, s.subs)
    && HoldersRight(s)
    && TablesRight(c, s)
  }

  lemma InitHolds(c: Config)
    ensures Inv(c, Init())
  {
  }
}
