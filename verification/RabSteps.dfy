/** Every step keeps the invariant. */
module RabSteps {
  import opened Bytes
  import opened Jobs
  import opened Rab
  import opened RabInvariant
  import opened RabHolders

  lemma Unmoved(s: State, id: Id)
    ensures id in s.place ==> s.place[id := s.place[id]] == s.place
    ensures id in s.jobs ==> s.jobs[id := s.jobs[id]] == s.jobs
  {
  }

  lemma RowsSave(jobs: Table, history: map<Id, seq<JobStatus>>, place: Places, id: Id, job: Job)
    requires Rows(jobs, history, place) && id in jobs && job.rab == jobs[id].rab && job.status in Transitions(jobs[id].status)
    ensures Rows(jobs[id := job], history[id := history[id] + [job.status]], place)
  {
    hide ValidPath;
    assert RowRight(jobs[id], history[id]);
    ExtendPath(history[id], job.status);
  }

  lemma RowsCreate(jobs: Table, history: map<Id, seq<JobStatus>>, place: Places, id: Id, next: Place)
    requires Rows(jobs, history, place) && id !in jobs
    ensures Rows(jobs[id := Job(true, CREATED, false)], history[id := [CREATED]], place[id := next])
  {
    hide ValidPath;
    assert ValidPath([CREATED]) by { NewPath(); }
  }

  lemma RowsMove(jobs: Table, history: map<Id, seq<JobStatus>>, place: Places, id: Id, next: Place)
    requires Rows(jobs, history, place) && id in place
    ensures Rows(jobs, history, place[id := next])
  {
  }

  lemma CrashedPlaces(c: Config, s: State)
    ensures var place := Apply(c, s, Crash).place;
            place.Keys == s.place.Keys && forall id | id in s.place :: place[id] == if s.place[id].AtRest? then AtRest else Lost
  {
  }

  /** With every job at rest or lost, nobody is rightly left with nothing. */
  lemma NobodyHolds(place: Places, jobs: Table, rab: map<Key, Record>)
    requires forall id | id in place :: place[id].AtRest? || place[id].Lost?
    ensures QueueRight([], place, jobs) && WorkersRight([], place, jobs)
    ensures SubmittersRight(map[], place, jobs, rab) && ShutdownRight(Down, place, jobs)
  {
  }

  lemma SubmitterOwns(s: State, sid: Sid)
    requires HoldersRight(s) && sid in s.subs && s.subs[sid].Working?
    ensures SubmitterRight(s.subs[sid], sid, s.place, s.jobs, s.rab)
  {
  }

  lemma QueueOwns(s: State)
    requires HoldersRight(s) && s.queue != [] && s.queue[0].Work?
    ensures ItemRight(s.queue[0], s.place, s.jobs)
  {
  }

  lemma WorkerOwns(s: State, w: nat)
    requires HoldersRight(s) && w < |s.workers|
    ensures WorkerRight(s.workers[w], w, s.place, s.jobs)
  {
  }

  lemma NotFailed(s: State, id: Id)
    requires HoldersRight(s) && !s.crashed && id in s.place && !s.place[id].Lost?
    ensures id !in s.failedPuts
  {
  }

  lemma ShutdownOwns(s: State)
    requires HoldersRight(s) && s.phase.Draining? && s.phase.held.Some?
    ensures HeldRight(s.phase.held.value, s.place, s.jobs)
  {
  }

  lemma CreateHolders(c: Config, s: State, sid: Sid, id: Id)
    requires Inv(c, s) && Enabled(c, s, Create(sid, id))
    ensures HoldersRight(Apply(c, s, Create(sid, id)))
  {
    hide QueueRight, WorkersRight, SubmittersRight, ShutdownRight, RestRight, LostRight, Rows, TablesRight, LockRight;
    Unmoved(s, id);
    Bystanders(s, id, AtSubmitter(sid), Job(true, CREATED, false));
    SubmitterCreates(s.subs, s.place, s.jobs, s.rab, sid, id, Job(true, CREATED, false));
  }

  lemma CreateKeeps(c: Config, s: State, sid: Sid, id: Id)
    requires Inv(c, s) && Enabled(c, s, Create(sid, id))
    ensures Inv(c, Apply(c, s, Create(sid, id)))
  {
    hide QueueRight, WorkersRight, SubmittersRight, ShutdownRight, RestRight, LostRight, HoldersRight, Rows;
    CreateHolders(c, s, sid, id);
    RowsCreate(s.jobs, s.history, s.place, id, AtSubmitter(sid));
  }

  lemma SaveStagedKeeps(c: Config, s: State, sid: Sid)
    requires Inv(c, s) && Enabled(c, s, SaveStaged(sid))
    ensures Inv(c, Apply(c, s, SaveStaged(sid)))
  {
    hide QueueRight, WorkersRight, SubmittersRight, ShutdownRight, RestRight, LostRight, Rows, ValidPath;
    var id := s.subs[sid].id;
    SubmitterOwns(s, sid);
    var job := s.jobs[id].(status := STAGED);
    Unmoved(s, id);
    Bystanders(s, id, s.place[id], job);
    SubmitterSaves(s.subs, s.place, s.jobs, s.rab, sid, IsStaged, job);
    RowsSave(s.jobs, s.history, s.place, id, job);
  }

  lemma SaveQueuedKeeps(c: Config, s: State, sid: Sid)
    requires Inv(c, s) && Enabled(c, s, SaveQueued(sid))
    ensures Inv(c, Apply(c, s, SaveQueued(sid)))
  {
    hide QueueRight, WorkersRight, SubmittersRight, ShutdownRight, RestRight, LostRight, Rows, ValidPath;
    var id := s.subs[sid].id;
    SubmitterOwns(s, sid);
    var job := s.jobs[id].(status := QUEUED);
    Unmoved(s, id);
    Bystanders(s, id, s.place[id], job);
    SubmitterSaves(s.subs, s.place, s.jobs, s.rab, sid, IsQueued, job);
    RowsSave(s.jobs, s.history, s.place, id, job);
  }

  /** What the tables say stays right when a submitter leaves with its job recorded. */
  lemma LeaveTables(s: State, sid: Sid, next: Place)
    requires SubmittersRight(s.subs, s.place, s.jobs, s.rab) && sid in s.subs && s.subs[sid].Working? && s.subs[sid].stage.IsRecorded?
    requires UploadsRight(s.uploads, s.place, s.subs) && RecordsRight(s.rab, s.place, s.subs) && (next.InQueue? || next.Lost?)
    ensures UploadsRight(s.uploads, s.place[s.subs[sid].id := next], s.subs[sid := Finished])
    ensures RecordsRight(s.rab, s.place[s.subs[sid].id := next], s.subs[sid := Finished])
    ensures s.subs[sid].id in s.uploads
  {
    var id := s.subs[sid].id;
    assert SubmitterRight(s.subs[sid], sid, s.place, s.jobs, s.rab);
  }

  lemma PutHolders(c: Config, s: State, sid: Sid)
    requires Inv(c, s) && Enabled(c, s, Put(sid))
    ensures HoldersRight(Apply(c, s, Put(sid)))
  {
    hide QueueRight, WorkersRight, ShutdownRight, RestRight, LostRight, Rows, TablesRight, LockRight;
    var id := s.subs[sid].id;
    SubmitterOwns(s, sid);
    Unmoved(s, id);
    Bystanders(s, id, InQueue, s.jobs[id]);
    SubmitterLeaves(s.subs, s.place, s.jobs, s.rab, sid, InQueue);
    QueueGains(s.queue, s.place, s.jobs, id);
  }

  lemma PutKeeps(c: Config, s: State, sid: Sid)
    requires Inv(c, s) && Enabled(c, s, Put(sid))
    ensures Inv(c, Apply(c, s, Put(sid)))
  {
    hide QueueRight, WorkersRight, SubmittersRight, ShutdownRight, RestRight, LostRight, RecordsRight, UploadsRight, Rows;
    PutHolders(c, s, sid);
    SubmitterOwns(s, sid);
    LeaveTables(s, sid, InQueue);
    RowsMove(s.jobs, s.history, s.place, s.subs[sid].id, InQueue);
  }

  lemma PutFailsHolders(c: Config, s: State, sid: Sid)
    requires Inv(c, s) && Enabled(c, s, PutFails(sid))
    ensures HoldersRight(Apply(c, s, PutFails(sid)))
  {
    hide QueueRight, WorkersRight, ShutdownRight, RestRight, LostRight, Rows, TablesRight, LockRight;
    var id := s.subs[sid].id;
    SubmitterOwns(s, sid);
    Unmoved(s, id);
    Bystanders(s, id, Lost, s.jobs[id]);
    SubmitterLeaves(s.subs, s.place, s.jobs, s.rab, sid, Lost);
    LostGains(s.crashed, s.failedPuts, s.place, s.jobs, id);
  }

  lemma PutFailsKeeps(c: Config, s: State, sid: Sid)
    requires Inv(c, s) && Enabled(c, s, PutFails(sid))
    ensures Inv(c, Apply(c, s, PutFails(sid)))
  {
    hide QueueRight, WorkersRight, SubmittersRight, ShutdownRight, RestRight, LostRight, RecordsRight, UploadsRight, Rows;
    PutFailsHolders(c, s, sid);
    SubmitterOwns(s, sid);
    LeaveTables(s, sid, Lost);
    RowsMove(s.jobs, s.history, s.place, s.subs[sid].id, Lost);
  }

  lemma TakeHolders(c: Config, s: State, w: nat)
    requires Inv(c, s) && Enabled(c, s, Take(w))
    ensures HoldersRight(Apply(c, s, Take(w)))
  {
    hide QueueRight, WorkersRight, SubmittersRight, ShutdownRight, RestRight, LostRight, Rows, TablesRight, LockRight;
    if s.queue[0].Sentinel? {
      QueueStops(s.queue, s.place, s.jobs);
      WorkerStops(s.workers, s.place, s.jobs, w);
    } else {
      var id := s.queue[0].id;
      QueueOwns(s);
      Unmoved(s, id);
      Bystanders(s, id, AtWorker(w), s.jobs[id]);
      QueueLoses(s.queue, s.place, s.jobs, AtWorker(w));
      WorkerTakes(s.workers, s.place, s.jobs, w, id);
    }
  }

  lemma TakeKeeps(c: Config, s: State, w: nat)
    requires Inv(c, s) && Enabled(c, s, Take(w))
    ensures Inv(c, Apply(c, s, Take(w)))
  {
    hide QueueRight, WorkersRight, SubmittersRight, ShutdownRight, RestRight, LostRight, HoldersRight, Rows;
    TakeHolders(c, s, w);
    if s.queue[0].Work? { QueueOwns(s); RowsMove(s.jobs, s.history, s.place, s.queue[0].id, AtWorker(w)); }
  }

  lemma BeginKeeps(c: Config, s: State, w: nat)
    requires Inv(c, s) && Enabled(c, s, Begin(w))
    ensures Inv(c, Apply(c, s, Begin(w)))
  {
    hide QueueRight, WorkersRight, SubmittersRight, ShutdownRight, RestRight, LostRight, Rows, ValidPath;
    var id := s.workers[w].id;
    WorkerOwns(s, w);
    var job := s.jobs[id].(status := RUNNING);
    Unmoved(s, id);
    Bystanders(s, id, s.place[id], job);
    WorkerSaves(s.workers, s.place, s.jobs, w, id, Executing(id), job);
    RowsSave(s.jobs, s.history, s.place, id, job);
  }

  lemma StatusIsTerminal(scan: Scan)
    ensures StatusOf(scan) in Transitions(RUNNING) && Terminal(StatusOf(scan))
  {
  }

  lemma FinishKeeps(c: Config, s: State, w: nat, scan: Scan)
    requires Inv(c, s) && Enabled(c, s, Finish(w, scan))
    ensures Inv(c, Apply(c, s, Finish(w, scan)))
  {
    StatusIsTerminal(scan);
    hide StatusOf, QueueRight, WorkersRight, SubmittersRight, ShutdownRight, RestRight, LostRight, Rows, ValidPath;
    var id := s.workers[w].id;
    WorkerOwns(s, w);
    var job := s.jobs[id].(status := StatusOf(scan));
    Unmoved(s, id);
    Bystanders(s, id, s.place[id], job);
    WorkerSaves(s.workers, s.place, s.jobs, w, id, Cleaning(id), job);
    RowsSave(s.jobs, s.history, s.place, id, job);
  }

  lemma RemoveHolders(c: Config, s: State, w: nat)
    requires Inv(c, s) && Enabled(c, s, Remove(w))
    ensures HoldersRight(Apply(c, s, Remove(w)))
  {
    hide QueueRight, WorkersRight, SubmittersRight, ShutdownRight, RestRight, LostRight, Rows, TablesRight, LockRight;
    var id := s.workers[w].id;
    WorkerOwns(s, w);
    Unmoved(s, id);
    Bystanders(s, id, AtRest, s.jobs[id]);
    WorkerReleases(s.workers, s.place, s.jobs, w, id);
  }

  lemma RemoveKeeps(c: Config, s: State, w: nat)
    requires Inv(c, s) && Enabled(c, s, Remove(w))
    ensures Inv(c, Apply(c, s, Remove(w)))
  {
    hide QueueRight, WorkersRight, SubmittersRight, ShutdownRight, RestRight, LostRight, HoldersRight, ValidPath;
    RemoveHolders(c, s, w);
    WorkerOwns(s, w);
    if !s.crashed { NotFailed(s, s.workers[w].id); }
  }

  lemma DrainTakeHolders(c: Config, s: State)
    requires Inv(c, s) && Enabled(c, s, DrainTake)
    ensures HoldersRight(Apply(c, s, DrainTake))
  {
    hide QueueRight, WorkersRight, SubmittersRight, RestRight, LostRight, Rows, TablesRight, LockRight;
    if s.queue[0].Sentinel? {
      QueueStops(s.queue, s.place, s.jobs);
    } else {
      var id := s.queue[0].id;
      QueueOwns(s);
      Unmoved(s, id);
      Bystanders(s, id, AtShutdown, s.jobs[id]);
      QueueLoses(s.queue, s.place, s.jobs, AtShutdown);
    }
  }

  lemma DrainTakeKeeps(c: Config, s: State)
    requires Inv(c, s) && Enabled(c, s, DrainTake)
    ensures Inv(c, Apply(c, s, DrainTake))
  {
    hide QueueRight, WorkersRight, SubmittersRight, ShutdownRight, RestRight, LostRight, HoldersRight, ValidPath;
    DrainTakeHolders(c, s);
    if s.queue[0].Work? { QueueOwns(s); }
  }

  lemma DrainFailKeeps(c: Config, s: State)
    requires Inv(c, s) && Enabled(c, s, DrainFail)
    ensures Inv(c, Apply(c, s, DrainFail))
  {
    hide QueueRight, WorkersRight, SubmittersRight, ShutdownRight, RestRight, LostRight, Rows, ValidPath;
    var id := s.phase.held.value.id;
    ShutdownOwns(s);
    var job := s.jobs[id].(status := FAILED);
    Unmoved(s, id);
    Bystanders(s, id, s.place[id], job);
    DrainSaves(s.phase, s.place, s.jobs, id, job);
    RowsSave(s.jobs, s.history, s.place, id, job);
  }

  lemma DrainRemoveHolders(c: Config, s: State)
    requires Inv(c, s) && Enabled(c, s, DrainRemove)
    ensures HoldersRight(Apply(c, s, DrainRemove))
  {
    hide QueueRight, WorkersRight, SubmittersRight, RestRight, LostRight, Rows, TablesRight;
    var id := s.phase.held.value.id;
    ShutdownOwns(s);
    Unmoved(s, id);
    Bystanders(s, id, AtRest, s.jobs[id]);
  }

  lemma DrainRemoveKeeps(c: Config, s: State)
    requires Inv(c, s) && Enabled(c, s, DrainRemove)
    ensures Inv(c, Apply(c, s, DrainRemove))
  {
    hide QueueRight, WorkersRight, SubmittersRight, ShutdownRight, RestRight, LostRight, HoldersRight, Rows;
    var id := s.phase.held.value.id;
    DrainRemoveHolders(c, s);
    ShutdownOwns(s);
    if !s.crashed { NotFailed(s, id); }
    RowsMove(s.jobs, s.history, s.place, id, AtRest);
  }

  /** A stale job at restart is a lost one, and a crash has lost it. */
  lemma StaleIsLost(c: Config, s: State, id: Id)
    requires Inv(c, s) && !Up(s) && id in s.jobs && Stale(s.jobs[id])
    ensures s.crashed && id in s.place && s.place[id].Lost? && s.jobs[id].rab
  {
    hide QueueRight, WorkersRight, SubmittersRight, ShutdownRight, LostRight, ValidPath;
  }

  lemma ReconcileOneHolders(c: Config, s: State, id: Id)
    requires Inv(c, s) && Enabled(c, s, ReconcileOne(id))
    ensures HoldersRight(Apply(c, s, ReconcileOne(id)))
  {
    hide QueueRight, WorkersRight, SubmittersRight, RestRight, LostRight, Rows, TablesRight;
    StaleIsLost(c, s, id);
    var job := Interrupt(s.jobs[id]);
    Unmoved(s, id);
    Bystanders(s, id, s.place[id], job);
  }

  lemma ReconcileOneKeeps(c: Config, s: State, id: Id)
    requires Inv(c, s) && Enabled(c, s, ReconcileOne(id))
    ensures Inv(c, Apply(c, s, ReconcileOne(id)))
  {
    hide QueueRight, WorkersRight, SubmittersRight, ShutdownRight, RestRight, LostRight, HoldersRight, ValidPath;
    hide RecordsRight, AcceptancesRight, UploadsRight, FailedRight, LockRight;
    ReconcileOneHolders(c, s, id);
    RowsSave(s.jobs, s.history, s.place, id, Interrupt(s.jobs[id]));
  }

  lemma ArriveKeeps(c: Config, s: State, sid: Sid, req: Request)
    requires Inv(c, s) && Enabled(c, s, Arrive(sid, req))
    ensures Inv(c, Apply(c, s, Arrive(sid, req)))
  {
    hide QueueRight, WorkersRight, ShutdownRight, RestRight, LostRight, Rows;
  }

  lemma AbortUploadKeeps(c: Config, s: State, sid: Sid)
    requires Inv(c, s) && Enabled(c, s, AbortUpload(sid))
    ensures Inv(c, Apply(c, s, AbortUpload(sid)))
  {
    hide QueueRight, WorkersRight, ShutdownRight, RestRight, LostRight, Rows;
  }

  lemma LockKeeps(c: Config, s: State, sid: Sid)
    requires Inv(c, s) && Enabled(c, s, Lock(sid))
    ensures Inv(c, Apply(c, s, Lock(sid)))
  {
    hide QueueRight, WorkersRight, ShutdownRight, RestRight, LostRight, Rows;
  }

  lemma DuplicateKeeps(c: Config, s: State, sid: Sid)
    requires Inv(c, s) && Enabled(c, s, Duplicate(sid))
    ensures Inv(c, Apply(c, s, Duplicate(sid)))
  {
    hide QueueRight, WorkersRight, ShutdownRight, RestRight, LostRight, Rows;
  }

  lemma RefuseKeeps(c: Config, s: State, sid: Sid)
    requires Inv(c, s) && Enabled(c, s, Refuse(sid))
    ensures Inv(c, Apply(c, s, Refuse(sid)))
  {
    hide QueueRight, WorkersRight, ShutdownRight, RestRight, LostRight, Rows;
  }

  lemma MoveUploadKeeps(c: Config, s: State, sid: Sid)
    requires Inv(c, s) && Enabled(c, s, MoveUpload(sid))
    ensures Inv(c, Apply(c, s, MoveUpload(sid)))
  {
    hide QueueRight, WorkersRight, ShutdownRight, RestRight, LostRight, Rows;
  }

  lemma SaveRecordKeeps(c: Config, s: State, sid: Sid)
    requires Inv(c, s) && Enabled(c, s, SaveRecord(sid))
    ensures Inv(c, Apply(c, s, SaveRecord(sid)))
  {
    hide QueueRight, WorkersRight, ShutdownRight, RestRight, LostRight, Rows;
  }

  lemma StartDrainKeeps(c: Config, s: State)
    requires Inv(c, s) && Enabled(c, s, StartDrain)
    ensures Inv(c, Apply(c, s, StartDrain))
  {
    hide QueueRight, WorkersRight, SubmittersRight, RestRight, LostRight, Rows;
  }

  lemma DrainEndKeeps(c: Config, s: State)
    requires Inv(c, s) && Enabled(c, s, DrainEnd)
    ensures Inv(c, Apply(c, s, DrainEnd))
  {
    hide QueueRight, WorkersRight, SubmittersRight, RestRight, LostRight, Rows;
  }

  lemma PutSentinelKeeps(c: Config, s: State)
    requires Inv(c, s) && Enabled(c, s, PutSentinel)
    ensures Inv(c, Apply(c, s, PutSentinel))
  {
    hide WorkersRight, SubmittersRight, RestRight, LostRight, Rows;
  }

  lemma JoinKeeps(c: Config, s: State)
    requires Inv(c, s) && Enabled(c, s, Join)
    ensures Inv(c, Apply(c, s, Join))
  {
    hide QueueRight, WorkersRight, SubmittersRight, RestRight, LostRight, Rows;
  }

  lemma CrashHolders(c: Config, s: State)
    requires HoldersRight(s)
    ensures HoldersRight(Apply(c, s, Crash))
  {
    hide QueueRight, WorkersRight, SubmittersRight, ShutdownRight;
    var t := Apply(c, s, Crash);
    CrashedPlaces(c, s);
    NobodyHolds(t.place, t.jobs, t.rab);
    assert LostRight(true, t.failedPuts, t.place, t.jobs);
  }

  /** Losing every job not at rest leaves records, acceptances and upload files right. */
  lemma LostTables(s: State, place: Places)
    requires RecordsRight(s.rab, s.place, s.subs) && AcceptancesRight(s.accepted, s.rab, s.place)
    requires UploadsRight(s.uploads, s.place, s.subs)
    requires place.Keys == s.place.Keys && forall id | id in s.place :: place[id] == if s.place[id].AtRest? then AtRest else Lost
    ensures RecordsRight(s.rab, place, map[]) && AcceptancesRight(s.accepted, s.rab, place) && UploadsRight(s.uploads, place, map[])
  {
  }

  lemma CrashTables(c: Config, s: State)
    requires Inv(c, s)
    ensures TablesRight(c, Apply(c, s, Crash))
  {
    hide HoldersRight, Rows, LockRight, RecordsRight, AcceptancesRight, UploadsRight;
    CrashedPlaces(c, s);
    LostTables(s, Apply(c, s, Crash).place);
  }

  lemma CrashKeeps(c: Config, s: State)
    requires Inv(c, s)
    ensures Inv(c, Apply(c, s, Crash))
  {
    hide HoldersRight, TablesRight, ValidPath;
    CrashHolders(c, s);
    CrashTables(c, s);
    CrashedPlaces(c, s);
  }

  lemma StartReconcileKeeps(c: Config, s: State)
    requires Inv(c, s) && Enabled(c, s, StartReconcile)
    ensures Inv(c, Apply(c, s, StartReconcile))
  {
    hide QueueRight, WorkersRight, SubmittersRight, RestRight, LostRight, Rows;
  }

  lemma ReconcileEndKeeps(c: Config, s: State)
    requires Inv(c, s) && Enabled(c, s, ReconcileEnd)
    ensures Inv(c, Apply(c, s, ReconcileEnd))
  {
    hide QueueRight, WorkersRight, SubmittersRight, RestRight, LostRight;
  }

  lemma SweepKeeps(c: Config, s: State, id: Id)
    requires Inv(c, s) && Enabled(c, s, Sweep(id))
    ensures Inv(c, Apply(c, s, Sweep(id)))
  {
    hide QueueRight, WorkersRight, SubmittersRight, RestRight, LostRight;
  }

  lemma StartKeeps(c: Config, s: State)
    requires Inv(c, s) && Enabled(c, s, Start)
    ensures Inv(c, Apply(c, s, Start))
  {
    hide RestRight, LostRight, Rows;
  }
}
