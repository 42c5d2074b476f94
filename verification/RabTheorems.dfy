/** What holds over every run of the RAB protocol. */
module RabTheorems {
  import opened Bytes
  import opened Jobs
  import opened Rab
  import opened RabInvariant
  import opened RabSteps

  /** A worker only ever finds a job that is QUEUED, in memory and in its row. */
  lemma NoRejection(c: Config, s: State, w: nat)
    requires Inv(c, s)
    ensures !Enabled(c, s, Reject(w))
  {
    hide QueueRight, SubmittersRight, ShutdownRight, RestRight, LostRight, TablesRight, Rows;
    if Enabled(c, s, Reject(w)) {
      WorkerOwns(s, w);
    }
  }

  lemma SubmitterStep(c: Config, s: State, a: Action)
    requires Inv(c, s) && Enabled(c, s, a)
    requires a.Create? || a.SaveStaged? || a.SaveQueued? || a.MoveUpload? || a.SaveRecord? || a.Put? || a.PutFails?
    ensures Inv(c, Apply(c, s, a))
  {
    hide Inv, Enabled, Apply;
    match a
    case Create(sid, id) => CreateKeeps(c, s, sid, id);
    case SaveStaged(sid) => SaveStagedKeeps(c, s, sid);
    case SaveQueued(sid) => SaveQueuedKeeps(c, s, sid);
    case MoveUpload(sid) => MoveUploadKeeps(c, s, sid);
    case SaveRecord(sid) => SaveRecordKeeps(c, s, sid);
    case Put(sid) => PutKeeps(c, s, sid);
    case PutFails(sid) => PutFailsKeeps(c, s, sid);
  }

  lemma StepKeeps(c: Config, s: State, a: Action)
    requires Inv(c, s) && Enabled(c, s, a)
    ensures Inv(c, Apply(c, s, a))
  {
    hide Inv, Enabled, Apply;
    match a
    case Arrive(sid, req) => ArriveKeeps(c, s, sid, req);
    case AbortUpload(sid) => AbortUploadKeeps(c, s, sid);
    case Lock(sid) => LockKeeps(c, s, sid);
    case Duplicate(sid) => DuplicateKeeps(c, s, sid);
    case Refuse(sid) => RefuseKeeps(c, s, sid);
    case Take(w) => TakeKeeps(c, s, w);
    case Begin(w) => BeginKeeps(c, s, w);
    case Reject(w) => NoRejection(c, s, w);
    case Finish(w, scan) => FinishKeeps(c, s, w, scan);
    case Remove(w) => RemoveKeeps(c, s, w);
    case StartDrain => StartDrainKeeps(c, s);
    case DrainTake => DrainTakeKeeps(c, s);
    case DrainFail => DrainFailKeeps(c, s);
    case DrainRemove => DrainRemoveKeeps(c, s);
    case DrainEnd => DrainEndKeeps(c, s);
    case PutSentinel => PutSentinelKeeps(c, s);
    case Join => JoinKeeps(c, s);
    case Crash => CrashKeeps(c, s);
    case StartReconcile => StartReconcileKeeps(c, s);
    case ReconcileOne(id) => ReconcileOneKeeps(c, s, id);
    case ReconcileEnd => ReconcileEndKeeps(c, s);
    case Sweep(id) => SweepKeeps(c, s, id);
    case Start => StartKeeps(c, s);
    case _ => SubmitterStep(c, s, a);
  }

  /** The invariant holds in every state of every run. */
  lemma {:induction false} RunKeeps(c: Config, states: seq<State>, actions: seq<Action>, i: nat)
    requires IsRun(c, states, actions) && i < |states|
    ensures Inv(c, states[i])
  {
    hide Inv, Enabled, Apply, Init;
    if i == 0 {
      InitHolds(c);
    } else {
      RunKeeps(c, states, actions, i - 1);
      assert Enabled(c, states[i - 1], actions[i - 1]) && states[i] == Apply(c, states[i - 1], actions[i - 1]);
      StepKeeps(c, states[i - 1], actions[i - 1]);
    }
  }

  // The job table.

  /** No row goes away; a row that changes state moves along the table. */
  ghost predicate Follows(before: Table, after: Table) {
    forall id | id in before ::
      && id in after
      && (after[id].status == before[id].status || after[id].status in Transitions(before[id].status))
  }

  ghost predicate StartsCreated(before: Table, after: Table) {
    forall id | id in after && id !in before :: after[id].status == CREATED
  }

  predicate IsSave(a: Action) {
    a.SaveStaged? || a.SaveQueued? || a.Begin? || a.Finish? || a.DrainFail? || a.Reject?
  }

  /** Which row a step saves, and with what status. */
  function SavedRow(c: Config, s: State, a: Action): (Id, JobStatus)
    requires Enabled(c, s, a) && IsSave(a)
  {
    match a
    case SaveStaged(sid) => (s.subs[sid].id, STAGED)
    case SaveQueued(sid) => (s.subs[sid].id, QUEUED)
    case Begin(w) => (s.workers[w].id, RUNNING)
    case Finish(w, scan) => (s.workers[w].id, StatusOf(scan))
    case Reject(w) => (s.workers[w].id, FAILED)
    case DrainFail => (s.phase.held.value.id, FAILED)
  }

  lemma RowMoves(jobs: Table, id: Id, status: JobStatus)
    requires id in jobs && status in Transitions(jobs[id].status)
    ensures Follows(jobs, jobs[id := jobs[id].(status := status)]) && StartsCreated(jobs, jobs[id := jobs[id].(status := status)])
  {
  }

  lemma SubmitterSaves(c: Config, s: State, a: Action)
    requires Enabled(c, s, a) && (a.SaveStaged? || a.SaveQueued?) && HoldersRight(s)
    ensures var (id, status) := SavedRow(c, s, a);
            && id in s.jobs && status in Transitions(s.jobs[id].status) && !Terminal(s.jobs[id].status)
            && Apply(c, s, a).jobs == s.jobs[id := s.jobs[id].(status := status)]
  {
    hide HoldersRight;
    SubmitterOwns(s, a.sid);
  }

  lemma WorkerSaves(c: Config, s: State, a: Action)
    requires Enabled(c, s, a) && (a.Begin? || a.Finish?) && HoldersRight(s)
    ensures var (id, status) := SavedRow(c, s, a);
            && id in s.jobs && status in Transitions(s.jobs[id].status) && !Terminal(s.jobs[id].status)
            && Apply(c, s, a).jobs == s.jobs[id := s.jobs[id].(status := status)]
  {
    hide HoldersRight;
    if a.Finish? {
      StatusIsTerminal(a.scan);
    }
    WorkerOwns(s, a.w);
  }

  lemma ShutdownSaves(c: Config, s: State)
    requires Enabled(c, s, DrainFail) && HoldersRight(s)
    ensures var (id, status) := SavedRow(c, s, DrainFail);
            && id in s.jobs && status in Transitions(s.jobs[id].status) && !Terminal(s.jobs[id].status)
            && Apply(c, s, DrainFail).jobs == s.jobs[id := s.jobs[id].(status := status)]
  {
    hide HoldersRight;
    ShutdownOwns(s);
  }

  lemma SaveFollows(c: Config, s: State, a: Action)
    requires Inv(c, s) && Enabled(c, s, a) && IsSave(a)
    ensures Follows(s.jobs, Apply(c, s, a).jobs) && StartsCreated(s.jobs, Apply(c, s, a).jobs)
  {
    hide Enabled, Apply, Inv, SavedRow, Follows, StartsCreated;
    assert HoldersRight(s) by { InvHolders(c, s); }
    if a.Reject? {
      NoRejection(c, s, a.w);
    } else {
      if a.DrainFail? {
        ShutdownSaves(c, s);
      } else if a.Begin? || a.Finish? {
        WorkerSaves(c, s, a);
      } else {
        SubmitterSaves(c, s, a);
      }
      var (id, status) := SavedRow(c, s, a);
      RowMoves(s.jobs, id, status);
    }
  }

  lemma InvHolders(c: Config, s: State)
    requires Inv(c, s)
    ensures HoldersRight(s)
  {
  }

  lemma StepFollows(c: Config, s: State, a: Action)
    requires Inv(c, s) && Enabled(c, s, a)
    ensures Follows(s.jobs, Apply(c, s, a).jobs) && StartsCreated(s.jobs, Apply(c, s, a).jobs)
  {
    hide Inv;
    if IsSave(a) {
      SaveFollows(c, s, a);
    } else if IsSubmission(a) {
      SubmissionRows(c, s, a);
    } else if IsHandOver(a) {
      HandOverRows(c, s, a);
    } else if !a.Create? && !a.ReconcileOne? {
      PhaseRows(c, s, a);
    }
  }

  predicate IsSubmission(a: Action) {
    a.Arrive? || a.AbortUpload? || a.Lock? || a.Duplicate? || a.Refuse? || a.MoveUpload? || a.SaveRecord? || a.Put? || a.PutFails?
  }

  lemma SubmissionRows(c: Config, s: State, a: Action)
    requires Enabled(c, s, a) && IsSubmission(a)
    ensures Apply(c, s, a).jobs == s.jobs
  {
  }

  predicate IsHandOver(a: Action) {
    a.Take? || a.Remove? || a.DrainTake? || a.DrainRemove?
  }

  lemma TakeRows(c: Config, s: State, w: nat)
    requires Enabled(c, s, Take(w))
    ensures Apply(c, s, Take(w)).jobs == s.jobs
  {
    var item := s.queue[0];
    if item.Sentinel? {
      assert Apply(c, s, Take(w)) == SetWorker(s, w, Exited).(queue := s.queue[1..]);
    } else {
      assert Apply(c, s, Take(w))
        == SetWorker(s, w, Holding(item.id, item.mem)).(queue := s.queue[1..], place := s.place[item.id := AtWorker(w)]);
    }
  }

  lemma HandOverRows(c: Config, s: State, a: Action)
    requires Enabled(c, s, a) && IsHandOver(a)
    ensures Apply(c, s, a).jobs == s.jobs
  {
    if a.Take? {
      TakeRows(c, s, a.w);
    }
  }

  lemma PhaseRows(c: Config, s: State, a: Action)
    requires Enabled(c, s, a)
    requires !IsSave(a) && !IsSubmission(a) && !IsHandOver(a) && !a.Create? && !a.ReconcileOne?
    ensures Apply(c, s, a).jobs == s.jobs
  {
    hide Interrupted, IdleWorkers, Save, Enabled;
  }

  /** Every change of a persisted row, by whichever party, is in the transition table, and rows start CREATED. */
  lemma RowsFollowTable(c: Config, states: seq<State>, actions: seq<Action>, i: nat)
    requires IsRun(c, states, actions) && i < |actions|
    ensures Follows(states[i].jobs, states[i + 1].jobs) && StartsCreated(states[i].jobs, states[i + 1].jobs)
  {
    hide Inv, Enabled, Apply, Init, Follows, StartsCreated;
    RunKeeps(c, states, actions, i);
    StepFollows(c, states[i], actions[i]);
  }

  lemma {:induction false} RankClimbs(c: Config, states: seq<State>, actions: seq<Action>, i: nat, j: nat, id: Id)
    requires IsRun(c, states, actions) && i <= j < |states| && id in states[i].jobs
    ensures id in states[j].jobs && Rank(states[i].jobs[id].status) <= Rank(states[j].jobs[id].status)
    ensures Rank(states[i].jobs[id].status) == Rank(states[j].jobs[id].status) ==> states[i].jobs[id].status == states[j].jobs[id].status
    decreases j - i
  {
    hide Inv, Enabled, Apply, Init, IsRun;
    if i < j {
      RankClimbs(c, states, actions, i, j - 1, id);
      assert |states| == |actions| + 1 by { RunShape(c, states, actions); }
      RowsFollowTable(c, states, actions, j - 1);
    }
  }

  lemma RunShape(c: Config, states: seq<State>, actions: seq<Action>)
    requires IsRun(c, states, actions)
    ensures |states| == |actions| + 1
  {
  }

  /** No job enters RUNNING twice. */
  lemma RunningOnce(c: Config, states: seq<State>, actions: seq<Action>, i: nat, j: nat, id: Id)
    requires IsRun(c, states, actions) && i < j < |actions|
    requires id in states[i].jobs && states[i].jobs[id].status != RUNNING
    requires id in states[i + 1].jobs && states[i + 1].jobs[id].status == RUNNING
    requires id in states[j].jobs && states[j].jobs[id].status != RUNNING
    ensures id in states[j + 1].jobs && states[j + 1].jobs[id].status != RUNNING
  {
    hide Inv, Enabled, Apply, Init, IsRun;
    RunShape(c, states, actions);
    RankClimbs(c, states, actions, i + 1, j, id);
    RankClimbs(c, states, actions, j, j + 1, id);
  }

  /** The log of a job's saved states is a path of the table, visits no state twice, and ends in the row's state. */
  lemma HistoriesAreValid(c: Config, states: seq<State>, actions: seq<Action>, i: nat, id: Id)
    requires IsRun(c, states, actions) && i < |states| && id in states[i].jobs
    ensures id in states[i].history
    ensures var path := states[i].history[id];
            ValidPath(path) && path[|path| - 1] == states[i].jobs[id].status
            && forall m, n | 0 <= m < n < |path| :: path[m] != path[n]
  {
    RunKeeps(c, states, actions, i);
    hide Enabled, Apply, Init, IsRun, HoldersRight, TablesRight;
    var s := states[i];
    assert RowRight(s.jobs[id], s.history[id]);
    NoStateTwice(s.history[id]);
  }

  // Restart.

  /** Service starts with an empty queue, idle workers, and no RAB job STAGED, QUEUED or RUNNING. */
  lemma RestartIsClean(c: Config, states: seq<State>, actions: seq<Action>, i: nat)
    requires IsRun(c, states, actions) && i < |actions| && actions[i].Start?
    ensures var s := states[i + 1];
            s.queue == [] && (forall w | w in s.workers :: w.Idle?)
            && forall id | id in s.jobs :: s.jobs[id].status !in {STAGED, QUEUED, RUNNING}
  {
    hide Init, Inv, Apply;
    RunKeeps(c, states, actions, i);
    assert Enabled(c, states[i], actions[i]) && states[i + 1] == Apply(c, states[i], actions[i]);
    StartIsClean(c, states[i]);
  }

  lemma StartIsClean(c: Config, s: State)
    requires Inv(c, s) && Enabled(c, s, Start)
    ensures var t := Apply(c, s, Start);
            t.queue == [] && (forall w | w in t.workers :: w.Idle?)
            && forall id | id in t.jobs :: t.jobs[id].status !in {STAGED, QUEUED, RUNNING}
  {
    hide HoldersRight, ValidPath;
    forall id | id in s.jobs
      ensures s.jobs[id].status !in {STAGED, QUEUED, RUNNING}
    {
      assert RowRight(s.jobs[id], s.history[id]) && !Stale(s.jobs[id]);
    }
  }

  predicate IsDown(s: State) {
    s.phase.Down? || s.phase.Reconciling? || s.phase.Sweeping?
  }

  lemma DownStep(c: Config, s: State, a: Action)
    requires Enabled(c, s, a) && IsDown(s) && !a.Start?
    ensures IsDown(Apply(c, s, a)) && Reconciled(Apply(c, s, a).jobs) == Reconciled(s.jobs)
  {
    if a.ReconcileOne? {
      var after := Apply(c, s, a).jobs;
      assert Reconciled(after).Keys == Reconciled(s.jobs).Keys;
      assert forall id | id in after :: Reconciled(after)[id] == Reconciled(s.jobs)[id];
    }
  }

  lemma {:induction false} DownRun(c: Config, states: seq<State>, actions: seq<Action>, i: nat, j: nat)
    requires IsRun(c, states, actions) && i <= j < |states| && IsDown(states[i])
    requires forall k | i <= k < j :: !actions[k].Start?
    ensures IsDown(states[j]) && Reconciled(states[j].jobs) == Reconciled(states[i].jobs)
    decreases j - i
  {
    hide Enabled, Apply, Init, IsDown, Reconciled;
    if i < j {
      DownRun(c, states, actions, i, j - 1);
      assert Enabled(c, states[j - 1], actions[j - 1]) && states[j] == Apply(c, states[j - 1], actions[j - 1]);
      DownStep(c, states[j - 1], actions[j - 1]);
    }
  }

  /**
   From a crash to the next start, whatever further crashes interrupt the restart, the table changes by exactly one
   reconciliation: stale jobs FAILED, every other row as it was.
   */
  lemma RestartReconciles(c: Config, states: seq<State>, actions: seq<Action>, i: nat, j: nat)
    requires IsRun(c, states, actions) && i < j < |actions| && actions[i].Crash? && actions[j].Start?
    requires forall k | i < k < j :: !actions[k].Start?
    ensures states[j + 1].jobs == Reconciled(states[i].jobs)
  {
    hide Init, Inv, Reconciled;
    assert Enabled(c, states[i], actions[i]) && states[i + 1] == Apply(c, states[i], actions[i]);
    DownRun(c, states, actions, i + 1, j);
    assert Enabled(c, states[j], actions[j]) && states[j + 1] == Apply(c, states[j], actions[j]);
    RunKeeps(c, states, actions, j);
    SweptIsReconciled(c, states[j]);
  }

  lemma SweptIsReconciled(c: Config, s: State)
    requires Inv(c, s) && s.phase.Sweeping?
    ensures Reconciled(s.jobs) == s.jobs
  {
    hide HoldersRight, Rows;
  }

  // Submission.

  /** Until shutdown sends its sentinels, queueing the job a submitter checked room for never fails. */
  lemma PutSucceeds(c: Config, states: seq<State>, actions: seq<Action>, i: nat, sid: Sid)
    requires IsRun(c, states, actions) && i < |states| && IsWorking(states[i], sid, IsRecorded)
    requires states[i].phase == Serving || states[i].phase.Draining?
    ensures Enabled(c, states[i], Put(sid)) && !Enabled(c, states[i], PutFails(sid))
  {
    RunKeeps(c, states, actions, i);
    hide HoldersRight, Rows, Apply, Init;
    assert InLock(states[i].subs[sid]);
  }

  /** The UNIQUE constraint on client and idempotency key never refuses a record. */
  lemma RecordIsNew(c: Config, states: seq<State>, actions: seq<Action>, i: nat, sid: Sid)
    requires IsRun(c, states, actions) && i < |states| && IsWorking(states[i], sid, IsMoved)
    ensures states[i].subs[sid].req.key !in states[i].rab
  {
    RunKeeps(c, states, actions, i);
    hide TablesRight, Rows, Apply, Init;
    SubmitterOwns(states[i], sid);
  }

  /** All acceptances for one client and key name one job and one fingerprint. */
  lemma AcceptancesAgree(c: Config, states: seq<State>, actions: seq<Action>, i: nat, a: Acceptance, b: Acceptance)
    requires IsRun(c, states, actions) && i < |states| && a in states[i].accepted && b in states[i].accepted && a.key == b.key
    ensures a == b
  {
    RunKeeps(c, states, actions, i);
    hide HoldersRight, Rows, Apply, Init;
  }

  // Quiescence.

  /** Nothing is under way: the lock is free, no job is queued, and neither a worker nor the shutdown holds one. */
  predicate IsQuiet(s: State) {
    && s.lock.None?
    && (forall item | item in s.queue :: item.Sentinel?)
    && (forall w | w in s.workers :: JobOf(w).None?)
    && !(s.phase.Draining? && s.phase.held.Some?)
  }

  lemma QuietPlaces(c: Config, s: State, id: Id)
    requires Inv(c, s) && IsQuiet(s) && id in s.place
    ensures s.place[id].AtRest? || s.place[id].Lost?
  {
    hide Rows, TablesRight, RestRight, LostRight;
  }

  /**
   In a crash-free run, once nothing is under way, an accepted job is terminal exactly when its own queueing did not
   fail; a job whose queueing failed stays QUEUED.
   */
  lemma QuietMeansTerminal(c: Config, states: seq<State>, actions: seq<Action>, i: nat, a: Acceptance)
    requires IsRun(c, states, actions) && i < |states| && !states[i].crashed && IsQuiet(states[i]) && a in states[i].accepted
    ensures a.id in states[i].jobs
    ensures Terminal(states[i].jobs[a.id].status) <==> a.id !in states[i].failedPuts
  {
    RunKeeps(c, states, actions, i);
    hide Apply, Init, QueueRight, WorkersRight, SubmittersRight, ShutdownRight, IsQuiet;
    QuietPlaces(c, states[i], a.id);
  }

  // Upload files.

  function QueuedIds(queue: seq<Item>): set<Id> {
    set item | item in queue && item.Work? :: item.id
  }

  function WorkerIds(workers: seq<Worker>): set<Id> {
    set w | w in workers && JobOf(w).Some? :: JobOf(w).value
  }

  function DrainedIds(phase: Phase): set<Id> {
    if phase.Draining? && phase.held.Some? then {phase.held.value.id} else {}
  }

  /** Who has a job whose upload file should exist, when no submitter is in the locked section. */
  lemma NeededIds(c: Config, s: State, id: Id)
    requires Inv(c, s) && s.lock.None? && id in s.place && !s.place[id].Lost?
    ensures id in s.uploads <==> id in QueuedIds(s.queue) + WorkerIds(s.workers) + DrainedIds(s.phase)
  {
    hide Rows, RestRight, LostRight, RecordsRight, AcceptancesRight, RoomRight, QuietRight, SweepRight;
  }

  lemma HeldSomewhere(c: Config, s: State, id: Id)
    requires Inv(c, s) && id in QueuedIds(s.queue) + WorkerIds(s.workers) + DrainedIds(s.phase)
    ensures id in s.place && !s.place[id].Lost?
  {
    hide Rows, TablesRight, RestRight, LostRight, SubmittersRight;
  }

  /** The jobs at hand: in the queue, with a worker, or in the hands of the shutdown. */
  function LiveIds(s: State): set<Id> {
    QueuedIds(s.queue) + WorkerIds(s.workers) + DrainedIds(s.phase)
  }

  /**
   In a crash-free run with the lock free, the upload files are those of the jobs at hand and, besides, exactly those of
   the jobs whose queueing failed; so they are those of the jobs at hand exactly when no queueing has failed.
   */
  lemma UploadsAreLive(c: Config, states: seq<State>, actions: seq<Action>, i: nat)
    requires IsRun(c, states, actions) && i < |states| && !states[i].crashed && states[i].lock.None?
    ensures var s := states[i]; s.uploads == LiveIds(s) + s.failedPuts && LiveIds(s) !! s.failedPuts
    ensures states[i].uploads == LiveIds(states[i]) <==> states[i].failedPuts == {}
  {
    RunKeeps(c, states, actions, i);
    hide Apply, Init, QueuedIds, WorkerIds, DrainedIds;
    var s := states[i];
    forall id
      ensures id in s.uploads <==> id in LiveIds(s) || id in s.failedPuts
      ensures !(id in LiveIds(s) && id in s.failedPuts)
    {
      if id in LiveIds(s) { HeldSomewhere(c, s, id); }
      if id in s.place && !s.place[id].Lost? { NeededIds(c, s, id); }
    }
    if s.failedPuts != {} {
      var id :| id in s.failedPuts;
      assert id in s.uploads && id !in LiveIds(s);
    }
  }
}
