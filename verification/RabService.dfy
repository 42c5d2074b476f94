/**
 The RAB service as its methods run when nothing interleaves: the locked section of a submission, one turn of a worker,
 and the shutdown drain; and that the steps of the relation in `Rab` compose to just these effects.
 */
module RabService {
  import opened Bytes
  import opened Jobs
  import opened Rab

  datatype Answer = Accepted(id: Id) | Repeated(id: Id) | Conflict | Unavailable | Full | Broken

  class ScanService {
    const jobs: JobService

    constructor (jobs: JobService)
      ensures this.jobs == jobs
    {
      this.jobs := jobs;
    }

    /** `create_queued`: three saves, CREATED, STAGED and QUEUED. */
    method CreateQueued(id: Id) returns (job: ScanJob)
      modifies jobs`jobs
      ensures fresh(job) && job.id == id && job.Value() == Job(true, QUEUED, false)
      ensures jobs.jobs == old(jobs.jobs)[id := Job(true, QUEUED, false)]
    {
      job := new ScanJob(id, Job(true, CREATED, false));
      jobs.Save(job);
      var ok := jobs.Transition(job, STAGED);
      ok := jobs.Transition(job, QUEUED);
    }

    /** `execute_queued`: raises, changing nothing, unless the job is QUEUED; otherwise the job ends terminal. */
    method ExecuteQueued(job: ScanJob, scan: Scan) returns (ok: bool)
      modifies jobs`jobs, job`status
      ensures ok <==> old(job.status) == QUEUED
      ensures !ok ==> jobs.jobs == old(jobs.jobs) && job.status == old(job.status)
      ensures ok ==> jobs.jobs == old(jobs.jobs)[job.id := job.Value()]
      ensures ok ==>
        && (job.status == FAILED <==> scan.Raises?)
        && (job.status == QUARANTINED <==> scan.Results? && (MALICIOUS in scan.verdicts || SUSPICIOUS in scan.verdicts || PUA in scan.verdicts))
        && (job.status != FAILED && job.status != QUARANTINED ==> job.status == COMPLETE)
      ensures ok ==> job.status == StatusOf(scan)
    {
      if job.status != QUEUED {
        return false;
      }
      var moved := jobs.Transition(job, RUNNING);
      moved := jobs.Transition(job, StatusOf(scan));
      jobs.Save(job);
      return true;
    }
  }

  /** A job as it waits in the queue. */
  ghost predicate IsReady(job: ScanJob)
    reads job
  {
    job.Value() == Job(true, QUEUED, false)
  }

  class RabService {
    const capacity: nat
    const jobs: JobService
    const scans: ScanService
    var queue: seq<ScanJob?>
    var uploads: set<Id>

    constructor (capacity: nat, jobs: JobService)
      ensures this.capacity == capacity && this.jobs == jobs && scans.jobs == jobs && queue == [] && uploads == {}
    {
      this.capacity, this.jobs, queue, uploads := capacity, jobs, [], {};
      scans := new ScanService(jobs);
    }

    /** The locked section of `submit_stream`, for a job id not in use. */
    method Submit(req: Request, id: Id, available: bool) returns (answer: Answer)
      requires scans.jobs == jobs && id !in jobs.jobs
      modifies this`queue, this`uploads, jobs
      ensures !answer.Accepted? ==>
        queue == old(queue) && uploads == old(uploads) && jobs.jobs == old(jobs.jobs) && jobs.rabJobs == old(jobs.rabJobs)
      ensures answer ==
        if req.key in old(jobs.rabJobs) then
          (if old(jobs.rabJobs)[req.key].fingerprint == req.fingerprint then Repeated(old(jobs.rabJobs)[req.key].id) else Conflict)
        else if !available then Unavailable
        else if |old(queue)| >= capacity then Full
        else Accepted(id)
      ensures answer.Accepted? ==>
        && jobs.jobs == old(jobs.jobs)[id := Job(true, QUEUED, false)]
        && jobs.rabJobs == old(jobs.rabJobs)[req.key := Record(id, req.fingerprint)]
        && uploads == old(uploads) + {id}
        && |queue| == |old(queue)| + 1 && queue[..|old(queue)|] == old(queue)
        && var job := queue[|old(queue)|]; job != null && fresh(job) && job.id == id && job.Value() == Job(true, QUEUED, false)
    {
      var existing := jobs.RabByIdempotency(req.key);
      if existing.Some? {
        return if existing.value.fingerprint != req.fingerprint then Conflict else Repeated(existing.value.id);
      }
      if !available {
        return Unavailable;
      }
      if |queue| >= capacity {
        return Full;
      }
      var job := scans.CreateQueued(id);
      uploads := uploads + {id};
      var recorded := jobs.SaveRabJob(req.key, Record(id, req.fingerprint));
      queue := queue + [job];
      return Accepted(id);
    }

    /**
     One turn of `_worker` with a job: executed when it is QUEUED, which `RabTheorems.NoRejection` shows it always is;
     otherwise its row is failed, and the worker dies of the exception when the table has no way to FAILED.
     */
    method Work(job: ScanJob, scan: Scan) returns (alive: bool)
      requires scans.jobs == jobs && job.id in jobs.jobs
      modifies this`uploads, jobs`jobs, job`status
      ensures uploads == old(uploads) - {job.id}
      ensures var row := old(jobs.jobs)[job.id];
              if old(job.status) == QUEUED then
                alive && jobs.jobs == old(jobs.jobs)[job.id := old(job.Value()).(status := StatusOf(scan))]
                && var result := jobs.jobs[job.id].status;
                   && (result == FAILED <==> scan.Raises?)
                   && (result == QUARANTINED <==>
                         scan.Results? && (MALICIOUS in scan.verdicts || SUSPICIOUS in scan.verdicts || PUA in scan.verdicts))
                   && (result == FAILED || result == QUARANTINED || result == COMPLETE)
              else if row.status == FAILED || FAILED in Transitions(row.status) then
                alive && jobs.jobs == old(jobs.jobs)[job.id := row.(status := FAILED)]
              else !alive && jobs.jobs == old(jobs.jobs)
    {
      alive := true;
      var ok := scans.ExecuteQueued(job, scan);
      if !ok {
        var current := new ScanJob(job.id, jobs.jobs[job.id]);
        if current.status != FAILED {
          alive := current.Transition(FAILED);
        }
        if alive {
          jobs.Save(current);
        }
      }
      uploads := uploads - {job.id};
    }

    /** One job of the shutdown drain: failed, saved, its upload removed. */
    method DrainJob(job: ScanJob)
      requires IsReady(job)
      modifies this`uploads, jobs`jobs, job`status
      ensures uploads == old(uploads) - {job.id}
      ensures jobs.jobs == old(jobs.jobs)[job.id := FAILED_JOB]
    {
      var moved := jobs.Transition(job, FAILED);
      uploads := uploads - {job.id};
    }

    /** The drain of `shutdown`: every queued job is failed and its upload removed, sentinels are dropped. */
    method Drain()
      requires forall i | 0 <= i < |queue| && queue[i] != null :: IsReady(queue[i])
      requires forall i, j | 0 <= i < j < |queue| && queue[i] != null :: queue[i] != queue[j]
      modifies this`queue, this`uploads, jobs`jobs, queue
      ensures queue == []
      ensures uploads == old(uploads) - Ids(old(queue))
      ensures jobs.jobs == old(jobs.jobs) + FailedRows(old(queue))
    {
      hide IsReady;
      ghost var all, before := queue, jobs.jobs;
      ghost var n := 0;
      NoIds();
      while queue != []
        invariant n <= |all| && queue == all[n..]
        invariant forall i | n <= i < |all| && all[i] != null :: IsReady(all[i])
        invariant uploads == old(uploads) - Ids(all[..n])
        invariant jobs.jobs == before + FailedRows(all[..n])
        decreases |queue|
      {
        hide Ids, FailedRows;
        var pending := queue[0];
        queue := queue[1..];
        assert all[..n + 1] == all[..n] + [all[n]] && pending == all[n];
        NextIds(all[..n], pending, before);
        if pending != null {
          DrainJob(pending);
        }
        n := n + 1;
      }
      assert all[..n] == all;
    }

    /** `__init__` after a restart: reconcile, then remove the uploads of recorded jobs whose interruption was noted. */
    method Restart() returns (interrupted: nat)
      requires queue == []
      modifies this`uploads, jobs`jobs
      ensures jobs.jobs == Reconciled(old(jobs.jobs))
      ensures interrupted == |set id | id in old(jobs.jobs) && Stale(old(jobs.jobs)[id])|
      ensures uploads == old(uploads) - if interrupted == 0 then {} else Swept(jobs.jobs, jobs.rabJobs)
    {
      interrupted := jobs.ReconcileInterrupted();
      if interrupted == 0 {
        return;
      }
      var todo := jobs.jobs.Keys;
      while todo != {}
        invariant jobs.jobs == Reconciled(old(jobs.jobs)) && todo <= jobs.jobs.Keys
        invariant uploads == old(uploads) - (Swept(jobs.jobs, jobs.rabJobs) - todo)
        decreases |todo|
      {
        var id :| id in todo;
        if jobs.jobs[id].interrupted && HasRecord(jobs.rabJobs, id) {
          uploads := uploads - {id};
        }
        todo := todo - {id};
      }
    }
  }

  predicate HasRecord(rab: map<Key, Record>, id: Id) {
    exists key | key in rab :: rab[key].id == id
  }

  /** The recorded jobs whose interruption was noted. */
  function Swept(jobs: map<Id, Job>, rab: map<Key, Record>): set<Id> {
    set id | id in jobs && jobs[id].interrupted && HasRecord(rab, id)
  }

  /** `Restart` sweeps just what the relation sweeps. */
  lemma SweptIsInterrupted(s: State)
    ensures Swept(s.jobs, s.rab) == Interrupted(s)
  {
    forall id | id in Swept(s.jobs, s.rab)
      ensures id in Interrupted(s)
    {
      var key :| key in s.rab && s.rab[key].id == id;
      assert s.rab[key].id in Interrupted(s);
    }
  }

  const FAILED_JOB := Job(true, FAILED, false)

  function Ids(queue: seq<ScanJob?>): set<Id> {
    set i | 0 <= i < |queue| && queue[i] != null :: queue[i].id
  }

  function FailedRows(queue: seq<ScanJob?>): map<Id, Job> {
    map id | id in Ids(queue) :: FAILED_JOB
  }

  lemma NoIds()
    ensures Ids([]) == {} && FailedRows([]) == map[]
  {
  }

  lemma NextIds(queue: seq<ScanJob?>, next: ScanJob?, before: map<Id, Job>)
    ensures next == null ==> Ids(queue + [next]) == Ids(queue) && FailedRows(queue + [next]) == FailedRows(queue)
    ensures next != null ==> Ids(queue + [next]) == Ids(queue) + {next.id}
    ensures next != null ==> before + FailedRows(queue + [next]) == (before + FailedRows(queue))[next.id := FAILED_JOB]
  {
    var longer := queue + [next];
    assert forall i | 0 <= i < |queue| :: longer[i] == queue[i];
    if next != null {
      assert longer[|queue|] == next;
    }
    assert Ids(longer) == if next == null then Ids(queue) else Ids(queue) + {next.id};
  }

  // The relation's steps compose to these effects.

  /** How far the submitter is, and what its steps have changed since the check. */
  predicate Progress(s: State, t: State, sid: Sid, id: Id, stage: Stage, status: JobStatus)
    requires sid in s.subs && s.subs[sid].Checking?
  {
    && IsWorking(t, sid, stage) && t.subs[sid] == Working(s.subs[sid].req, id, stage)
    && t.jobs == s.jobs[id := Job(true, status, false)]
    && t.rab == s.rab && t.queue == s.queue && t.accepted == s.accepted
  }

  function CreateStep(c: Config, s: State, sid: Sid, id: Id): (t: State)
    requires Enabled(c, s, Create(sid, id))
    ensures Progress(s, t, sid, id, IsCreated, CREATED) && t.uploads == s.uploads
  {
    Apply(c, s, Create(sid, id))
  }

  function StagedStep(c: Config, s: State, sid: Sid, id: Id): (t: State)
    requires Enabled(c, s, Create(sid, id))
    ensures Progress(s, t, sid, id, IsStaged, STAGED) && t.uploads == s.uploads
  {
    hide CreateStep;
    Apply(c, CreateStep(c, s, sid, id), SaveStaged(sid))
  }

  function QueuedStep(c: Config, s: State, sid: Sid, id: Id): (t: State)
    requires Enabled(c, s, Create(sid, id))
    ensures Progress(s, t, sid, id, IsQueued, QUEUED) && t.uploads == s.uploads
  {
    hide StagedStep;
    Apply(c, StagedStep(c, s, sid, id), SaveQueued(sid))
  }

  /** From the check to the upload in place. */
  function CreateSteps(c: Config, s: State, sid: Sid, id: Id): (t: State)
    requires Enabled(c, s, Create(sid, id))
    ensures Progress(s, t, sid, id, IsMoved, QUEUED) && t.uploads == s.uploads + {id}
  {
    hide QueuedStep;
    Apply(c, QueuedStep(c, s, sid, id), MoveUpload(sid))
  }

  /** The rest of the locked section. */
  function SubmitSteps(c: Config, s: State, sid: Sid, id: Id): State
    requires Enabled(c, s, Create(sid, id))
  {
    Apply(c, Apply(c, CreateSteps(c, s, sid, id), SaveRecord(sid)), Put(sid))
  }

  /** `Submit`: the steps of one submitter, with none of another in between, have just the method's effect. */
  lemma SubmitIsSteps(c: Config, s: State, sid: Sid, id: Id)
    requires Enabled(c, s, Create(sid, id))
    ensures var t, req := SubmitSteps(c, s, sid, id), s.subs[sid].req;
            && t.jobs == s.jobs[id := Job(true, QUEUED, false)]
            && t.rab == s.rab[req.key := Record(id, req.fingerprint)]
            && t.uploads == s.uploads + {id}
            && t.queue == s.queue + [Work(id, QUEUED)]
            && t.lock.None? && t.accepted == s.accepted + {Acceptance(req.key, req.fingerprint, id)}
  {
    hide CreateSteps;
  }

  predicate CanWork(s: State, w: nat) {
    HasWorker(s, w) && s.workers[w].Idle? && s.queue != [] && s.queue[0].Work? && s.queue[0].mem == QUEUED && IsSaved(s, s.queue[0].id)
  }

  /** Taken and RUNNING. */
  function BeginSteps(c: Config, s: State, w: nat): (t: State)
    requires CanWork(s, w)
    ensures HasWorker(t, w) && t.workers == s.workers[w := Executing(s.queue[0].id)] && IsSaved(t, s.queue[0].id)
    ensures t.jobs == s.jobs[s.queue[0].id := s.jobs[s.queue[0].id].(status := RUNNING)]
    ensures t.uploads == s.uploads && t.queue == s.queue[1..]
  {
    Apply(c, Apply(c, s, Take(w)), Begin(w))
  }

  function WorkSteps(c: Config, s: State, w: nat, scan: Scan): State
    requires CanWork(s, w)
  {
    hide BeginSteps;
    Apply(c, Apply(c, BeginSteps(c, s, w), Finish(w, scan)), Remove(w))
  }

  /** `Work`: the steps of one worker's turn have just the method's effect on a QUEUED job. */
  lemma WorkIsSteps(c: Config, s: State, w: nat, scan: Scan)
    requires CanWork(s, w)
    ensures var t, id := WorkSteps(c, s, w, scan), s.queue[0].id;
            && t.jobs == s.jobs[id := s.jobs[id].(status := StatusOf(scan))]
            && t.uploads == s.uploads - {id} && t.queue == s.queue[1..] && t.workers == s.workers
  {
    hide BeginSteps;
  }

  predicate CanDrain(s: State) {
    s.phase == Draining(None) && s.queue != [] && s.queue[0].Work? && IsSaved(s, s.queue[0].id)
  }

  function DrainSteps(c: Config, s: State): State
    requires CanDrain(s)
  {
    Apply(c, Apply(c, Apply(c, s, DrainTake), DrainFail), DrainRemove)
  }

  /** `DrainJob`: the drain's steps for one job have just the method's effect. */
  lemma DrainIsSteps(c: Config, s: State)
    requires CanDrain(s)
    ensures var t, id := DrainSteps(c, s), s.queue[0].id;
            && t.jobs == s.jobs[id := s.jobs[id].(status := FAILED)]
            && t.uploads == s.uploads - {id} && t.queue == s.queue[1..] && t.phase == s.phase
  {
  }
}
