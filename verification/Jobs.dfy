/** Job states, the transition table, and the persistent job tables. */
module Jobs {
  import opened Bytes

  datatype JobStatus = CREATED | STAGED | QUEUED | RUNNING | COMPLETE | FAILED | QUARANTINED

  /** `TRANSITIONS`. */
  function Transitions(status: JobStatus): set<JobStatus> {
    match status
    case CREATED => {STAGED, FAILED}
    case STAGED => {QUEUED, FAILED, QUARANTINED}
    case QUEUED => {RUNNING, FAILED}
    case RUNNING => {COMPLETE, FAILED, QUARANTINED}
    case COMPLETE => {QUARANTINED}
    case FAILED => {}
    case QUARANTINED => {}
  }

  predicate Terminal(status: JobStatus) {
    status in {COMPLETE, FAILED, QUARANTINED}
  }

  /** A job's successive persisted states: it starts CREATED and every change is in the table. */
  predicate ValidPath(path: seq<JobStatus>) {
    && path != [] && path[0] == CREATED
    && forall i | 0 < i < |path| :: path[i] in Transitions(path[i - 1])
  }

  function Rank(status: JobStatus): nat {
    match status
    case CREATED => 0
    case STAGED => 1
    case QUEUED => 2
    case RUNNING => 3
    case COMPLETE => 4
    case FAILED => 5
    case QUARANTINED => 5
  }

  lemma {:induction false} PathClimbs(path: seq<JobStatus>, i: nat, j: nat)
    requires ValidPath(path) && i < j < |path|
    ensures Rank(path[i]) < Rank(path[j])
    decreases j
  {
    assert path[j] in Transitions(path[j - 1]);
    if i < j - 1 {
      PathClimbs(path, i, j - 1);
    }
  }

  /** The table has no way back: a valid path visits no state twice, so no job enters RUNNING twice. */
  lemma NoStateTwice(path: seq<JobStatus>)
    requires ValidPath(path)
    ensures forall i, j | 0 <= i < j < |path| :: path[i] != path[j]
  {
    forall i, j | 0 <= i < j < |path|
      ensures path[i] != path[j]
    {
      PathClimbs(path, i, j);
    }
  }

  /** The way of a job that is scanned and clean. */
  const MAIN_LINE := [CREATED, STAGED, QUEUED, RUNNING, COMPLETE]

  /** A stretch of the main line, that may end FAILED before COMPLETE, or QUARANTINED after STAGED, RUNNING or COMPLETE. */
  predicate IsHistory(path: seq<JobStatus>) {
    || (1 <= |path| <= 5 && path == MAIN_LINE[..|path|])
    || (2 <= |path| <= 5 && path == MAIN_LINE[..|path| - 1] + [FAILED])
    || (|path| in {3, 5, 6} && path == MAIN_LINE[..|path| - 1] + [QUARANTINED])
  }

  /** The paths of the table are just these. */
  lemma {:induction false} HistoriesAre(path: seq<JobStatus>)
    ensures ValidPath(path) <==> IsHistory(path)
    decreases |path|
  {
    if |path| <= 1 {
      assert MAIN_LINE[..1] == [CREATED];
    } else {
      var before, last := path[..|path| - 1], path[|path| - 1];
      HistoriesAre(before);
      LongerPath(before, last);
      assert path == before + [last];
      LongerHistory(before, last);
    }
  }

  lemma LongerPath(path: seq<JobStatus>, last: JobStatus)
    requires path != []
    ensures ValidPath(path + [last]) <==> ValidPath(path) && last in Transitions(path[|path| - 1])
  {
    var longer := path + [last];
    if ValidPath(longer) {
      forall i | 0 < i < |path|
        ensures path[i] in Transitions(path[i - 1])
      {
        assert longer[i] in Transitions(longer[i - 1]);
      }
      assert longer[|path|] in Transitions(longer[|path| - 1]);
    }
  }

  lemma LongerHistory(path: seq<JobStatus>, last: JobStatus)
    requires path != []
    ensures IsHistory(path + [last]) <==> IsHistory(path) && last in Transitions(path[|path| - 1])
  {
    var n, longer := |path|, path + [last];
    assert longer[..n] == path && longer[n] == last;
    if n < 5 {
      assert MAIN_LINE[..n + 1] == MAIN_LINE[..n] + [MAIN_LINE[n]];
    }
    if n <= 5 {
      assert n > 1 ==> MAIN_LINE[..n] == MAIN_LINE[..n - 1] + [MAIN_LINE[n - 1]];
      assert IsHistory(longer) ==> longer[..n] == MAIN_LINE[..n];
    }
  }

  lemma NewPath()
    ensures ValidPath([CREATED])
  {
  }

  lemma ExtendPath(path: seq<JobStatus>, next: JobStatus)
    requires ValidPath(path) && next in Transitions(path[|path| - 1])
    ensures ValidPath(path + [next])
  {
  }

  type Id = nat

  /** A row of the jobs table: `rab` is whether the source label starts with "rab:". */
  datatype Job = Job(rab: bool, status: JobStatus, interrupted: bool)

  /** What reconciliation covers: RAB jobs in STAGED, QUEUED or RUNNING. */
  predicate Stale(job: Job) {
    job.rab && job.status in {STAGED, QUEUED, RUNNING}
  }

  function Interrupt(job: Job): Job {
    job.(status := FAILED, interrupted := true)
  }

  function Reconciled(jobs: map<Id, Job>): map<Id, Job> {
    map id | id in jobs :: if Stale(jobs[id]) then Interrupt(jobs[id]) else jobs[id]
  }

  /** Reconciling follows the transition table, leaves nothing stale, and is idempotent. */
  lemma ReconcileClears(jobs: map<Id, Job>)
    ensures forall id | id in jobs :: !Stale(Reconciled(jobs)[id])
    ensures forall id | id in jobs && Reconciled(jobs)[id] != jobs[id] :: FAILED in Transitions(jobs[id].status)
    ensures Reconciled(Reconciled(jobs)) == Reconciled(jobs)
  {
  }

  datatype Key = Key(client: nat, idempotency: nat)
  datatype Record = Record(id: Id, fingerprint: nat)

  /** A job object in memory: the copy its holder transitions and then saves. */
  class ScanJob {
    const id: Id
    const rab: bool
    var status: JobStatus
    var interrupted: bool

    constructor (id: Id, job: Job)
      ensures this.id == id && Value() == job
    {
      this.id, rab, status, interrupted := id, job.rab, job.status, job.interrupted;
    }

    function Value(): Job
      reads this
    {
      Job(rab, status, interrupted)
    }

    /** `transition`: raises, changing nothing, unless the table allows the move. */
    method Transition(target: JobStatus) returns (ok: bool)
      modifies this`status
      ensures ok <==> target in Transitions(old(status))
      ensures status == if ok then target else old(status)
    {
      if target !in Transitions(status) {
        return false;
      }
      status := target;
      return true;
    }
  }

  class JobService {
    var jobs: map<Id, Job>
    var rabJobs: map<Key, Record>

    constructor ()
      ensures jobs == map[] && rabJobs == map[]
    {
      jobs, rabJobs := map[], map[];
    }

    /** `save`: the row is replaced whole by the holder's copy. */
    method Save(job: ScanJob)
      modifies this`jobs
      ensures jobs == old(jobs)[job.id := job.Value()]
    {
      jobs := jobs[job.id := job.Value()];
    }

    /** `transition`: move the copy, then save it; nothing is saved when the move is refused. */
    method Transition(job: ScanJob, target: JobStatus) returns (ok: bool)
      modifies this`jobs, job`status
      ensures ok <==> target in Transitions(old(job.status))
      ensures job.status == if ok then target else old(job.status)
      ensures jobs == if ok then old(jobs)[job.id := job.Value()] else old(jobs)
    {
      ok := job.Transition(target);
      if ok {
        Save(job);
      }
    }

    /** `rab_by_idempotency`. */
    method RabByIdempotency(key: Key) returns (record: Option<Record>)
      ensures record == if key in rabJobs then Some(rabJobs[key]) else None
    {
      return if key in rabJobs then Some(rabJobs[key]) else None;
    }

    /** `save_rab_job`: the UNIQUE constraint refuses a second record for one client and key. */
    method SaveRabJob(key: Key, record: Record) returns (ok: bool)
      modifies this`rabJobs
      ensures ok <==> key !in old(rabJobs)
      ensures rabJobs == if ok then old(rabJobs)[key := record] else old(rabJobs)
    {
      if key in rabJobs {
        return false;
      }
      rabJobs := rabJobs[key := record];
      return true;
    }

    /** One row of the reconciliation: a stale RAB job is failed and saved. */
    method ReconcileRow(id: Id) returns (hit: bool)
      requires id in jobs
      modifies this`jobs
      ensures hit <==> Stale(old(jobs)[id])
      ensures jobs == old(jobs)[id := if hit then Interrupt(old(jobs)[id]) else old(jobs)[id]]
    {
      var job := new ScanJob(id, jobs[id]);
      hit := job.rab && job.status in {STAGED, QUEUED, RUNNING};
      if hit {
        job.interrupted := true;
        var ok := Transition(job, FAILED);
        assert ok;
      }
    }

    /** `reconcile_interrupted`: fails every stale RAB job and counts them. */
    method ReconcileInterrupted() returns (count: nat)
      modifies this`jobs
      ensures jobs == Reconciled(old(jobs))
      ensures count == |set id | id in old(jobs) && Stale(old(jobs)[id])|
    {
      hide Stale, Interrupt;
      ghost var before := jobs;
      var todo := jobs.Keys;
      count := 0;
      ghost var failed: set<Id> := {};
      while todo != {}
        invariant todo <= before.Keys == jobs.Keys
        invariant failed == set id | id in before && id !in todo && Stale(before[id])
        invariant count == |failed|
        invariant forall id | id in before :: jobs[id] == if id in todo then before[id] else Reconciled(before)[id]
        decreases |todo|
      {
        var id :| id in todo;
        todo := todo - {id};
        var hit := ReconcileRow(id);
        if hit {
          count := count + 1;
          failed := failed + {id};
        }
      }
      assert failed == set id | id in before && Stale(before[id]);
    }
  }
}
