/** How each part of the invariant about who holds which job survives a step that moves one job. */
module RabHolders {
  import opened Bytes
  import opened Jobs
  import opened Rab
  import opened RabInvariant

  /** The kind of holder a place names. */
  datatype Kind = OfSubmitter | OfQueue | OfWorker | OfShutdown | OfNoOne

  function KindOf(p: Place): Kind {
    match p
    case AtSubmitter(_) => OfSubmitter
    case InQueue => OfQueue
    case AtWorker(_) => OfWorker
    case AtShutdown => OfShutdown
    case AtRest => OfNoOne
    case Lost => OfNoOne
  }

  /** The job is not, and will not be, with a holder of this kind. */
  predicate Avoids(place: Places, id: Id, next: Place, kind: Kind) {
    (id in place ==> KindOf(place[id]) != kind) && KindOf(next) != kind
  }

  lemma QueueElsewhere(queue: seq<Item>, place: Places, jobs: Table, id: Id, next: Place, job: Job)
    requires QueueRight(queue, place, jobs) && Avoids(place, id, next, OfQueue)
    ensures QueueRight(queue, place[id := next], jobs[id := job])
  {
  }

  lemma WorkersElsewhere(workers: seq<Worker>, place: Places, jobs: Table, id: Id, next: Place, job: Job)
    requires WorkersRight(workers, place, jobs) && Avoids(place, id, next, OfWorker)
    ensures WorkersRight(workers, place[id := next], jobs[id := job])
  {
  }

  lemma SubmittersElsewhere(subs: Subs, place: Places, jobs: Table, rab: map<Key, Record>, id: Id, next: Place, job: Job)
    requires SubmittersRight(subs, place, jobs, rab) && Avoids(place, id, next, OfSubmitter)
    ensures SubmittersRight(subs, place[id := next], jobs[id := job], rab)
  {
  }

  lemma ShutdownElsewhere(phase: Phase, place: Places, jobs: Table, id: Id, next: Place, job: Job)
    requires ShutdownRight(phase, place, jobs) && Avoids(place, id, next, OfShutdown)
    ensures ShutdownRight(phase, place[id := next], jobs[id := job])
  {
  }

  lemma RestElsewhere(place: Places, jobs: Table, id: Id, next: Place, job: Job)
    requires RestRight(place, jobs) && (id in place ==> !place[id].AtRest?) && (next.AtRest? ==> Terminal(job.status))
    ensures RestRight(place[id := next], jobs[id := job])
  {
  }

  lemma LostElsewhere(crashed: bool, failed: set<Id>, place: Places, jobs: Table, id: Id, next: Place, job: Job)
    requires LostRight(crashed, failed, place, jobs) && (crashed || (!next.Lost? && (id in place ==> !place[id].Lost?)))
    ensures LostRight(crashed, failed, place[id := next], jobs[id := job])
  {
  }

  /** The holders a job neither leaves nor joins, nor stays with, are as right as before. */
  lemma Bystanders(s: State, id: Id, next: Place, job: Job)
    requires HoldersRight(s)
    requires (id in s.place ==> !s.place[id].AtRest?) && (next.AtRest? ==> Terminal(job.status))
    ensures Avoids(s.place, id, next, OfQueue) ==> QueueRight(s.queue, s.place[id := next], s.jobs[id := job])
    ensures Avoids(s.place, id, next, OfWorker) ==> WorkersRight(s.workers, s.place[id := next], s.jobs[id := job])
    ensures Avoids(s.place, id, next, OfSubmitter) ==> SubmittersRight(s.subs, s.place[id := next], s.jobs[id := job], s.rab)
    ensures Avoids(s.place, id, next, OfShutdown) ==> ShutdownRight(s.phase, s.place[id := next], s.jobs[id := job])
    ensures RestRight(s.place[id := next], s.jobs[id := job])
    ensures s.crashed || (!next.Lost? && (id in s.place ==> !s.place[id].Lost?)) ==>
              LostRight(s.crashed, s.failedPuts, s.place[id := next], s.jobs[id := job])
  {
    hide QueueRight, WorkersRight, SubmittersRight, ShutdownRight, RestRight, LostRight, Avoids;
    if Avoids(s.place, id, next, OfQueue) { QueueElsewhere(s.queue, s.place, s.jobs, id, next, job); }
    if Avoids(s.place, id, next, OfWorker) { WorkersElsewhere(s.workers, s.place, s.jobs, id, next, job); }
    if Avoids(s.place, id, next, OfSubmitter) { SubmittersElsewhere(s.subs, s.place, s.jobs, s.rab, id, next, job); }
    if Avoids(s.place, id, next, OfShutdown) { ShutdownElsewhere(s.phase, s.place, s.jobs, id, next, job); }
    if s.crashed || (!next.Lost? && (id in s.place ==> !s.place[id].Lost?)) {
      LostElsewhere(s.crashed, s.failedPuts, s.place, s.jobs, id, next, job);
    }
    RestElsewhere(s.place, s.jobs, id, next, job);
  }

  // The submitter.

  lemma SubmitterCreates(subs: Subs, place: Places, jobs: Table, rab: map<Key, Record>, sid: Sid, id: Id, job: Job)
    requires SubmittersRight(subs, place, jobs, rab) && sid in subs && subs[sid].Checking? && subs[sid].req.key !in rab
    requires id !in place && id !in jobs && job.status == CREATED
    ensures SubmittersRight(subs[sid := Submitter.Working(subs[sid].req, id, IsCreated)], place[id := AtSubmitter(sid)],
                            jobs[id := job], rab)
  {
  }

  lemma SubmitterSaves(subs: Subs, place: Places, jobs: Table, rab: map<Key, Record>, sid: Sid, stage: Stage, job: Job)
    requires SubmittersRight(subs, place, jobs, rab) && sid in subs && subs[sid].Working?
    requires !subs[sid].stage.IsRecorded? && !stage.IsRecorded? && job.status == StageStatus(stage)
    ensures SubmittersRight(subs[sid := subs[sid].(stage := stage)], place, jobs[subs[sid].id := job], rab)
  {
  }

  lemma SubmitterLeaves(subs: Subs, place: Places, jobs: Table, rab: map<Key, Record>, sid: Sid, next: Place)
    requires SubmittersRight(subs, place, jobs, rab) && sid in subs && subs[sid].Working? && !next.AtSubmitter?
    ensures SubmittersRight(subs[sid := Finished], place[subs[sid].id := next], jobs, rab)
  {
  }

  // The queue.

  lemma QueueGains(queue: seq<Item>, place: Places, jobs: Table, id: Id)
    requires QueueRight(queue, place, jobs) && id in place && place[id] != InQueue && id in jobs && jobs[id].status == QUEUED
    ensures QueueRight(queue + [Work(id, QUEUED)], place[id := InQueue], jobs)
  {
    var longer, later := queue + [Work(id, QUEUED)], place[id := InQueue];
    assert Work(id, QUEUED) == longer[|queue|];
    forall other | other in later && later[other] == InQueue
      ensures Work(other, QUEUED) in longer
    {
      if other != id {
        assert Work(other, QUEUED) in queue;
      }
    }
  }

  lemma QueueLoses(queue: seq<Item>, place: Places, jobs: Table, next: Place)
    requires QueueRight(queue, place, jobs) && queue != [] && queue[0].Work? && next != InQueue
    ensures QueueRight(queue[1..], place[queue[0].id := next], jobs)
  {
    var later := place[queue[0].id := next];
    forall id | id in later && later[id] == InQueue
      ensures Work(id, QUEUED) in queue[1..]
    {
      assert Work(id, QUEUED) in queue;
      var i :| 0 <= i < |queue| && queue[i] == Work(id, QUEUED);
      assert queue[1..][i - 1] == Work(id, QUEUED);
    }
  }

  lemma QueueStops(queue: seq<Item>, place: Places, jobs: Table)
    requires QueueRight(queue, place, jobs) && queue != [] && queue[0].Sentinel?
    ensures QueueRight(queue[1..], place, jobs)
  {
    forall id | id in place && place[id] == InQueue
      ensures Work(id, QUEUED) in queue[1..]
    {
      assert Work(id, QUEUED) in queue;
      var i :| 0 <= i < |queue| && queue[i] == Work(id, QUEUED);
      assert queue[1..][i - 1] == Work(id, QUEUED);
    }
  }

  // The workers.

  lemma WorkerTakes(workers: seq<Worker>, place: Places, jobs: Table, w: nat, id: Id)
    requires WorkersRight(workers, place, jobs) && w < |workers| && workers[w].Idle?
    requires id in place && !place[id].AtWorker? && id in jobs && jobs[id].status == QUEUED
    ensures WorkersRight(workers[w := Holding(id, QUEUED)], place[id := AtWorker(w)], jobs)
  {
  }

  lemma WorkerStops(workers: seq<Worker>, place: Places, jobs: Table, w: nat)
    requires WorkersRight(workers, place, jobs) && w < |workers| && workers[w].Idle?
    ensures WorkersRight(workers[w := Exited], place, jobs)
  {
  }

  lemma WorkerSaves(workers: seq<Worker>, place: Places, jobs: Table, w: nat, id: Id, worker: Worker, job: Job)
    requires WorkersRight(workers, place, jobs) && w < |workers| && JobOf(workers[w]) == Some(id) == JobOf(worker)
    requires if worker.Executing? then job.status == RUNNING else worker.Cleaning? && Terminal(job.status)
    ensures WorkersRight(workers[w := worker], place, jobs[id := job])
  {
  }

  lemma WorkerReleases(workers: seq<Worker>, place: Places, jobs: Table, w: nat, id: Id)
    requires WorkersRight(workers, place, jobs) && w < |workers| && JobOf(workers[w]) == Some(id)
    ensures WorkersRight(workers[w := Idle], place[id := AtRest], jobs)
  {
  }

  lemma LostGains(crashed: bool, failed: set<Id>, place: Places, jobs: Table, id: Id)
    requires LostRight(crashed, failed, place, jobs) && id in jobs && jobs[id].status == QUEUED
    ensures LostRight(crashed, failed + {id}, place[id := Lost], jobs)
  {
  }

  // The shutdown.

  lemma DrainSaves(phase: Phase, place: Places, jobs: Table, id: Id, job: Job)
    requires ShutdownRight(phase, place, jobs) && phase == Phase.Draining(Some(Held(id, false))) && job.status == FAILED
    ensures ShutdownRight(Phase.Draining(Some(Held(id, true))), place, jobs[id := job])
  {
  }
}
