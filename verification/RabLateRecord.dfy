/**
 A run, without a crash, whose accepted job stays QUEUED: a submitter past its queue check records its job after the
 shutdown has filled the queue with sentinels, queueing the job fails, and a repeated request is accepted on the record.
 */
module RabLateRecord {
  import opened Bytes
  import opened Jobs
  import opened Rab
  import opened RabInvariant
  import opened RabTheorems

  const SMALL := Config(1, 1)
  const LATE := Request(Key(0, 0), 7)

  function Last(states: seq<State>): State
    requires states != []
  {
    states[|states| - 1]
  }

  lemma Do(c: Config, states: seq<State>, actions: seq<Action>, a: Action) returns (longer: seq<State>, more: seq<Action>)
    requires IsRun(c, states, actions) && Enabled(c, Last(states), a)
    ensures longer != [] && IsRun(c, longer, more) && Last(longer) == Apply(c, Last(states), a)
  {
    hide Enabled, Apply, Init;
    longer, more := states + [Apply(c, Last(states), a)], actions + [a];
  }

  lemma First(c: Config)
    ensures IsRun(c, [Init()], [])
  {
  }

  lemma Opening() returns (states: seq<State>, actions: seq<Action>)
    ensures states != [] && IsRun(SMALL, states, actions)
    ensures Last(states) == Init().(phase := Serving, workers := [Idle])
  {
    hide IsRun;
    First(SMALL);
    states, actions := Do(SMALL, [Init()], [], StartReconcile);
    states, actions := Do(SMALL, states, actions, ReconcileEnd);
    states, actions := Do(SMALL, states, actions, Start);
    assert IdleWorkers(1) == [Idle];
  }

  lemma Arrival() returns (states: seq<State>, actions: seq<Action>)
    ensures states != [] && IsRun(SMALL, states, actions)
    ensures Last(states) == Init().(phase := Serving, workers := [Idle], subs := map[0 := Checking(LATE)], lock := Some(0))
  {
    hide IsRun;
    states, actions := Opening();
    states, actions := Do(SMALL, states, actions, Arrive(0, LATE));
    states, actions := Do(SMALL, states, actions, Lock(0));
  }

  /** The first submitter has its job QUEUED and its upload in place, but no record yet. */
  predicate IsLate(s: State) {
    && s.jobs == map[0 := Job(true, QUEUED, false)] && 0 in s.history && s.rab == map[] && s.queue == [] && s.workers == [Idle]
    && s.subs == map[0 := Working(LATE, 0, IsMoved)] && s.lock == Some(0) && s.phase == Serving && !s.crashed && s.failedPuts == {}
  }

  lemma Submission() returns (states: seq<State>, actions: seq<Action>)
    ensures states != [] && IsRun(SMALL, states, actions) && IsLate(Last(states))
  {
    hide IsRun;
    states, actions := Arrival();
    states, actions := Do(SMALL, states, actions, Create(0, 0));
    states, actions := Do(SMALL, states, actions, SaveStaged(0));
    states, actions := Do(SMALL, states, actions, SaveQueued(0));
    states, actions := Do(SMALL, states, actions, MoveUpload(0));
  }

  /** The job is recorded but queueing it has failed. */
  predicate IsStuck(s: State) {
    && 0 in s.jobs && s.jobs[0].status == QUEUED && s.rab == map[LATE.key := Record(0, 7)] && s.queue == [Sentinel] && s.workers == [Idle]
    && s.subs == map[0 := Finished] && s.lock == None && s.phase == Stopping(1) && !s.crashed && s.failedPuts == {0}
  }

  lemma Shutdown() returns (states: seq<State>, actions: seq<Action>)
    ensures states != [] && IsRun(SMALL, states, actions) && IsStuck(Last(states))
  {
    hide IsRun;
    states, actions := Submission();
    states, actions := Do(SMALL, states, actions, StartDrain);
    states, actions := Do(SMALL, states, actions, DrainEnd);
    states, actions := Do(SMALL, states, actions, PutSentinel);
    states, actions := Do(SMALL, states, actions, SaveRecord(0));
    states, actions := Do(SMALL, states, actions, PutFails(0));
  }

  /** So "accepted jobs end terminal" is false without the condition on `failedPuts` in `QuietMeansTerminal`. */
  lemma AcceptedJobCanStayQueued() returns (states: seq<State>, actions: seq<Action>)
    ensures states != [] && IsRun(SMALL, states, actions)
    ensures var s := Last(states);
            s.phase == Stopped && IsQuiet(s) && !s.crashed
            && Acceptance(LATE.key, LATE.fingerprint, 0) in s.accepted && 0 in s.jobs && s.jobs[0].status == QUEUED
  {
    hide IsRun;
    states, actions := Shutdown();
    states, actions := Do(SMALL, states, actions, Arrive(1, LATE));
    states, actions := Do(SMALL, states, actions, Lock(1));
    states, actions := Do(SMALL, states, actions, Duplicate(1));
    states, actions := Do(SMALL, states, actions, Take(0));
    states, actions := Do(SMALL, states, actions, Join);
  }
}
