/** What a job's scan says about the state its row ends in, over every run. */
module RabVerdicts {
  import opened Bytes
  import opened Jobs
  import opened Rab
  import opened RabInvariant
  import opened RabSteps
  import opened RabTheorems

  /** Matches always win, and errors prevent an all-clean claim. */
  lemma AggregateIsConservative(verdicts: set<Verdict>)
    ensures Aggregate(verdicts) in {MALICIOUS, SUSPICIOUS, PUA} <==> verdicts * {MALICIOUS, SUSPICIOUS, PUA} != {}
    ensures Aggregate(verdicts) == MALICIOUS <==> MALICIOUS in verdicts
    ensures Aggregate(verdicts) == CLEAN <==> CLEAN in verdicts && ERROR !in verdicts && verdicts * {MALICIOUS, SUSPICIOUS, PUA} == {}
    ensures Aggregate(verdicts) == ERROR <==> verdicts == {ERROR}
  {
    assert MALICIOUS in verdicts ==> MALICIOUS in verdicts * {MALICIOUS, SUSPICIOUS, PUA};
    assert SUSPICIOUS in verdicts ==> SUSPICIOUS in verdicts * {MALICIOUS, SUSPICIOUS, PUA};
    assert PUA in verdicts ==> PUA in verdicts * {MALICIOUS, SUSPICIOUS, PUA};
  }

  /** The step ends the execution of the job with this scan. */
  predicate Scans(s: State, a: Action, id: Id, scan: Scan) {
    a.Finish? && a.w < |s.workers| && s.workers[a.w] == Executing(id) && a.scan == scan
  }

  /** What a saving step saves was not terminal, and only a scan ends it but as FAILED. */
  lemma SaveStep(c: Config, s: State, a: Action)
    requires Inv(c, s) && Enabled(c, s, a) && IsSave(a)
    ensures var (id, status) := SavedRow(c, s, a);
            && id in s.jobs && !Terminal(s.jobs[id].status)
            && Apply(c, s, a).jobs == s.jobs[id := s.jobs[id].(status := status)]
            && (status in {COMPLETE, QUARANTINED} ==> a.Finish? && Scans(s, a, id, a.scan))
  {
    hide Inv, StatusOf, Apply;
    assert HoldersRight(s) by { InvHolders(c, s); }
    if a.Reject? {
      NoRejection(c, s, a.w);
    } else if a.DrainFail? {
      ShutdownSaves(c, s);
    } else if a.Begin? || a.Finish? {
      WorkerSaves(c, s, a);
    } else {
      SubmitterSaves(c, s, a);
    }
  }

  /** Other steps leave a row alone, make a new one, or reconcile one that is not terminal. */
  lemma OtherStep(c: Config, s: State, a: Action, id: Id)
    requires Enabled(c, s, a) && !IsSave(a)
    ensures id in s.jobs ==> id in Apply(c, s, a).jobs && (Apply(c, s, a).jobs[id] == s.jobs[id] || !Terminal(s.jobs[id].status))
    ensures id in Apply(c, s, a).jobs && !(id in s.jobs && s.jobs[id] == Apply(c, s, a).jobs[id]) ==>
      Apply(c, s, a).jobs[id].status in {CREATED, FAILED}
  {
    if IsSubmission(a) {
      hide Apply;
      SubmissionRows(c, s, a);
    } else if IsHandOver(a) {
      hide Apply;
      HandOverRows(c, s, a);
    } else if !a.Create? && !a.ReconcileOne? {
      hide Apply;
      PhaseRows(c, s, a);
    }
  }

  /** A step leaves a row alone, makes a new one, or changes one that is not terminal, and only a scan ends one but as FAILED. */
  lemma RowStep(c: Config, s: State, a: Action, id: Id)
    requires Inv(c, s) && Enabled(c, s, a)
    ensures id in s.jobs ==> id in Apply(c, s, a).jobs
    ensures id in s.jobs && Terminal(s.jobs[id].status) ==> Apply(c, s, a).jobs[id] == s.jobs[id]
    ensures id in Apply(c, s, a).jobs && Apply(c, s, a).jobs[id].status in {COMPLETE, QUARANTINED} ==>
      (id in s.jobs && s.jobs[id] == Apply(c, s, a).jobs[id]) || (a.Finish? && Scans(s, a, id, a.scan))
  {
    hide Inv, Enabled, Apply, SavedRow, Scans;
    if IsSave(a) {
      SaveStep(c, s, a);
    } else {
      OtherStep(c, s, a, id);
    }
  }

  lemma {:induction false} TerminalRun(c: Config, states: seq<State>, actions: seq<Action>, i: nat, j: nat, id: Id)
    requires IsRun(c, states, actions) && i <= j < |states| && id in states[i].jobs && Terminal(states[i].jobs[id].status)
    ensures id in states[j].jobs && states[j].jobs[id] == states[i].jobs[id]
    decreases j - i
  {
    hide Inv, Enabled, Apply, Init, Terminal;
    if i < j {
      TerminalRun(c, states, actions, i, j - 1, id);
      RunKeeps(c, states, actions, j - 1);
      assert Enabled(c, states[j - 1], actions[j - 1]) && states[j] == Apply(c, states[j - 1], actions[j - 1]);
      RowStep(c, states[j - 1], actions[j - 1], id);
    }
  }

  lemma ScanSaves(c: Config, s: State, a: Action, id: Id, scan: Scan)
    requires Inv(c, s) && Enabled(c, s, a) && Scans(s, a, id, scan)
    ensures id in Apply(c, s, a).jobs
    ensures var status := Apply(c, s, a).jobs[id].status;
            && (status == FAILED <==> scan.Raises?)
            && (status == QUARANTINED <==> scan.Results? && (MALICIOUS in scan.verdicts || SUSPICIOUS in scan.verdicts || PUA in scan.verdicts))
            && (status == COMPLETE || status == FAILED || status == QUARANTINED)
  {
    hide Inv;
    assert HoldersRight(s) by { InvHolders(c, s); }
    WorkerSaves(c, s, a);
  }

  /**
   Whatever happens after a job's scan, crashes and restarts included, its row stays what the scan made it: FAILED if the
   scan raised, QUARANTINED if any result matched, COMPLETE otherwise.  So a job in which anything was detected is never COMPLETE.
   */
  lemma ScanDecides(c: Config, states: seq<State>, actions: seq<Action>, i: nat, j: nat, id: Id, scan: Scan)
    requires IsRun(c, states, actions) && i < j < |states| && Scans(states[i], actions[i], id, scan)
    ensures id in states[j].jobs
    ensures var status := states[j].jobs[id].status;
            && (status == FAILED <==> scan.Raises?)
            && (status == QUARANTINED <==> scan.Results? && (MALICIOUS in scan.verdicts || SUSPICIOUS in scan.verdicts || PUA in scan.verdicts))
            && (status == COMPLETE || status == FAILED || status == QUARANTINED)
  {
    hide Inv, Enabled, Apply, Init, Scans;
    RunKeeps(c, states, actions, i);
    assert Enabled(c, states[i], actions[i]) && states[i + 1] == Apply(c, states[i], actions[i]);
    ScanSaves(c, states[i], actions[i], id, scan);
    TerminalRun(c, states, actions, i + 1, j, id);
  }

  /** Every COMPLETE or QUARANTINED row has its scan, which found nothing in the first case and something in the second. */
  lemma {:induction false} EndedRowsWereScanned(c: Config, states: seq<State>, actions: seq<Action>, j: nat, id: Id)
    returns (i: nat, scan: Scan)
    requires IsRun(c, states, actions) && j < |states| && id in states[j].jobs && states[j].jobs[id].status in {COMPLETE, QUARANTINED}
    ensures i < j && i < |actions| && Scans(states[i], actions[i], id, scan) && scan.Results?
    ensures states[j].jobs[id].status == COMPLETE <==> scan.verdicts * {MALICIOUS, SUSPICIOUS, PUA} == {}
    decreases j
  {
    hide Inv, Enabled, Apply, Init, Scans;
    if j == 0 {
      assert false by { NoRowsAtFirst(c, states, actions); }
    } else {
      RunKeeps(c, states, actions, j - 1);
      assert Enabled(c, states[j - 1], actions[j - 1]) && states[j] == Apply(c, states[j - 1], actions[j - 1]);
      if id in states[j - 1].jobs && states[j - 1].jobs[id].status in {COMPLETE, QUARANTINED} {
        i, scan := EndedRowsWereScanned(c, states, actions, j - 1, id);
        RowStep(c, states[j - 1], actions[j - 1], id);
      } else {
        RowStep(c, states[j - 1], actions[j - 1], id);
        i, scan := j - 1, actions[j - 1].scan;
        ScanSaves(c, states[i], actions[i], id, scan);
        AggregateIsConservative(scan.verdicts);
      }
    }
  }

  lemma NoRowsAtFirst(c: Config, states: seq<State>, actions: seq<Action>)
    requires IsRun(c, states, actions)
    ensures states[0].jobs == map[]
  {
  }
}
