/** Whole runs of the terms protocol: which schedule was accepted, and what an edit of the schedule can undo. */
module TermsRuns {
  import opened Calendar
  import opened Common
  import opened StateMachine
  import opened RelationshipMachine
  import opened Terms
  import opened TermsProtocol

  // ---------------------------------------------------------------- the schedule in the evidence

  lemma {:induction false} LastIsCurrent(schedules: seq<Schedule>, n: nat)
    requires n <= |schedules| && forall i :: 0 <= i < |schedules| ==> (schedules[i].status == Published <==> i == |schedules| - 1)
    ensures CurrentSchedule(schedules, n) == if n == |schedules| && n > 0 then Some(n - 1) else None
  {
    if n > 0 {
      LastIsCurrent(schedules, n - 1);
    }
  }

  /**
   * What a committed acceptance records is the current schedule exactly when no schedule was added since its pre-read:
   * the compare-and-set does not see the schedules.
   */
  lemma AcceptedScheduleExactly(r: Relationship, q: Request, now: Instant)
    requires RowOk(r) && PreReadOk(r, q) && q.call.Accept? && WellFormed(r, q) && Commit(r, q, now).Committed?
    ensures var next := Commit(r, q, now).next;
            && next.evidence.Some?
            && (next.evidence.value.scheduleId == CurrentSchedule(next.schedules, |next.schedules|) <==>
                |q.pre.schedules| == |r.schedules|)
  {
    LastIsCurrent(q.pre.schedules, |q.pre.schedules|);
    LastIsCurrent(r.schedules, |r.schedules|);
    hide CurrentSchedule;
    hide CurrentTerms;
    hide HasText;
  }

  predicate EditCommits(step: Step) {
    step.CommitStep? && step.request.call.PutSchedule?
  }

  ghost predicate AcceptCommits(s: System, step: Step) {
    step.CommitStep? && step.request.call.Accept? && WellFormed(s.row, step.request) &&
    Commit(s.row, step.request, s.clock).Committed?
  }

  lemma StepOf(run: seq<System>, steps: seq<Step>, k: nat)
    requires IsRun(run, steps) && k < |steps|
    ensures |run| == |steps| + 1 && Next(run[k], steps[k], run[k + 1]) && Inv(run[k])
  {
    RunKeeps(run, steps, k);
    hide Next;
    hide Inv;
  }

  lemma StepSchedules(s: System, step: Step, s': System)
    requires Next(s, step, s')
    ensures |s'.row.schedules| == |s.row.schedules| + (if EditCommits(step) then 1 else 0)
  {
    hide Begin;
    hide CurrentSchedule;
    hide StartIsFree;
    hide HasArc;
  }

  /** Schedules are added by committed edits and by nothing else. */
  lemma {:induction false} SchedulesCountEdits(run: seq<System>, steps: seq<Step>, m: nat, n: nat)
    requires IsRun(run, steps) && m <= n < |run|
    ensures |run| == |steps| + 1
    ensures |run[m].row.schedules| <= |run[n].row.schedules|
    ensures |run[m].row.schedules| == |run[n].row.schedules| <==> forall k :: m <= k < n ==> !EditCommits(steps[k])
    decreases n
  {
    hide *;
    RunLength(run, steps);
    if m < n {
      SchedulesCountEdits(run, steps, m, n - 1);
      StepOf(run, steps, n - 1);
      StepSchedules(run[n - 1], steps[n - 1], run[n]);
    }
  }

  lemma RunLength(run: seq<System>, steps: seq<Step>)
    requires IsRun(run, steps)
    ensures |run| == |steps| + 1
  {
    hide Next;
  }

  lemma StepRequests(s: System, step: Step, s': System, q: Request)
    requires Inv(s) && Next(s, step, s') && q in s'.inFlight && q !in s.inFlight
    ensures step.BeginStep? && step.call == q.call && q.pre == s.row
    ensures q.call.Accept? ==> step.party == WorkerParty
  {
    if step.BeginStep? {
      BeginChecks(s.row, step.party, step.call);
    }
    hide Inv;
    hide Permits;
    hide CurrentTerms;
  }

  /** A request in flight carries the row that some earlier step of the run read. */
  lemma {:induction false} RequestWasBegun(run: seq<System>, steps: seq<Step>, n: nat, q: Request) returns (b: nat)
    requires IsRun(run, steps) && n < |run| && q in run[n].inFlight
    ensures |run| == |steps| + 1 && b < n
    ensures steps[b].BeginStep? && steps[b].call == q.call && q.pre == run[b].row
    ensures q.call.Accept? ==> steps[b].party == WorkerParty
    decreases n
  {
    hide Next;
    hide Inv;
    assert n > 0;
    StepOf(run, steps, n - 1);
    if q in run[n - 1].inFlight {
      b := RequestWasBegun(run, steps, n - 1, q);
    } else {
      StepRequests(run[n - 1], steps[n - 1], run[n], q);
      b := n - 1;
    }
  }

  lemma StepEvidence(s: System, step: Step, s': System)
    requires Inv(s) && Next(s, step, s')
    ensures AcceptCommits(s, step) ==>
              && step.request in s.inFlight && s'.row.evidence.Some?
              && s'.row.evidence.value.scheduleId == CurrentSchedule(step.request.pre.schedules, |step.request.pre.schedules|)
    ensures !AcceptCommits(s, step) ==> s'.row.evidence == s.row.evidence
  {
    hide Inv;
    hide Begin;
    hide CurrentSchedule;
    hide StartIsFree;
    hide HasArc;
  }

  /** The evidence of a relationship is that of its latest acceptance, made on a row that an earlier step read. */
  lemma {:induction false} EvidenceComesFrom(run: seq<System>, steps: seq<Step>, n: nat) returns (b: nat, a: nat)
    requires IsRun(run, steps) && n < |run| && run[n].row.evidence.Some?
    ensures |run| == |steps| + 1 && b < a < n
    ensures steps[b] == BeginStep(WorkerParty, Accept) && steps[a] == CommitStep(Request(Accept, run[b].row))
    ensures AcceptCommits(run[a], steps[a]) && forall k :: a < k < n ==> !AcceptCommits(run[k], steps[k])
    ensures run[n].row.evidence.value.scheduleId == CurrentSchedule(run[b].row.schedules, |run[b].row.schedules|)
    decreases n
  {
    hide Next;
    hide Inv;
    hide AcceptCommits;
    hide CurrentSchedule;
    assert n > 0;
    StepOf(run, steps, n - 1);
    StepEvidence(run[n - 1], steps[n - 1], run[n]);
    if AcceptCommits(run[n - 1], steps[n - 1]) {
      a := n - 1;
      AcceptsRequest(run[a], steps[a]);
      b := RequestWasBegun(run, steps, a, steps[a].request);
      assert steps[a].request == Request(Accept, run[b].row);
    } else {
      b, a := EvidenceComesFrom(run, steps, n - 1);
    }
  }

  lemma AcceptsRequest(s: System, step: Step)
    requires AcceptCommits(s, step)
    ensures step.CommitStep? && step.request.call == Accept
  {
  }

  lemma EvidenceIsThere(run: seq<System>, steps: seq<Step>, n: nat)
    requires IsRun(run, steps) && n < |run|
    ensures SchedulesOk(run[n].row) && (Accepted(run[n].row.status) ==> run[n].row.evidence.Some?)
  {
    RunKeeps(run, steps, n);
    hide IsRun;
    hide PreReadOk;
  }

  /**
   * While a relationship is active the evidence names its current schedule exactly when no edit of the schedule has
   * committed since the row that was accepted was read.
   */
  lemma AcceptedScheduleIsCurrent(run: seq<System>, steps: seq<Step>, n: nat) returns (b: nat, a: nat)
    requires IsRun(run, steps) && n < |run| && Accepted(run[n].row.status)
    ensures |run| == |steps| + 1 && b < a < n && run[n].row.evidence.Some?
    ensures steps[b] == BeginStep(WorkerParty, Accept) && steps[a] == CommitStep(Request(Accept, run[b].row))
    ensures AcceptCommits(run[a], steps[a]) && forall k :: a < k < n ==> !AcceptCommits(run[k], steps[k])
    ensures var r := run[n].row;
            r.evidence.value.scheduleId == CurrentSchedule(r.schedules, |r.schedules|) <==>
            forall k :: b <= k < n ==> !EditCommits(steps[k])
  {
    hide *;
    EvidenceIsThere(run, steps, n);
    b, a := EvidenceComesFrom(run, steps, n);
    EvidenceIsThere(run, steps, b);
    SchedulesCountEdits(run, steps, b, n);
    NamesTheSame(run[b].row, run[n].row);
  }

  lemma NamesTheSame(before: Relationship, after: Relationship)
    requires SchedulesOk(before) && SchedulesOk(after)
    ensures CurrentSchedule(before.schedules, |before.schedules|) == CurrentSchedule(after.schedules, |after.schedules|) <==>
            |before.schedules| == |after.schedules|
  {
    LastIsCurrent(before.schedules, |before.schedules|);
    LastIsCurrent(after.schedules, |after.schedules|);
  }

  // ---------------------------------------------------------------- reachable states

  ghost predicate Reachable(s: System) {
    exists run, steps :: IsRun(run, steps) && run[|steps|] == s
  }

  lemma StepReaches(s: System, step: Step, s': System)
    requires Reachable(s) && Next(s, step, s')
    ensures Reachable(s')
  {
    hide Next;
    var run, steps :| IsRun(run, steps) && run[|steps|] == s;
    var run', steps' := run + [s'], steps + [step];
    forall i | 0 <= i < |steps'|
      ensures Next(run'[i], steps'[i], run'[i + 1])
    {
      assert i < |steps| ==> Next(run[i], steps[i], run[i + 1]);
    }
    assert IsRun(run', steps') && run'[|steps'|] == s';
  }

  lemma ReachableIsSound(s: System)
    requires Reachable(s)
    ensures Inv(s) && RowOk(s.row)
  {
    hide RowOk;
    hide PreReadOk;
    hide Next;
    var run, steps :| IsRun(run, steps) && run[|steps|] == s;
    RunKeeps(run, steps, |steps|);
  }

  /** A call that starts and commits with nothing in between. */
  lemma CallReaches(s: System, party: Party, call: Call, next: Relationship)
    requires Reachable(s) && Begin(s.row, party, call) == Started(Request(call, s.row))
    requires WellFormed(s.row, Request(call, s.row)) && Commit(s.row, Request(call, s.row), s.clock) == Committed(next)
    ensures Reachable(s.(row := next))
  {
    hide Begin;
    hide Commit;
    hide Reachable;
    hide WellFormed;
    var q := Request(call, s.row);
    StepReaches(s, BeginStep(party, call), Asking(s, q));
    assert s.inFlight + multiset{q} - multiset{q} == s.inFlight;
    StepReaches(Asking(s, q), CommitStep(q), s.(row := next));
  }

  function Configured(status: RelationshipStatus, version: nat, terms: seq<TermsRow>, schedules: seq<Schedule>, date: Date): Relationship {
    Relationship(status, version, Some(date), terms, schedules, None, None)
  }

  lemma NewReaches(clock: Instant)
    ensures Reachable(System(Relationship(PendingConfiguration, 0, None, [], [], None, None), clock, multiset{}))
  {
    var s := System(Relationship(PendingConfiguration, 0, None, [], [], None, None), clock, multiset{});
    var run, steps: seq<Step> := [s], [];
    assert IsRun(run, steps) && run[|steps|] == s;
  }

  lemma SaveReaches(clock: Instant, conditions: Conditions, date: Date)
    ensures Reachable(System(Configured(PendingConfiguration, 1, [TermsRow(conditions, date, None, 0, None)], [], date), clock, multiset{}))
  {
    hide Reachable;
    NewReaches(clock);
    var s := System(Relationship(PendingConfiguration, 0, None, [], [], None, None), clock, multiset{});
    CallReaches(s, Family, Save(conditions, date), Configured(PendingConfiguration, 1, [TermsRow(conditions, date, None, 0, None)], [], date));
  }

  lemma PutReaches(clock: Instant, terms: seq<TermsRow>, rules: seq<Rule>, date: Date)
    requires Reachable(System(Configured(PendingConfiguration, 1, terms, [], date), clock, multiset{})) && WeeklyMinutes(rules) > 0
    ensures Reachable(System(Configured(PendingConfiguration, 1, terms, [Schedule(Published, date, None, rules)], date), clock, multiset{}))
  {
    hide Reachable;
    hide WeeklyMinutes;
    assert SupersedeAll([], date) == [];
    CallReaches(System(Configured(PendingConfiguration, 1, terms, [], date), clock, multiset{}), Family, PutSchedule(rules, date),
                Configured(PendingConfiguration, 1, terms, [Schedule(Published, date, None, rules)], date));
  }

  lemma SubmitReaches(s: System)
    requires Reachable(s) && s.row.status == PendingConfiguration && |s.row.terms| == 1 && |s.row.schedules| > 0
    ensures Reachable(s.(row := s.row.(status := PendingWorkerAcceptance, version := s.row.version + 1)))
  {
    ReachableIsSound(s);
    assert OneOpenRow(s.row) && SchedulesOk(s.row);
    hide Reachable;
    hide RowOk;
    CurrentIsTheRow(s.row);
    PublishedOnce(s.row);
    SubmitArc(s.row.status, ContextOf(Submit, s.row));
    CallReaches(s, Family, Submit, s.row.(status := PendingWorkerAcceptance, version := s.row.version + 1));
  }

  /** The family saves terms and a schedule, starts to edit the schedule, and submits while that edit is in flight. */
  lemma SubmittedDuringAnEdit(clock: Instant, conditions: Conditions, rules: seq<Rule>, date: Date) returns (s: System, put: Request)
    requires WeeklyMinutes(rules) > 0
    ensures Reachable(s) && s.row.status == PendingWorkerAcceptance && put in s.inFlight
    ensures put.call == PutSchedule(rules, date) && put.pre.status == PendingConfiguration
  {
    hide Reachable;
    hide WeeklyMinutes;
    SaveReaches(clock, conditions, date);
    var terms := [TermsRow(conditions, date, None, 0, None)];
    PutReaches(clock, terms, rules, date);
    var s0 := System(Configured(PendingConfiguration, 1, terms, [Schedule(Published, date, None, rules)], date), clock, multiset{});
    put := Request(PutSchedule(rules, date), s0.row);
    var s1 := Asking(s0, put);
    StepReaches(s0, BeginStep(Family, put.call), s1);
    SubmitReaches(s1);
    s := s1.(row := s1.row.(status := PendingWorkerAcceptance, version := s1.row.version + 1));
  }

  // ---------------------------------------------------------------- what an edit of the schedule can undo

  lemma BeginFromHere(s: System, party: Party, call: Call)
    requires RowOk(s.row) && s.row.status == PendingWorkerAcceptance
    requires (party == Family && call.PutSchedule? && WeeklyMinutes(call.rules) > 0) || (party == WorkerParty && call.Accept?)
    ensures Begin(s.row, party, call) == Started(Request(call, s.row))
    ensures Next(s, BeginStep(party, call), s.(inFlight := s.inFlight + multiset{Request(call, s.row)}))
    ensures call.Accept? ==> WellFormed(s.row, Request(call, s.row)) && CurrentTerms(s.row) == Some(0)
  {
    CurrentIsTheRow(s.row);
    OnlyTheWorkerActivates(s.row.status, ContextOf(call, s.row));
    hide RowOk;
  }

  lemma CommitFromHere(s: System, q: Request)
    requires q in s.inFlight && WellFormed(s.row, q)
    ensures Next(s, CommitStep(q), Committing(s, q))
  {
    hide Commit;
  }

  function Committing(s: System, q: Request): System
    requires WellFormed(s.row, q)
  {
    s.(row := After(s.row, Commit(s.row, q, s.clock)), inFlight := s.inFlight - multiset{q})
  }

  function Asking(s: System, q: Request): System {
    s.(inFlight := s.inFlight + multiset{q})
  }

  lemma AcceptedRow(r: Relationship, now: Instant)
    requires RowOk(r) && r.status == PendingWorkerAcceptance
    ensures CurrentTerms(r) == Some(0) && |r.terms| == 1
    ensures CommitAccept(r, r, now).Committed? && EvidenceMatches(CommitAccept(r, r, now).next)
    ensures CommitAccept(r, r, now).next.status == Active
    ensures forall schedules, status :: EvidenceMatches(CommitAccept(r, r, now).next.(schedules := schedules, status := status))
  {
    CurrentIsTheRow(r);
    hide CurrentSchedule;
  }

  /** The worker accepts a reachable submitted row, with nothing between the pre-read and the commit. */
  lemma AcceptReaches(s: System) returns (s1: System, s2: System)
    requires Reachable(s) && s.row.status == PendingWorkerAcceptance
    ensures Next(s, BeginStep(WorkerParty, Accept), s1) && Next(s1, CommitStep(Request(Accept, s.row)), s2)
    ensures Reachable(s2) && s2.inFlight == s.inFlight && s2.clock == s.clock
    ensures WellFormed(s.row, Request(Accept, s.row)) && s2.row == After(s.row, CommitAccept(s.row, s.row, s.clock))
    ensures s2.row.status == Active && EvidenceMatches(s2.row) && s2.row.schedules == s.row.schedules
    ensures s2.row.evidence.value.scheduleId == CurrentSchedule(s.row.schedules, |s.row.schedules|)
  {
    hide Reachable;
    ReachableIsSound(s);
    var accept := Request(Accept, s.row);
    AcceptedRow(s.row, s.clock);
    BeginFromHere(s, WorkerParty, Accept);
    s1 := Asking(s, accept);
    s2 := Committing(s1, accept);
    assert s.inFlight + multiset{accept} - multiset{accept} == s.inFlight;
    hide Next;
    hide Begin;
    hide RowOk;
    hide EvidenceMatches;
    hide CurrentSchedule;
    CommitFromHere(s1, accept);
    StepReaches(s, BeginStep(WorkerParty, Accept), s1);
    StepReaches(s1, CommitStep(accept), s2);
  }

  /**
   * An edit that read the submitted relationship and commits after the acceptance takes the active relationship back to
   * configuration, with its version, its evidence and its accepted terms in place.
   */
  lemma PutTakesActiveBack(s: System, rules: seq<Rule>, date: Date) returns (s1: System, s2: System, s3: System, s4: System)
    requires Reachable(s) && s.row.status == PendingWorkerAcceptance && WeeklyMinutes(rules) > 0
    ensures Next(s, BeginStep(Family, PutSchedule(rules, date)), s1) && Next(s1, BeginStep(WorkerParty, Accept), s2)
    ensures Next(s2, CommitStep(Request(Accept, s.row)), s3)
    ensures Next(s3, CommitStep(Request(PutSchedule(rules, date), s.row)), s4) && Reachable(s4)
    ensures s3.row.status == Active && s4.row.status == PendingConfiguration && EvidenceMatches(s4.row)
    ensures (s4.row.version, s4.row.terms, s4.row.evidence) == (s3.row.version, s3.row.terms, s3.row.evidence)
    ensures !HasArc(RELATIONSHIP_TRANSITIONS, s3.row.status, s4.row.status)
  {
    hide Reachable;
    hide Next;
    hide Begin;
    hide RowOk;
    hide CommitAccept;
    hide EvidenceMatches;
    hide CurrentSchedule;
    hide HasArc;
    var put := Request(PutSchedule(rules, date), s.row);
    ReachableIsSound(s);
    AcceptedRow(s.row, s.clock);
    BeginFromHere(s, Family, put.call);
    s1 := Asking(s, put);
    StepReaches(s, BeginStep(Family, put.call), s1);
    s2, s3 := AcceptReaches(s1);
    s4 := Committing(s3, put);
    TableIsExact(Active, PendingConfiguration, ContextOf(put.call, s.row));
    CommitFromHere(s3, put);
    StepReaches(s3, CommitStep(put), s4);
  }

  lemma PutAdds(r: Relationship, put: Request, now: Instant)
    requires put.call.PutSchedule? && put.pre.status == PendingConfiguration && SchedulesOk(r) && |put.call.rules| > 0
    ensures WellFormed(r, put) && Commit(r, put, now).Committed?
    ensures var next := Commit(r, put, now).next;
            && next == r.(schedules := next.schedules) && |next.schedules| == |r.schedules| + 1
            && SchedulesOk(next) && CurrentSchedule(next.schedules, |next.schedules|) == Some(|r.schedules|)
  {
    var next := Commit(r, put, now).next;
    assert SchedulesOk(next);
    LastIsCurrent(next.schedules, |next.schedules|);
    hide CurrentSchedule;
  }

  /**
   * An edit that read the relationship before it was submitted leaves the status alone. When it commits between the
   * worker's pre-read and commit, the acceptance goes through and its evidence names the replaced schedule.
   */
  lemma AcceptedScheduleCanBeStale(s: System, put: Request) returns (s1: System, s2: System, s3: System)
    requires Reachable(s) && s.row.status == PendingWorkerAcceptance
    requires put in s.inFlight && put.call.PutSchedule? && put.pre.status == PendingConfiguration
    ensures Next(s, BeginStep(WorkerParty, Accept), s1) && Next(s1, CommitStep(put), s2)
    ensures Next(s2, CommitStep(Request(Accept, s.row)), s3) && Reachable(s3)
    ensures s3.row.status == Active && s3.row.evidence.Some?
    ensures s3.row.evidence.value.scheduleId == Some(|s.row.schedules| - 1)
    ensures CurrentSchedule(s3.row.schedules, |s3.row.schedules|) == Some(|s.row.schedules|)
  {
    hide Reachable;
    var accept := Request(Accept, s.row);
    ReachableIsSound(s);
    SubmittedRow(s, put);
    BeginFromHere(s, WorkerParty, Accept);
    s1 := Asking(s, accept);
    assert put in s1.inFlight && accept in s1.inFlight - multiset{put};
    PutAdds(s.row, put, s.clock);
    s2 := Committing(s1, put);
    LastIsCurrent(s.row.schedules, |s.row.schedules|);
    s3 := Committing(s2, accept);
    hide Next;
    hide Begin;
    hide RowOk;
    hide SchedulesOk;
    hide CurrentSchedule;
    hide CommitPut;
    hide CurrentTerms;
    CommitFromHere(s1, put);
    CommitFromHere(s2, accept);
    StepReaches(s, BeginStep(WorkerParty, Accept), s1);
    StepReaches(s1, CommitStep(put), s2);
    StepReaches(s2, CommitStep(accept), s3);
  }

  lemma SubmittedRow(s: System, put: Request)
    requires Inv(s) && s.row.status == PendingWorkerAcceptance && put in s.inFlight && put.call.PutSchedule?
    ensures SchedulesOk(s.row) && |s.row.schedules| > 0 && |put.call.rules| > 0
  {
    assert PreReadOk(s.row, put);
  }

  /** When the same edit commits after the acceptance, the relationship stays active under a schedule nobody accepted. */
  lemma AcceptedScheduleCanBeReplaced(s: System, put: Request) returns (s1: System, s2: System, s3: System)
    requires Reachable(s) && s.row.status == PendingWorkerAcceptance
    requires put in s.inFlight && put.call.PutSchedule? && put.pre.status == PendingConfiguration
    ensures Next(s, BeginStep(WorkerParty, Accept), s1) && Next(s1, CommitStep(Request(Accept, s.row)), s2)
    ensures Next(s2, CommitStep(put), s3) && Reachable(s3)
    ensures s2.row.status == s3.row.status == Active && s3.row.version == s2.row.version && EvidenceMatches(s3.row)
    ensures s3.row.evidence.value.scheduleId == CurrentSchedule(s2.row.schedules, |s2.row.schedules|) == Some(|s.row.schedules| - 1)
    ensures CurrentSchedule(s3.row.schedules, |s3.row.schedules|) == Some(|s.row.schedules|)
  {
    hide Reachable;
    hide Next;
    hide RowOk;
    hide Inv;
    hide CurrentSchedule;
    hide CommitAccept;
    hide Commit;
    hide WellFormed;
    ReachableIsSound(s);
    SubmittedRow(s, put);
    LastIsCurrent(s.row.schedules, |s.row.schedules|);
    s1, s2 := AcceptReaches(s);
    PutAdds(s2.row, put, s2.clock);
    s3 := Committing(s2, put);
    CommitFromHere(s2, put);
    StepReaches(s2, CommitStep(put), s3);
  }
}
