/** What each call of the terms flow writes and when it goes through, and what of it the relationship still holds later on. */
module TermsHistory {
  import opened Calendar
  import opened Common
  import opened StateMachine
  import opened RelationshipMachine
  import opened Terms
  import opened TermsProtocol
  import opened TermsRuns

  // ---------------------------------------------------------------- what a commit writes

  /** One open row that holds what was entered; a row that was there keeps its version and its mark of acceptance. */
  predicate Entered(before: seq<TermsRow>, after: seq<TermsRow>, c: Conditions, date: Date) {
    && |after| == 1 && after[0].effectiveTo == None && after[0].conditions == c && after[0].effectiveFrom == date
    && (if before == [] then (after[0].version, after[0].acceptedByWorkerAt) == (0, None)
        else (after[0].version, after[0].acceptedByWorkerAt) == (before[0].version, before[0].acceptedByWorkerAt))
  }

  /** The schedules end with the new one, which alone is published; the one that was stops at the new one's start. */
  predicate Scheduled(before: seq<Schedule>, after: seq<Schedule>, rules: seq<Rule>, date: Date) {
    && |after| == |before| + 1 && after[|before|] == Schedule(Published, date, None, rules)
    && forall i :: 0 <= i < |before| ==>
         && after[i].status == Superseded && after[i].rules == before[i].rules && after[i].effectiveFrom == before[i].effectiveFrom
         && after[i].effectiveTo == if before[i].status == Published then Some(date) else before[i].effectiveTo
  }

  /** The row as the worker accepted it, field by field. */
  predicate Witnesses(e: Evidence, r: Relationship, pre: Relationship, now: Instant)
    requires |r.terms| == 1
  {
    var c := r.terms[0].conditions;
    && e.acceptedAt == now && e.relationshipVersion == r.version
    && e.scheduleId == (if |pre.schedules| == 0 then None else Some(|pre.schedules| - 1))
    && e.captured == Captured(c.agreedRemuneration, c.categoryCode, 0, c.liveInMode, c.remunerationScheme,
                              r.terms[0].version, c.weeklyHours)
  }

  /** What the commit of a request makes of the row it finds. */
  predicate Writes(r: Relationship, q: Request, now: Instant, r': Relationship)
    requires q.call.Accept? ==> |r.terms| == 1
  {
    match q.call
    case Save(c, date) =>
      && Entered(r.terms, r'.terms, c, date)
      && r' == r.(status := PendingConfiguration, version := r.version + 1, terms := r'.terms, startDate := Some(date))
    case Submit => r' == r.(status := PendingWorkerAcceptance, version := r.version + 1)
    case Accept =>
      && r'.evidence.Some? && Witnesses(r'.evidence.value, r, q.pre, now)
      && r' == r.(status := Active, version := r.version + 1, workerAcceptedAt := Some(now), evidence := r'.evidence,
                  terms := [r.terms[0].(acceptedByWorkerAt := Some(now))])
    case Reject(_) => r' == r.(status := PendingConfiguration, version := r.version + 1)
    case PutSchedule(rules, date) =>
      && Scheduled(r.schedules, r'.schedules, rules, date)
      && r' == r.(schedules := r'.schedules,
                  status := if q.pre.status == PendingWorkerAcceptance then PendingConfiguration else r.status)
  }

  lemma OneRow(r: Relationship, date: Date)
    requires OneOpenRow(r)
    ensures NewestOpen(r.terms, |r.terms|) == (if r.terms == [] then None else Some(0))
    ensures SaveFits(r.terms, date)
  {
    CurrentIsTheRow(r);
  }

  lemma SaveWrites(r: Relationship, q: Request, now: Instant)
    requires RowOk(r) && PreReadOk(r, q) && q.call.Save?
    ensures var o := CommitSave(r, q.pre, q.call.conditions, q.call.plannedStart);
            && (o.Committed? <==> r.version == q.pre.version && r.status == q.pre.status)
            && (o.Committed? ==> Writes(r, q, now, o.next))
  {
    OneRow(r, q.call.plannedStart);
    hide SaveFits;
    hide NewestOpen;
    hide SchedulesOk;
    hide EvidenceMatches;
  }

  lemma AcceptWrites(r: Relationship, q: Request, now: Instant)
    requires RowOk(r) && PreReadOk(r, q) && q.call.Accept?
    ensures WellFormed(r, q) && |r.terms| == 1
    ensures var o := CommitAccept(r, q.pre, now);
            && (o.Committed? <==> r.version == q.pre.version && r.status == q.pre.status)
            && (o.Committed? ==> Writes(r, q, now, o.next))
  {
    CurrentIsTheRow(q.pre);
    LastIsCurrent(q.pre.schedules, |q.pre.schedules|);
    assert |q.pre.terms| == 1;
    hide CurrentSchedule;
    hide EvidenceMatches;
    hide CurrentTerms;
  }

  lemma PutWrites(r: Relationship, q: Request, now: Instant)
    requires RowOk(r) && PreReadOk(r, q) && q.call.PutSchedule?
    ensures var o := CommitPut(r, q.pre, q.call.rules, q.call.effectiveFrom);
            o.Committed? && Writes(r, q, now, o.next)
  {
    hide EvidenceMatches;
  }

  /**
   * Every commit of the protocol, on whatever copy it was decided: it goes through exactly when version and status are
   * still those of the copy (a schedule edit always does), and what it writes is stated field by field.
   */
  lemma CommitsExactly(r: Relationship, q: Request, now: Instant)
    requires RowOk(r) && PreReadOk(r, q)
    ensures WellFormed(r, q) && (q.call.Accept? ==> |r.terms| == 1)
    ensures Commit(r, q, now).Committed? <==> q.call.PutSchedule? || (r.version == q.pre.version && r.status == q.pre.status)
    ensures Commit(r, q, now).Committed? ==> Writes(r, q, now, Commit(r, q, now).next)
  {
    hide RowOk;
    hide PreReadOk;
    hide Entered;
    hide Scheduled;
    hide Witnesses;
    hide CommitSave;
    hide CommitAccept;
    hide CommitPut;
    match q.call
    case Save(_, _) => SaveWrites(r, q, now);
    case Accept => AcceptWrites(r, q, now);
    case PutSchedule(_, _) => PutWrites(r, q, now);
    case _ =>
  }

  // ---------------------------------------------------------------- who may start a call, and when

  /** Who may start a call, on which row. */
  predicate MayStart(r: Relationship, party: Party, call: Call) {
    match call
    case Save(_, _) => party == Family && r.status in {PendingConfiguration, PendingWorkerAcceptance}
    case Submit => party == Family && r.status == PendingConfiguration && r.terms != [] && r.schedules != []
    case Accept => party == WorkerParty && r.status == PendingWorkerAcceptance
    case Reject(reason) => party == WorkerParty && r.status == PendingWorkerAcceptance && HasText(reason)
    case PutSchedule(rules, _) =>
      party == Family && r.status in {PendingConfiguration, PendingWorkerAcceptance} && WeeklyMinutes(rules) > 0
  }

  /** The weekly minutes are the spans of the rules without their breaks, added up. */
  lemma WeeklyMinutesAddUp(a: seq<Rule>, b: seq<Rule>, rule: Rule)
    ensures WeeklyMinutes([]) == 0
    ensures WeeklyMinutes([rule]) == rule.endMinute - rule.startMinute - rule.breakMinutes
    ensures WeeklyMinutes(a + b) == WeeklyMinutes(a) + WeeklyMinutes(b)
  {
    assert [rule][..0] == [];
    WeeklyMinutesAppend(a, b);
  }

  lemma {:induction false} WeeklyMinutesAppend(a: seq<Rule>, b: seq<Rule>)
    ensures WeeklyMinutes(a + b) == WeeklyMinutes(a) + WeeklyMinutes(b)
    decreases |b|
  {
    if b == [] {
      assert a + b == a;
    } else {
      WeeklyMinutesAppend(a, b[..|b| - 1]);
      assert (a + b)[..|a + b| - 1] == a + b[..|b| - 1];
    }
  }

  lemma BeginsExactly(r: Relationship, party: Party, call: Call)
    requires RowOk(r)
    ensures Begin(r, party, call).Started? <==> MayStart(r, party, call)
    ensures Begin(r, party, call).Started? ==> Begin(r, party, call).request == Request(call, r)
  {
    hide WeeklyMinutes;
    hide HasText;
    hide SchedulesOk;
    hide EvidenceMatches;
    assert OneOpenRow(r) && SchedulesOk(r);
    CurrentIsTheRow(r);
    PublishedOnce(r);
    var c := ContextOf(call, r);
    SubmitArc(r.status, c);
    OnlyTheWorkerActivates(r.status, c);
    ReturnArc(r.status, c);
    hide CurrentTerms;
    hide HasPublishedSchedule;
    hide Permits;
  }

  /** A call whose pre-read nothing interferes with goes through exactly when its party may start it. */
  lemma FreshCallsGoThrough(s: System, party: Party, call: Call)
    requires Reachable(s)
    ensures MayStart(s.row, party, call) <==> Begin(s.row, party, call) == Started(Request(call, s.row))
    ensures MayStart(s.row, party, call) ==>
              && (call.Accept? ==> |s.row.terms| == 1)
              && WellFormed(s.row, Request(call, s.row)) && Commit(s.row, Request(call, s.row), s.clock).Committed?
              && Writes(s.row, Request(call, s.row), s.clock, Commit(s.row, Request(call, s.row), s.clock).next)
  {
    hide *;
    ReachableIsSound(s);
    BeginsExactly(s.row, party, call);
    if MayStart(s.row, party, call) {
      OwnPreRead(s.row, party, call);
      CommitsExactly(s.row, Request(call, s.row), s.clock);
    }
  }

  lemma OwnPreRead(r: Relationship, party: Party, call: Call)
    requires RowOk(r) && Begin(r, party, call).Started?
    ensures PreReadOk(r, Request(call, r))
  {
    BeginChecks(r, party, call);
    hide Begin;
    hide RowOk;
    hide Checked;
  }

  // ---------------------------------------------------------------- whole runs

  ghost predicate SaveCommits(s: System, step: Step) {
    step.CommitStep? && step.request.call.Save? && WellFormed(s.row, step.request) &&
    Commit(s.row, step.request, s.clock).Committed?
  }

  /** The terms and the planned start are those that a call of the family entered. */
  predicate HoldsEntry(r: Relationship, c: Conditions, date: Date) {
    && |r.terms| == 1 && r.terms[0].effectiveTo == None && r.terms[0].conditions == c && r.terms[0].effectiveFrom == date
    && r.startDate == Some(date)
  }

  lemma StepTerms(s: System, step: Step, s': System)
    requires Inv(s) && Next(s, step, s')
    ensures SaveCommits(s, step) ==> HoldsEntry(s'.row, step.request.call.conditions, step.request.call.plannedStart)
    ensures !SaveCommits(s, step) ==> |s'.row.terms| == |s.row.terms|
    ensures !SaveCommits(s, step) ==> forall c, date :: HoldsEntry(s.row, c, date) ==> HoldsEntry(s'.row, c, date)
  {
    hide RowOk;
    hide Begin;
    hide Commit;
    hide HasArc;
    hide Witnesses;
    hide Scheduled;
    if step.CommitStep? {
      assert PreReadOk(s.row, step.request);
      CommitsExactly(s.row, step.request, s.clock);
    }
    hide PreReadOk;
  }

  lemma NothingEntered(run: seq<System>, steps: seq<Step>)
    requires IsRun(run, steps)
    ensures |run| == |steps| + 1 && run[0].row.terms == [] && run[0].row.evidence == None
  {
    hide Next;
  }

  lemma SavesRequest(s: System, step: Step)
    requires Inv(s) && SaveCommits(s, step) && step.request in s.inFlight
    ensures step.CommitStep? && step.request.call.Save? && step.request.pre.status in {PendingConfiguration, PendingWorkerAcceptance}
  {
    assert PreReadOk(s.row, step.request);
    hide RowOk;
  }

  lemma CommitsInFlight(s: System, step: Step, s': System)
    requires Next(s, step, s') && step.CommitStep?
    ensures step.request in s.inFlight
  {
    hide Commit;
  }

  /** In every state the terms are those of the last save that was committed, and the family made it. */
  lemma {:induction false} TermsAreTheLastSaved(run: seq<System>, steps: seq<Step>, n: nat) returns (b: nat, k: nat)
    requires IsRun(run, steps) && n < |run| && run[n].row.terms != []
    ensures |run| == |steps| + 1 && b < k < n && steps[k].CommitStep? && steps[k].request.call.Save?
    ensures steps[b] == BeginStep(Family, steps[k].request.call) && MayStart(run[b].row, Family, steps[k].request.call)
    ensures SaveCommits(run[k], steps[k]) && forall j :: k < j < n ==> !SaveCommits(run[j], steps[j])
    ensures HoldsEntry(run[n].row, steps[k].request.call.conditions, steps[k].request.call.plannedStart)
    decreases n
  {
    hide *;
    NothingEntered(run, steps);
    TermsRuns.StepOf(run, steps, n - 1);
    StepTerms(run[n - 1], steps[n - 1], run[n]);
    if SaveCommits(run[n - 1], steps[n - 1]) {
      k := n - 1;
      b := SaveWasBegun(run, steps, k);
    } else {
      b, k := TermsAreTheLastSaved(run, steps, n - 1);
    }
  }

  lemma SaveWasBegun(run: seq<System>, steps: seq<Step>, k: nat) returns (b: nat)
    requires IsRun(run, steps) && k < |steps| && |run| == |steps| + 1 && SaveCommits(run[k], steps[k])
    ensures b < k && steps[k].CommitStep? && steps[k].request.call.Save?
    ensures steps[b] == BeginStep(Family, steps[k].request.call) && MayStart(run[b].row, Family, steps[k].request.call)
  {
    hide *;
    TermsRuns.StepOf(run, steps, k);
    IsCommit(run[k], steps[k]);
    CommitsInFlight(run[k], steps[k], run[k + 1]);
    SavesRequest(run[k], steps[k]);
    b := RequestIsAuthorized(run, steps, k, steps[k].request);
    FamilySaves(run[b].row, steps[b].party, steps[b].call);
  }

  lemma IsCommit(s: System, step: Step)
    requires SaveCommits(s, step)
    ensures step.CommitStep? && step.request.call.Save?
  {
    hide Commit;
    hide WellFormed;
  }

  lemma FamilySaves(r: Relationship, party: Party, call: Call)
    requires MayStart(r, party, call) && call.Save?
    ensures party == Family
  {
  }

  lemma RequestStarts(s: System, step: Step, s': System, q: Request)
    requires Inv(s) && Next(s, step, s') && q in s'.inFlight && q !in s.inFlight
    ensures step.BeginStep? && step.call == q.call && q.pre == s.row && MayStart(s.row, step.party, step.call)
  {
    StepRequests(s, step, s', q);
    assert RowOk(s.row);
    BeginsExactly(s.row, step.party, step.call);
    hide Inv;
    hide Begin;
    hide MayStart;
  }

  /** Behind every request in flight there is a call that its party was allowed to start on the row it read. */
  lemma {:induction false} RequestIsAuthorized(run: seq<System>, steps: seq<Step>, n: nat, q: Request) returns (b: nat)
    requires IsRun(run, steps) && n < |run| && q in run[n].inFlight
    ensures |run| == |steps| + 1 && b < n
    ensures steps[b].BeginStep? && steps[b].call == q.call && q.pre == run[b].row
    ensures MayStart(run[b].row, steps[b].party, q.call)
    decreases n
  {
    hide *;
    NothingInFlight(run, steps);
    TermsRuns.StepOf(run, steps, n - 1);
    if q in run[n - 1].inFlight {
      b := RequestIsAuthorized(run, steps, n - 1, q);
    } else {
      RequestStarts(run[n - 1], steps[n - 1], run[n], q);
      b := n - 1;
    }
  }

  lemma NothingInFlight(run: seq<System>, steps: seq<Step>)
    requires IsRun(run, steps)
    ensures |run| == |steps| + 1 && run[0].inFlight == multiset{}
  {
    hide Next;
  }

  lemma EvidenceOfAccepted(run: seq<System>, steps: seq<Step>, n: nat)
    requires IsRun(run, steps) && n < |run| && Accepted(run[n].row.status)
    ensures EvidenceMatches(run[n].row) && run[n].row.terms != []
  {
    RunKeeps(run, steps, n);
    hide IsRun;
    hide PreReadOk;
  }

  lemma CapturedIs(r: Relationship, c: Conditions, date: Date)
    requires EvidenceMatches(r) && HoldsEntry(r, c, date)
    ensures r.evidence.Some?
    ensures var e := r.evidence.value.captured;
            && (e.agreedRemuneration, e.categoryCode, e.liveInMode) == (c.agreedRemuneration, c.categoryCode, c.liveInMode)
            && (e.remunerationScheme, e.weeklyHours) == (c.remunerationScheme, c.weeklyHours)
  {
  }

  /** So what the worker accepted, and the evidence shows, is what the family saved last. */
  lemma EvidenceIsTheLastSaved(run: seq<System>, steps: seq<Step>, n: nat) returns (b: nat, k: nat)
    requires IsRun(run, steps) && n < |run| && Accepted(run[n].row.status)
    ensures |run| == |steps| + 1 && b < k < n && steps[k].CommitStep? && steps[k].request.call.Save?
    ensures steps[b] == BeginStep(Family, steps[k].request.call)
    ensures SaveCommits(run[k], steps[k]) && forall j :: k < j < n ==> !SaveCommits(run[j], steps[j])
    ensures run[n].row.evidence.Some?
    ensures var e, c := run[n].row.evidence.value.captured, steps[k].request.call.conditions;
            && (e.agreedRemuneration, e.categoryCode, e.liveInMode) == (c.agreedRemuneration, c.categoryCode, c.liveInMode)
            && (e.remunerationScheme, e.weeklyHours) == (c.remunerationScheme, c.weeklyHours)
    ensures run[n].row.startDate == Some(steps[k].request.call.plannedStart)
  {
    hide *;
    EvidenceOfAccepted(run, steps, n);
    b, k := TermsAreTheLastSaved(run, steps, n);
    CapturedIs(run[n].row, steps[k].request.call.conditions, steps[k].request.call.plannedStart);
    StartIs(run[n].row, steps[k].request.call.conditions, steps[k].request.call.plannedStart);
  }

  lemma StartIs(r: Relationship, c: Conditions, date: Date)
    requires HoldsEntry(r, c, date)
    ensures r.startDate == Some(date)
  {
  }
}
