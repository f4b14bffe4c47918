/**
 * The relationship and schedule services as they write: the row and its children held in fields, each transaction a
 * sequence of statements that is rolled back when it throws.
 */
module TermsStore {
  import opened Calendar
  import opened Common
  import opened StateMachine
  import opened RelationshipMachine
  import opened Terms

  datatype Answer = Written | Failed(error: ErrorCode)

  function AnswerOf(o: Outcome): Answer {
    if o.Committed? then Written else Failed(o.error)
  }

  class RelationshipService {
    const machine: Machine<RelationshipStatus, RelationshipPayload>
    var status: RelationshipStatus
    var version: nat
    var startDate: Option<Date>
    var terms: seq<TermsRow>
    var schedules: seq<Schedule>
    var workerAcceptedAt: Option<Instant>
    var evidence: Option<Evidence>

    ghost predicate Valid()
      reads this, machine
    {
      machine.Valid() && machine.transitions == RELATIONSHIP_TRANSITIONS
    }

    /** The abstract value of the rows. */
    function Model(): Relationship
      reads this
    {
      Relationship(status, version, startDate, terms, schedules, workerAcceptedAt, evidence)
    }

    constructor (status: RelationshipStatus)
      ensures Valid()
      ensures Model() == Relationship(status, 0, None, [], [], None, None)
    {
      machine := new Machine(RELATIONSHIP_TRANSITIONS, [Archived]);
      this.status, version, startDate, terms, schedules, workerAcceptedAt, evidence := status, 0, None, [], [], None, None;
    }

    method Rollback(before: Relationship)
      modifies this
      ensures Model() == before
    {
      status, version, startDate, terms := before.status, before.version, before.startDate, before.terms;
      schedules, workerAcceptedAt, evidence := before.schedules, before.workerAcceptedAt, before.evidence;
    }

    /** What a call reads and checks before its transaction; nothing is written. */
    method BeginCall(party: Party, call: Call) returns (b: Beginning)
      requires Valid()
      ensures b == Begin(Model(), party, call)
    {
      var needed := if RoleOf(call) == Worker then WorkerParty else Family;
      if party != needed {
        return Declined(Forbidden);
      }
      if call.Save? || call.PutSchedule? {
        if status != PendingConfiguration && status != PendingWorkerAcceptance {
          return Declined(RelationshipNotEditable);
        }
        if call.PutSchedule? {
          var weeklyMinutes := SumWeek(call.rules);
          if weeklyMinutes <= 0 {
            return Declined(ScheduleEmpty);
          }
        }
        return Started(Request(call, Model()));
      }
      var next, error := machine.Transition(status, TargetOf(call), ContextOf(call, Model()));
      TableIsExact(status, TargetOf(call), ContextOf(call, Model()));
      if error.Some? {
        return Declined(if error.value == IllegalTransition then IllegalMove else GuardRefused);
      }
      if call.Accept? && CurrentTerms(Model()).None? {
        return Declined(RelationshipWithoutTerms);
      }
      return Started(Request(call, Model()));
    }

    /** The reduce over the days of a schedule. */
    method SumWeek(rules: seq<Rule>) returns (total: int)
      ensures total == WeeklyMinutes(rules)
    {
      total := 0;
      var i := 0;
      while i < |rules|
        invariant 0 <= i <= |rules| && total == WeeklyMinutes(rules[..i])
      {
        assert rules[..i + 1][..i] == rules[..i];
        total := total + (rules[i].endMinute - rules[i].startMinute - rules[i].breakMinutes);
        i := i + 1;
      }
      assert rules[..i] == rules;
    }

    /** The transaction of `saveConditions`: the terms row first, then the compare-and-set, then the status. */
    method SaveConditions(pre: Relationship, c: Conditions, plannedStart: Date) returns (answer: Answer)
      modifies this
      ensures answer == AnswerOf(CommitSave(old(Model()), pre, c, plannedStart))
      ensures Model() == After(old(Model()), CommitSave(old(Model()), pre, c, plannedStart))
    {
      var before := Model();
      var current := NewestOpen(terms, |terms|);
      if current.Some? {
        if !StartIsFree(terms, current.value, plannedStart) {
          return Failed(EffectiveFromTaken);
        }
        terms := terms[current.value := terms[current.value].(conditions := c, effectiveFrom := plannedStart)];
      } else {
        if !StartIsFree(terms, |terms|, plannedStart) {
          return Failed(EffectiveFromTaken);
        }
        terms := terms + [TermsRow(c, plannedStart, None, 0, None)];
      }
      if version != pre.version || status != pre.status {
        Rollback(before);
        return Failed(VersionConflict);
      }
      startDate, version := Some(plannedStart), version + 1;
      if pre.status == PendingWorkerAcceptance {
        status := PendingConfiguration;
      }
      return Written;
    }

    /** The transaction of `submitConditions`. */
    method SubmitConditions(pre: Relationship) returns (answer: Answer)
      modifies this
      ensures answer == AnswerOf(CommitSubmit(old(Model()), pre))
      ensures Model() == After(old(Model()), CommitSubmit(old(Model()), pre))
    {
      if version != pre.version || status != pre.status {
        return Failed(VersionConflict);
      }
      status, version := PendingWorkerAcceptance, version + 1;
      return Written;
    }

    /** The transaction of `acceptConditions`: the terms row is marked before the compare-and-set. */
    method AcceptConditions(pre: Relationship, now: Instant) returns (answer: Answer)
      requires CurrentTerms(pre).Some? && CurrentTerms(pre).value < |terms|
      modifies this
      ensures answer == AnswerOf(CommitAccept(old(Model()), pre, now))
      ensures Model() == After(old(Model()), CommitAccept(old(Model()), pre, now))
    {
      var before := Model();
      var k := CurrentTerms(pre).value;
      var captured := Capture(k, pre.terms[k]);
      var scheduleId := CurrentSchedule(pre.schedules, |pre.schedules|);
      terms := terms[k := terms[k].(acceptedByWorkerAt := Some(now))];
      if version != pre.version || status != pre.status {
        Rollback(before);
        return Failed(VersionConflict);
      }
      status, workerAcceptedAt := Active, Some(now);
      evidence := Some(Evidence(pre.version, now, scheduleId, captured));
      version := version + 1;
      return Written;
    }

    /** The transaction of `rejectConditions`. */
    method RejectConditions(pre: Relationship) returns (answer: Answer)
      modifies this
      ensures answer == AnswerOf(CommitReject(old(Model()), pre))
      ensures Model() == After(old(Model()), CommitReject(old(Model()), pre))
    {
      if version != pre.version || status != pre.status {
        return Failed(VersionConflict);
      }
      status, version := PendingConfiguration, version + 1;
      return Written;
    }

    /** The transaction of the schedule service: it looks at the status it read before, never at the version. */
    method PutWorkSchedule(pre: Relationship, rules: seq<Rule>, effectiveFrom: Date)
      modifies this
      ensures Committed(Model()) == CommitPut(old(Model()), pre, rules, effectiveFrom)
    {
      schedules := SupersedeAll(schedules, effectiveFrom);
      schedules := schedules + [Schedule(Published, effectiveFrom, None, rules)];
      if pre.status == PendingWorkerAcceptance {
        status := PendingConfiguration;
      }
    }
  }
}
