/** When a message can be claimed: the waits after failures and the lease of a claim, in milliseconds and over whole runs. */
module OutboxWaits {
  import opened Common
  import opened Outbox
  import opened OutboxProtocol

  /** Some claim that takes the message is possible now. */
  ghost predicate CanBeClaimed(s: System, id: MessageId) {
    exists step: Step, s' :: step.ClaimStep? && id in step.batch && Next(s, step, s')
  }

  predicate Takes(step: Step, id: MessageId) {
    step.ClaimStep? && id in step.batch
  }

  /** The message is written back in this step. */
  predicate Settles(s: System, step: Step, id: MessageId) {
    step.WriteBackStep? && step.flight in s.flights && s.flights[step.flight].claim.id == id
  }

  /** When a row that is not final can next be claimed. */
  function FreeAt(m: Message): Instant {
    if m.status == Processing && m.leaseExpiresAt.Some? then m.leaseExpiresAt.value else m.availableAt
  }

  lemma EligibleExactly(m: Message, clock: Instant)
    requires RowOk(m, clock)
    ensures Eligible(m, clock) <==> m.status !in {Delivered, DeadLetter} && clock >= FreeAt(m)
  {
  }

  lemma OneIsABatch(s: System, id: MessageId)
    requires id in s.rows && Eligible(s.rows[id], s.clock)
    ensures IsBatch(s.rows, s.rows.Keys - {id}, s.clock, [id])
  {
    hide Eligible;
  }

  /** A claim of a message is possible exactly when it is not final and its wait, or the lease of its last claim, is over. */
  lemma ClaimableExactly(s: System, id: MessageId)
    requires Inv(s) && id in s.rows
    ensures CanBeClaimed(s, id) <==> s.rows[id].status !in {Delivered, DeadLetter} && s.clock >= FreeAt(s.rows[id])
    ensures forall step, s' :: Takes(step, id) && Next(s, step, s') ==> CanBeClaimed(s, id)
  {
    assert RowFine(s, id);
    EligibleExactly(s.rows[id], s.clock);
    hide Inv;
    hide RowFine;
    hide RowOk;
    hide FreeAt;
    if CanBeClaimed(s, id) {
      var step: Step, s' :| step.ClaimStep? && id in step.batch && Next(s, step, s');
      hide Eligible;
      var i :| 0 <= i < |step.batch| && step.batch[i] == id;
      assert Eligible(s.rows[step.batch[i]], s.clock);
    }
    if Eligible(s.rows[id], s.clock) {
      OneIsABatch(s, id);
      hide Eligible;
      hide IsBatch;
      var step := ClaimStep(0, s.rows.Keys - {id}, [id]);
      var s' := s.(rows := ClaimRows(s.rows, [id], 0, s.clock),
                   flights := s.flights + Opened(s.nextFlight, Claims(s.rows, [id], 0, s.clock)),
                   nextFlight := s.nextFlight + 1);
      assert id in step.batch && Next(s, step, s');
    }
  }

  /** Nothing but a claim or a write-back of the message touches its status, its wait or its lease. */
  lemma OthersLeaveIt(s: System, step: Step, s': System, id: MessageId)
    requires Next(s, step, s') && id in s.rows && !Takes(step, id) && !Settles(s, step, id)
    ensures id in s'.rows && s'.rows[id] == s.rows[id]
  {
    hide IsBatch;
    hide Enqueued;
    hide WrittenBack;
  }

  /** A message that waits is in nobody's live hands, so it is not written back. */
  lemma WaitingIsNotSettled(s: System, step: Step, s': System, id: MessageId)
    requires Inv(s) && Next(s, step, s') && id in s.rows && s.rows[id].status == Pending
    ensures !Settles(s, step, id)
  {
    assert step.WriteBackStep? ==> FlightFine(s, step.flight);
    hide Inv;
  }

  lemma ClockGoesOn(s: System, step: Step, s': System)
    requires Next(s, step, s')
    ensures s.clock <= s'.clock
  {
    hide IsBatch;
  }

  /** The row as it was left, until its time has come. */
  predicate Untouched(s: System, id: MessageId, m: Message) {
    id in s.rows && s.rows[id] == m
  }

  /** While a pending message has not been claimed it stays as it is, and no claim comes before its time. */
  lemma {:induction false} WaitsOut(run: seq<System>, steps: seq<Step>, n: nat, k: nat, id: MessageId)
    requires IsRun(run, steps) && n <= k < |run| && id in run[n].rows && run[n].rows[id].status == Pending
    ensures |run| == |steps| + 1
    ensures run[k].clock >= run[n].rows[id].availableAt || Untouched(run[k], id, run[n].rows[id])
    ensures (forall j :: n <= j < k ==> !Takes(steps[j], id)) ==> Untouched(run[k], id, run[n].rows[id])
    decreases k
  {
    hide *;
    Start(run, steps);
    if n == k {
      IsUntouched(run[n], id);
    } else {
      WaitsOut(run, steps, n, k - 1, id);
      RunKeeps(run, steps, k - 1);
      StepOf(run, steps, k - 1);
      ClockGoesOn(run[k - 1], steps[k - 1], run[k]);
      if Untouched(run[k - 1], id, run[n].rows[id]) {
        WaitStep(run[k - 1], steps[k - 1], run[k], id, run[n].rows[id]);
      }
    }
  }

  lemma IsUntouched(s: System, id: MessageId)
    requires id in s.rows
    ensures Untouched(s, id, s.rows[id])
  {
  }

  lemma WaitStep(s: System, step: Step, s': System, id: MessageId, m: Message)
    requires Inv(s) && Next(s, step, s') && Untouched(s, id, m) && m.status == Pending
    ensures Takes(step, id) ==> s.clock >= m.availableAt
    ensures !Takes(step, id) ==> Untouched(s', id, m)
  {
    hide Inv;
    hide Next;
    hide CanBeClaimed;
    hide Takes;
    hide Settles;
    ClaimableExactly(s, id);
    if !Takes(step, id) {
      WaitingIsNotSettled(s, step, s', id);
      OthersLeaveIt(s, step, s', id);
    }
  }

  /** What a failure leaves: the wait in milliseconds after the first, second, third and fourth, the end after the fifth. */
  predicate Waits(m: Message, failedAt: Instant) {
    match m.attempts
    case 1 => m.status == Pending && m.availableAt == failedAt + 5_000
    case 2 => m.status == Pending && m.availableAt == failedAt + 15_000
    case 3 => m.status == Pending && m.availableAt == failedAt + 45_000
    case 4 => m.status == Pending && m.availableAt == failedAt + 135_000
    case 5 => m.status == DeadLetter
    case _ => false
  }

  lemma FailureStep(s: System, step: Step, s': System, id: MessageId)
    requires Inv(s) && Next(s, step, s') && Settles(s, step, id) && !step.delivered
    ensures id in s'.rows && Waits(s'.rows[id], s.clock) && s'.clock == s.clock
  {
    WriteBackSettles(s, step, s');
    assert RowFine(s, id) && FlightFine(s, step.flight);
    assert Power3(0) == 1 && Power3(1) == 3 && Power3(2) == 9 && Power3(3) == 27;
    hide Power3;
    hide Inv;
    hide RowFine;
  }

  /**
   * After a failed write-back the message waits 5, 15, 45 and 135 seconds and is dead after the fifth: in no later step
   * is it claimed before that time, and if it has not been claimed since, it can be from that time on.
   */
  lemma FailuresWait(run: seq<System>, steps: seq<Step>, n: nat, k: nat, id: MessageId)
    requires IsRun(run, steps) && n < k < |run| && n < |steps|
    requires Settles(run[n], steps[n], id) && !steps[n].delivered
    ensures |run| == |steps| + 1 && id in run[n + 1].rows
    ensures var m, failedAt := run[n + 1].rows[id], run[n].clock;
            && Waits(m, failedAt)
            && (k < |steps| && Takes(steps[k], id) ==> m.status == Pending && run[k].clock >= m.availableAt)
            && (m.status == Pending && (forall j :: n < j < k ==> !Takes(steps[j], id)) && run[k].clock >= m.availableAt ==>
                  CanBeClaimed(run[k], id))
  {
    hide *;
    Start(run, steps);
    StepOf(run, steps, n);
    RunKeeps(run, steps, n);
    FailureStep(run[n], steps[n], run[n + 1], id);
    var m := run[n + 1].rows[id];
    RunKeeps(run, steps, k);
    RowsStay(run, steps, n + 1, k, id);
    ClaimableExactly(run[k], id);
    if k < |steps| && Takes(steps[k], id) {
      StepOf(run, steps, k);
      PossibleClaim(run[k], steps[k], run[k + 1], id);
    }
    WaitsEnd(m, run[n].clock);
    if m.status == Pending {
      WaitsOut(run, steps, n + 1, k, id);
      UntouchedIs(run[k], id, m);
    } else {
      FinalRow(m);
      FinalIsForever(run, steps, n + 1, k, id);
    }
  }

  lemma PossibleClaim(s: System, step: Step, s': System, id: MessageId)
    requires Takes(step, id) && Next(s, step, s')
    ensures CanBeClaimed(s, id)
  {
    hide Next;
  }

  lemma WaitsEnd(m: Message, failedAt: Instant)
    requires Waits(m, failedAt)
    ensures m.status in {Pending, DeadLetter}
  {
  }

  lemma FinalRow(m: Message)
    requires m.status == DeadLetter
    ensures Final(m.status)
  {
  }

  lemma UntouchedIs(s: System, id: MessageId, m: Message)
    ensures Untouched(s, id, m) <==> id in s.rows && s.rows[id] == m
    ensures m.status == Pending ==> FreeAt(m) == m.availableAt
  {
  }

  lemma RowsStay(run: seq<System>, steps: seq<Step>, m: nat, n: nat, id: MessageId)
    requires IsRun(run, steps) && m <= n < |run| && id in run[m].rows
    ensures id in run[n].rows
  {
    hide IsRun;
    RunLater(run, steps, m, n);
    assert RowLater(run[m], run[n], id);
  }

  // ---------------------------------------------------------------- leases

  lemma ClaimLeases(s: System, step: Step, s': System, id: MessageId)
    requires Inv(s) && Next(s, step, s') && Takes(step, id)
    ensures id in s.rows && id in s'.rows && s'.clock == s.clock
    ensures s'.rows[id].status == Processing && s'.rows[id].leaseExpiresAt == Some(s.clock + 60_000)
  {
    hide Eligible;
    var i :| 0 <= i < |step.batch| && step.batch[i] == id;
    assert step.batch[i] in s.rows;
  }

  lemma LeaseStep(s: System, step: Step, s': System, id: MessageId, m: Message)
    requires Inv(s) && Next(s, step, s') && Untouched(s, id, m) && m.status == Processing && m.leaseExpiresAt.Some?
    requires !Settles(s, step, id)
    ensures Takes(step, id) ==> s.clock >= m.leaseExpiresAt.value
    ensures !Takes(step, id) ==> Untouched(s', id, m)
  {
    hide Inv;
    hide Next;
    hide CanBeClaimed;
    hide Takes;
    hide Settles;
    ClaimableExactly(s, id);
    if !Takes(step, id) {
      OthersLeaveIt(s, step, s', id);
    }
  }

  lemma {:induction false} LeaseHolds(run: seq<System>, steps: seq<Step>, n: nat, k: nat, id: MessageId)
    requires IsRun(run, steps) && n <= k < |run| && id in run[n].rows
    requires run[n].rows[id].status == Processing && run[n].rows[id].leaseExpiresAt.Some?
    requires forall j :: n <= j < k && j < |steps| ==> !Settles(run[j], steps[j], id)
    ensures run[k].clock >= run[n].rows[id].leaseExpiresAt.value || Untouched(run[k], id, run[n].rows[id])
    ensures (forall j :: n <= j < k && j < |steps| ==> !Takes(steps[j], id)) ==> Untouched(run[k], id, run[n].rows[id])
    decreases k
  {
    hide *;
    Start(run, steps);
    if n == k {
      IsUntouched(run[n], id);
    } else {
      LeaseHolds(run, steps, n, k - 1, id);
      RunKeeps(run, steps, k - 1);
      StepOf(run, steps, k - 1);
      ClockGoesOn(run[k - 1], steps[k - 1], run[k]);
      if Untouched(run[k - 1], id, run[n].rows[id]) {
        LeaseStep(run[k - 1], steps[k - 1], run[k], id, run[n].rows[id]);
      }
    }
  }

  /**
   * A claim holds its message for sixty seconds: as long as it is not written back, in no later step is it claimed before
   * that time, and if it has not been claimed since, it can be from that time on.
   */
  lemma ClaimsHold(run: seq<System>, steps: seq<Step>, n: nat, k: nat, id: MessageId)
    requires IsRun(run, steps) && n < k < |run| && n < |steps| && Takes(steps[n], id)
    requires forall j :: n < j < k && j < |steps| ==> !Settles(run[j], steps[j], id)
    ensures |run| == |steps| + 1
    ensures k < |steps| && Takes(steps[k], id) ==> run[k].clock >= run[n].clock + 60_000
    ensures (forall j :: n < j < k ==> !Takes(steps[j], id)) && run[k].clock >= run[n].clock + 60_000 ==>
              CanBeClaimed(run[k], id)
  {
    hide *;
    Start(run, steps);
    StepOf(run, steps, n);
    RunKeeps(run, steps, n);
    ClaimLeases(run[n], steps[n], run[n + 1], id);
    var m := run[n + 1].rows[id];
    RunKeeps(run, steps, k);
    RowsStay(run, steps, n + 1, k, id);
    ClaimableExactly(run[k], id);
    LeaseHolds(run, steps, n + 1, k, id);
    LeasedIs(run[k], id, m);
    if k < |steps| && Takes(steps[k], id) {
      StepOf(run, steps, k);
      PossibleClaim(run[k], steps[k], run[k + 1], id);
    }
  }

  lemma LeasedIs(s: System, id: MessageId, m: Message)
    requires m.status == Processing && m.leaseExpiresAt.Some?
    ensures Untouched(s, id, m) <==> id in s.rows && s.rows[id] == m
    ensures FreeAt(m) == m.leaseExpiresAt.value
  {
  }
}
