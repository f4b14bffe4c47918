/** What the outbox does without the two assumptions of its protocol: late write-backs and lost answers. */
module OutboxRuns {
  import opened Common
  import opened Outbox
  import opened OutboxProtocol

  ghost predicate Reachable(s: System) {
    exists run, steps :: IsRun(run, steps) && run[|steps|] == s
  }

  lemma StepReaches(s: System, step: Step, s': System)
    requires Reachable(s) && Next(s, step, s')
    ensures Reachable(s')
  {
    hide Next;
    var run, steps :| IsRun(run, steps) && run[|steps|] == s;
    var run', steps' := run + [s'], steps + [step];
    forall i | 0 <= i < |steps'|
      ensures Next(run'[i], steps'[i], run'[i + 1])
    {
      assert i < |steps| ==> Next(run[i], steps[i], run[i + 1]);
    }
    assert IsRun(run', steps') && run'[|steps'|] == s';
  }

  lemma ReachableIsSound(s: System)
    requires Reachable(s)
    ensures Inv(s)
  {
    hide Inv;
    hide Next;
    var run, steps :| IsRun(run, steps) && run[|steps|] == s;
    RunKeeps(run, steps, |steps|);
  }

  // ---------------------------------------------------------------- a write-back after its lease

  /** A claim carries the payload as it was enqueued, whatever has happened to the row since. */
  ghost predicate Originals(s: System) {
    forall f :: f in s.flights ==> IsOriginal(s, s.flights[f].claim)
  }

  predicate IsOriginal(s: System, c: Claim) {
    c.id in s.enqueued && c.payload == s.enqueued[c.id]
  }

  lemma StepKeepsOriginals(s: System, step: Step, s': System)
    requires Inv(s) && Originals(s) && Next(s, step, s')
    ensures Originals(s')
  {
    FlightsAreBelow(s);
    forall f | f in s'.flights
      ensures IsOriginal(s', s'.flights[f].claim)
    {
      if step.ClaimStep? {
        ClaimedFlight(s, step, s', f);
        if f >= s.nextFlight {
          assert RowFine(s, step.batch[f - s.nextFlight]);
        }
      }
      if f in s.flights {
        assert IsOriginal(s, s.flights[f].claim);
      }
    }
  }

  lemma {:induction false} ClaimsAreOriginal(run: seq<System>, steps: seq<Step>, n: nat)
    requires IsRun(run, steps) && n < |run|
    ensures Originals(run[n])
  {
    hide Next;
    hide Inv;
    if n > 0 {
      ClaimsAreOriginal(run, steps, n - 1);
      RunKeeps(run, steps, n - 1);
      StepOf(run, steps, n - 1);
      StepKeepsOriginals(run[n - 1], steps[n - 1], run[n]);
    }
  }

  /** What a write-back makes of a row that is already final. */
  lemma OverAFinalRow(m: Message, c: Claim, original: Payload, delivered: bool, now: Instant)
    requires PayloadOk(m, original) && Final(m.status) && m.processedAt.Some? && c.payload == original
    ensures var m' := WrittenBack(m, c, delivered, now);
            && (Final(m'.status) <==> delivered || c.attempts + 1 >= MAX_ATTEMPTS)
            && (PayloadOk(m', original) <==> Final(m'.status) || !original.isOtp)
            && (!Final(m'.status) && original.isOtp ==> m'.payload.encryptedOtp == None)
            && (!Final(m'.status) ==> Eligible(m', now + LONGEST_WAIT_MS))
  {
    if !delivered && c.attempts + 1 < MAX_ATTEMPTS {
      BackoffIsBounded(c.attempts + 1);
    }
    hide Backoff;
  }

  /**
   * A write-back for a message that is already final comes after its lease. It leaves the message final exactly when it
   * records a delivery or the last attempt; otherwise it reopens it, and a code is then lost: the message will be
   * retried with nothing to send.
   */
  lemma LateWriteBackReopens(s: System, f: FlightId, delivered: bool)
    requires Reachable(s) && f in s.flights
    requires s.flights[f].claim.id in s.rows && Final(s.rows[s.flights[f].claim.id].status)
    ensures var c := s.flights[f].claim;
            var m := WriteBack(s.rows, c, delivered, s.clock)[c.id];
            && !Live(s, f) && c.id in s.enqueued
            && (Final(m.status) <==> delivered || c.attempts + 1 >= MAX_ATTEMPTS)
            && (PayloadOk(m, s.enqueued[c.id]) <==> Final(m.status) || !s.enqueued[c.id].isOtp)
            && (!Final(m.status) && s.enqueued[c.id].isOtp ==> m.payload.encryptedOtp == None)
            && (!Final(m.status) ==> Eligible(m, s.clock + LONGEST_WAIT_MS))
  {
    var run, steps :| IsRun(run, steps) && run[|steps|] == s;
    hide Next;
    ClaimsAreOriginal(run, steps, |steps|);
    ReachableIsSound(s);
    hide Reachable;
    var c := s.flights[f].claim;
    assert FlightFine(s, f) && RowFine(s, c.id) && IsOriginal(s, c);
    OverAFinalRow(s.rows[c.id], c, s.enqueued[c.id], delivered, s.clock);
    hide WrittenBack;
    hide Eligible;
  }

  lemma SingleBatch(id: MessageId, m: Message, now: Instant)
    requires Eligible(m, now)
    ensures IsBatch(map[id := m], {}, now, [id])
  {
    hide Eligible;
  }

  /** A worker claims the only message of the table. */
  lemma ClaimReaches(s: System, id: MessageId, worker: WorkerId)
    requires Reachable(s) && id in s.rows && s.rows == map[id := s.rows[id]] && Eligible(s.rows[id], s.clock)
    ensures Reachable(s.(rows := map[id := Claimed(s.rows[id], worker, s.clock)],
                         flights := s.flights[s.nextFlight := Flight(ClaimOf(s.rows, id, worker, s.clock), None)],
                         nextFlight := s.nextFlight + 1))
  {
    hide Reachable;
    SingleBatch(id, s.rows[id], s.clock);
    var claims := Claims(s.rows, [id], worker, s.clock);
    hide Eligible;
    hide IsBatch;
    var s' := s.(rows := map[id := Claimed(s.rows[id], worker, s.clock)],
                 flights := s.flights[s.nextFlight := Flight(ClaimOf(s.rows, id, worker, s.clock), None)],
                 nextFlight := s.nextFlight + 1);
    assert claims == [ClaimOf(s.rows, id, worker, s.clock)];
    assert s'.flights == s.flights + Opened(s.nextFlight, claims);
    assert s'.rows == ClaimRows(s.rows, [id], worker, s.clock);
    StepReaches(s, ClaimStep(worker, {}, [id]), s');
  }

  /**
   * A run to such a state: the lease of one worker expires while it is sending, another worker claims and delivers the
   * code, and the first worker's mail server then refuses.
   */
  lemma LateWriteBackHappens(id: MessageId, input: EmailInput, first: WorkerId, second: WorkerId, clock: Instant)
    returns (s: System, f: FlightId)
    requires input.encryptedOtp.Some?
    ensures Reachable(s) && f in s.flights && s.flights[f].claim.id == id && s.flights[f].sent == Some(false)
    ensures id in s.rows && s.rows[id].status == Delivered && id in s.enqueued && s.enqueued[id].isOtp
    ensures s.flights[f].claim.attempts + 1 < MAX_ATTEMPTS
  {
    hide Reachable;
    hide IsBatch;
    var s0 := System(map[], clock, map[], 0, map[], multiset{});
    EmptyReaches(s0);
    var m0 := Enqueued(input, clock);
    var s1 := s0.(rows := map[id := m0], enqueued := map[id := NewPayload(input)]);
    StepReaches(s0, EnqueueStep(id, input), s1);
    ClaimReaches(s1, id, first);
    var c0 := ClaimOf(s1.rows, id, first, clock);
    var s2 := s1.(rows := map[id := Claimed(m0, first, clock)], flights := s1.flights[0 := Flight(c0, None)], nextFlight := 1);
    var s3 := s2.(clock := clock + LEASE_MS);
    StepReaches(s2, Tick(clock + LEASE_MS), s3);
    ClaimReaches(s3, id, second);
    var c1 := ClaimOf(s3.rows, id, second, s3.clock);
    var s4 := s3.(rows := map[id := Claimed(s3.rows[id], second, s3.clock)], flights := s3.flights[1 := Flight(c1, None)], nextFlight := 2);
    var s5 := s4.(flights := s4.flights[1 := Flight(c1, Some(true))], mailbox := s4.mailbox + multiset{id});
    StepReaches(s4, SendStep(1, true), s5);
    var s6 := s5.(rows := WriteBack(s5.rows, c1, true, s5.clock), flights := s5.flights - {1});
    StepReaches(s5, WriteBackStep(1, true), s6);
    s := s6.(flights := s6.flights[0 := Flight(c0, Some(false))]);
    StepReaches(s6, SendStep(0, false), s);
    f := 0;
  }

  lemma EmptyReaches(s: System)
    requires Init(s)
    ensures Reachable(s)
  {
    var run, steps: seq<Step> := [s], [];
    assert IsRun(run, steps) && run[|steps|] == s;
  }

  // ---------------------------------------------------------------- a write whose answer is lost

  /**
   * When the row is marked delivered but the answer of that write is lost, the worker takes it for a failure and writes
   * again. The payload is what it should be exactly when the message carries no code or this was its last attempt.
   */
  lemma LostAnswerReopens(m: Message, c: Claim, original: Payload, at: Instant, later: Instant)
    requires RowOk(m, at) && PayloadOk(m, original) && Owns(c, m)
    ensures var m' := AfterFailure(AfterDelivery(m, c, at), c, later);
            && (m'.status == Pending <==> c.attempts + 1 < MAX_ATTEMPTS)
            && (PayloadOk(m', original) <==> !original.isOtp || c.attempts + 1 >= MAX_ATTEMPTS)
  {
    OverAFinalRow(AfterDelivery(m, c, at), c, original, false, later);
    hide Backoff;
  }
}
