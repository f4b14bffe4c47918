/**
 * Any number of outbox workers over one table and one clock, any of which may crash at any point. The writes match on
 * the id alone, so two things are assumed: a worker writes back before its lease expires, and a write that reports an
 * error has not been applied. `OutboxRuns` shows what happens otherwise.
 */
module OutboxProtocol {
  import opened Common
  import opened Outbox

  type FlightId = nat

  /** A claimed message in the hands of a worker; `sent` is the answer of the mail server, once there is one. */
  datatype Flight = Flight(claim: Claim, sent: Option<bool>)

  /** `enqueued` and `mailbox` record what was put in and what the mail server accepted; no step reads them. */
  datatype System = System(
    rows: Table,
    clock: Instant,
    flights: map<FlightId, Flight>,
    nextFlight: FlightId,
    enqueued: map<MessageId, Payload>,
    mailbox: multiset<MessageId>)

  datatype Step =
    | Tick(later: Instant)
    | EnqueueStep(id: MessageId, input: EmailInput)
    | ClaimStep(worker: WorkerId, locked: set<MessageId>, batch: seq<MessageId>)
    | SendStep(flight: FlightId, accepted: bool)
    | WriteBackStep(flight: FlightId, delivered: bool)
    | CrashStep(flight: FlightId)

  function FlightAt(first: FlightId, claims: seq<Claim>, k: FlightId): Flight
    requires first <= k < first + |claims|
  {
    Flight(claims[k - first], None)
  }

  function Opened(first: FlightId, claims: seq<Claim>): map<FlightId, Flight> {
    map k | first <= k < first + |claims| :: FlightAt(first, claims, k)
  }

  ghost predicate Next(s: System, step: Step, s': System) {
    match step
    case Tick(later) =>
      s.clock <= later && s' == s.(clock := later)
    case EnqueueStep(id, input) =>
      && id !in s.rows
      && s' == s.(rows := s.rows[id := Enqueued(input, s.clock)], enqueued := s.enqueued[id := NewPayload(input)])
    case ClaimStep(worker, locked, batch) =>
      && IsBatch(s.rows, locked, s.clock, batch)
      && s' == s.(rows := ClaimRows(s.rows, batch, worker, s.clock),
                  flights := s.flights + Opened(s.nextFlight, Claims(s.rows, batch, worker, s.clock)),
                  nextFlight := s.nextFlight + |batch|)
    case SendStep(f, accepted) =>
      && f in s.flights && s.flights[f].sent.None?
      && s' == s.(flights := s.flights[f := s.flights[f].(sent := Some(accepted))],
                  mailbox := if accepted then s.mailbox + multiset{s.flights[f].claim.id} else s.mailbox)
    case WriteBackStep(f, delivered) =>
      // a send that was accepted may still end as a failure, when the first write throws
      && f in s.flights && s.flights[f].sent.Some? && (delivered ==> s.flights[f].sent.value)
      && Live(s, f)
      && s' == s.(rows := WriteBack(s.rows, s.flights[f].claim, delivered, s.clock), flights := s.flights - {f})
    case CrashStep(f) =>
      // also what a batch leaves behind when a message breaks it off
      f in s.flights && s' == s.(flights := s.flights - {f})
  }

  ghost predicate Init(s: System) {
    s.rows == map[] && s.flights == map[] && s.enqueued == map[] && s.mailbox == multiset{}
  }

  ghost predicate IsRun(run: seq<System>, steps: seq<Step>) {
    && |run| == |steps| + 1
    && Init(run[0])
    && forall i :: 0 <= i < |steps| ==> Next(run[i], steps[i], run[i + 1])
  }

  // ---------------------------------------------------------------- the invariant

  predicate Live(s: System, f: FlightId)
    requires f in s.flights
  {
    s.clock < s.flights[f].claim.lease
  }

  /** The longest wait after a failure that is retried: 135 seconds. */
  const LONGEST_WAIT_MS := Power3(MAX_ATTEMPTS - 2) * BACKOFF_UNIT_MS

  predicate RowOk(m: Message, clock: Instant) {
    && m.attempts <= MAX_ATTEMPTS
    && (m.status == DeadLetter <==> m.attempts == MAX_ATTEMPTS)
    && (m.leaseExpiresAt.Some? <==> m.status == Processing)
    && (m.processingBy.Some? <==> m.status == Processing)
    && (m.processedAt.Some? <==> Final(m.status))
    && (m.status == Processing ==> m.availableAt <= clock && m.leaseExpiresAt.value <= clock + LEASE_MS)
    && (m.status == Pending ==> m.availableAt <= clock + LONGEST_WAIT_MS)
  }

  /** The code is in the payload exactly while the message is not final; nothing else of the payload ever changes. */
  predicate PayloadOk(m: Message, original: Payload) {
    && (original.encryptedOtp.Some? <==> original.isOtp)
    && m.payload == (if Final(m.status) && m.processedAt.Some? then RedactOtp(original, m.processedAt.value) else original)
  }

  predicate Owns(c: Claim, m: Message) {
    && m.status == Processing && m.leaseExpiresAt == Some(c.lease) && m.processingBy == Some(c.worker)
    && m.attempts == c.attempts && m.payload == c.payload
  }

  predicate RowFine(s: System, id: MessageId)
    requires id in s.rows
  {
    && RowOk(s.rows[id], s.clock)
    && id in s.enqueued && PayloadOk(s.rows[id], s.enqueued[id])
    && (s.rows[id].status == Delivered ==> id in s.mailbox)
  }

  predicate FlightFine(s: System, f: FlightId)
    requires f in s.flights
  {
    && f < s.nextFlight
    && s.flights[f].claim.id in s.rows
    && (Live(s, f) ==> Owns(s.flights[f].claim, s.rows[s.flights[f].claim.id]))
    && (s.flights[f].sent == Some(true) ==> s.flights[f].claim.id in s.mailbox)
  }

  /** No two unexpired leases on one message. */
  predicate Apart(s: System, f: FlightId, g: FlightId)
    requires f in s.flights && g in s.flights
  {
    f != g && Live(s, f) && Live(s, g) ==> s.flights[f].claim.id != s.flights[g].claim.id
  }

  ghost predicate RowsOk(s: System) {
    s.enqueued.Keys == s.rows.Keys && forall id :: id in s.rows ==> RowFine(s, id)
  }

  ghost predicate FlightsOk(s: System) {
    forall f :: f in s.flights ==> FlightFine(s, f)
  }

  ghost predicate OneLeaseEach(s: System) {
    forall f, g :: f in s.flights && g in s.flights ==> Apart(s, f, g)
  }

  ghost predicate Inv(s: System) {
    RowsOk(s) && FlightsOk(s) && OneLeaseEach(s)
  }

  predicate RowLater(s: System, s': System, id: MessageId)
    requires id in s.rows
  {
    && id in s'.rows
    && s.rows[id].attempts <= s'.rows[id].attempts && s'.rows[id].correlationId == s.rows[id].correlationId
    && (Final(s.rows[id].status) ==> s'.rows[id] == s.rows[id])
  }

  /** Final messages stay as they are, and nothing is forgotten. */
  ghost predicate Later(s: System, s': System) {
    && s.clock <= s'.clock && s.mailbox <= s'.mailbox
    && forall id :: id in s.rows ==> RowLater(s, s', id)
  }

  lemma TickKeeps(s: System, step: Step, s': System)
    requires Inv(s) && step.Tick? && Next(s, step, s')
    ensures Inv(s') && Later(s, s')
  {
    forall id | id in s'.rows ensures RowFine(s', id) && RowLater(s, s', id) {
      assert RowFine(s, id);
    }
    forall f | f in s'.flights ensures FlightFine(s', f) {
      assert FlightFine(s, f);
    }
    forall f, g | f in s'.flights && g in s'.flights ensures Apart(s', f, g) {
      assert Apart(s, f, g);
    }
  }

  lemma NewRowOk(input: EmailInput, now: Instant)
    ensures RowOk(Enqueued(input, now), now) && PayloadOk(Enqueued(input, now), NewPayload(input))
  {
    assert LONGEST_WAIT_MS >= 0;
  }

  lemma EnqueueKeepsRows(s: System, step: Step, s': System)
    requires Inv(s) && step.EnqueueStep? && Next(s, step, s')
    ensures RowsOk(s') && Later(s, s')
  {
    NewRowOk(step.input, s.clock);
    assert s' == s.(rows := s.rows[step.id := Enqueued(step.input, s.clock)], enqueued := s.enqueued[step.id := NewPayload(step.input)]);
    assert Enqueued(step.input, s.clock).status == Pending;
    hide Next;
    hide RowOk;
    hide PayloadOk;
    hide NewPayload;
    hide Enqueued;
    forall id | id in s'.rows ensures RowFine(s', id) && (id in s.rows ==> RowLater(s, s', id)) {
      if id != step.id {
        assert RowFine(s, id);
      }
    }
    assert s'.enqueued.Keys == s'.rows.Keys;
    hide RowFine;
    hide RowLater;
  }

  lemma EnqueueKeepsFlights(s: System, step: Step, s': System)
    requires Inv(s) && step.EnqueueStep? && Next(s, step, s')
    ensures FlightsOk(s') && OneLeaseEach(s')
  {
    forall f | f in s'.flights ensures FlightFine(s', f) {
      assert FlightFine(s, f);
    }
    hide FlightFine;
    forall f, g | f in s'.flights && g in s'.flights ensures Apart(s', f, g) {
      assert Apart(s, f, g);
    }
  }

  /** A row that can be claimed is in nobody's live hands. */
  lemma EligibleIsFree(s: System, f: FlightId)
    requires Inv(s) && f in s.flights && s.flights[f].claim.id in s.rows
    requires Eligible(s.rows[s.flights[f].claim.id], s.clock)
    ensures !Live(s, f)
  {
    assert FlightFine(s, f);
  }

  lemma ClaimedFlight(s: System, step: Step, s': System, f: FlightId)
    requires step.ClaimStep? && Next(s, step, s') && f in s'.flights
    requires forall g :: g in s.flights ==> g < s.nextFlight
    ensures f < s.nextFlight ==> f in s.flights && s'.flights[f] == s.flights[f]
    ensures f >= s.nextFlight ==> f - s.nextFlight < |step.batch|
    ensures f >= s.nextFlight ==> s'.flights[f] == Flight(ClaimOf(s.rows, step.batch[f - s.nextFlight], step.worker, s.clock), None)
  {
    var claims := Claims(s.rows, step.batch, step.worker, s.clock);
    assert f >= s.nextFlight ==> s'.flights[f] == FlightAt(s.nextFlight, claims, f);
    hide Eligible;
  }

  lemma FlightsAreBelow(s: System)
    requires Inv(s)
    ensures forall g :: g in s.flights ==> g < s.nextFlight
  {
    forall g | g in s.flights ensures g < s.nextFlight {
      assert FlightFine(s, g);
    }
  }

  lemma ClaimedRowOk(m: Message, original: Payload, worker: WorkerId, now: Instant)
    requires RowOk(m, now) && PayloadOk(m, original) && Eligible(m, now)
    ensures RowOk(Claimed(m, worker, now), now) && PayloadOk(Claimed(m, worker, now), original)
    ensures !Final(m.status) && Claimed(m, worker, now).attempts == m.attempts
  {
  }

  lemma ClaimKeepsRows(s: System, step: Step, s': System)
    requires Inv(s) && step.ClaimStep? && Next(s, step, s')
    ensures RowsOk(s') && Later(s, s')
  {
    assert s'.rows.Keys == s.rows.Keys;
    hide RowOk;
    hide PayloadOk;
    forall id | id in s'.rows
      ensures RowFine(s', id) && RowLater(s, s', id)
    {
      assert RowFine(s, id);
      if id in step.batch {
        ClaimedRowOk(s.rows[id], s.enqueued[id], step.worker, s.clock);
      }
    }
    hide RowFine;
    hide RowLater;
  }

  lemma ClaimKeepsFlights(s: System, step: Step, s': System)
    requires Inv(s) && step.ClaimStep? && Next(s, step, s')
    ensures FlightsOk(s')
  {
    FlightsAreBelow(s);
    forall f | f in s'.flights
      ensures FlightFine(s', f)
    {
      ClaimedFlight(s, step, s', f);
      if f < s.nextFlight {
        assert FlightFine(s, f);
        if s.flights[f].claim.id in step.batch {
          EligibleIsFree(s, f);
        }
      }
    }
  }

  lemma ClaimKeepsLeases(s: System, step: Step, s': System)
    requires Inv(s) && step.ClaimStep? && Next(s, step, s')
    ensures OneLeaseEach(s')
  {
    FlightsAreBelow(s);
    var n, batch := s.nextFlight, step.batch;
    forall f, g | f in s'.flights && g in s'.flights
      ensures Apart(s', f, g)
    {
      ClaimedFlight(s, step, s', f);
      ClaimedFlight(s, step, s', g);
      if f < n && g < n {
        assert Apart(s, f, g);
      } else if f < n {
        if s.flights[f].claim.id in batch {
          EligibleIsFree(s, f);
        }
      } else if g < n {
        if s.flights[g].claim.id in batch {
          EligibleIsFree(s, g);
        }
      } else if f != g {
        assert batch[f - n] != batch[g - n];
      }
    }
  }

  lemma SendKeepsRows(s: System, step: Step, s': System)
    requires Inv(s) && step.SendStep? && Next(s, step, s')
    ensures RowsOk(s') && Later(s, s')
  {
    hide RowOk;
    hide PayloadOk;
    forall id | id in s'.rows ensures RowFine(s', id) && RowLater(s, s', id) {
      assert RowFine(s, id);
    }
    hide RowFine;
    hide RowLater;
  }

  lemma SendKeepsFlights(s: System, step: Step, s': System)
    requires Inv(s) && step.SendStep? && Next(s, step, s')
    ensures FlightsOk(s') && OneLeaseEach(s')
  {
    hide RowFine;
    hide Owns;
    forall f | f in s'.flights ensures FlightFine(s', f) {
      assert FlightFine(s, f) && FlightFine(s, step.flight);
    }
    hide FlightFine;
    forall f, g | f in s'.flights && g in s'.flights ensures Apart(s', f, g) {
      assert Apart(s, f, g);
    }
    hide Apart;
  }

  lemma BackoffIsBounded(failures: nat)
    requires 1 <= failures < MAX_ATTEMPTS
    ensures 0 <= Backoff(failures) <= LONGEST_WAIT_MS
  {
  }

  lemma OwnedRowSettles(m: Message, c: Claim, delivered: bool, original: Payload, now: Instant)
    requires RowOk(m, now) && PayloadOk(m, original) && Owns(c, m)
    ensures RowOk(WrittenBack(m, c, delivered, now), now) && PayloadOk(WrittenBack(m, c, delivered, now), original)
    ensures WrittenBack(m, c, delivered, now).status == Delivered <==> delivered
    ensures WrittenBack(m, c, delivered, now).attempts == m.attempts + (if delivered then 0 else 1)
  {
    if c.attempts + 1 < MAX_ATTEMPTS {
      BackoffIsBounded(c.attempts + 1);
    }
    hide Backoff;
  }

  /** The row of a live claim, and what a write-back makes of it. */
  lemma WriteBackSettles(s: System, step: Step, s': System)
    requires Inv(s) && step.WriteBackStep? && Next(s, step, s')
    ensures var c := s.flights[step.flight].claim;
            && c.id in s.rows && Owns(c, s.rows[c.id]) && s'.rows.Keys == s.rows.Keys
            && RowFine(s', c.id) && RowLater(s, s', c.id)
            && s'.clock == s.clock && s'.mailbox == s.mailbox && s'.enqueued == s.enqueued
            && s'.rows[c.id].attempts == s.rows[c.id].attempts + (if step.delivered then 0 else 1)
            && forall id :: id in s.rows && id != c.id ==> s'.rows[id] == s.rows[id]
  {
    var c := s.flights[step.flight].claim;
    assert FlightFine(s, step.flight) && RowFine(s, c.id);
    OwnedRowSettles(s.rows[c.id], c, step.delivered, s.enqueued[c.id], s.clock);
    hide WrittenBack;
    hide RowOk;
    hide PayloadOk;
  }

  lemma WriteBackKeepsRows(s: System, step: Step, s': System)
    requires Inv(s) && step.WriteBackStep? && Next(s, step, s')
    ensures RowsOk(s') && Later(s, s')
  {
    hide Next;
    hide FlightsOk;
    hide OneLeaseEach;
    hide RowOk;
    hide PayloadOk;
    hide Owns;
    WriteBackSettles(s, step, s');
    forall id | id in s'.rows ensures RowFine(s', id) && RowLater(s, s', id) {
      assert RowFine(s, id);
    }
    hide RowFine;
    hide RowLater;
  }

  lemma WriteBackKeepsFlights(s: System, step: Step, s': System)
    requires Inv(s) && step.WriteBackStep? && Next(s, step, s')
    ensures FlightsOk(s') && OneLeaseEach(s')
  {
    WriteBackSettles(s, step, s');
    hide WriteBack;
    hide RowFine;
    hide RowLater;
    hide Owns;
    forall f | f in s'.flights ensures FlightFine(s', f) {
      assert FlightFine(s, f) && Apart(s, f, step.flight);
    }
    hide FlightFine;
    forall f, g | f in s'.flights && g in s'.flights ensures Apart(s', f, g) {
      assert Apart(s, f, g);
    }
  }

  lemma CrashKeeps(s: System, step: Step, s': System)
    requires Inv(s) && step.CrashStep? && Next(s, step, s')
    ensures Inv(s') && Later(s, s')
  {
    forall id | id in s'.rows ensures RowFine(s', id) && RowLater(s, s', id) {
      assert RowFine(s, id);
    }
    hide RowFine;
    hide RowLater;
    forall f | f in s'.flights ensures FlightFine(s', f) {
      assert FlightFine(s, f);
    }
    hide FlightFine;
    forall f, g | f in s'.flights && g in s'.flights ensures Apart(s', f, g) {
      assert Apart(s, f, g);
    }
    hide Apart;
  }

  /** Every step of every worker keeps the invariant and leaves final messages alone. */
  lemma StepKeeps(s: System, step: Step, s': System)
    requires Inv(s) && Next(s, step, s')
    ensures Inv(s') && Later(s, s')
  {
    hide RowsOk;
    hide FlightsOk;
    hide OneLeaseEach;
    hide Next;
    hide Later;
    match step
    case Tick(_) => TickKeeps(s, step, s');
    case EnqueueStep(_, _) =>
      EnqueueKeepsRows(s, step, s');
      EnqueueKeepsFlights(s, step, s');
    case ClaimStep(_, _, _) =>
      ClaimKeepsRows(s, step, s');
      ClaimKeepsFlights(s, step, s');
      ClaimKeepsLeases(s, step, s');
    case SendStep(_, _) =>
      SendKeepsRows(s, step, s');
      SendKeepsFlights(s, step, s');
    case WriteBackStep(_, _) =>
      WriteBackKeepsRows(s, step, s');
      WriteBackKeepsFlights(s, step, s');
    case CrashStep(_) => CrashKeeps(s, step, s');
  }

  // ---------------------------------------------------------------- whole runs

  lemma StepOf(run: seq<System>, steps: seq<Step>, k: nat)
    requires IsRun(run, steps) && k < |steps|
    ensures |run| == |steps| + 1 && Next(run[k], steps[k], run[k + 1])
  {
    hide Next;
  }

  lemma Start(run: seq<System>, steps: seq<Step>)
    requires IsRun(run, steps)
    ensures |run| == |steps| + 1 && Inv(run[0]) && run[0].rows == map[]
    ensures forall id :: Failures(run, steps, 0, id) == 0
  {
    hide Next;
  }

  lemma {:induction false} RunKeeps(run: seq<System>, steps: seq<Step>, n: nat)
    requires IsRun(run, steps) && n < |run|
    ensures Inv(run[n])
  {
    hide *;
    Start(run, steps);
    if n > 0 {
      RunKeeps(run, steps, n - 1);
      StepOf(run, steps, n - 1);
      StepKeeps(run[n - 1], steps[n - 1], run[n]);
    }
  }

  lemma LaterTrans(a: System, b: System, c: System)
    requires Later(a, b) && Later(b, c)
    ensures Later(a, c)
  {
    forall id | id in a.rows
      ensures RowLater(a, c, id)
    {
      assert RowLater(a, b, id) && RowLater(b, c, id);
    }
  }

  lemma LaterSame(a: System)
    ensures Later(a, a)
  {
  }

  lemma {:induction false} RunLater(run: seq<System>, steps: seq<Step>, m: nat, n: nat)
    requires IsRun(run, steps) && m <= n < |run|
    ensures Later(run[m], run[n])
    decreases n
  {
    hide *;
    Start(run, steps);
    if m < n {
      RunLater(run, steps, m, n - 1);
      RunKeeps(run, steps, n - 1);
      StepOf(run, steps, n - 1);
      StepKeeps(run[n - 1], steps[n - 1], run[n]);
      LaterTrans(run[m], run[n - 1], run[n]);
    } else {
      LaterSame(run[m]);
    }
  }

  /** No two unexpired leases on one message; the holder of one is the worker that the row names. */
  lemma OneUnexpiredLease(run: seq<System>, steps: seq<Step>, n: nat, f: FlightId, g: FlightId)
    requires IsRun(run, steps) && n < |run|
    requires f in run[n].flights && g in run[n].flights && Live(run[n], f) && Live(run[n], g)
    requires run[n].flights[f].claim.id == run[n].flights[g].claim.id
    ensures f == g && run[n].flights[f].claim.id in run[n].rows
    ensures run[n].rows[run[n].flights[f].claim.id].processingBy == Some(run[n].flights[f].claim.worker)
  {
    RunKeeps(run, steps, n);
    assert Apart(run[n], f, g) && FlightFine(run[n], f);
  }

  /** At most five attempts, dead exactly at the fifth, and delivered only what the mail server accepted. */
  lemma AttemptsAreBounded(run: seq<System>, steps: seq<Step>, n: nat, id: MessageId)
    requires IsRun(run, steps) && n < |run| && id in run[n].rows
    ensures run[n].rows[id].attempts <= 5
    ensures run[n].rows[id].status == DeadLetter <==> run[n].rows[id].attempts == 5
    ensures run[n].rows[id].status == Delivered ==> id in run[n].mailbox
  {
    RunKeeps(run, steps, n);
    assert RowFine(run[n], id);
  }

  /** The encrypted code is in the payload exactly while the message is not final, and it is the one enqueued. */
  lemma CodeLivesWithTheMessage(run: seq<System>, steps: seq<Step>, n: nat, id: MessageId)
    requires IsRun(run, steps) && n < |run| && id in run[n].rows
    ensures id in run[n].enqueued
    ensures var m, original := run[n].rows[id], run[n].enqueued[id];
            && (m.payload.encryptedOtp.Some? <==> original.isOtp && !Final(m.status))
            && (!Final(m.status) ==> m.payload == original)
            && (Final(m.status) && original.isOtp ==> m.payload.otpRedactedAt.Some? && m.payload.otpRedactedAt == m.processedAt)
            && (m.payload.to, m.payload.subject, m.payload.text) == (original.to, original.subject, original.text)
            && m.payload.ttlMinutes == original.ttlMinutes
  {
    RunKeeps(run, steps, n);
    assert RowFine(run[n], id);
  }

  /** A final message never changes again. */
  lemma FinalIsForever(run: seq<System>, steps: seq<Step>, m: nat, n: nat, id: MessageId)
    requires IsRun(run, steps) && m <= n < |run| && id in run[m].rows && Final(run[m].rows[id].status)
    ensures id in run[n].rows && run[n].rows[id] == run[m].rows[id]
  {
    RunLater(run, steps, m, n);
    assert RowLater(run[m], run[n], id);
  }

  /** Whoever crashed, a message that is not final can be claimed at the latest after the longest wait. */
  lemma ClaimableAgain(run: seq<System>, steps: seq<Step>, n: nat, id: MessageId)
    requires IsRun(run, steps) && n < |run| && id in run[n].rows && !Final(run[n].rows[id].status)
    ensures forall t :: t >= run[n].clock + 135_000 ==> Eligible(run[n].rows[id], t)
  {
    RunKeeps(run, steps, n);
    assert RowFine(run[n], id);
    assert LONGEST_WAIT_MS >= LEASE_MS && LONGEST_WAIT_MS == 135_000;
  }

  /** The failed write-backs of a message among the first steps of a run. */
  ghost function Failures(run: seq<System>, steps: seq<Step>, n: nat, id: MessageId): nat
    requires |run| == |steps| + 1 && n <= |steps|
  {
    if n == 0 then 0
    else
      var s, step := run[n - 1], steps[n - 1];
      Failures(run, steps, n - 1, id) +
      (if step.WriteBackStep? && !step.delivered && step.flight in s.flights && s.flights[step.flight].claim.id == id then 1 else 0)
  }

  lemma AttemptsStep(s: System, step: Step, s': System, id: MessageId)
    requires Inv(s) && Next(s, step, s') && id in s'.rows
    ensures id !in s.rows ==> step.EnqueueStep? && s'.rows[id].attempts == 0
    ensures id in s.rows ==>
              s'.rows[id].attempts == s.rows[id].attempts +
                (if step.WriteBackStep? && !step.delivered && s.flights[step.flight].claim.id == id then 1 else 0)
  {
    if step.WriteBackStep? {
      WriteBackSettles(s, step, s');
      hide WriteBack;
    }
    hide Inv;
    hide IsBatch;
  }

  /** One more step of a run, for one message. */
  lemma FailuresStep(run: seq<System>, steps: seq<Step>, n: nat, id: MessageId)
    requires IsRun(run, steps) && n < |steps|
    ensures |run| == |steps| + 1
    ensures id in run[n].rows ==> id in run[n + 1].rows
    ensures id in run[n].rows ==>
              run[n + 1].rows[id].attempts - run[n].rows[id].attempts == Failures(run, steps, n + 1, id) - Failures(run, steps, n, id)
    ensures id !in run[n].rows ==> Failures(run, steps, n + 1, id) == Failures(run, steps, n, id)
    ensures id !in run[n].rows && id in run[n + 1].rows ==> run[n + 1].rows[id].attempts == 0
  {
    var s, step, s' := run[n], steps[n], run[n + 1];
    RunKeeps(run, steps, n);
    StepOf(run, steps, n);
    RunLater(run, steps, n, n + 1);
    assert step.WriteBackStep? ==> step.flight in s.flights && FlightFine(s, step.flight);
    assert id in s.rows ==> RowLater(s, s', id);
    if id in s'.rows {
      AttemptsStep(s, step, s', id);
    }
    hide IsRun;
    hide Next;
    hide Inv;
    hide Later;
  }

  lemma {:induction false} NoFailuresYet(run: seq<System>, steps: seq<Step>, n: nat, id: MessageId)
    requires IsRun(run, steps) && n <= |steps| && |run| == |steps| + 1 && id !in run[n].rows
    ensures Failures(run, steps, n, id) == 0
  {
    hide *;
    Start(run, steps);
    if n > 0 {
      FailuresStep(run, steps, n - 1, id);
      NoFailuresYet(run, steps, n - 1, id);
    }
  }

  /** The attempts of a message are its failed write-backs, neither more nor less: a crash costs none. */
  lemma {:induction false} FailuresAreCounted(run: seq<System>, steps: seq<Step>, n: nat, id: MessageId)
    requires IsRun(run, steps) && n <= |steps| && id in run[n].rows
    ensures run[n].rows[id].attempts == Failures(run, steps, n, id)
  {
    hide *;
    Start(run, steps);
    if n > 0 {
      FailuresStep(run, steps, n - 1, id);
      if id in run[n - 1].rows {
        FailuresAreCounted(run, steps, n - 1, id);
      } else {
        NoFailuresYet(run, steps, n - 1, id);
      }
    }
  }
}
