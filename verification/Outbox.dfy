/** The outbox table and the worker that drains it: claims with a lease, retries, dead letters and redaction. */
module Outbox {
  import opened Common

  const MAX_ATTEMPTS := 5
  const BATCH_SIZE := 20
  const LEASE_MS := 60_000
  const BACKOFF_UNIT_MS := 5000
  const DEFAULT_TTL_MINUTES := 10

  /** Milliseconds on the clock that the instances share. */
  type Instant = int
  type MessageId = nat
  type WorkerId = nat

  datatype Status = Pending | Processing | Delivered | DeadLetter

  predicate Final(s: Status) {
    s in {Delivered, DeadLetter}
  }

  datatype Payload = Payload(
    to: string,
    subject: string,
    text: string,
    isOtp: bool,
    encryptedOtp: Option<string>,
    ttlMinutes: Option<int>,
    otpRedactedAt: Option<Instant>)

  /** What a caller asks to be sent; a code comes encrypted. */
  datatype EmailInput = EmailInput(
    to: string,
    subject: string,
    text: string,
    encryptedOtp: Option<string>,
    ttlMinutes: Option<int>,
    correlationId: Option<string>)

  datatype Message = Message(
    payload: Payload,
    correlationId: Option<string>,
    status: Status,
    attempts: nat,
    createdAt: Instant,
    availableAt: Instant,
    processedAt: Option<Instant>,
    processingBy: Option<WorkerId>,
    leaseExpiresAt: Option<Instant>)

  /** The copy of a row that a worker takes away when it claims it. */
  datatype Claim = Claim(id: MessageId, worker: WorkerId, payload: Payload, attempts: nat, lease: Instant)

  type Table = map<MessageId, Message>

  // ---------------------------------------------------------------- what each write does to a row

  /** A code is stored encrypted and without the text of the mail; it lives ten minutes when the caller does not say. */
  function NewPayload(input: EmailInput): Payload {
    match input.encryptedOtp
    case None => Payload(input.to, input.subject, input.text, false, None, None, None)
    case Some(_) =>
      Payload(input.to, input.subject, "", true, input.encryptedOtp,
              Some(match input.ttlMinutes case None => DEFAULT_TTL_MINUTES case Some(ttl) => ttl), None)
  }

  function Enqueued(input: EmailInput, now: Instant): Message {
    Message(NewPayload(input), input.correlationId, Pending, 0, now, now, None, None, None)
  }

  /** The WHERE clause of the claim. */
  predicate Eligible(m: Message, now: Instant) {
    && m.availableAt <= now
    && m.attempts < MAX_ATTEMPTS
    && (m.status == Pending || (m.status == Processing && m.leaseExpiresAt.Some? && m.leaseExpiresAt.value <= now))
  }

  function Claimed(m: Message, worker: WorkerId, now: Instant): Message {
    m.(status := Processing, processingBy := Some(worker), leaseExpiresAt := Some(now + LEASE_MS))
  }

  function RedactOtp(p: Payload, now: Instant): Payload {
    if p.isOtp then p.(encryptedOtp := None, otpRedactedAt := Some(now)) else p
  }

  function Power3(n: nat): nat {
    if n == 0 then 1 else 3 * Power3(n - 1)
  }

  /** The wait after the given number of failures. */
  function Backoff(failures: nat): int
    requires failures >= 1
  {
    Power3(failures - 1) * BACKOFF_UNIT_MS
  }

  function AfterDelivery(m: Message, c: Claim, now: Instant): Message {
    m.(status := Delivered, processedAt := Some(now), payload := RedactOtp(c.payload, now), processingBy := None,
       leaseExpiresAt := None)
  }

  function AfterFailure(m: Message, c: Claim, now: Instant): Message {
    var failures := c.attempts + 1;
    if failures >= MAX_ATTEMPTS then
      m.(attempts := failures, status := DeadLetter, payload := RedactOtp(c.payload, now), processedAt := Some(now),
         processingBy := None, leaseExpiresAt := None)
    else
      m.(attempts := failures, status := Pending, availableAt := now + Backoff(failures),
         processingBy := None, leaseExpiresAt := None)
  }

  function WrittenBack(m: Message, c: Claim, delivered: bool, now: Instant): Message {
    if delivered then AfterDelivery(m, c, now) else AfterFailure(m, c, now)
  }

  /** The update matches on the id alone. */
  function WriteBack(rows: Table, c: Claim, delivered: bool, now: Instant): Table {
    if c.id in rows then rows[c.id := WrittenBack(rows[c.id], c, delivered, now)] else rows
  }

  // ---------------------------------------------------------------- the claim

  predicate Distinct(ids: seq<MessageId>) {
    forall i, j :: 0 <= i < j < |ids| ==> ids[i] != ids[j]
  }

  /** What the locking SELECT returns: the oldest eligible rows that no other transaction holds locked, up to a batch. */
  predicate IsBatch(rows: Table, locked: set<MessageId>, now: Instant, batch: seq<MessageId>) {
    && Distinct(batch) && |batch| <= BATCH_SIZE
    && (forall i :: 0 <= i < |batch| ==> batch[i] in rows && batch[i] !in locked && Eligible(rows[batch[i]], now))
    && (forall i, j :: 0 <= i < j < |batch| ==> rows[batch[i]].createdAt <= rows[batch[j]].createdAt)
    && (forall id | id in rows && id !in locked && id !in batch && Eligible(rows[id], now) ::
          |batch| == BATCH_SIZE && forall i :: 0 <= i < |batch| ==> rows[batch[i]].createdAt <= rows[id].createdAt)
  }

  function ClaimOf(rows: Table, id: MessageId, worker: WorkerId, now: Instant): Claim
    requires id in rows
  {
    Claim(id, worker, rows[id].payload, rows[id].attempts, now + LEASE_MS)
  }

  function Claims(rows: Table, batch: seq<MessageId>, worker: WorkerId, now: Instant): seq<Claim>
    requires forall i :: 0 <= i < |batch| ==> batch[i] in rows
  {
    seq(|batch|, i requires 0 <= i < |batch| => ClaimOf(rows, batch[i], worker, now))
  }

  function ClaimRows(rows: Table, batch: seq<MessageId>, worker: WorkerId, now: Instant): Table {
    map id | id in rows :: if id in batch then Claimed(rows[id], worker, now) else rows[id]
  }

  // ---------------------------------------------------------------- a run over a batch

  /**
   * How one message of a batch ended: its row was written, or the write that was to record a failure failed itself. A
   * write that fails leaves the row as it was.
   */
  datatype Ending = Ending(delivered: bool, at: Instant) | Broken

  /** How many messages of a batch are written back before one breaks off. */
  function BeforeBreak(endings: seq<Ending>, n: nat): (k: nat)
    requires n <= |endings|
    ensures k <= n && (forall j :: 0 <= j < k ==> endings[j].Ending?)
    ensures k < n ==> endings[k].Broken?
  {
    if n == 0 then 0
    else
      var k := BeforeBreak(endings, n - 1);
      if k < n - 1 || endings[n - 1].Broken? then k else n
  }

  /** The table after the first `n` claims of a batch were written back. */
  function WriteAll(rows: Table, claims: seq<Claim>, endings: seq<Ending>, n: nat): Table
    requires n <= |claims| <= |endings| && forall k :: 0 <= k < n ==> endings[k].Ending?
  {
    if n == 0 then rows
    else WriteBack(WriteAll(rows, claims, endings, n - 1), claims[n - 1], endings[n - 1].delivered, endings[n - 1].at)
  }

  /** The table that the instances share. */
  class OutboxTable {
    var rows: Table

    constructor ()
      ensures rows == map[]
    {
      rows := map[];
    }

    /** enqueueEmail, within the transaction of its caller. */
    method EnqueueEmail(id: MessageId, input: EmailInput, now: Instant)
      requires id !in rows
      modifies this
      ensures rows == old(rows)[id := Enqueued(input, now)]
      ensures var m := rows[id];
              && (m.status, m.attempts, m.availableAt, m.correlationId) == (Pending, 0, now, input.correlationId)
              && (m.payload.to, m.payload.subject) == (input.to, input.subject)
              && m.payload.encryptedOtp == input.encryptedOtp && (m.payload.isOtp <==> input.encryptedOtp.Some?)
              && (input.encryptedOtp.None? ==> m.payload.text == input.text && m.payload.ttlMinutes == None)
              && (input.encryptedOtp.Some? ==> m.payload.text == "")
              && (input.encryptedOtp.Some? ==>
                    m.payload.ttlMinutes == if input.ttlMinutes.Some? then input.ttlMinutes else Some(10))
    {
      var payload: Payload;
      if input.encryptedOtp.Some? {
        var ttlMinutes := DEFAULT_TTL_MINUTES;
        if input.ttlMinutes.Some? {
          ttlMinutes := input.ttlMinutes.value;
        }
        payload := Payload(input.to, input.subject, "", true, input.encryptedOtp, Some(ttlMinutes), None);
      } else {
        payload := Payload(input.to, input.subject, input.text, false, None, None, None);
      }
      rows := rows[id := Message(payload, input.correlationId, Pending, 0, now, now, None, None, None)];
    }
  }

  class OutboxProcessorWorker {
    const table: OutboxTable
    const instanceId: WorkerId
    var isProcessing: bool

    constructor (table: OutboxTable, instanceId: WorkerId)
      ensures this.table == table && this.instanceId == instanceId && !isProcessing
    {
      this.table, this.instanceId, isProcessing := table, instanceId, false;
    }

    /** claimBatch: `batch` is what the locking SELECT answers. */
    method ClaimBatch(batch: seq<MessageId>, ghost locked: set<MessageId>, now: Instant) returns (claims: seq<Claim>)
      requires IsBatch(table.rows, locked, now, batch)
      modifies table
      ensures claims == Claims(old(table.rows), batch, instanceId, now)
      ensures table.rows == ClaimRows(old(table.rows), batch, instanceId, now)
      ensures |claims| <= 20 && forall k :: 0 <= k < |claims| ==> claims[k].lease == now + 60_000
      ensures |claims| < 20 ==> forall id | id in old(table.rows) && id !in locked && id !in batch :: !Eligible(old(table.rows)[id], now)
    {
      var lease := now + LEASE_MS;
      if |batch| == 0 {
        assert table.rows == ClaimRows(table.rows, batch, instanceId, now);
        return [];
      }
      claims := Claims(table.rows, batch, instanceId, now);
      table.rows := map id | id in table.rows ::
        if id in batch then
          table.rows[id].(status := Processing, processingBy := Some(instanceId), leaseExpiresAt := Some(lease))
        else table.rows[id];
    }

    /**
     * processMessage: the ending says whether the send and the first write went through, whether the second write did,
     * and when the row is written.
     */
    method ProcessMessage(c: Claim, ending: Ending) returns (thrown: bool)
      requires c.id in table.rows
      modifies table
      ensures thrown == ending.Broken?
      ensures table.rows == if thrown then old(table.rows) else WriteBack(old(table.rows), c, ending.delivered, ending.at)
    {
      if ending.Broken? {
        return true;
      }
      var attempts := c.attempts + 1;
      var m := table.rows[c.id];
      if ending.delivered {
        m := m.(status := Delivered, processedAt := Some(ending.at), payload := RedactOtp(c.payload, ending.at));
      } else {
        var isDeadLetter := attempts >= MAX_ATTEMPTS;
        m := m.(attempts := attempts, status := if isDeadLetter then DeadLetter else Pending);
        if isDeadLetter {
          m := m.(payload := RedactOtp(c.payload, ending.at), processedAt := Some(ending.at));
        } else {
          m := m.(availableAt := ending.at + Power3(attempts - 1) * BACKOFF_UNIT_MS);
        }
      }
      m := m.(processingBy := None, leaseExpiresAt := None);
      table.rows := table.rows[c.id := m];
      return false;
    }

    /** The loop of `processPendingMessages`; the first message that throws ends it. */
    method ProcessAll(claims: seq<Claim>, endings: seq<Ending>) returns (thrown: bool)
      requires |claims| <= |endings| && forall k :: 0 <= k < |claims| ==> claims[k].id in table.rows
      modifies table
      ensures table.rows == WriteAll(old(table.rows), claims, endings, BeforeBreak(endings, |claims|))
      ensures thrown <==> BeforeBreak(endings, |claims|) < |claims|
    {
      hide WriteBack;
      var k := 0;
      while k < |claims|
        invariant 0 <= k <= |claims|
        invariant forall j :: 0 <= j < k ==> endings[j].Ending?
        invariant table.rows == WriteAll(old(table.rows), claims, endings, k)
      {
        WriteAllKeepsKeys(old(table.rows), claims, endings, k);
        thrown := ProcessMessage(claims[k], endings[k]);
        if thrown {
          assert BeforeBreak(endings, |claims|) == k;
          return true;
        }
        k := k + 1;
      }
      assert BeforeBreak(endings, |claims|) == k;
      return false;
    }

    /**
     * processPendingMessages, as one instance sees it: a second run of the timer finds the first one and leaves. An
     * error of the claim or of a message is caught; it answers 0, and what was not reached stays claimed.
     */
    method ProcessPendingMessages(batch: seq<MessageId>, ghost locked: set<MessageId>, now: Instant, claimFails: bool,
                                  endings: seq<Ending>)
      returns (processed: nat)
      requires IsBatch(table.rows, locked, now, batch) && |batch| <= |endings|
      modifies table, this`isProcessing
      ensures isProcessing == old(isProcessing)
      ensures old(isProcessing) || claimFails ==> processed == 0 && table.rows == old(table.rows)
      ensures !old(isProcessing) && !claimFails ==>
                var done := BeforeBreak(endings, |batch|);
                && processed == (if done < |batch| then 0 else |batch|)
                && table.rows == WriteAll(ClaimRows(old(table.rows), batch, instanceId, now),
                                          Claims(old(table.rows), batch, instanceId, now), endings, done)
    {
      hide WriteAll;
      hide Eligible;
      hide BeforeBreak;
      if isProcessing {
        return 0;
      }
      isProcessing := true;
      if claimFails {
        isProcessing := false;
        return 0;
      }
      var claims := ClaimBatch(batch, locked, now);
      var thrown := ProcessAll(claims, endings);
      isProcessing := false;
      return if thrown then 0 else |claims|;
    }
  }

  lemma {:induction false} WriteAllKeepsKeys(rows: Table, claims: seq<Claim>, endings: seq<Ending>, n: nat)
    requires n <= |claims| <= |endings| && forall k :: 0 <= k < n ==> endings[k].Ending?
    ensures WriteAll(rows, claims, endings, n).Keys == rows.Keys
  {
    hide WrittenBack;
    if n > 0 {
      WriteAllKeepsKeys(rows, claims, endings, n - 1);
    }
  }

  /** The waits after the first, second, third and fourth failure. */
  const WAITS_MS: seq<int> := [5_000, 15_000, 45_000, 135_000]

  /** What a batch run leaves of a row, given the row before the claim. */
  predicate Settled(m: Message, m': Message, ending: Ending)
    requires ending.Ending?
  {
    && m'.status == (if ending.delivered then Delivered else if m.attempts + 1 == MAX_ATTEMPTS then DeadLetter else Pending)
    && m'.attempts == (if ending.delivered then m.attempts else m.attempts + 1)
    && m'.leaseExpiresAt == None && m'.processingBy == None
    && m'.payload == (if m'.status == Pending then m.payload else RedactOtp(m.payload, ending.at))
    && (m'.status == Pending ==> m.attempts < |WAITS_MS| && m'.availableAt == ending.at + WAITS_MS[m.attempts])
  }

  lemma OneSettles(m: Message, c: Claim, worker: WorkerId, now: Instant, ending: Ending)
    requires c.payload == m.payload && c.attempts == m.attempts < MAX_ATTEMPTS && ending.Ending?
    ensures Settled(m, WrittenBack(Claimed(m, worker, now), c, ending.delivered, ending.at), ending)
  {
    assert Power3(0) == 1 && Power3(1) == 3 && Power3(2) == 9 && Power3(3) == 27;
    hide Power3;
  }

  lemma {:induction false} WriteAllAt(rows: Table, claims: seq<Claim>, endings: seq<Ending>, n: nat, i: nat)
    requires n <= |claims| <= |endings| && (forall k :: 0 <= k < n ==> endings[k].Ending?)
    requires i < |claims| && claims[i].id in rows
    requires forall j :: 0 <= j < |claims| && j != i ==> claims[j].id != claims[i].id
    ensures claims[i].id in WriteAll(rows, claims, endings, n)
    ensures WriteAll(rows, claims, endings, n)[claims[i].id] ==
            if i < n then WrittenBack(rows[claims[i].id], claims[i], endings[i].delivered, endings[i].at) else rows[claims[i].id]
  {
    hide WrittenBack;
    if n > 0 {
      WriteAllAt(rows, claims, endings, n - 1, i);
    }
  }

  lemma {:induction false} WriteAllElsewhere(rows: Table, claims: seq<Claim>, endings: seq<Ending>, n: nat, id: MessageId)
    requires n <= |claims| <= |endings| && (forall k :: 0 <= k < n ==> endings[k].Ending?) && id in rows
    requires forall j :: 0 <= j < |claims| ==> claims[j].id != id
    ensures id in WriteAll(rows, claims, endings, n) && WriteAll(rows, claims, endings, n)[id] == rows[id]
  {
    hide WrittenBack;
    if n > 0 {
      WriteAllElsewhere(rows, claims, endings, n - 1, id);
    }
  }

  /**
   * A batch run settles exactly the rows of its batch, up to the message that breaks off: each is delivered, dead, or
   * waiting; the rest of the batch stays claimed until its lease expires, and nothing else moved.
   */
  lemma BatchSettles(rows: Table, batch: seq<MessageId>, worker: WorkerId, now: Instant, endings: seq<Ending>)
    requires forall i :: 0 <= i < |batch| ==> batch[i] in rows && rows[batch[i]].attempts < MAX_ATTEMPTS
    requires Distinct(batch) && |batch| <= |endings|
    ensures var done := BeforeBreak(endings, |batch|);
            var after := WriteAll(ClaimRows(rows, batch, worker, now), Claims(rows, batch, worker, now), endings, done);
            && after.Keys == rows.Keys
            && (forall i :: 0 <= i < done ==> Settled(rows[batch[i]], after[batch[i]], endings[i]))
            && (forall i :: done <= i < |batch| ==> after[batch[i]] == Claimed(rows[batch[i]], worker, now))
            && (forall id :: id in rows && id !in batch ==> after[id] == rows[id])
  {
    hide BeforeBreak;
    hide WriteAll;
    hide Settled;
    hide WrittenBack;
    hide Claimed;
    var marked, claims := ClaimRows(rows, batch, worker, now), Claims(rows, batch, worker, now);
    var done := BeforeBreak(endings, |batch|);
    WriteAllKeepsKeys(marked, claims, endings, done);
    forall i | 0 <= i < |batch|
      ensures i < done ==> Settled(rows[batch[i]], WriteAll(marked, claims, endings, done)[batch[i]], endings[i])
      ensures i >= done ==> WriteAll(marked, claims, endings, done)[batch[i]] == Claimed(rows[batch[i]], worker, now)
    {
      WriteAllAt(marked, claims, endings, done, i);
      if i < done {
        OneSettles(rows[batch[i]], claims[i], worker, now, endings[i]);
      }
    }
    forall id | id in rows && id !in batch
      ensures WriteAll(marked, claims, endings, done)[id] == rows[id]
    {
      WriteAllElsewhere(marked, claims, endings, done, id);
    }
  }
}
