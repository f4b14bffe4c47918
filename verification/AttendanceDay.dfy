/**
 * What one work day keeps. Every operation touches a single day, so the invariant of a day and
 * how each transaction keeps it are stated on the row alone.
 */
module AttendanceDay {
  import opened Common
  import opened AttendanceModel

  // ---------------------------------------------------------------- the invariant

  /** One live clock-in, or a live pair at the end of an archived history. */
  predicate EntriesOk(es: seq<TimeEntry>) {
    var n := |es|;
    && n >= 1
    && (forall i :: 0 <= i < n ==> es[i].kind in {ClockIn, ClockOut})
    && (forall i :: 0 <= i < n ==> es[i].status in {EntryRecorded, EntryApproved, EntryCorrected})
    && (n == 1 ==> IsActive(es[0], ClockIn))
    && (n >= 2 ==> IsActive(es[n - 2], ClockIn) && IsActive(es[n - 1], ClockOut))
    && (forall i :: 0 <= i < n - 2 ==> es[i].status == EntryCorrected)
  }

  predicate Complete(d: WorkDay) {
    |d.entries| >= 2
  }

  /** Times of the live entries. */
  function InTime(d: WorkDay): Instant
    requires EntriesOk(d.entries)
  {
    if Complete(d) then d.entries[|d.entries| - 2].declaredAt else d.entries[0].declaredAt
  }

  function OutTime(d: WorkDay): Instant
    requires Complete(d)
  {
    d.entries[|d.entries| - 1].declaredAt
  }

  /** Index of the approved correction that was created last, or -1. */
  function LastApproved(cs: seq<Correction>): (r: int)
    ensures -1 <= r < |cs|
    ensures r >= 0 ==> cs[r].status == CorrectionApproved
    ensures forall i :: r < i < |cs| ==> cs[i].status != CorrectionApproved
  {
    if cs == [] then -1
    else if cs[|cs| - 1].status == CorrectionApproved then |cs| - 1
    else
      var r := LastApproved(cs[..|cs| - 1]);
      assert forall i :: r < i < |cs| - 1 ==> cs[i] == cs[..|cs| - 1][i];
      r
  }

  /** Only the last correction can be pending, and it is exactly while the day is disputed. */
  predicate CorrectionsOk(d: WorkDay, clock: Instant) {
    var cs := d.corrections;
    && (forall i :: 0 <= i < |cs| - 1 ==> cs[i].status != CorrectionPending)
    && (d.status == DayDisputed <==> |cs| > 0 && cs[|cs| - 1].status == CorrectionPending)
    && (forall i :: 0 <= i < |cs| ==> Proposes(cs[i]) && cs[i].createdAt <= clock)
    && (forall i, j :: 0 <= i < j < |cs| ==> cs[i].createdAt <= cs[j].createdAt)
  }

  predicate Proposes(c: Correction) {
    c.proposedIn.Some? && c.proposedOut.Some? && c.proposedIn.value < c.proposedOut.value
  }

  predicate MinutesOk(d: WorkDay)
    requires EntriesOk(d.entries)
  {
    && (Complete(d) ==> InTime(d) <= OutTime(d) && d.realMinutes == (OutTime(d) - InTime(d)) / MS_PER_MINUTE &&
                        d.computableMinutes == Max(0, d.realMinutes - d.breakMinutes))
    && (d.status == DayApproved ==> d.approvedMinutes == Some(d.realMinutes) && d.approvedAt.Some?)
  }

  predicate StatusOk(d: WorkDay)
    requires EntriesOk(d.entries)
  {
    && d.status != DayLocked
    && (d.status == DayOpen ==> !Complete(d))
    && (d.status in {DayPendingApproval, DayApproved} ==> Complete(d))
  }

  /** The live times are those the last approved correction proposed. */
  predicate EffectiveOk(d: WorkDay)
    requires EntriesOk(d.entries)
  {
    var a := LastApproved(d.corrections);
    a >= 0 ==> Complete(d) && Some(InTime(d)) == d.corrections[a].proposedIn &&
               Some(OutTime(d)) == d.corrections[a].proposedOut
  }

  predicate DayOk(d: WorkDay, clock: Instant) {
    && EntriesOk(d.entries)
    && CorrectionsOk(d, clock)
    && StatusOk(d)
    && MinutesOk(d)
    && EffectiveOk(d)
  }

  // ---------------------------------------------------------------- what a row never loses

  /** Same row but for the period link, which a close sets without touching the version. */
  predicate SameContent(a: WorkDay, b: WorkDay) {
    a.(period := None) == b.(period := None)
  }

  /**
   * `b` is a later state of `a`: the version stamps the content, no entry is removed or re-dated,
   * and CORRECTED is absorbing.
   */
  predicate Evolves(a: WorkDay, b: WorkDay) {
    && a.version <= b.version
    && (a.version == b.version ==> SameContent(a, b))
    && a.breakMinutes == b.breakMinutes
    && |a.entries| <= |b.entries|
    && (forall i :: 0 <= i < |a.entries| ==> EntryEvolves(a.entries[i], b.entries[i]))
  }

  predicate EntryEvolves(a: TimeEntry, b: TimeEntry) {
    a.kind == b.kind && a.declaredAt == b.declaredAt && a.key == b.key &&
    (a.status == EntryCorrected ==> b.status == EntryCorrected)
  }

  lemma EvolvesIsTransitive(a: WorkDay, b: WorkDay, c: WorkDay)
    requires Evolves(a, b) && Evolves(b, c)
    ensures Evolves(a, c)
  {
    forall i | 0 <= i < |a.entries|
      ensures EntryEvolves(a.entries[i], c.entries[i])
    {
      assert EntryEvolves(a.entries[i], b.entries[i]) && EntryEvolves(b.entries[i], c.entries[i]);
    }
  }

  // ---------------------------------------------------------------- what the look-ups find

  /** The look-ups find the live pair. */
  lemma {:induction false} FindLive(es: seq<TimeEntry>)
    requires EntriesOk(es)
    ensures FindActive(es, ClockIn) == Some(if |es| >= 2 then es[|es| - 2] else es[0])
    ensures FindActive(es, ClockOut) == if |es| >= 2 then Some(es[|es| - 1]) else None
    ensures HasKind(es, ClockOut) <==> |es| >= 2
    decreases es
  {
    if |es| == 1 {
      assert es[1..] == [];
    } else if |es| == 2 {
      assert es[1..][1..] == [];
      assert es[1..][0] == es[1];
    } else {
      assert es[0].status == EntryCorrected;
      assert EntriesOk(es[1..]) by {
        assert forall i :: 0 <= i < |es| - 1 ==> es[1..][i] == es[i + 1];
      }
      FindLive(es[1..]);
      assert HasKind(es, ClockOut) by { assert es[|es| - 1].kind == ClockOut; }
    }
  }

  function ActiveCount(es: seq<TimeEntry>, kind: EntryKind): nat {
    if es == [] then 0
    else (if IsActive(es[0], kind) then 1 else 0) + ActiveCount(es[1..], kind)
  }

  /** A sound day has exactly one live clock-in, and a live clock-out exactly when it is complete. */
  lemma {:induction false} OneLivePair(es: seq<TimeEntry>)
    requires EntriesOk(es)
    ensures ActiveCount(es, ClockIn) == 1
    ensures ActiveCount(es, ClockOut) == if |es| >= 2 then 1 else 0
    decreases es
  {
    if |es| == 1 {
      assert es[1..] == [];
    } else if |es| == 2 {
      var rest := es[1..];
      assert rest[0] == es[1] && rest[1..] == [];
      assert ActiveCount(rest[1..], ClockIn) == 0 && ActiveCount(rest[1..], ClockOut) == 0;
    } else {
      assert forall i :: 0 <= i < |es| - 1 ==> es[1..][i] == es[i + 1];
      OneLivePair(es[1..]);
    }
  }

  lemma {:induction false} FoundIsLive(es: seq<TimeEntry>, kind: EntryKind)
    ensures match FindActive(es, kind)
            case None => forall e :: e in es ==> !IsActive(e, kind)
            case Some(e) => e in es && IsActive(e, kind)
  {
    if es != [] {
      FoundIsLive(es[1..], kind);
      assert es == [es[0]] + es[1..];
    }
  }

  /** Reading the rows in any other order finds the same entries, so `orderBy declaredAt` does not matter. */
  lemma FindIsOrderIndependent(es: seq<TimeEntry>, read: seq<TimeEntry>, kind: EntryKind)
    requires EntriesOk(es) && multiset(read) == multiset(es)
    requires kind in {ClockIn, ClockOut}
    ensures FindActive(read, kind) == FindActive(es, kind)
  {
    FindLive(es);
    FoundIsLive(es, kind);
    FoundIsLive(read, kind);
    forall e ensures e in read <==> e in es {
      assert e in read <==> e in multiset(read);
      assert e in es <==> e in multiset(es);
    }
    forall e | e in es && IsActive(e, kind)
      ensures FindActive(es, kind) == Some(e)
    {
      var i :| 0 <= i < |es| && es[i] == e;
      assert i >= |es| - 2;
    }
  }

  function PendingCount(cs: seq<Correction>): nat {
    if cs == [] then 0
    else PendingCount(cs[..|cs| - 1]) + (if cs[|cs| - 1].status == CorrectionPending then 1 else 0)
  }

  lemma {:induction false} NonePending(cs: seq<Correction>)
    requires forall i :: 0 <= i < |cs| ==> cs[i].status != CorrectionPending
    ensures PendingCount(cs) == 0
  {
    if cs != [] {
      NonePending(cs[..|cs| - 1]);
    }
  }

  /** A day is disputed exactly when one correction is pending, and otherwise none is. */
  lemma DisputedIffOnePending(d: WorkDay, clock: Instant)
    requires DayOk(d, clock)
    ensures PendingCount(d.corrections) == if d.status == DayDisputed then 1 else 0
    ensures HasPending(d.corrections) <==> d.status == DayDisputed
  {
    if d.corrections != [] {
      NonePending(d.corrections[..|d.corrections| - 1]);
    }
  }

  /** The durations of a complete day, as the services state them. */
  lemma DurationIsWorked(d: WorkDay, clock: Instant)
    requires DayOk(d, clock) && Complete(d)
    ensures d.realMinutes == MinutesBetween(InTime(d), OutTime(d)) >= 0
    ensures d.status == DayApproved ==> d.approvedMinutes == Some(MinutesBetween(InTime(d), OutTime(d)))
  {
  }

  // ---------------------------------------------------------------- how each transaction keeps it

  /**
   * The status-only compare-and-set of the clock-out is enough: an OPEN day never had its entries
   * replaced, so a clock-in read earlier is still the live one.
   */
  lemma ClockOutKeeps(seen: WorkDay, row: WorkDay, key: Key, at: Instant, clock: Instant)
    requires DayOk(seen, clock) && seen.status == DayOpen
    requires DayOk(row, clock) && row.status == DayOpen
    requires Evolves(seen, row) && InTime(seen) <= at
    ensures var worked := MinutesBetween(InTime(seen), at);
            var row' := row.(status := DayPendingApproval, realMinutes := worked,
                             computableMinutes := Max(0, worked - seen.breakMinutes), version := row.version + 1,
                             entries := row.entries + [TimeEntry(ClockOut, EntryRecorded, at, key)]);
            DayOk(row', clock) && Evolves(row, row') && !HasActive(row.entries, ClockOut)
  {
    hide LastApproved;
    assert EntryEvolves(seen.entries[0], row.entries[0]);
  }

  lemma RestatusKeepsLive(es: seq<TimeEntry>)
    requires EntriesOk(es)
    ensures var es' := Restatus(es, APPROVABLE, EntryApproved);
            && EntriesOk(es') && |es'| == |es|
            && forall i :: 0 <= i < |es| ==> EntryEvolves(es[i], es'[i])
  {
  }

  lemma ApprovedRowIsSound(a: WorkDay, b: WorkDay, clock: Instant)
    requires DayOk(a, clock) && a.status == DayPendingApproval
    requires EntriesOk(b.entries) && |b.entries| == |a.entries| && b.corrections == a.corrections
    requires forall i :: 0 <= i < |a.entries| ==> EntryEvolves(a.entries[i], b.entries[i])
    requires b.status == DayApproved && b.approvedAt.Some? && b.version > a.version && b.breakMinutes == a.breakMinutes
    requires b.realMinutes == a.realMinutes && b.computableMinutes == a.computableMinutes
    requires b.approvedMinutes == Some(MinutesBetween(InTime(a), OutTime(a)))
    ensures DayOk(b, clock) && Evolves(a, b)
  {
    hide EntriesOk;
    hide LastApproved;
    var n := |a.entries|;
    assert EntryEvolves(a.entries[n - 1], b.entries[n - 1]) && EntryEvolves(a.entries[n - 2], b.entries[n - 2]);
  }

  lemma ApproveKeeps(row: WorkDay, now: Instant, clock: Instant)
    requires DayOk(row, clock) && row.status == DayPendingApproval
    ensures var row' := ApprovedRow(row, MinutesBetween(InTime(row), OutTime(row)), now);
            DayOk(row', clock) && Evolves(row, row')
  {
    hide EntriesOk;
    hide CorrectionsOk;
    hide MinutesOk;
    hide EffectiveOk;
    hide Evolves;
    hide EntryEvolves;
    hide InTime;
    hide OutTime;
    hide MinutesBetween;
    hide Restatus;
    RestatusKeepsLive(row.entries);
    ApprovedRowIsSound(row, ApprovedRow(row, MinutesBetween(InTime(row), OutTime(row)), now), clock);
  }

  lemma RequestKeeps(row: WorkDay, proposedIn: Instant, proposedOut: Instant, clock: Instant)
    requires DayOk(row, clock) && !HasPending(row.corrections) && proposedIn < proposedOut
    ensures var c := Correction(CorrectionPending, Some(proposedIn), Some(proposedOut), clock);
            var row' := row.(status := DayDisputed, version := row.version + 1, corrections := row.corrections + [c]);
            DayOk(row', clock) && Evolves(row, row')
  {
    var cs := row.corrections;
    var c := Correction(CorrectionPending, Some(proposedIn), Some(proposedOut), clock);
    assert (cs + [c])[..|cs|] == cs;
    assert forall i :: 0 <= i < |cs| ==> cs[i].status != CorrectionPending;
  }

  lemma CorrectionsPropose(d: WorkDay, c: nat, clock: Instant)
    requires DayOk(d, clock) && c < |d.corrections|
    ensures Proposes(d.corrections[c])
  {
  }

  lemma ApproveCorrectionKeeps(row: WorkDay, c: nat, keyIn: Key, keyOut: Key, now: Instant, clock: Instant)
    requires DayOk(row, clock) && row.status == DayDisputed
    requires c < |row.corrections| && row.corrections[c].status == CorrectionPending
    ensures
      var i, o := row.corrections[c].proposedIn.value, row.corrections[c].proposedOut.value;
      var worked := MinutesBetween(i, o);
      var archived := Restatus(row.entries, ARCHIVABLE, EntryCorrected);
      var row' := row.(status := DayApproved, realMinutes := worked,
                       computableMinutes := Max(0, worked - row.breakMinutes), approvedMinutes := Some(worked),
                       approvedAt := Some(now), version := row.version + 1,
                       corrections := Resolve(row.corrections, c, CorrectionApproved),
                       entries := archived + [TimeEntry(ClockIn, EntryApproved, i, keyIn)] +
                                  [TimeEntry(ClockOut, EntryApproved, o, keyOut)]);
      DayOk(row', clock) && Evolves(row, row') && !HasActive(archived, ClockIn) && !HasActive(archived, ClockOut)
  {
    assert c == |row.corrections| - 1;
    var archived := Restatus(row.entries, ARCHIVABLE, EntryCorrected);
    assert forall e :: 0 <= e < |archived| ==> archived[e].status == EntryCorrected;
  }

  lemma {:induction false} LastApprovedIgnoresTail(cs: seq<Correction>, c: Correction)
    requires c.status != CorrectionApproved
    ensures LastApproved(cs + [c]) == LastApproved(cs)
  {
    assert (cs + [c])[..|cs|] == cs;
  }

  lemma RejectedCorrections(cs: seq<Correction>, c: nat)
    requires c + 1 == |cs| && cs[c].status == CorrectionPending
    ensures var cs' := Resolve(cs, c, CorrectionRejected);
            && |cs'| == |cs| && cs'[c] == cs[c].(status := CorrectionRejected)
            && (forall i :: 0 <= i < c ==> cs'[i] == cs[i])
            && LastApproved(cs') == LastApproved(cs)
  {
    var front := cs[..c];
    assert cs == front + [cs[c]];
    assert Resolve(cs, c, CorrectionRejected) == front + [cs[c].(status := CorrectionRejected)];
    LastApprovedIgnoresTail(front, cs[c]);
    LastApprovedIgnoresTail(front, cs[c].(status := CorrectionRejected));
  }

  lemma RejectedRowIsSound(a: WorkDay, b: WorkDay, clock: Instant)
    requires DayOk(a, clock) && a.status == DayDisputed && b.entries == a.entries
    requires b.status == (if Complete(a) then DayPendingApproval else DayOpen)
    requires |b.corrections| == |a.corrections| && LastApproved(b.corrections) == LastApproved(a.corrections)
    requires forall i :: 0 <= i < |a.corrections| ==>
               b.corrections[i] == if i < |a.corrections| - 1 then a.corrections[i] else a.corrections[i].(status := CorrectionRejected)
    requires b == a.(status := b.status, version := b.version, corrections := b.corrections) && b.version > a.version
    ensures DayOk(b, clock) && Evolves(a, b)
  {
    hide EntriesOk;
    hide LastApproved;
  }

  lemma RejectCorrectionKeeps(row: WorkDay, c: nat, clock: Instant)
    requires DayOk(row, clock) && row.status == DayDisputed
    requires c < |row.corrections| && row.corrections[c].status == CorrectionPending
    ensures var row' := RejectedRow(row, c, if HasKind(row.entries, ClockOut) then DayPendingApproval else DayOpen);
            DayOk(row', clock) && Evolves(row, row')
  {
    hide EntriesOk;
    hide StatusOk;
    hide MinutesOk;
    hide EffectiveOk;
    hide Evolves;
    hide HasKind;
    hide LastApproved;
    hide Resolve;
    FindLive(row.entries);
    assert c + 1 == |row.corrections|;
    RejectedCorrections(row.corrections, c);
    RejectedRowIsSound(row, RejectedRow(row, c, if HasKind(row.entries, ClockOut) then DayPendingApproval else DayOpen), clock);
  }

  /** A clock that moves on keeps every day sound. */
  lemma LaterClockKeeps(d: WorkDay, clock: Instant, clock': Instant)
    requires DayOk(d, clock) && clock <= clock'
    ensures DayOk(d, clock')
  {
  }

  // ---------------------------------------------------------------- the view

  /** The effective times of the attendance view, given the correction it reads as newest approved. */
  function EffectiveIn(d: WorkDay, newest: Option<Correction>): Option<Instant> {
    if newest.Some? && newest.value.proposedIn.Some? then newest.value.proposedIn
    else TimeOf(FindActive(d.entries, ClockIn))
  }

  function EffectiveOut(d: WorkDay, newest: Option<Correction>): Option<Instant> {
    if newest.Some? && newest.value.proposedOut.Some? then newest.value.proposedOut
    else TimeOf(FindActive(d.entries, ClockOut))
  }

  /** A possible answer of "first APPROVED correction, newest creation first": ties come in any order. */
  predicate NewestApproved(cs: seq<Correction>, newest: Option<Correction>) {
    match newest
    case None => forall i :: 0 <= i < |cs| ==> cs[i].status != CorrectionApproved
    case Some(c) =>
      exists k :: 0 <= k < |cs| && cs[k] == c && c.status == CorrectionApproved &&
                  (forall i :: 0 <= i < |cs| && cs[i].status == CorrectionApproved ==> cs[i].createdAt <= c.createdAt)
  }

  /** Approved corrections that share the newest stamp propose the same times as the last one approved. */
  predicate TiesAgree(cs: seq<Correction>) {
    var a := LastApproved(cs);
    forall i :: 0 <= i < |cs| && cs[i].status == CorrectionApproved && cs[i].createdAt == cs[a].createdAt ==>
                  cs[i].proposedIn == cs[a].proposedIn && cs[i].proposedOut == cs[a].proposedOut
  }

  predicate ViewAgrees(d: WorkDay, newest: Option<Correction>) {
    EffectiveIn(d, newest) == TimeOf(FindActive(d.entries, ClockIn)) &&
    EffectiveOut(d, newest) == TimeOf(FindActive(d.entries, ClockOut))
  }

  /**
   * The two derivations of "the effective time", the view's from the newest approved correction and the
   * snapshot's from the live entries, agree whatever the database answers for ties, exactly when
   * corrections tied for newest propose the same times.
   */
  lemma ViewAgreesWithEntries(d: WorkDay, clock: Instant)
    requires DayOk(d, clock)
    ensures (forall newest :: NewestApproved(d.corrections, newest) ==> ViewAgrees(d, newest)) <==>
            TiesAgree(d.corrections)
  {
    FindLive(d.entries);
    var cs := d.corrections;
    var a := LastApproved(cs);
    if TiesAgree(cs) {
      forall newest | NewestApproved(cs, newest)
        ensures ViewAgrees(d, newest)
      {
        if newest.Some? {
          var k :| 0 <= k < |cs| && cs[k] == newest.value && newest.value.status == CorrectionApproved;
          assert k <= a && cs[k].createdAt == cs[a].createdAt;
        }
      }
    } else {
      var i :| 0 <= i < |cs| && cs[i].status == CorrectionApproved && cs[i].createdAt == cs[a].createdAt &&
               !(cs[i].proposedIn == cs[a].proposedIn && cs[i].proposedOut == cs[a].proposedOut);
      assert NewestApproved(cs, Some(cs[i]));
      assert !ViewAgrees(d, Some(cs[i]));
    }
  }
}
