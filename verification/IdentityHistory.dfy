/**
 * What the identity service answers, told by the calls of the run alone: who was sent a code and when, what was tried, and
 * which tokens were given out.
 */
module IdentityHistory {
  import opened Common
  import opened Identity
  import opened IdentityRuns

  ghost function ReplyAt(run: seq<System>, calls: seq<Moment>, k: nat): Reply
    requires k < |run| && k < |calls|
  {
    Run(run[k].tables, calls[k].call, calls[k].now).reply
  }

  /** The call has a code sent to the destination. */
  ghost predicate Sends(run: seq<System>, calls: seq<Moment>, k: nat, destination: string) {
    && k < |run| && k < |calls| && calls[k].call.RequestCall? && calls[k].call.destination == destination
    && ReplyAt(run, calls, k) == Done
  }

  predicate Tries(call: Call, destination: string) {
    call.VerifyCall? && call.destination == destination
  }

  ghost predicate LogsIn(run: seq<System>, calls: seq<Moment>, k: nat, destination: string) {
    && k < |run| && k < |calls| && Tries(calls[k].call, destination)
    && ReplyAt(run, calls, k).Issued?
  }

  /** The code sent by call `b` is the newest of its destination and has opened no session before call `n`. */
  ghost predicate Stands(run: seq<System>, calls: seq<Moment>, b: nat, n: nat, destination: string) {
    && b < n && Sends(run, calls, b, destination)
    && forall k :: b < k < n ==> !Sends(run, calls, k, destination) && !LogsIn(run, calls, k, destination)
  }

  /** How often a code of the destination was tried after call `b` and before call `n`. */
  function CountTries(calls: seq<Moment>, b: nat, n: nat, destination: string): nat
    requires n <= |calls|
  {
    if n <= b + 1 then 0
    else CountTries(calls, b, n - 1, destination) + (if Tries(calls[n - 1].call, destination) then 1 else 0)
  }

  /** The codes sent to a destination since an instant, among the first `n` calls. */
  ghost function CountSent(run: seq<System>, calls: seq<Moment>, n: nat, destination: string, since: Instant): nat
    requires n <= |calls|
  {
    if n == 0 then 0
    else CountSent(run, calls, n - 1, destination, since) +
         (if Sends(run, calls, n - 1, destination) && calls[n - 1].now >= since then 1 else 0)
  }

  // ---------------------------------------------------------------- one call, for the code of one position

  /** What a code keeps for ever. */
  predicate IsCode(c: Code, destination: string, secret: string, createdAt: Instant) {
    (c.destination, c.secret, c.createdAt, c.expiresAt) == (destination, secret, createdAt, createdAt + 600_000)
  }

  /** The code at position `i` is the last of its destination and has been tried so often without success. */
  ghost predicate Tried(codes: seq<Code>, i: nat, tries: nat) {
    && i < |codes|
    && (forall j :: i < j < |codes| ==> codes[j].destination != codes[i].destination)
    && (forall j :: 0 <= j < i && codes[j].destination == codes[i].destination ==> codes[j].consumedAt.Some?)
    && codes[i].attempts == Min(tries, 5)
    && (codes[i].consumedAt.Some? <==> tries >= 6)
  }

  lemma {:induction false} NewestIs(codes: seq<Code>, i: nat, n: nat)
    requires i < |codes| && n <= |codes|
    requires forall j :: 0 <= j < |codes| && j != i && codes[j].destination == codes[i].destination ==> codes[j].consumedAt.Some?
    ensures NewestUsable(codes, codes[i].destination, n) == if i < n && codes[i].consumedAt.None? then Some(i) else None
  {
    if n > 0 {
      NewestIs(codes, i, n - 1);
    }
  }

  /** How a try of that code is answered. */
  lemma TryIsAnswered(t: Tables, i: nat, tries: nat, secret: string, now: Instant, made: Made)
    requires Tried(t.codes, i, tries) && now <= t.codes[i].expiresAt
    ensures var e := VerifyCode(t, t.codes[i].destination, secret, now, made);
            && e.reply == (if tries >= 6 then Failed(CodeInvalid)
                           else if tries == 5 then Failed(TooManyRequests)
                           else if t.codes[i].secret != secret then Failed(CodeInvalid)
                           else Issued(|t.sessions|))
            && (!e.reply.Issued? ==> Tried(e.next.codes, i, tries + 1))
  {
    NewestIs(t.codes, i, |t.codes|);
    assert t.codes[i].consumedAt.None? ==> t.codes[i].attempts == tries;
  }

  lemma OtherTries(t: Tables, destination: string, secret: string, now: Instant, made: Made, i: nat, tries: nat)
    requires Tried(t.codes, i, tries) && t.codes[i].destination != destination
    ensures Tried(VerifyCode(t, destination, secret, now, made).next.codes, i, tries)
  {
  }

  lemma OtherRequests(t: Tables, destination: string, secret: string, now: Instant, i: nat, tries: nat)
    requires Tried(t.codes, i, tries)
    requires t.codes[i].destination != destination || RequestCode(t, destination, secret, now).reply != Done
    ensures Tried(RequestCode(t, destination, secret, now).next.codes, i, tries)
  {
    hide CountSince;
  }

  lemma OtherCalls(t: Tables, call: Call, now: Instant)
    requires !call.RequestCall? && !call.VerifyCall?
    ensures Run(t, call, now).next.codes == t.codes
  {
  }

  lemma TriedIn(codes: seq<Code>, i: nat, tries: nat)
    requires Tried(codes, i, tries)
    ensures i < |codes|
  {
  }

  /** One call keeps the account of a code that stands. */
  lemma TriedStep(t: Tables, call: Call, now: Instant, i: nat, tries: nat)
    requires Tried(t.codes, i, tries) && now <= t.codes[i].expiresAt
    requires call.RequestCall? && call.destination == t.codes[i].destination ==> Run(t, call, now).reply != Done
    requires Tries(call, t.codes[i].destination) ==> !Run(t, call, now).reply.Issued?
    ensures Tried(Run(t, call, now).next.codes, i, tries + (if Tries(call, t.codes[i].destination) then 1 else 0))
  {
    hide Tried;
    hide VerifyCode;
    hide RequestCode;
    hide Refresh;
    TriedIn(t.codes, i, tries);
    match call
    case RequestCall(d, secret) => OtherRequests(t, d, secret, now, i, tries);
    case VerifyCall(d, secret, made) =>
      if d == t.codes[i].destination {
        TryIsAnswered(t, i, tries, secret, now, made);
      } else {
        OtherTries(t, d, secret, now, made, i, tries);
      }
    case _ => OtherCalls(t, call, now);
  }

  /** A code that was just sent. */
  lemma SentCode(t: Tables, destination: string, secret: string, now: Instant)
    requires RequestCode(t, destination, secret, now).reply == Done
    ensures var codes := RequestCode(t, destination, secret, now).next.codes;
            && |codes| == |t.codes| + 1
            && IsCode(codes[|t.codes|], destination, secret, now) && Tried(codes, |t.codes|, 0)
  {
    hide CountSince;
  }

  // ---------------------------------------------------------------- the codes of a run

  lemma RunLength(run: seq<System>, calls: seq<Moment>)
    requires IsRun(run, calls)
    ensures |run| == |calls| + 1 && |run[0].tables.codes| == 0
  {
    hide Next;
  }

  lemma StepFacts(run: seq<System>, calls: seq<Moment>, n: nat)
    requires IsRun(run, calls) && n < |calls|
    ensures |run| == |calls| + 1
    ensures run[n].clock <= calls[n].now == run[n + 1].clock
    ensures run[n + 1].tables == Run(run[n].tables, calls[n].call, calls[n].now).next
    ensures Later(run[n].tables, run[n + 1].tables)
    ensures calls[n].call.VerifyCall? || calls[n].call.RefreshCall? ==> Unseen(run[n].tables, calls[n].call.made)
  {
    StepOf(run, calls, n);
    StepIsLater(run[n].tables, calls[n].call, calls[n].now);
    hide IsRun;
    hide Later;
    hide Run;
  }

  lemma CodeStays(t: Tables, t': Tables, i: nat, destination: string, secret: string, createdAt: Instant)
    requires Later(t, t') && i < |t.codes| && IsCode(t.codes[i], destination, secret, createdAt)
    ensures i < |t'.codes| && IsCode(t'.codes[i], destination, secret, createdAt)
  {
    assert CodeLater(t.codes[i], t'.codes[i]);
  }

  /** The code that call `b` had sent, at call `n`. */
  lemma {:induction false} CodeOf(run: seq<System>, calls: seq<Moment>, b: nat, n: nat, destination: string)
    requires IsRun(run, calls) && b < n <= |calls| && Sends(run, calls, b, destination)
    ensures |run| == |calls| + 1 && calls[b].call.RequestCall?
    ensures var codes, i := run[n].tables.codes, |run[b].tables.codes|;
            && i < |codes| && IsCode(codes[i], destination, calls[b].call.secret, calls[b].now)
            && (Stands(run, calls, b, n, destination) && run[n].clock <= calls[b].now + 600_000 ==>
                  Tried(codes, i, CountTries(calls, b, n, destination)))
    decreases n
  {
    hide *;
    RunLength(run, calls);
    SendsIs(run, calls, b, destination);
    var i, secret, sentAt := |run[b].tables.codes|, calls[b].call.secret, calls[b].now;
    StepFacts(run, calls, n - 1);
    if n == b + 1 {
      RunIs(run[b].tables, calls[b].call, sentAt);
      SentCode(run[b].tables, destination, secret, sentAt);
      NoTriesYet(calls, b, n, destination);
    } else {
      CodeOf(run, calls, b, n - 1, destination);
      CodeStays(run[n - 1].tables, run[n].tables, i, destination, secret, sentAt);
      if Stands(run, calls, b, n, destination) && run[n].clock <= sentAt + 600_000 {
        StandsBefore(run, calls, b, n, destination);
        CodeFields(run[n - 1].tables.codes[i], destination, secret, sentAt);
        TriedStep(run[n - 1].tables, calls[n - 1].call, calls[n - 1].now, i, CountTries(calls, b, n - 1, destination));
        OneMoreTry(calls, b, n, destination);
      }
    }
  }

  lemma SendsIs(run: seq<System>, calls: seq<Moment>, k: nat, destination: string)
    requires k < |run| && k < |calls|
    ensures Sends(run, calls, k, destination) <==>
              && calls[k].call.RequestCall? && calls[k].call.destination == destination
              && Run(run[k].tables, calls[k].call, calls[k].now).reply == Done
    ensures LogsIn(run, calls, k, destination) <==>
              Tries(calls[k].call, destination) && Run(run[k].tables, calls[k].call, calls[k].now).reply.Issued?
    ensures Tries(calls[k].call, destination) <==> calls[k].call.VerifyCall? && calls[k].call.destination == destination
  {
    hide Run;
  }

  lemma RunIs(t: Tables, call: Call, now: Instant)
    ensures call.RequestCall? ==> Run(t, call, now) == RequestCode(t, call.destination, call.secret, now)
    ensures call.VerifyCall? ==> Run(t, call, now) == VerifyCode(t, call.destination, call.secret, now, call.made)
    ensures call.RefreshCall? ==> Run(t, call, now) == Refresh(t, call.token, now, call.made)
  {
    hide RequestCode;
    hide VerifyCode;
    hide Refresh;
  }

  lemma CodeFields(c: Code, destination: string, secret: string, createdAt: Instant)
    ensures IsCode(c, destination, secret, createdAt) <==>
            c.destination == destination && c.secret == secret && c.createdAt == createdAt && c.expiresAt == createdAt + 600_000
  {
  }

  lemma NoTriesYet(calls: seq<Moment>, b: nat, n: nat, destination: string)
    requires n <= b + 1 && n <= |calls|
    ensures CountTries(calls, b, n, destination) == 0
  {
  }

  lemma OneMoreTry(calls: seq<Moment>, b: nat, n: nat, destination: string)
    requires b + 1 < n <= |calls|
    ensures CountTries(calls, b, n, destination) ==
            CountTries(calls, b, n - 1, destination) + (if Tries(calls[n - 1].call, destination) then 1 else 0)
  {
  }

  lemma StandsBefore(run: seq<System>, calls: seq<Moment>, b: nat, n: nat, destination: string)
    requires b + 1 < n <= |calls| < |run| && Stands(run, calls, b, n, destination)
    ensures Stands(run, calls, b, n - 1, destination)
    ensures calls[n - 1].call.RequestCall? && calls[n - 1].call.destination == destination ==>
              Run(run[n - 1].tables, calls[n - 1].call, calls[n - 1].now).reply != Done
    ensures Tries(calls[n - 1].call, destination) ==>
              !Run(run[n - 1].tables, calls[n - 1].call, calls[n - 1].now).reply.Issued?
  {
    SendsIs(run, calls, n - 1, destination);
    assert !Sends(run, calls, n - 1, destination) && !LogsIn(run, calls, n - 1, destination);
    hide Sends;
    hide LogsIn;
  }

  // ---------------------------------------------------------------- where a usable code comes from

  lemma CodesGrow(t: Tables, call: Call, now: Instant)
    ensures var codes := Run(t, call, now).next.codes;
            |codes| == |t.codes| + (if call.RequestCall? && Run(t, call, now).reply == Done then 1 else 0)
  {
    hide CountSince;
  }

  /** Every code of a run was sent by some call. */
  lemma {:induction false} CodeWasSent(run: seq<System>, calls: seq<Moment>, n: nat, i: nat) returns (b: nat)
    requires IsRun(run, calls) && n <= |calls| && n < |run| && i < |run[n].tables.codes|
    ensures b < n && b < |run| && |run[b].tables.codes| == i
    ensures Sends(run, calls, b, run[n].tables.codes[i].destination)
    decreases n
  {
    hide *;
    RunLength(run, calls);
    StepFacts(run, calls, n - 1);
    var t, call, now := run[n - 1].tables, calls[n - 1].call, calls[n - 1].now;
    CodesGrow(t, call, now);
    if i < |t.codes| {
      b := CodeWasSent(run, calls, n - 1, i);
      SameDestination(t, run[n].tables, i);
    } else {
      b := n - 1;
      RunIs(t, call, now);
      SentCode(t, call.destination, call.secret, now);
      CodeFields(run[n].tables.codes[i], call.destination, call.secret, now);
      SendsIs(run, calls, b, call.destination);
    }
  }

  lemma SameDestination(t: Tables, t': Tables, i: nat)
    requires Later(t, t') && i < |t.codes|
    ensures i < |t'.codes| && t'.codes[i].destination == t.codes[i].destination
    ensures t.codes[i].consumedAt.Some? ==> t'.codes[i].consumedAt.Some?
  {
    assert CodeLater(t.codes[i], t'.codes[i]);
  }

  lemma {:induction false} CodesStay(run: seq<System>, calls: seq<Moment>, m: nat, n: nat, i: nat)
    requires IsRun(run, calls) && m <= n <= |calls| && n < |run| && i < |run[m].tables.codes|
    ensures i < |run[n].tables.codes| && run[n].tables.codes[i].destination == run[m].tables.codes[i].destination
    ensures run[m].tables.codes[i].consumedAt.Some? ==> run[n].tables.codes[i].consumedAt.Some?
    decreases n
  {
    hide *;
    if m < n {
      RunLength(run, calls);
      CodesStay(run, calls, m, n - 1, i);
      StepFacts(run, calls, n - 1);
      SameDestination(run[n - 1].tables, run[n].tables, i);
    }
  }

  /** Only the last code of a destination can be unconsumed. */
  lemma LastOfDestination(run: seq<System>, calls: seq<Moment>, n: nat, i: nat, j: nat)
    requires IsRun(run, calls) && n < |run| && i < |run[n].tables.codes| && j < |run[n].tables.codes|
    requires run[n].tables.codes[i].destination == run[n].tables.codes[j].destination
    requires i != j && run[n].tables.codes[i].consumedAt.None?
    ensures j < i && run[n].tables.codes[j].consumedAt.Some?
  {
    hide *;
    RunKeeps(run, calls, n);
    if i < j {
      OlderIsConsumed(run[n], i, j);
    } else {
      OlderIsConsumed(run[n], j, i);
    }
  }

  lemma OlderIsConsumed(s: System, i: nat, j: nat)
    requires Inv(s) && i < j < |s.tables.codes| && s.tables.codes[i].destination == s.tables.codes[j].destination
    ensures s.tables.codes[i].consumedAt.Some?
  {
    assert InOrder(s.tables.codes, i, j);
  }

  /** What a login does to its code. */
  lemma LoginConsumes(t: Tables, destination: string, secret: string, now: Instant, made: Made)
    requires VerifyCode(t, destination, secret, now, made).reply.Issued?
    ensures var k := NewestUsable(t.codes, destination, |t.codes|);
            && k.Some? && Usable(t.codes[k.value], destination) && t.codes[k.value].secret == secret
            && now <= t.codes[k.value].expiresAt
            && |VerifyCode(t, destination, secret, now, made).next.codes| == |t.codes|
            && VerifyCode(t, destination, secret, now, made).next.codes[k.value].consumedAt.Some?
  {
  }

  /** A code that is still usable stands: nothing newer was sent and nobody logged in since. */
  lemma UsableStands(run: seq<System>, calls: seq<Moment>, b: nat, n: nat, destination: string)
    requires IsRun(run, calls) && b < n <= |calls| && n < |run| && Sends(run, calls, b, destination)
    requires |run[b].tables.codes| < |run[n].tables.codes|
    requires Usable(run[n].tables.codes[|run[b].tables.codes|], destination)
    ensures Stands(run, calls, b, n, destination)
  {
    var i := |run[b].tables.codes|;
    hide Next;
    forall k | b < k < n
      ensures !Sends(run, calls, k, destination) && !LogsIn(run, calls, k, destination)
    {
      SendsIs(run, calls, k, destination);
      if Sends(run, calls, k, destination) {
        SentLater(run, calls, b, k, n, destination);
      } else if LogsIn(run, calls, k, destination) {
        LoggedInSince(run, calls, b, k, n, destination);
      }
    }
  }

  lemma SentLater(run: seq<System>, calls: seq<Moment>, b: nat, k: nat, n: nat, destination: string)
    requires IsRun(run, calls) && b < k < n <= |calls| && n < |run|
    requires Sends(run, calls, b, destination) && Sends(run, calls, k, destination)
    requires |run[b].tables.codes| < |run[n].tables.codes|
    ensures !Usable(run[n].tables.codes[|run[b].tables.codes|], destination)
  {
    hide *;
    var i, j := |run[b].tables.codes|, |run[k].tables.codes|;
    CodeOf(run, calls, b, n, destination);
    CodeOf(run, calls, k, n, destination);
    CodeOf(run, calls, b, k, destination);
    CodeFields(run[n].tables.codes[i], destination, calls[b].call.secret, calls[b].now);
    CodeFields(run[n].tables.codes[j], destination, calls[k].call.secret, calls[k].now);
    if run[n].tables.codes[i].consumedAt.None? {
      LastOfDestination(run, calls, n, i, j);
    } else {
      ConsumedIsUsed(run[n].tables.codes[i], destination);
    }
  }

  lemma ConsumedIsUsed(c: Code, destination: string)
    ensures Usable(c, destination) <==> c.destination == destination && c.consumedAt.None?
  {
  }

  lemma LoggedInSince(run: seq<System>, calls: seq<Moment>, b: nat, k: nat, n: nat, destination: string)
    requires IsRun(run, calls) && b < k < n <= |calls| && n < |run|
    requires Sends(run, calls, b, destination) && LogsIn(run, calls, k, destination)
    requires |run[b].tables.codes| < |run[n].tables.codes|
    ensures !Usable(run[n].tables.codes[|run[b].tables.codes|], destination)
  {
    hide *;
    var i, t := |run[b].tables.codes|, run[k].tables;
    RunLength(run, calls);
    SendsIs(run, calls, k, destination);
    RunIs(t, calls[k].call, calls[k].now);
    StepFacts(run, calls, k);
    LoginConsumes(t, destination, calls[k].call.secret, calls[k].now, calls[k].call.made);
    var used := NewestUsable(t.codes, destination, |t.codes|).value;
    CodeOf(run, calls, b, k, destination);
    CodeFields(t.codes[i], destination, calls[b].call.secret, calls[b].now);
    ConsumedIsUsed(t.codes[used], destination);
    if used == i {
      CodesStay(run, calls, k + 1, n, i);
    } else {
      LastOfDestination(run, calls, k, used, i);
      CodesStay(run, calls, k, n, i);
    }
    ConsumedIsUsed(run[n].tables.codes[i], destination);
  }

  // ---------------------------------------------------------------- how a try is answered

  /** The code that a try is measured against: sent at call `b`, standing, and not older than ten minutes. */
  ghost predicate InTime(run: seq<System>, calls: seq<Moment>, b: nat, n: nat, destination: string) {
    b < n < |calls| && Stands(run, calls, b, n, destination) && calls[n].now <= calls[b].now + 600_000
  }

  lemma StandingIsAnswered(run: seq<System>, calls: seq<Moment>, b: nat, n: nat, destination: string, secret: string)
    requires IsRun(run, calls) && n < |calls| && Tries(calls[n].call, destination) && calls[n].call.secret == secret
    requires InTime(run, calls, b, n, destination)
    ensures |run| == |calls| + 1 && calls[b].call.RequestCall?
    ensures var tries := CountTries(calls, b, n, destination);
            ReplyAt(run, calls, n) ==
              if tries >= 6 then Failed(CodeInvalid)
              else if tries == 5 then Failed(TooManyRequests)
              else if calls[b].call.secret != secret then Failed(CodeInvalid)
              else Issued(|run[n].tables.sessions|)
  {
    hide Next;
    hide VerifyCode;
    hide Tried;
    var i := |run[b].tables.codes|;
    assert IsRun(run, calls) && Stands(run, calls, b, n, destination);
    StepFacts(run, calls, n);
    CodeOf(run, calls, b, n, destination);
    hide IsRun;
    TryIsAnswered(run[n].tables, i, CountTries(calls, b, n, destination), secret, calls[n].now, calls[n].call.made);
  }

  lemma AnsweredIsStanding(run: seq<System>, calls: seq<Moment>, n: nat, destination: string, secret: string) returns (b: nat)
    requires IsRun(run, calls) && n < |calls| && n < |run| && Tries(calls[n].call, destination) && calls[n].call.secret == secret
    requires ReplyAt(run, calls, n) != Failed(CodeInvalid)
    ensures InTime(run, calls, b, n, destination)
  {
    hide Next;
    var t := run[n].tables;
    RunLength(run, calls);
    var k := NewestUsable(t.codes, destination, |t.codes|);
    assert k.Some? && t.codes[k.value].expiresAt >= calls[n].now;
    b := CodeWasSent(run, calls, n, k.value);
    CodeOf(run, calls, b, n, destination);
    UsableStands(run, calls, b, n, destination);
  }

  /**
   * How the presentation of a secret is answered. A session is opened exactly when the secret is that of a code sent to the
   * destination at most ten minutes ago, no newer code was sent, nobody logged in with it, and it was tried fewer than five
   * times; the sixth try in that time is refused as too many, everything else as invalid.
   */
  lemma TriesAreAnswered(run: seq<System>, calls: seq<Moment>, n: nat, destination: string, secret: string)
    requires IsRun(run, calls) && n < |calls| && Tries(calls[n].call, destination) && calls[n].call.secret == secret
    ensures |run| == |calls| + 1
    ensures ReplyAt(run, calls, n).Issued? <==>
            exists b: nat :: InTime(run, calls, b, n, destination) && calls[b].call == RequestCall(destination, secret) &&
                        CountTries(calls, b, n, destination) < 5
    ensures ReplyAt(run, calls, n) == Failed(TooManyRequests) <==>
            exists b: nat :: InTime(run, calls, b, n, destination) && CountTries(calls, b, n, destination) == 5
    ensures ReplyAt(run, calls, n) in {Issued(|run[n].tables.sessions|), Failed(TooManyRequests), Failed(CodeInvalid)}
  {
    hide *;
    RunLength(run, calls);
    forall b: nat | InTime(run, calls, b, n, destination)
      ensures b < n
    {
      TimeOf(run, calls, b, n, destination);
    }
    if ReplyAt(run, calls, n) != Failed(CodeInvalid) {
      var b := AnsweredIsStanding(run, calls, n, destination, secret);
      StandingIsAnswered(run, calls, b, n, destination, secret);
      TimeOf(run, calls, b, n, destination);
      var call := calls[b].call;
      assert call == RequestCall(destination, call.secret);
    }
    forall b: nat | b < n && InTime(run, calls, b, n, destination)
      ensures calls[b].call.RequestCall? && calls[b].call.destination == destination
      ensures calls[b].call.secret == secret && CountTries(calls, b, n, destination) < 5 ==> ReplyAt(run, calls, n).Issued?
      ensures CountTries(calls, b, n, destination) == 5 ==> ReplyAt(run, calls, n) == Failed(TooManyRequests)
    {
      StandingIsAnswered(run, calls, b, n, destination, secret);
      TimeOf(run, calls, b, n, destination);
    }
  }

  lemma TimeOf(run: seq<System>, calls: seq<Moment>, b: nat, n: nat, destination: string)
    requires InTime(run, calls, b, n, destination)
    ensures b < n < |calls| && calls[b].call.RequestCall? && calls[b].call.destination == destination
  {
    hide ReplyAt;
  }

  /** A code is consumed at the time of the call that consumes it, and stays so. */
  lemma ConsumedAtTheCall(t: Tables, call: Call, now: Instant, i: nat)
    requires i < |t.codes|
    ensures var codes := Run(t, call, now).next.codes;
            i < |codes| && (codes[i].consumedAt == t.codes[i].consumedAt || (t.codes[i].consumedAt.None? && codes[i].consumedAt == Some(now)))
  {
    hide CountSince;
  }

  // ---------------------------------------------------------------- how a request is answered

  lemma SameCount(t: Tables, t': Tables, destination: string, since: Instant)
    requires Later(t, t') && |t'.codes| == |t.codes|
    ensures CountSince(t'.codes, destination, since) == CountSince(t.codes, destination, since)
  {
    forall i | 0 <= i < |t.codes|
      ensures t.codes[i].destination == t'.codes[i].destination && t.codes[i].createdAt == t'.codes[i].createdAt
    {
      assert CodeLater(t.codes[i], t'.codes[i]);
    }
    CountIgnoresTheRest(t.codes, t'.codes, destination, since);
  }

  lemma CountOneMore(t: Tables, call: Call, now: Instant, destination: string, since: Instant)
    requires call.RequestCall? && Run(t, call, now).reply == Done
    ensures CountSince(Run(t, call, now).next.codes, destination, since) ==
            CountSince(t.codes, destination, since) + (if call.destination == destination && now >= since then 1 else 0)
  {
    var consumed := ConsumeAll(t.codes, call.destination, now);
    CountIgnoresTheRest(t.codes, consumed, destination, since);
    assert (consumed + [NewCode(call.destination, call.secret, now)])[..|consumed|] == consumed;
  }

  lemma {:induction false} SentAreCounted(run: seq<System>, calls: seq<Moment>, n: nat, destination: string, since: Instant)
    requires IsRun(run, calls) && n <= |calls|
    ensures |run| == |calls| + 1
    ensures CountSent(run, calls, n, destination, since) == CountSince(run[n].tables.codes, destination, since)
  {
    hide *;
    RunLength(run, calls);
    NothingSent(run, calls, destination, since);
    if n > 0 {
      SentAreCounted(run, calls, n - 1, destination, since);
      StepFacts(run, calls, n - 1);
      SendsIs(run, calls, n - 1, destination);
      OneMoreSent(run, calls, n, destination, since);
      var t, call, now := run[n - 1].tables, calls[n - 1].call, calls[n - 1].now;
      CodesGrow(t, call, now);
      if call.RequestCall? && Run(t, call, now).reply == Done {
        CountOneMore(t, call, now, destination, since);
      } else {
        SameCount(t, run[n].tables, destination, since);
      }
    }
  }

  lemma NothingSent(run: seq<System>, calls: seq<Moment>, destination: string, since: Instant)
    requires |run| > 0 && run[0].tables.codes == []
    ensures CountSent(run, calls, 0, destination, since) == CountSince(run[0].tables.codes, destination, since) == 0
  {
  }

  lemma OneMoreSent(run: seq<System>, calls: seq<Moment>, n: nat, destination: string, since: Instant)
    requires 0 < n <= |calls|
    ensures CountSent(run, calls, n, destination, since) ==
            CountSent(run, calls, n - 1, destination, since) +
            (if Sends(run, calls, n - 1, destination) && calls[n - 1].now >= since then 1 else 0)
  {
    hide Sends;
  }

  /** A request has a code sent exactly when fewer than five were sent to the destination in the last fifteen minutes. */
  lemma RequestsAreAnswered(run: seq<System>, calls: seq<Moment>, n: nat)
    requires IsRun(run, calls) && n < |calls| && calls[n].call.RequestCall?
    ensures |run| == |calls| + 1
    ensures ReplyAt(run, calls, n) ==
              if CountSent(run, calls, n, calls[n].call.destination, calls[n].now - 900_000) < 5 then Done else Failed(TooManyRequests)
  {
    hide *;
    RunLength(run, calls);
    var t, call, now := run[n].tables, calls[n].call, calls[n].now;
    SentAreCounted(run, calls, n, call.destination, now - 900_000);
    RunIs(t, call, now);
    RequestReply(t, call.destination, call.secret, now);
    ReplyIs(run, calls, n);
  }

  lemma RequestReply(t: Tables, destination: string, secret: string, now: Instant)
    ensures RequestCode(t, destination, secret, now).reply ==
            if CountSince(t.codes, destination, now - 900_000) < 5 then Done else Failed(TooManyRequests)
  {
    hide CountSince;
  }

  lemma ReplyIs(run: seq<System>, calls: seq<Moment>, k: nat)
    requires k < |run| && k < |calls|
    ensures ReplyAt(run, calls, k) == Run(run[k].tables, calls[k].call, calls[k].now).reply
  {
    hide Run;
  }

  // ---------------------------------------------------------------- sessions

  /** A session as it is opened, at the end of the table. */
  predicate Opens(t: Tables, t': Tables, user: UserId, family: FamilyId, made: Made) {
    && |t'.sessions| == |t.sessions| + 1
    && t'.sessions[|t.sessions|] == Session(user, made.token, family, made.expiresAt, None)
  }

  /** A login opens one session in a new family, for the one user that the destination has from its first login on. */
  lemma LoginOpensASession(t: Tables, destination: string, secret: string, now: Instant, made: Made)
    ensures var e := VerifyCode(t, destination, secret, now, made);
            && (!e.reply.Issued? ==> e.next.sessions == t.sessions && e.next.users == t.users)
            && (e.reply.Issued? ==>
                  && e.reply.session == |t.sessions| && e.next.sessions[..|t.sessions|] == t.sessions
                  && destination in e.next.users && Opens(t, e.next, e.next.users[destination], made.family, made)
                  && (forall d :: d in t.users ==> d in e.next.users && e.next.users[d] == t.users[d])
                  && (forall d :: d in e.next.users ==> d in t.users || d == destination)
                  && (destination !in t.users ==> e.next.users[destination] == made.user))
  {
  }

  ghost predicate Holds(sessions: seq<Session>, i: nat, token: Token) {
    i < |sessions| && sessions[i].token == token
  }

  /**
   * How a refresh token is answered in any state of a run: it opens a session exactly when it belongs to a session that is
   * neither revoked nor past its end; that session is then rotated, and the new one is of its user and family.
   */
  lemma RefreshesAreAnswered(run: seq<System>, calls: seq<Moment>, n: nat, i: nat)
    requires IsRun(run, calls) && n < |calls| && n < |run| && calls[n].call.RefreshCall?
    requires Holds(run[n].tables.sessions, i, calls[n].call.token)
    ensures n + 1 < |run|
    ensures var t, t', now, s := run[n].tables, run[n + 1].tables, calls[n].now, run[n].tables.sessions[i];
            && ReplyAt(run, calls, n) == (if s.revoked.Some? then Failed(RefreshReused)
                                          else if now > s.expiresAt then Failed(RefreshExpired)
                                          else Issued(|t.sessions|))
            && t'.codes == t.codes && t'.users == t.users
            && (ReplyAt(run, calls, n).Issued? ==>
                  && t'.sessions[..|t.sessions|] == t.sessions[i := s.(revoked := Some(Rotated))]
                  && Opens(t, t', s.user, s.family, calls[n].call.made))
            && (s.revoked.Some? ==> EachRevoked(t.sessions, t'.sessions, OfFamily(s.family), ReuseDetected))
            && (s.revoked.None? && now > s.expiresAt ==> t' == t)
  {
    StepFacts(run, calls, n);
    RunKeeps(run, calls, n);
    hide IsRun;
    hide Later;
    hide Unseen;
    TokenIsFound(run[n].tables.sessions, i);
    hide Inv;
  }

  /** A token that no session has is refused. */
  lemma UnknownTokens(t: Tables, token: Token, now: Instant, made: Made)
    ensures (forall i: nat :: !Holds(t.sessions, i, token)) <==> Refresh(t, token, now, made) == Effect(Failed(RefreshInvalid), t)
  {
    var k := FindToken(t.sessions, token);
    if k.Some? {
      assert Holds(t.sessions, k.value, token);
    } else {
      assert forall i: nat :: !Holds(t.sessions, i, token);
    }
  }

  datatype Chosen = OfFamily(family: FamilyId) | OfUser(user: UserId) | TheOne(session: SessionId, owner: UserId)

  predicate IsChosen(c: Chosen, sessions: seq<Session>, i: nat)
    requires i < |sessions|
  {
    match c
    case OfFamily(f) => sessions[i].family == f
    case OfUser(u) => sessions[i].user == u
    case TheOne(x, u) => i == x && sessions[i].user == u
  }

  /** The chosen sessions that were alive are revoked for this reason; all the others, and all else, stay as they were. */
  ghost predicate EachRevoked(a: seq<Session>, b: seq<Session>, c: Chosen, reason: RevokedReason) {
    && |a| == |b|
    && forall i :: 0 <= i < |a| ==>
         b[i] == if IsChosen(c, a, i) && a[i].revoked.None? then a[i].(revoked := Some(reason)) else a[i]
  }

  /** Logging out revokes the one session of that user, or all of them; revoking by id overwrites the reason. */
  lemma LogoutsAreExact(t: Tables, session: SessionId, user: UserId)
    ensures Logout(t, session, user).reply == Done == LogoutAll(t, user).reply
    ensures EachRevoked(t.sessions, Logout(t, session, user).next.sessions, TheOne(session, user), UserLogout)
    ensures EachRevoked(t.sessions, LogoutAll(t, user).next.sessions, OfUser(user), LogoutOfAll)
    ensures var e := RevokeSessionById(t, session, user);
            && (e.reply == Done <==> session < |t.sessions| && t.sessions[session].user == user)
            && (e.reply != Done ==> e == Effect(Failed(SessionNotFound), t))
            && |e.next.sessions| == |t.sessions|
            && (forall i :: 0 <= i < |t.sessions| ==>
                  e.next.sessions[i] == if e.reply == Done && i == session
                                        then t.sessions[i].(revoked := Some(IndividualRevocation)) else t.sessions[i])
    ensures forall e :: e in {Logout(t, session, user), LogoutAll(t, user), RevokeSessionById(t, session, user)} ==>
              e.next.codes == t.codes && e.next.users == t.users
  {
  }
}
