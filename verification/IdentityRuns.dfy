/** What every run of the identity service keeps, each call being atomic and the clock never going back. */
module IdentityRuns {
  import opened Common
  import opened Identity

  /** `logins` records which code opened which session; no call reads it. */
  datatype System = System(tables: Tables, clock: Instant, logins: map<SessionId, nat>)

  datatype Call =
    | RequestCall(destination: string, secret: string)
    | VerifyCall(destination: string, secret: string, made: Made)
    | RefreshCall(token: Token, made: Made)
    | LogoutCall(session: SessionId, user: UserId)
    | LogoutAllCall(user: UserId)
    | RevokeCall(session: SessionId, user: UserId)

  /** The new token and family of a call have not been seen before: they are random. */
  predicate Unseen(t: Tables, made: Made) {
    forall i :: 0 <= i < |t.sessions| ==> t.sessions[i].token != made.token && t.sessions[i].family != made.family
  }

  function Run(t: Tables, call: Call, now: Instant): Effect {
    match call
    case RequestCall(d, secret) => RequestCode(t, d, secret, now)
    case VerifyCall(d, secret, made) => VerifyCode(t, d, secret, now, made)
    case RefreshCall(token, made) => Refresh(t, token, now, made)
    case LogoutCall(s, u) => Logout(t, s, u)
    case LogoutAllCall(u) => LogoutAll(t, u)
    case RevokeCall(s, u) => RevokeSessionById(t, s, u)
  }

  /** One call, at a time not before the last one. */
  ghost predicate Next(s: System, call: Call, now: Instant, s': System) {
    && s.clock <= now
    && (call.VerifyCall? ==> Unseen(s.tables, call.made))
    && (call.RefreshCall? ==> Unseen(s.tables, call.made))
    && s'.clock == now && s'.tables == Run(s.tables, call, now).next
    && s'.logins == (if call.VerifyCall? && Run(s.tables, call, now).reply.Issued? then
                       s.logins[Run(s.tables, call, now).reply.session := Opener(s.tables, call)]
                     else s.logins)
  }

  /** The code that a successful verification used. */
  function Opener(t: Tables, call: Call): nat
    requires call.VerifyCall?
  {
    var k := NewestUsable(t.codes, call.destination, |t.codes|);
    if k.Some? then k.value else 0
  }

  datatype Moment = Moment(call: Call, now: Instant)

  ghost predicate IsRun(run: seq<System>, calls: seq<Moment>) {
    && |run| == |calls| + 1
    && run[0].tables == Tables([], [], map[]) && run[0].logins == map[]
    && forall i :: 0 <= i < |calls| ==> Next(run[i], calls[i].call, calls[i].now, run[i + 1])
  }

  // ---------------------------------------------------------------- the invariant

  predicate CodeOk(codes: seq<Code>, clock: Instant, i: nat)
    requires i < |codes|
  {
    && codes[i].createdAt <= clock
    && codes[i].attempts <= OTP_MAX_ATTEMPTS
    && CountSince(codes[..i], codes[i].destination, codes[i].createdAt - OTP_WINDOW_MS) < OTP_REQUESTS_PER_WINDOW
  }

  /** Codes are in order of creation, and an older one of the same destination is consumed. */
  predicate InOrder(codes: seq<Code>, i: nat, j: nat)
    requires i < j < |codes|
  {
    && codes[i].createdAt <= codes[j].createdAt
    && (codes[i].destination == codes[j].destination ==> codes[i].consumedAt.Some?)
  }

  ghost predicate CodesOk(codes: seq<Code>, clock: Instant) {
    && (forall i :: 0 <= i < |codes| ==> CodeOk(codes, clock, i))
    && (forall i, j :: 0 <= i < j < |codes| ==> InOrder(codes, i, j))
  }

  /** Tokens are unique; a family has one user, and at most one session of it is not revoked. */
  predicate SessionsAgree(sessions: seq<Session>, i: nat, j: nat)
    requires i < j < |sessions|
  {
    && sessions[i].token != sessions[j].token
    && (sessions[i].family == sessions[j].family ==>
          sessions[i].user == sessions[j].user && sessions[i].revoked.Some?)
  }

  ghost predicate SessionsOk(sessions: seq<Session>) {
    forall i, j :: 0 <= i < j < |sessions| ==> SessionsAgree(sessions, i, j)
  }

  /** A code that opened a session is consumed, and opened no other. */
  ghost predicate LoginsOk(s: System) {
    && (forall x :: x in s.logins ==>
          x < |s.tables.sessions| && s.logins[x] < |s.tables.codes| && s.tables.codes[s.logins[x]].consumedAt.Some?)
    && (forall x, y :: x in s.logins && y in s.logins && x != y ==> s.logins[x] != s.logins[y])
  }

  ghost predicate Inv(s: System) {
    CodesOk(s.tables.codes, s.clock) && SessionsOk(s.tables.sessions) && LoginsOk(s)
  }

  // ---------------------------------------------------------------- codes

  /** Counting looks at destination and creation only. */
  lemma {:induction false} CountIgnoresTheRest(a: seq<Code>, b: seq<Code>, destination: string, since: Instant)
    requires |a| == |b|
    requires forall i :: 0 <= i < |a| ==> a[i].destination == b[i].destination && a[i].createdAt == b[i].createdAt
    ensures CountSince(a, destination, since) == CountSince(b, destination, since)
  {
    if a != [] {
      CountIgnoresTheRest(a[..|a| - 1], b[..|b| - 1], destination, since);
    }
  }

  /** Rewriting codes in place, without touching destination or creation and never unconsuming, keeps the codes fine. */
  lemma RewrittenCodesOk(a: seq<Code>, b: seq<Code>, clock: Instant, now: Instant)
    requires CodesOk(a, clock) && clock <= now && |a| == |b|
    requires forall i :: 0 <= i < |a| ==>
               a[i].destination == b[i].destination && a[i].createdAt == b[i].createdAt &&
               b[i].attempts <= OTP_MAX_ATTEMPTS && (a[i].consumedAt.Some? ==> b[i].consumedAt.Some?)
    ensures CodesOk(b, now)
  {
    forall i | 0 <= i < |b|
      ensures CodeOk(b, now, i)
    {
      assert CodeOk(a, clock, i);
      CountIgnoresTheRest(a[..i], b[..i], a[i].destination, a[i].createdAt - OTP_WINDOW_MS);
    }
    forall i, j | 0 <= i < j < |b|
      ensures InOrder(b, i, j)
    {
      assert InOrder(a, i, j);
    }
  }

  lemma RequestKeepsCodes(t: Tables, destination: string, secret: string, clock: Instant, now: Instant)
    requires CodesOk(t.codes, clock) && clock <= now
    ensures CodesOk(RequestCode(t, destination, secret, now).next.codes, now)
  {
    if CountSince(t.codes, destination, now - OTP_WINDOW_MS) >= OTP_REQUESTS_PER_WINDOW {
      forall i | 0 <= i < |t.codes| ensures t.codes[i].attempts <= OTP_MAX_ATTEMPTS {
        assert CodeOk(t.codes, clock, i);
      }
      RewrittenCodesOk(t.codes, t.codes, clock, now);
    } else {
      var consumed := ConsumeAll(t.codes, destination, now);
      var codes := consumed + [NewCode(destination, secret, now)];
      forall i | 0 <= i < |t.codes| ensures t.codes[i].attempts <= OTP_MAX_ATTEMPTS && t.codes[i].createdAt <= now {
        assert CodeOk(t.codes, clock, i);
      }
      RewrittenCodesOk(t.codes, consumed, clock, now);
      CountIgnoresTheRest(t.codes, consumed, destination, now - OTP_WINDOW_MS);
      hide CountSince;
      forall i | 0 <= i < |codes|
        ensures CodeOk(codes, now, i)
      {
        if i < |consumed| {
          assert CodeOk(consumed, now, i);
          assert codes[..i] == consumed[..i];
        } else {
          assert codes[..i] == consumed;
        }
      }
      hide CodeOk;
      forall i, j | 0 <= i < j < |codes|
        ensures InOrder(codes, i, j)
      {
        if j < |consumed| {
          assert InOrder(consumed, i, j);
        }
      }
    }
  }

  lemma VerifyKeepsCodes(t: Tables, destination: string, secret: string, clock: Instant, now: Instant, made: Made)
    requires CodesOk(t.codes, clock) && clock <= now
    ensures CodesOk(VerifyCode(t, destination, secret, now, made).next.codes, now)
  {
    forall i | 0 <= i < |t.codes| ensures t.codes[i].attempts <= OTP_MAX_ATTEMPTS {
      assert CodeOk(t.codes, clock, i);
    }
    hide CodesOk;
    RewrittenCodesOk(t.codes, VerifyCode(t, destination, secret, now, made).next.codes, clock, now);
  }

  // ---------------------------------------------------------------- sessions

  lemma AddedSessionOk(sessions: seq<Session>, s: Session)
    requires SessionsOk(sessions)
    requires forall i :: 0 <= i < |sessions| ==> sessions[i].token != s.token
    requires forall i :: 0 <= i < |sessions| && sessions[i].family == s.family ==>
               sessions[i].user == s.user && sessions[i].revoked.Some?
    ensures SessionsOk(sessions + [s])
  {
    forall i, j | 0 <= i < j < |sessions + [s]|
      ensures SessionsAgree(sessions + [s], i, j)
    {
      if j < |sessions| {
        assert SessionsAgree(sessions, i, j);
      }
    }
  }

  /** Revoking any sessions keeps them fine. */
  lemma RevokedSessionsOk(a: seq<Session>, b: seq<Session>)
    requires SessionsOk(a) && |a| == |b|
    requires forall i :: 0 <= i < |a| ==> b[i] == a[i].(revoked := b[i].revoked) && (a[i].revoked.Some? ==> b[i].revoked.Some?)
    ensures SessionsOk(b)
  {
    forall i, j | 0 <= i < j < |b|
      ensures SessionsAgree(b, i, j)
    {
      assert SessionsAgree(a, i, j);
    }
  }

  lemma Agreed(sessions: seq<Session>, i: SessionId, j: SessionId)
    requires SessionsOk(sessions) && i < j < |sessions|
    ensures sessions[i].family == sessions[j].family ==> sessions[i].user == sessions[j].user && sessions[i].revoked.Some?
  {
    assert SessionsAgree(sessions, i, j);
  }

  /** A live session is the only live one of its family. */
  lemma OthersOfFamilyAreRevoked(sessions: seq<Session>, i: SessionId, j: SessionId)
    requires SessionsOk(sessions) && i < |sessions| && j < |sessions| && i != j
    requires sessions[i].family == sessions[j].family && sessions[i].revoked.None?
    ensures sessions[j].revoked.Some? && sessions[j].user == sessions[i].user
  {
    Agreed(sessions, if i < j then i else j, if i < j then j else i);
  }

  lemma VerifyKeepsSessions(t: Tables, destination: string, secret: string, now: Instant, made: Made)
    requires SessionsOk(t.sessions) && Unseen(t, made)
    ensures SessionsOk(VerifyCode(t, destination, secret, now, made).next.sessions)
  {
    AddedSessionOk(t.sessions, Session(UserOf(t, destination, made.user), made.token, made.family, made.expiresAt, None));
    hide SessionsOk;
  }

  lemma RefreshKeepsSessions(t: Tables, token: Token, now: Instant, made: Made)
    requires SessionsOk(t.sessions) && Unseen(t, made)
    ensures SessionsOk(Refresh(t, token, now, made).next.sessions)
  {
    var k := FindToken(t.sessions, token);
    if k.Some? {
      var i, s := k.value, t.sessions[k.value];
      RevokedSessionsOk(t.sessions, RevokeFamily(t.sessions, s.family));
      if s.revoked.None? {
        var rotated := t.sessions[i := s.(revoked := Some(Rotated))];
        RevokedSessionsOk(t.sessions, rotated);
        forall j | 0 <= j < |rotated| && rotated[j].family == s.family
          ensures rotated[j].user == s.user && rotated[j].revoked.Some?
        {
          if j != i {
            OthersOfFamilyAreRevoked(t.sessions, i, j);
          }
        }
        AddedSessionOk(rotated, Session(s.user, made.token, s.family, made.expiresAt, None));
      }
    }
    hide SessionsOk;
  }

  lemma OthersKeepSessions(t: Tables, call: Call, now: Instant)
    requires SessionsOk(t.sessions) && (call.LogoutCall? || call.LogoutAllCall? || call.RevokeCall?)
    ensures SessionsOk(Run(t, call, now).next.sessions)
    ensures Run(t, call, now).next.codes == t.codes
  {
    RevokedSessionsOk(t.sessions, Run(t, call, now).next.sessions);
    hide SessionsOk;
  }

  // ---------------------------------------------------------------- steps

  lemma TablesKept(s: System, call: Call, now: Instant, s': System)
    requires Inv(s) && Next(s, call, now, s')
    ensures CodesOk(s'.tables.codes, s'.clock) && SessionsOk(s'.tables.sessions)
  {
    var t := s.tables;
    SameCodesOk(t.codes, s.clock, now);
    hide CodesOk;
    hide SessionsOk;
    hide LoginsOk;
    match call
    case RequestCall(d, secret) => RequestKeepsCodes(t, d, secret, s.clock, now);
    case VerifyCall(d, secret, made) =>
      VerifyKeepsCodes(t, d, secret, s.clock, now, made);
      VerifyKeepsSessions(t, d, secret, now, made);
    case RefreshCall(token, made) => RefreshKeepsSessions(t, token, now, made);
    case _ => OthersKeepSessions(t, call, now);
  }

  lemma SameCodesOk(codes: seq<Code>, clock: Instant, now: Instant)
    requires CodesOk(codes, clock) && clock <= now
    ensures CodesOk(codes, now)
  {
    forall i | 0 <= i < |codes| ensures CodeOk(codes, now, i) {
      assert CodeOk(codes, clock, i);
    }
    hide CodeOk;
  }

  /** Rows are only added; consumption and revocation are for ever; the families and users of sessions never change. */
  ghost predicate Later(t: Tables, t': Tables) {
    && |t.codes| <= |t'.codes| && |t.sessions| <= |t'.sessions|
    && (forall i :: 0 <= i < |t.codes| ==> CodeLater(t.codes[i], t'.codes[i]))
    && (forall i :: 0 <= i < |t.sessions| ==> SessionLater(t.sessions[i], t'.sessions[i]))
    && (forall i :: |t.sessions| <= i < |t'.sessions| ==> NewcomerOk(t, t'.sessions[i]))
  }

  predicate CodeLater(c: Code, c': Code) {
    && (c.destination, c.secret, c.createdAt, c.expiresAt) == (c'.destination, c'.secret, c'.createdAt, c'.expiresAt)
    && c.attempts <= c'.attempts && (c.consumedAt.Some? ==> c'.consumedAt == c.consumedAt && c'.attempts == c.attempts)
  }

  predicate SessionLater(s: Session, s': Session) {
    && (s.user, s.token, s.family, s.expiresAt) == (s'.user, s'.token, s'.family, s'.expiresAt)
    && (s.revoked.Some? ==> s'.revoked.Some?)
  }

  /** A family gets a new session only from a live one: a dead family gets none. */
  ghost predicate NewcomerOk(t: Tables, s: Session) {
    FamilyDead(t, s.family) ==> !FamilyKnown(t, s.family)
  }

  predicate FamilyKnown(t: Tables, family: FamilyId) {
    exists i :: 0 <= i < |t.sessions| && t.sessions[i].family == family
  }

  predicate FamilyDead(t: Tables, family: FamilyId) {
    forall i :: 0 <= i < |t.sessions| && t.sessions[i].family == family ==> t.sessions[i].revoked.Some?
  }

  lemma StepIsLater(t: Tables, call: Call, now: Instant)
    requires call.VerifyCall? || call.RefreshCall? ==> Unseen(t, call.made)
    ensures Later(t, Run(t, call, now).next)
  {
    match call
    case RequestCall(_, _) =>
    case VerifyCall(_, _, made) =>
      assert !FamilyKnown(t, made.family);
      hide FamilyKnown;
      hide FamilyDead;
    case RefreshCall(token, made) =>
      var k := FindToken(t.sessions, token);
      if k.Some? && t.sessions[k.value].revoked.None? {
        assert !FamilyDead(t, t.sessions[k.value].family);
      }
      hide FamilyKnown;
      hide FamilyDead;
    case _ =>
  }

  lemma LoginsKept(s: System, call: Call, now: Instant, s': System)
    requires Inv(s) && Next(s, call, now, s')
    ensures LoginsOk(s')
  {
    StepIsLater(s.tables, call, now);
    var t := s.tables;
    assert forall x | x in s.logins :: CodeLater(t.codes[s.logins[x]], s'.tables.codes[s.logins[x]]);
    hide Unseen;
    hide CodesOk;
    hide SessionsOk;
    hide NewcomerOk;
    hide RequestCode;
    hide Refresh;
    hide Logout;
    hide LogoutAll;
    hide RevokeSessionById;
  }

  lemma StepKeeps(s: System, call: Call, now: Instant, s': System)
    requires Inv(s) && Next(s, call, now, s')
    ensures Inv(s') && Later(s.tables, s'.tables)
  {
    TablesKept(s, call, now, s');
    LoginsKept(s, call, now, s');
    StepIsLater(s.tables, call, now);
    hide CodesOk;
    hide SessionsOk;
    hide LoginsOk;
    hide Later;
    hide Run;
  }

  // ---------------------------------------------------------------- whole runs

  lemma StepOf(run: seq<System>, calls: seq<Moment>, n: nat)
    requires IsRun(run, calls) && n < |calls|
    ensures |run| == |calls| + 1 && Next(run[n], calls[n].call, calls[n].now, run[n + 1])
  {
    hide Next;
  }

  lemma Start(run: seq<System>, calls: seq<Moment>)
    requires IsRun(run, calls)
    ensures |run| == |calls| + 1 && Inv(run[0]) && |run[0].tables.codes| == 0
    ensures forall code :: Mismatches(run, calls, 0, code) == 0
  {
    hide Next;
  }

  lemma {:induction false} RunKeeps(run: seq<System>, calls: seq<Moment>, n: nat)
    requires IsRun(run, calls) && n < |run|
    ensures Inv(run[n])
  {
    hide *;
    Start(run, calls);
    if n > 0 {
      RunKeeps(run, calls, n - 1);
      StepOf(run, calls, n - 1);
      StepKeeps(run[n - 1], calls[n - 1].call, calls[n - 1].now, run[n]);
    }
  }

  /** How many codes of a destination were created within a span. */
  function CountWithin(codes: seq<Code>, destination: string, from: Instant, to: Instant): nat {
    if codes == [] then 0
    else
      var c := codes[|codes| - 1];
      CountWithin(codes[..|codes| - 1], destination, from, to) +
      (if c.destination == destination && from <= c.createdAt <= to then 1 else 0)
  }

  lemma {:induction false} WithinIsSince(codes: seq<Code>, destination: string, from: Instant, to: Instant, since: Instant)
    requires since <= from
    ensures CountWithin(codes, destination, from, to) <= CountSince(codes, destination, since)
  {
    if codes != [] {
      WithinIsSince(codes[..|codes| - 1], destination, from, to, since);
    }
  }

  /** Any fifteen-minute window holds at most five: the last code in it counted all the others when it was created. */
  lemma {:induction false} WindowHoldsFive(codes: seq<Code>, clock: Instant, n: nat, destination: string, from: Instant, to: Instant)
    requires CodesOk(codes, clock) && n <= |codes| && to <= from + OTP_WINDOW_MS
    ensures CountWithin(codes[..n], destination, from, to) <= OTP_REQUESTS_PER_WINDOW
  {
    if n > 0 {
      WindowHoldsFive(codes, clock, n - 1, destination, from, to);
      var c := codes[n - 1];
      assert codes[..n][..n - 1] == codes[..n - 1];
      assert CodeOk(codes, clock, n - 1);
      if c.destination == destination && from <= c.createdAt <= to {
        WithinIsSince(codes[..n - 1], destination, from, to, c.createdAt - OTP_WINDOW_MS);
      }
    }
  }

  /** In every run, any window of fifteen minutes holds at most five codes of a destination. */
  lemma AtMostFivePerWindow(run: seq<System>, calls: seq<Moment>, n: nat, destination: string, from: Instant)
    requires IsRun(run, calls) && n < |run|
    ensures CountWithin(run[n].tables.codes, destination, from, from + 900_000) <= 5
  {
    RunKeeps(run, calls, n);
    var codes := run[n].tables.codes;
    hide IsRun;
    WindowHoldsFive(codes, run[n].clock, |codes|, destination, from, from + OTP_WINDOW_MS);
    assert codes[..|codes|] == codes;
  }

  /** In every run, at most one code of a destination is unconsumed. */
  lemma OneUsableCode(run: seq<System>, calls: seq<Moment>, n: nat, destination: string, i: nat, j: nat)
    requires IsRun(run, calls) && n < |run| && i < |run[n].tables.codes| && j < |run[n].tables.codes|
    requires Usable(run[n].tables.codes[i], destination) && Usable(run[n].tables.codes[j], destination)
    ensures i == j
  {
    RunKeeps(run, calls, n);
    hide IsRun;
    if i != j {
      var low, high := if i < j then i else j, if i < j then j else i;
      var ordered := InOrder(run[n].tables.codes, low, high);
    }
  }

  /** The calls among the first `n` that offered a wrong secret to a code and were counted against it. */
  ghost function Mismatches(run: seq<System>, calls: seq<Moment>, n: nat, code: nat): nat
    requires |run| == |calls| + 1 && n <= |calls|
  {
    if n == 0 then 0
    else
      var t, m := run[n - 1].tables, calls[n - 1];
      Mismatches(run, calls, n - 1, code) +
      (if m.call.VerifyCall? && IsMismatch(t, m.call.destination, m.call.secret, m.now, code) then 1 else 0)
  }

  predicate IsMismatch(t: Tables, destination: string, secret: string, now: Instant, code: nat) {
    && NewestUsable(t.codes, destination, |t.codes|) == Some(code)
    && t.codes[code].expiresAt >= now && t.codes[code].attempts < OTP_MAX_ATTEMPTS && t.codes[code].secret != secret
  }

  lemma AttemptsStep(s: System, call: Call, now: Instant, s': System, code: nat)
    requires Next(s, call, now, s') && code < |s'.tables.codes|
    ensures code >= |s.tables.codes| ==> s'.tables.codes[code].attempts == 0
    ensures code < |s.tables.codes| ==>
              s'.tables.codes[code].attempts == s.tables.codes[code].attempts +
                (if call.VerifyCall? && IsMismatch(s.tables, call.destination, call.secret, now, code) then 1 else 0)
  {
    hide CountSince;
    hide Unseen;
  }

  /** One more call of a run, for one code. */
  lemma MismatchStep(run: seq<System>, calls: seq<Moment>, n: nat, code: nat)
    requires IsRun(run, calls) && n < |calls|
    ensures |run| == |calls| + 1
    ensures |run[n].tables.codes| <= |run[n + 1].tables.codes|
    ensures code < |run[n].tables.codes| ==>
              run[n + 1].tables.codes[code].attempts - run[n].tables.codes[code].attempts ==
              Mismatches(run, calls, n + 1, code) - Mismatches(run, calls, n, code)
    ensures code >= |run[n].tables.codes| ==> Mismatches(run, calls, n + 1, code) == Mismatches(run, calls, n, code)
    ensures |run[n].tables.codes| <= code < |run[n + 1].tables.codes| ==> run[n + 1].tables.codes[code].attempts == 0
  {
    StepOf(run, calls, n);
    StepIsLater(run[n].tables, calls[n].call, calls[n].now);
    if code < |run[n + 1].tables.codes| {
      AttemptsStep(run[n], calls[n].call, calls[n].now, run[n + 1], code);
    }
    hide IsRun;
    hide Run;
    hide Unseen;
  }

  lemma {:induction false} NoMismatchYet(run: seq<System>, calls: seq<Moment>, n: nat, code: nat)
    requires IsRun(run, calls) && n <= |calls| && |run| == |calls| + 1 && code >= |run[n].tables.codes|
    ensures Mismatches(run, calls, n, code) == 0
  {
    hide *;
    Start(run, calls);
    if n > 0 {
      MismatchStep(run, calls, n - 1, code);
      NoMismatchYet(run, calls, n - 1, code);
    }
  }

  lemma {:induction false} AttemptsAreMismatches(run: seq<System>, calls: seq<Moment>, n: nat, code: nat)
    requires IsRun(run, calls) && n <= |calls| && |run| == |calls| + 1 && code < |run[n].tables.codes|
    ensures run[n].tables.codes[code].attempts == Mismatches(run, calls, n, code)
  {
    hide *;
    Start(run, calls);
    if n > 0 {
      MismatchStep(run, calls, n - 1, code);
      if code < |run[n - 1].tables.codes| {
        AttemptsAreMismatches(run, calls, n - 1, code);
      } else {
        NoMismatchYet(run, calls, n - 1, code);
      }
    }
  }

  /** The attempts of a code are the wrong secrets offered to it, and each code absorbs at most five. */
  lemma MismatchesAreCounted(run: seq<System>, calls: seq<Moment>, n: nat, code: nat)
    requires IsRun(run, calls) && n <= |calls| && |run| == |calls| + 1 && code < |run[n].tables.codes|
    ensures run[n].tables.codes[code].attempts == Mismatches(run, calls, n, code) <= 5
  {
    RunKeeps(run, calls, n);
    assert CodeOk(run[n].tables.codes, run[n].clock, code);
    hide *;
    AttemptsAreMismatches(run, calls, n, code);
  }

  /** In every run, two sessions were never opened by the same code. */
  lemma OneSessionPerCode(run: seq<System>, calls: seq<Moment>, n: nat, x: SessionId, y: SessionId)
    requires IsRun(run, calls) && n < |run| && x in run[n].logins && y in run[n].logins
    requires run[n].logins[x] == run[n].logins[y]
    ensures x == y
  {
    RunKeeps(run, calls, n);
  }

  /** In every run, a family has at most one session that is not revoked, and one user. */
  lemma OneLiveSessionPerFamily(run: seq<System>, calls: seq<Moment>, n: nat, i: SessionId, j: SessionId)
    requires IsRun(run, calls) && n < |run|
    requires i < j < |run[n].tables.sessions| && run[n].tables.sessions[i].family == run[n].tables.sessions[j].family
    ensures run[n].tables.sessions[i].revoked.Some? && run[n].tables.sessions[i].user == run[n].tables.sessions[j].user
  {
    RunKeeps(run, calls, n);
    hide IsRun;
    Agreed(run[n].tables.sessions, i, j);
  }

  lemma DeadStep(t: Tables, t': Tables, family: FamilyId)
    requires Later(t, t') && FamilyKnown(t, family) && FamilyDead(t, family)
    ensures FamilyKnown(t', family) && FamilyDead(t', family)
  {
    var k :| 0 <= k < |t.sessions| && t.sessions[k].family == family;
    assert SessionLater(t.sessions[k], t'.sessions[k]);
    forall i | 0 <= i < |t'.sessions| && t'.sessions[i].family == family
      ensures t'.sessions[i].revoked.Some?
    {
      if i < |t.sessions| {
        assert SessionLater(t.sessions[i], t'.sessions[i]);
      } else {
        var newcomer := NewcomerOk(t, t'.sessions[i]);
      }
    }
  }

  lemma {:induction false} DeadStaysDead(run: seq<System>, calls: seq<Moment>, m: nat, n: nat, family: FamilyId)
    requires IsRun(run, calls) && m <= n < |run|
    requires FamilyKnown(run[m].tables, family) && FamilyDead(run[m].tables, family)
    ensures FamilyKnown(run[n].tables, family) && FamilyDead(run[n].tables, family)
    decreases n
  {
    hide *;
    if m < n {
      Start(run, calls);
      DeadStaysDead(run, calls, m, n - 1, family);
      RunKeeps(run, calls, n - 1);
      StepOf(run, calls, n - 1);
      StepKeeps(run[n - 1], calls[n - 1].call, calls[n - 1].now, run[n]);
      DeadStep(run[n - 1].tables, run[n].tables, family);
    }
  }

  /**
   * Once a revoked token is presented, its family has no live session in any later state: members are only added by
   * refreshing a live one.
   */
  lemma ReuseEndsTheFamily(run: seq<System>, calls: seq<Moment>, m: nat, n: nat, i: SessionId)
    requires IsRun(run, calls) && m < n < |run| && calls[m].call.RefreshCall? && i < |run[m].tables.sessions|
    requires run[m].tables.sessions[i].revoked.Some? && run[m].tables.sessions[i].token == calls[m].call.token
    ensures Run(run[m].tables, calls[m].call, calls[m].now).reply == Failed(RefreshReused)
    ensures FamilyDead(run[n].tables, run[m].tables.sessions[i].family)
  {
    var t, token, family := run[m].tables, calls[m].call.token, run[m].tables.sessions[i].family;
    RunKeeps(run, calls, m);
    StepOf(run, calls, m);
    TokenIsFound(t.sessions, i);
    assert FindToken(t.sessions, token) == Some(i);
    assert run[m + 1].tables.sessions == RevokeFamily(t.sessions, family);
    assert run[m + 1].tables.sessions[i].family == family;
    hide IsRun;
    hide Next;
    DeadStaysDead(run, calls, m + 1, n, family);
  }

  lemma TokenIsFound(sessions: seq<Session>, i: SessionId)
    requires SessionsOk(sessions) && i < |sessions|
    ensures FindToken(sessions, sessions[i].token) == Some(i)
  {
    var k := FindToken(sessions, sessions[i].token).value;
    if k != i {
      var agree := SessionsAgree(sessions, if i < k then i else k, if i < k then k else i);
    }
  }
}
