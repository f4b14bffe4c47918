/**
 * Sign-in by one-time code and sessions with rotating refresh tokens. Rows are only ever added, so a row is identified
 * by its position; hashes stand for the secrets they were made from.
 */
module Identity {
  import opened Common

  /** Milliseconds. */
  type Instant = int
  type UserId = nat
  type FamilyId = nat
  type Token = nat
  type SessionId = nat

  const MINUTE_MS := 60_000
  const OTP_TTL_MS := 10 * MINUTE_MS
  const OTP_MAX_ATTEMPTS := 5
  const OTP_REQUESTS_PER_WINDOW := 5
  const OTP_WINDOW_MS := 15 * MINUTE_MS

  datatype Code = Code(
    destination: string,
    secret: string,
    attempts: nat,
    createdAt: Instant,
    expiresAt: Instant,
    consumedAt: Option<Instant>)

  datatype RevokedReason = ReuseDetected | Rotated | UserLogout | LogoutOfAll | IndividualRevocation

  datatype Session = Session(
    user: UserId,
    token: Token,
    family: FamilyId,
    expiresAt: Instant,
    revoked: Option<RevokedReason>)

  datatype Tables = Tables(codes: seq<Code>, sessions: seq<Session>, users: map<string, UserId>)

  datatype ErrorCode =
    | TooManyRequests
    | CodeInvalid
    | RefreshInvalid
    | RefreshReused
    | RefreshExpired
    | SessionNotFound

  datatype Reply = Done | Issued(session: SessionId) | Failed(error: ErrorCode)

  datatype Effect = Effect(reply: Reply, next: Tables)

  // ---------------------------------------------------------------- one-time codes

  /** How many codes of a destination were created since an instant. */
  function CountSince(codes: seq<Code>, destination: string, since: Instant): nat {
    if codes == [] then 0
    else
      var c := codes[|codes| - 1];
      CountSince(codes[..|codes| - 1], destination, since) +
      (if c.destination == destination && c.createdAt >= since then 1 else 0)
  }

  predicate Usable(c: Code, destination: string) {
    c.destination == destination && c.consumedAt.None?
  }

  function Consume(c: Code, destination: string, now: Instant): Code {
    if Usable(c, destination) then c.(consumedAt := Some(now)) else c
  }

  function ConsumeAll(codes: seq<Code>, destination: string, now: Instant): (r: seq<Code>)
    ensures |r| == |codes|
    ensures forall i :: 0 <= i < |r| ==> r[i] == Consume(codes[i], destination, now)
  {
    seq(|codes|, i requires 0 <= i < |codes| => Consume(codes[i], destination, now))
  }

  function NewCode(destination: string, secret: string, now: Instant): Code {
    Code(destination, secret, 0, now, now + OTP_TTL_MS, None)
  }

  function RequestCode(t: Tables, destination: string, secret: string, now: Instant): Effect {
    if CountSince(t.codes, destination, now - OTP_WINDOW_MS) >= OTP_REQUESTS_PER_WINDOW then
      Effect(Failed(TooManyRequests), t)
    else
      Effect(Done, t.(codes := ConsumeAll(t.codes, destination, now) + [NewCode(destination, secret, now)]))
  }

  /** The unconsumed code of a destination created last. */
  function NewestUsable(codes: seq<Code>, destination: string, n: nat): (k: Option<nat>)
    requires n <= |codes|
    ensures k.Some? ==> k.value < n && Usable(codes[k.value], destination)
    ensures k.None? ==> forall i :: 0 <= i < n ==> !Usable(codes[i], destination)
    ensures k.Some? ==> forall i :: 0 <= i < n && Usable(codes[i], destination) ==> codes[i].createdAt <= codes[k.value].createdAt
  {
    if n == 0 then None
    else
      var before := NewestUsable(codes, destination, n - 1);
      if !Usable(codes[n - 1], destination) then before
      else if before.Some? && codes[before.value].createdAt > codes[n - 1].createdAt then before
      else Some(n - 1)
  }

  function UserOf(t: Tables, destination: string, made: UserId): UserId {
    if destination in t.users then t.users[destination] else made
  }

  /** What is made new during a successful call. */
  datatype Made = Made(user: UserId, token: Token, family: FamilyId, expiresAt: Instant)

  function VerifyCode(t: Tables, destination: string, secret: string, now: Instant, made: Made): Effect {
    var k := NewestUsable(t.codes, destination, |t.codes|);
    if k.None? || t.codes[k.value].expiresAt < now then Effect(Failed(CodeInvalid), t)
    else
      var i, c := k.value, t.codes[k.value];
      if c.attempts >= OTP_MAX_ATTEMPTS then
        Effect(Failed(TooManyRequests), t.(codes := t.codes[i := c.(consumedAt := Some(now))]))
      else if c.secret != secret then
        Effect(Failed(CodeInvalid), t.(codes := t.codes[i := c.(attempts := c.attempts + 1)]))
      else
        var user := UserOf(t, destination, made.user);
        Effect(Issued(|t.sessions|),
               Tables(t.codes[i := c.(consumedAt := Some(now))],
                      t.sessions + [Session(user, made.token, made.family, made.expiresAt, None)],
                      t.users[destination := user]))
  }

  // ---------------------------------------------------------------- sessions

  function FindToken(sessions: seq<Session>, token: Token): (k: Option<SessionId>)
    ensures k.Some? ==> k.value < |sessions| && sessions[k.value].token == token
    ensures k.None? ==> forall i :: 0 <= i < |sessions| ==> sessions[i].token != token
  {
    if sessions == [] then None
    else if sessions[|sessions| - 1].token == token then Some(|sessions| - 1)
    else FindToken(sessions[..|sessions| - 1], token)
  }

  function Revoke(s: Session, chosen: bool, reason: RevokedReason): Session {
    if chosen && s.revoked.None? then s.(revoked := Some(reason)) else s
  }

  function RevokeFamily(sessions: seq<Session>, family: FamilyId): (r: seq<Session>)
    ensures |r| == |sessions|
    ensures forall i :: 0 <= i < |r| ==> r[i] == Revoke(sessions[i], sessions[i].family == family, ReuseDetected)
  {
    seq(|sessions|, i requires 0 <= i < |sessions| => Revoke(sessions[i], sessions[i].family == family, ReuseDetected))
  }

  function RevokeUser(sessions: seq<Session>, user: UserId): (r: seq<Session>)
    ensures |r| == |sessions|
    ensures forall i :: 0 <= i < |r| ==> r[i] == Revoke(sessions[i], sessions[i].user == user, LogoutOfAll)
  {
    seq(|sessions|, i requires 0 <= i < |sessions| => Revoke(sessions[i], sessions[i].user == user, LogoutOfAll))
  }

  function Refresh(t: Tables, token: Token, now: Instant, made: Made): Effect {
    var k := FindToken(t.sessions, token);
    if k.None? then Effect(Failed(RefreshInvalid), t)
    else
      var i, s := k.value, t.sessions[k.value];
      if s.revoked.Some? then
        Effect(Failed(RefreshReused), t.(sessions := RevokeFamily(t.sessions, s.family)))
      else if s.expiresAt < now then Effect(Failed(RefreshExpired), t)
      else
        Effect(Issued(|t.sessions|),
               t.(sessions := t.sessions[i := s.(revoked := Some(Rotated))] +
                              [Session(s.user, made.token, s.family, made.expiresAt, None)]))
  }

  function Logout(t: Tables, session: SessionId, user: UserId): Effect {
    if session < |t.sessions| && t.sessions[session].user == user then
      Effect(Done, t.(sessions := t.sessions[session := Revoke(t.sessions[session], true, UserLogout)]))
    else Effect(Done, t)
  }

  function LogoutAll(t: Tables, user: UserId): Effect {
    Effect(Done, t.(sessions := RevokeUser(t.sessions, user)))
  }

  /** The update is not limited to sessions that are still alive: it overwrites the reason of a revoked one. */
  function RevokeSessionById(t: Tables, session: SessionId, user: UserId): Effect {
    if session < |t.sessions| && t.sessions[session].user == user then
      Effect(Done, t.(sessions := t.sessions[session := t.sessions[session].(revoked := Some(IndividualRevocation))]))
    else Effect(Failed(SessionNotFound), t)
  }

  // ---------------------------------------------------------------- the service

  class IdentityService {
    var codes: seq<Code>
    var sessions: seq<Session>
    var users: map<string, UserId>

    constructor ()
      ensures Model() == Tables([], [], map[])
    {
      codes, sessions, users := [], [], map[];
    }

    function Model(): Tables
      reads this
    {
      Tables(codes, sessions, users)
    }

    method Request(destination: string, secret: string, now: Instant) returns (reply: Reply)
      modifies this`codes
      ensures Effect(reply, Model()) == RequestCode(old(Model()), destination, secret, now)
    {
      var recent := CountSince(codes, destination, now - OTP_WINDOW_MS);
      if recent >= OTP_REQUESTS_PER_WINDOW {
        return Failed(TooManyRequests);
      }
      codes := ConsumeAll(codes, destination, now);
      codes := codes + [Code(destination, secret, 0, now, now + OTP_TTL_MS, None)];
      return Done;
    }

    method Verify(destination: string, secret: string, now: Instant, made: Made) returns (reply: Reply)
      modifies this
      ensures Effect(reply, Model()) == VerifyCode(old(Model()), destination, secret, now, made)
    {
      var k := NewestUsable(codes, destination, |codes|);
      if k.None? || codes[k.value].expiresAt < now {
        return Failed(CodeInvalid);
      }
      var c := codes[k.value];
      if c.attempts >= OTP_MAX_ATTEMPTS {
        codes := codes[k.value := c.(consumedAt := Some(now))];
        return Failed(TooManyRequests);
      }
      if c.secret != secret {
        codes := codes[k.value := c.(attempts := c.attempts + 1)];
        return Failed(CodeInvalid);
      }
      codes := codes[k.value := c.(consumedAt := Some(now))];
      if destination !in users {
        users := users[destination := made.user];
      }
      var session := OpenSession(users[destination], made.token, made.family, made.expiresAt);
      assert users == old(users)[destination := UserOf(old(Model()), destination, made.user)];
      return Issued(session);
    }

    /** openSession: in the family given, which is a new one unless a token is being rotated. */
    method OpenSession(user: UserId, token: Token, family: FamilyId, expiresAt: Instant) returns (session: SessionId)
      modifies this`sessions
      ensures session == |old(sessions)|
      ensures sessions == old(sessions) + [Session(user, token, family, expiresAt, None)]
    {
      session := |sessions|;
      sessions := sessions + [Session(user, token, family, expiresAt, None)];
    }

    method RefreshSession(token: Token, now: Instant, made: Made) returns (reply: Reply)
      modifies this`sessions
      ensures Effect(reply, Model()) == Refresh(old(Model()), token, now, made)
    {
      var k := FindToken(sessions, token);
      if k.None? {
        return Failed(RefreshInvalid);
      }
      var s := sessions[k.value];
      if s.revoked.Some? {
        sessions := RevokeFamily(sessions, s.family);
        return Failed(RefreshReused);
      }
      if s.expiresAt < now {
        return Failed(RefreshExpired);
      }
      sessions := sessions[k.value := s.(revoked := Some(Rotated))];
      var session := OpenSession(s.user, made.token, s.family, made.expiresAt);
      return Issued(session);
    }

    method LogoutSession(session: SessionId, user: UserId) returns (reply: Reply)
      modifies this`sessions
      ensures Effect(reply, Model()) == Logout(old(Model()), session, user)
    {
      if session < |sessions| && sessions[session].user == user && sessions[session].revoked.None? {
        sessions := sessions[session := sessions[session].(revoked := Some(UserLogout))];
      }
      return Done;
    }

    method LogoutEverywhere(user: UserId) returns (reply: Reply)
      modifies this`sessions
      ensures Effect(reply, Model()) == LogoutAll(old(Model()), user)
    {
      sessions := RevokeUser(sessions, user);
      return Done;
    }

    method RevokeById(session: SessionId, user: UserId) returns (reply: Reply)
      modifies this`sessions
      ensures Effect(reply, Model()) == RevokeSessionById(old(Model()), session, user)
    {
      if session >= |sessions| || sessions[session].user != user {
        return Failed(SessionNotFound);
      }
      sessions := sessions[session := sessions[session].(revoked := Some(IndividualRevocation))];
      return Done;
    }
  }
}
