/** Staff authentication: the account lock, opaque sessions with an absolute and an
    idle limit, and the command-line steps that disable, enable and reset. Times are
    in microseconds; whether a password matches is an input. */
module StaffAuth {
  import opened Tables

  /** The configured limits. */
  datatype Policy = Policy(maxFailures: int, lockout: int, lifetime: int, idle: int, throttle: int) {
    predicate Sane() { maxFailures >= 1 && lockout > 0 && 0 <= throttle <= idle }
  }

  /** `placed` stands for a role that exists and, if operational, a store. */
  datatype User = User(failed: int, lockedUntil: Option<int>, active: bool, placed: bool) {
    predicate Locked(now: int) { lockedUntil.Some? && lockedUntil.value > now }
  }

  datatype Session = Session(user: nat, expiresAt: int, lastSeen: int, revokedAt: Option<int>)

  datatype State = State(users: seq<User>, sessions: seq<Session>)

  datatype Step =
    | Login(user: nat, correct: bool)
    | Open(user: nat)
    | Resolve(session: nat)
    | Logout(session: nat)
    | RevokeAll(user: nat)
    | Disable(user: nat)
    | Enable(user: nat)
    | ResetPassword(user: nat)
    | Place(user: nat, placed: bool)

  datatype Event = Event(step: Step, at: int)

  // ── Login ──────────────────────────────────────────────────────────────────

  datatype Verdict = AccountLocked | InvalidCredentials | LoggedIn

  function Judge(u: User, correct: bool, now: int): Verdict {
    if u.Locked(now) then AccountLocked
    else if correct && u.active && u.placed then LoggedIn
    else InvalidCredentials
  }

  /** _register_failed_attempt: the counter is never cleared when a lock lapses. */
  function Failed(p: Policy, u: User, now: int): User {
    u.(failed := u.failed + 1, lockedUntil := if u.failed + 1 >= p.maxFailures then Some(now + p.lockout)
       else u.lockedUntil)
  }

  /** A wrong password that was really compared. */
  predicate Compared(u: User, correct: bool, now: int) { !u.Locked(now) && !correct }

  function AfterLogin(p: Policy, u: User, correct: bool, now: int): User {
    if u.Locked(now) then u
    else if !correct then Failed(p, u, now)
    else if u.active && u.placed then u.(failed := 0, lockedUntil := None)
    else u
  }

  // ── Sessions ───────────────────────────────────────────────────────────────

  function NewSession(p: Policy, user: nat, now: int): Session { Session(user, now + p.lifetime, now, None) }

  /** Revoked, expired or idle: nothing about the user can bring it back. */
  predicate Dead(p: Policy, s: Session, now: int) {
    s.revokedAt.Some? || s.expiresAt <= now || s.lastSeen + p.idle <= now
  }

  predicate Usable(users: seq<User>, user: nat) { user < |users| && users[user].active && users[user].placed }

  predicate Resolves(p: Policy, s: State, id: nat, now: int) {
    id < |s.sessions| && !Dead(p, s.sessions[id], now) && Usable(s.users, s.sessions[id].user)
  }

  /** The row after a resolve: idle ones are revoked, live ones seen, throttled. */
  function Resolved(p: Policy, users: seq<User>, x: Session, now: int): Session {
    if x.revokedAt.Some? || x.expiresAt <= now then x
    else if x.lastSeen + p.idle <= now then x.(revokedAt := Some(now))
    else if Usable(users, x.user) && now - x.lastSeen >= p.throttle then x.(lastSeen := now)
    else x
  }

  function Revoked(x: Session, now: int): Session { if x.revokedAt.None? then x.(revokedAt := Some(now)) else x }

  function RevokedFor(sessions: seq<Session>, user: nat, now: int): (r: seq<Session>)
    ensures |r| == |sessions|
    ensures forall k :: 0 <= k < |r| ==> r[k] == if sessions[k].user == user then Revoked(sessions[k], now)
              else sessions[k]
  {
    seq(|sessions|, k requires 0 <= k < |sessions| => if sessions[k].user == user then Revoked(sessions[k], now)
        else sessions[k])
  }

  // ── Steps ──────────────────────────────────────────────────────────────────

  function Exec(p: Policy, s: State, e: Event): State {
    match e.step
    case Login(u, correct) =>
      if u >= |s.users| then s else s.(users := s.users[u := AfterLogin(p, s.users[u], correct, e.at)])
    case Open(u) => if u >= |s.users| then s else s.(sessions := s.sessions + [NewSession(p, u, e.at)])
    case Resolve(id) =>
      if id >= |s.sessions| then s else s.(sessions := s.sessions[id := Resolved(p, s.users, s.sessions[id], e.at)])
    case Logout(id) => if id >= |s.sessions| then s else s.(sessions := s.sessions[id := Revoked(s.sessions[id], e.at)])
    case RevokeAll(u) => if u >= |s.users| then s else s.(sessions := RevokedFor(s.sessions, u, e.at))
    case Disable(u) =>
      if u >= |s.users| then s
      else State(s.users[u := s.users[u].(active := false)], RevokedFor(s.sessions, u, e.at))
    case Enable(u) =>
      if u >= |s.users| then s
      else s.(users := s.users[u := s.users[u].(active := true, failed := 0, lockedUntil := None)])
    case ResetPassword(u) =>
      if u >= |s.users| then s
      else State(s.users[u := s.users[u].(failed := 0, lockedUntil := None)], RevokedFor(s.sessions, u, e.at))
    case Place(u, placed) => if u >= |s.users| then s else s.(users := s.users[u := s.users[u].(placed := placed)])
  }

  function Run(p: Policy, s: State, events: seq<Event>): State {
    if |events| == 0 then s else Exec(p, Run(p, s, events[..|events| - 1]), events[|events| - 1])
  }

  function Clock(start: int, events: seq<Event>): int { if |events| == 0 then start else events[|events| - 1].at }

  /** Time never goes back. */
  ghost predicate Timely(start: int, events: seq<Event>) {
    forall i :: 0 <= i < |events| ==> Clock(start, events[..i]) <= events[i].at
  }

  lemma TimelyPrefix(start: int, events: seq<Event>, n: nat)
    requires Timely(start, events) && n <= |events|
    ensures Timely(start, events[..n])
    ensures start <= Clock(start, events[..n])
    decreases n
  {
    forall i | 0 <= i < n ensures Clock(start, events[..n][..i]) <= events[..n][i].at {
      assert events[..n][..i] == events[..i];
    }
    if n > 0 {
      TimelyPrefix(start, events, n - 1);
      assert Clock(start, events[..n - 1]) <= events[n - 1].at;
    }
  }

  // ── The lockout rate ───────────────────────────────────────────────────────

  /** Steps that clear an account's counter. */
  predicate Clears(s: State, user: nat, e: Event) {
    match e.step
    case Login(u, correct) => u == user && user < |s.users| && Judge(s.users[user], correct, e.at).LoggedIn?
    case Enable(u) => u == user
    case ResetPassword(u) => u == user
    case _ => false
  }

  ghost predicate NeverCleared(p: Policy, s: State, user: nat, events: seq<Event>) {
    forall i :: 0 <= i < |events| ==> !Clears(Run(p, s, events[..i]), user, events[i])
  }

  predicate ComparesWrong(s: State, user: nat, e: Event) {
    e.step.Login? && e.step.user == user && user < |s.users| && Compared(s.users[user], e.step.correct, e.at)
  }

  /** How many wrong passwords of the account a run really compared. */
  function WrongCompared(p: Policy, s: State, user: nat, events: seq<Event>): nat {
    if |events| == 0 then 0
    else
      var n := |events| - 1;
      WrongCompared(p, s, user, events[..n]) + if ComparesWrong(Run(p, s, events[..n]), user, events[n]) then 1 else 0
  }

  function Grace(p: Policy, failed: int): int { if p.maxFailures - failed > 1 then p.maxFailures - failed else 1 }

  /** Where n comparisons leave the account: the counter has them all, and once it
      locks, every further comparison pushed the lock one whole period on. */
  ghost predicate Paced(p: Policy, before: User, after: User, n: nat, start: int, now: int) {
    match p
    case Policy(_, lockout, _, _, _) =>
      && after.failed == before.failed + n
      && (n >= Grace(p, before.failed) ==>
            && after.lockedUntil.Some? && after.lockedUntil.value <= now + lockout
            && after.lockedUntil.value >= start + (n - Grace(p, before.failed) + 1) * lockout)
  }

  lemma Distribute(k: int, lockout: int)
    ensures (k + 1) * lockout == k * lockout + lockout
  {}

  lemma PacedStep(p: Policy, before: User, u: User, n: nat, start: int, now: int, at: int)
    requires p.Sane() && before.failed >= 0 && Paced(p, before, u, n, start, now) && start <= now <= at && !u.Locked(at)
    ensures Paced(p, before, Failed(p, u, at), n + 1, start, at)
  {
    var g := Grace(p, before.failed);
    if n >= g {
      Distribute(n - g + 1, p.lockout);
    }
  }

  lemma LeftAlone(p: Policy, s: State, user: nat, e: Event)
    requires user < |s.users| && !Clears(s, user, e) && !ComparesWrong(s, user, e)
    ensures user < |Exec(p, s, e).users|
    ensures Exec(p, s, e).users[user].failed == s.users[user].failed
    ensures Exec(p, s, e).users[user].lockedUntil == s.users[user].lockedUntil
  {}

  lemma RunStepPaced(p: Policy, before: User, s: State, user: nat, e: Event, n: nat, start: int, now: int)
    requires p.Sane() && before.failed >= 0 && user < |s.users| && Paced(p, before, s.users[user], n, start, now)
    requires start <= now <= e.at && !Clears(s, user, e)
    ensures user < |Exec(p, s, e).users|
    ensures Paced(p, before, Exec(p, s, e).users[user], if ComparesWrong(s, user, e) then n + 1 else n, start, e.at)
  {
    if ComparesWrong(s, user, e) {
      PacedStep(p, before, s.users[user], n, start, now, e.at);
    } else {
      LeftAlone(p, s, user, e);
    }
  }

  lemma NeverClearedPrefix(p: Policy, s: State, user: nat, events: seq<Event>, n: nat)
    requires NeverCleared(p, s, user, events) && n <= |events|
    ensures NeverCleared(p, s, user, events[..n])
  {
    forall i | 0 <= i < n ensures !Clears(Run(p, s, events[..n][..i]), user, events[..n][i]) {
      assert events[..n][..i] == events[..i];
    }
  }

  lemma {:induction false} RunIsPaced(p: Policy, s: State, user: nat, start: int, events: seq<Event>)
    requires p.Sane() && user < |s.users| && s.users[user].failed >= 0
    requires Timely(start, events) && NeverCleared(p, s, user, events)
    ensures user < |Run(p, s, events).users|
    ensures Paced(p, s.users[user], Run(p, s, events).users[user], WrongCompared(p, s, user, events), start,
                  Clock(start, events))
  {
    if |events| > 0 {
      var n := |events| - 1;
      TimelyPrefix(start, events, n);
      NeverClearedPrefix(p, s, user, events, n);
      RunIsPaced(p, s, user, start, events[..n]);
      RunStepPaced(p, s.users[user], Run(p, s, events[..n]), user, events[n], WrongCompared(p, s, user, events[..n]),
                   start, Clock(start, events[..n]));
    }
  }

  lemma Larger(a: int, b: int, d: int)
    requires d > 0
    ensures a <= b ==> a * d <= b * d
  {
    if a <= b { assert (b - a) * d >= 0; }
  }

  lemma Quotient(k: int, d: int, t: int)
    requires d > 0 && k * d <= t
    ensures k <= t / d
  {
    var q := t / d;
    assert t < q * d + d;
    Distribute(q, d);
    Larger(q + 1, k, d);
  }

  lemma PacedBound(p: Policy, before: User, after: User, n: nat, start: int, now: int)
    requires p.Sane() && before.failed >= 0 && Paced(p, before, after, n, start, now) && start <= now
    ensures n <= p.maxFailures + (now - start) / p.lockout
  {
    var g := Grace(p, before.failed);
    if n >= g {
      Distribute(n - g, p.lockout);
      Quotient(n - g, p.lockout, now - start);
    }
  }

  /** The rate bound: in any run without a successful login, enable or reset of the
      account, at most MAX + T / LOCKOUT wrong passwords are compared within time T. */
  lemma {:induction false} LockoutBoundsGuessing(p: Policy, s: State, user: nat, start: int, events: seq<Event>)
    requires p.Sane() && user < |s.users| && s.users[user].failed >= 0
    requires Timely(start, events) && NeverCleared(p, s, user, events)
    ensures Clock(start, events) >= start
    ensures WrongCompared(p, s, user, events) <= p.maxFailures + (Clock(start, events) - start) / p.lockout
  {
    RunIsPaced(p, s, user, start, events);
    TimelyPrefix(start, events, |events|);
    assert events[..|events|] == events;
    PacedBound(p, s.users[user], Run(p, s, events).users[user], WrongCompared(p, s, user, events), start,
               Clock(start, events));
  }

  /** A guesser who tries MAX times at once and then whenever the lock lapses. */
  function Relentless(p: Policy, k: nat): seq<Event> {
    if k == 0 then []
    else
      var at := if k <= p.maxFailures then 0 else (k - p.maxFailures) * p.lockout;
      Relentless(p, k - 1) + [Event(Login(0, false), at)]
  }

  /** The bound is sharp: MAX + k comparisons in exactly k lockout periods. */
  lemma {:induction false} TheBoundIsReached(p: Policy, k: nat)
    requires p.Sane()
    ensures var newcomer := State([User(0, None, true, true)], []);
            && |Relentless(p, k)| == k
            && WrongCompared(p, newcomer, 0, Relentless(p, k)) == k
            && |Run(p, newcomer, Relentless(p, k)).users| == 1
            && Run(p, newcomer, Relentless(p, k)).users[0].failed == k
            && Run(p, newcomer, Relentless(p, k)).users[0].lockedUntil ==
                 (if k < p.maxFailures then None else Some((k - p.maxFailures + 1) * p.lockout))
  {
    if k > 0 {
      TheBoundIsReached(p, k - 1);
      var all := Relentless(p, k);
      assert all[..k - 1] == Relentless(p, k - 1);
      if k > p.maxFailures { Distribute(k - p.maxFailures, p.lockout); }
      if k == p.maxFailures { assert (k - p.maxFailures + 1) * p.lockout == p.lockout; }
    }
  }

  // ── Sessions over runs ─────────────────────────────────────────────────────

  /** What one step can do to a session: nothing, revoke it, or mark it seen — the
      last only while it is alive. */
  lemma SessionStep(p: Policy, s: State, e: Event, id: nat)
    requires id < |s.sessions|
    ensures id < |Exec(p, s, e).sessions|
    ensures var x, y := s.sessions[id], Exec(p, s, e).sessions[id];
            || y == x
            || (x.revokedAt.None? && y == x.(revokedAt := Some(e.at)))
            || (e.step == Resolve(id) && Resolves(p, s, id, e.at) && e.at - x.lastSeen >= p.throttle
                && y == x.(lastSeen := e.at))
  {}

  lemma DeadStaysDead(p: Policy, s: State, e: Event, id: nat, now: int)
    requires id < |s.sessions| && Dead(p, s.sessions[id], now) && now <= e.at
    ensures id < |Exec(p, s, e).sessions| && Dead(p, Exec(p, s, e).sessions[id], e.at)
  {
    SessionStep(p, s, e, id);
  }

  /** Permanence: a session that was revoked, expired or idled out never resolves
      again, whatever happens to its user — disabling and enabling included. */
  lemma {:induction false} DeadForever(p: Policy, s: State, id: nat, start: int, events: seq<Event>)
    requires id < |s.sessions| && Dead(p, s.sessions[id], start) && Timely(start, events)
    ensures id < |Run(p, s, events).sessions| && Dead(p, Run(p, s, events).sessions[id], Clock(start, events))
    ensures forall later :: later >= Clock(start, events) ==> !Resolves(p, Run(p, s, events), id, later)
  {
    if |events| > 0 {
      var n := |events| - 1;
      TimelyPrefix(start, events, n);
      DeadForever(p, s, id, start, events[..n]);
      DeadStaysDead(p, Run(p, s, events[..n]), events[n], id, Clock(start, events[..n]));
    }
  }

  /** Disabling ends every session the user has, for good: enabling later does not
      bring one of them back. */
  lemma {:induction false} DisablingIsFinal(p: Policy, s: State, user: nat, at: int, id: nat, events: seq<Event>,
                                            later: int)
    requires user < |s.users| && id < |s.sessions| && s.sessions[id].user == user && Timely(at, events)
    requires later >= Clock(at, events)
    ensures !Resolves(p, Run(p, Exec(p, s, Event(Disable(user), at)), events), id, later)
  {
    DeadForever(p, Exec(p, s, Event(Disable(user), at)), id, at, events);
  }

  /** No session outlives its absolute lifetime, however busy. */
  lemma {:induction false} NobodyOutlivesTheLimit(p: Policy, s: State, id: nat, events: seq<Event>, later: int)
    requires id < |s.sessions| && later >= s.sessions[id].expiresAt
    ensures id < |Run(p, s, events).sessions| && Run(p, s, events).sessions[id].expiresAt == s.sessions[id].expiresAt
    ensures !Resolves(p, Run(p, s, events), id, later)
  {
    if |events| > 0 {
      NobodyOutlivesTheLimit(p, s, id, events[..|events| - 1], later);
      SessionStep(p, Run(p, s, events[..|events| - 1]), events[|events| - 1], id);
    }
  }

  /** A new session belongs to its user, counts as seen, and ends one lifetime after it
      was opened; nothing else changes. */
  lemma OpeningStartsTheClock(p: Policy, s: State, user: nat, at: int)
    requires user < |s.users|
    ensures Exec(p, s, Event(Open(user), at)) ==
              s.(sessions := s.sessions + [Session(user, at + p.lifetime, at, None)])
  {}

  /** A session never changes hands. */
  lemma {:induction false} OwnersStay(p: Policy, s: State, id: nat, events: seq<Event>)
    requires id < |s.sessions|
    ensures id < |Run(p, s, events).sessions| && Run(p, s, events).sessions[id].user == s.sessions[id].user
  {
    if |events| > 0 {
      OwnersStay(p, s, id, events[..|events| - 1]);
      SessionStep(p, Run(p, s, events[..|events| - 1]), events[|events| - 1], id);
    }
  }

  /** From its opening on: the session works at once for a user who may work, and one
      lifetime later it is over, whatever ran in between. */
  lemma {:induction false} SessionsLastOneLifetime(p: Policy, s: State, user: nat, at: int, events: seq<Event>,
                                                   later: int)
    requires user < |s.users| && later >= at + p.lifetime
    ensures var started, id := Exec(p, s, Event(Open(user), at)), |s.sessions|;
            && (Resolves(p, started, id, at) <==>
                  p.lifetime > 0 && p.idle > 0 && s.users[user].active && s.users[user].placed)
            && id < |Run(p, started, events).sessions| && Run(p, started, events).sessions[id].user == user
            && !Resolves(p, Run(p, started, events), id, later)
  {
    var started := Exec(p, s, Event(Open(user), at));
    OpeningStartsTheClock(p, s, user, at);
    NobodyOutlivesTheLimit(p, started, |s.sessions|, events, later);
    OwnersStay(p, started, |s.sessions|, events);
  }

  /** The four ways to end a session end it for good: logging out, logging out
      everywhere, being disabled, and a password reset. */
  lemma {:induction false} EndingIsFinal(p: Policy, s: State, id: nat, ending: Step, at: int, events: seq<Event>,
                                         later: int)
    requires id < |s.sessions| && s.sessions[id].user < |s.users|
    requires ending in {Logout(id), RevokeAll(s.sessions[id].user), Disable(s.sessions[id].user),
                        ResetPassword(s.sessions[id].user)}
    requires Timely(at, events) && later >= Clock(at, events)
    ensures !Resolves(p, Run(p, Exec(p, s, Event(ending, at)), events), id, later)
  {
    DeadForever(p, Exec(p, s, Event(ending, at)), id, at, events);
  }

  /** ... and touch no session of anybody else. */
  lemma EndingTouchesNobodyElse(p: Policy, s: State, id: nat, ending: Step, at: int)
    requires id < |s.sessions|
    requires match ending
             case Logout(other) => other != id
             case RevokeAll(user) => user != s.sessions[id].user
             case Disable(user) => user != s.sessions[id].user
             case ResetPassword(user) => user != s.sessions[id].user
             case _ => false
    ensures Exec(p, s, Event(ending, at)).sessions[id] == s.sessions[id]
  {}

  /** Enabling an account or resetting its password lifts the lock: the right password
      logs in at once, if the account has its place and, after a reset, is active. */
  lemma LiftingTheLock(p: Policy, s: State, user: nat, at: int, now: int)
    requires user < |s.users|
    ensures var enabled := Exec(p, s, Event(Enable(user), at)).users[user];
            Judge(enabled, true, now) == if s.users[user].placed then LoggedIn else InvalidCredentials
    ensures var reset := Exec(p, s, Event(ResetPassword(user), at)).users[user];
            Judge(reset, true, now) ==
              if s.users[user].placed && s.users[user].active then LoggedIn else InvalidCredentials
    ensures var disabled := Exec(p, s, Event(Disable(user), at)).users[user];
            Judge(disabled, true, now) != LoggedIn
  {}

  ghost predicate Seen(s: State, id: nat, at: int) { id < |s.sessions| && s.sessions[id].lastSeen <= at }

  ghost predicate Unresolved(p: Policy, s: State, id: nat, events: seq<Event>) {
    forall i :: 0 <= i < |events| && events[i].step == Resolve(id) ==>
        !Resolves(p, Run(p, s, events[..i]), id, events[i].at)
  }

  lemma {:induction false} SeenNoLater(p: Policy, s: State, id: nat, at: int, events: seq<Event>)
    requires Seen(s, id, at) && Unresolved(p, s, id, events)
    ensures Seen(Run(p, s, events), id, at)
  {
    if |events| > 0 {
      var n := |events| - 1;
      forall i | 0 <= i < n && events[..n][i].step == Resolve(id)
        ensures !Resolves(p, Run(p, s, events[..n][..i]), id, events[..n][i].at)
      {
        assert events[..n][..i] == events[..i];
      }
      SeenNoLater(p, s, id, at, events[..n]);
      assert events[n].step == Resolve(id) ==> !Resolves(p, Run(p, s, events[..n]), id, events[n].at);
      SessionStep(p, Run(p, s, events[..n]), events[n], id);
    }
  }

  /** Rejection: once IDLE has passed since the last successful resolve, the session
      is refused, whatever ran in between. */
  lemma {:induction false} IdleIsRefused(p: Policy, s: State, id: nat, at: int, events: seq<Event>, later: int)
    requires Resolves(p, s, id, at) && s.sessions[id].lastSeen <= at
    requires var seen := Exec(p, s, Event(Resolve(id), at)); Unresolved(p, seen, id, events)
    requires later >= at + p.idle
    ensures !Resolves(p, Run(p, Exec(p, s, Event(Resolve(id), at)), events), id, later)
  {
    SeenNoLater(p, Exec(p, s, Event(Resolve(id), at)), id, at, events);
  }

  predicate Revokes(s: State, id: nat, e: Event)
    requires id < |s.sessions|
  {
    match e.step
    case Logout(x) => x == id
    case RevokeAll(u) => u == s.sessions[id].user
    case Disable(u) => u == s.sessions[id].user
    case ResetPassword(u) => u == s.sessions[id].user
    case _ => false
  }

  ghost predicate NeverRevoked(p: Policy, s: State, id: nat, events: seq<Event>)
    requires id < |s.sessions|
  {
    forall i :: 0 <= i < |events| ==> id < |Run(p, s, events[..i]).sessions| ==>
        !Revokes(Run(p, s, events[..i]), id, events[i])
  }

  /** Alive and seen within the throttle of `at`. */
  ghost predicate FreshSince(p: Policy, s: State, id: nat, at: int, expires: int, user: nat) {
    id < |s.sessions| && s.sessions[id].revokedAt.None? && s.sessions[id].lastSeen > at - p.throttle
    && s.sessions[id].expiresAt == expires && s.sessions[id].user == user
  }

  lemma FreshStep(p: Policy, s: State, id: nat, at: int, expires: int, user: nat, e: Event)
    requires p.Sane() && FreshSince(p, s, id, at, expires, user) && at <= e.at <= at + p.idle - p.throttle
    requires e.at < expires
    requires !Revokes(s, id, e)
    ensures FreshSince(p, Exec(p, s, e), id, at, expires, user)
  {}

  lemma {:induction false} StaysFresh(p: Policy, s: State, id: nat, at: int, expires: int, user: nat,
                                      events: seq<Event>, until: int)
    requires p.Sane() && FreshSince(p, s, id, at, expires, user) && Timely(at, events) && NeverRevoked(p, s, id, events)
    requires Clock(at, events) <= until && until <= at + p.idle - p.throttle && until < expires
    ensures FreshSince(p, Run(p, s, events), id, at, expires, user)
  {
    if |events| > 0 {
      var n := |events| - 1;
      TimelyPrefix(at, events, n);
      forall i | 0 <= i < n && id < |Run(p, s, events[..n][..i]).sessions|
        ensures !Revokes(Run(p, s, events[..n][..i]), id, events[..n][i])
      {
        assert events[..n][..i] == events[..i];
      }
      assert Clock(at, events[..n]) <= events[n].at;
      StaysFresh(p, s, id, at, expires, user, events[..n], until);
      FreshStep(p, Run(p, s, events[..n]), id, at, expires, user, events[n]);
    }
  }

  /** Liveness: after a successful resolve at t the session resolves again at any
      time up to IDLE - THROTTLE later, as long as it has not expired, nothing has
      revoked it and its user may work. */
  lemma {:induction false} StaysAliveWhileInUse(p: Policy, s: State, id: nat, at: int, events: seq<Event>, later: int)
    requires p.Sane() && Resolves(p, s, id, at) && s.sessions[id].lastSeen <= at && p.throttle > 0
    requires var seen := Exec(p, s, Event(Resolve(id), at));
             && id < |seen.sessions| && NeverRevoked(p, seen, id, events)
    requires Timely(at, events) && Clock(at, events) <= later <= at + p.idle - p.throttle
    requires later < s.sessions[id].expiresAt
    requires Usable(Run(p, Exec(p, s, Event(Resolve(id), at)), events).users, s.sessions[id].user)
    ensures Resolves(p, Run(p, Exec(p, s, Event(Resolve(id), at)), events), id, later)
  {
    var seen := Exec(p, s, Event(Resolve(id), at));
    StaysFresh(p, seen, id, at, s.sessions[id].expiresAt, s.sessions[id].user, events, later);
  }

  // ── The service, updating rows in place ────────────────────────────────────

  /** The sessions a revocation finds active. */
  function ActiveOf(sessions: seq<Session>, user: nat, n: nat): set<int>
    requires n <= |sessions|
  {
    set k | 0 <= k < n && sessions[k].user == user && sessions[k].revokedAt.None?
  }

  class Service {
    const policy: Policy

    var users: seq<User>
    var sessions: seq<Session>

    constructor (policy: Policy, users: seq<User>)
      ensures this.policy == policy && Rows() == State(users, [])
    {
      this.policy, this.users, sessions := policy, users, [];
    }

    function Rows(): State
      reads this
    {
      State(users, sessions)
    }

    method RegisterFailedAttempt(user: nat, now: int)
      requires user < |users|
      modifies `users
      ensures users == old(users)[user := Failed(policy, old(users)[user], now)]
    {
      users := users[user := users[user].(failed := users[user].failed + 1)];
      if users[user].failed >= policy.maxFailures {
        users := users[user := users[user].(lockedUntil := Some(now + policy.lockout))];
      }
    }

    method Authenticate(user: nat, correct: bool, now: int) returns (verdict: Verdict)
      requires user < |users|
      modifies `users
      ensures verdict == Judge(old(users[user]), correct, now)
      ensures Rows() == Exec(policy, old(Rows()), Event(Login(user, correct), now))
      ensures var u := old(users)[user];
              && (verdict.AccountLocked? <==> u.lockedUntil.Some? && now < u.lockedUntil.value)
              && (verdict.LoggedIn? <==> !verdict.AccountLocked? && correct && u.active && u.placed)
              && users == old(users)[user :=
                   if verdict.LoggedIn? then u.(failed := 0, lockedUntil := None)
                   else if verdict.AccountLocked? || correct then u
                   else u.(failed := u.failed + 1,
                           lockedUntil := if u.failed + 1 < policy.maxFailures then u.lockedUntil
                                          else Some(now + policy.lockout))]
    {
      var u := users[user];
      if u.Locked(now) {
        assert users == users[user := u];
        return AccountLocked;
      }
      if !correct {
        RegisterFailedAttempt(user, now);
        return InvalidCredentials;
      }
      if !u.active || !u.placed {
        assert users == users[user := u];
        return InvalidCredentials;
      }
      users := users[user := u.(failed := 0, lockedUntil := None)];
      verdict := LoggedIn;
    }

    method CreateSession(user: nat, now: int) returns (id: nat)
      requires user < |users|
      modifies `sessions
      ensures id == |old(sessions)| && Rows() == Exec(policy, old(Rows()), Event(Open(user), now))
      ensures sessions == old(sessions) + [Session(user, now + policy.lifetime, now, None)]
    {
      id := |sessions|;
      sessions := sessions + [Session(user, now + policy.lifetime, now, None)];
    }

    /** None for every failure; an idle session is revoked on the way out. */
    method ResolveSession(id: nat, now: int) returns (context: Option<nat>)
      requires id < |sessions|
      modifies `sessions
      ensures context == if Resolves(policy, old(Rows()), id, now) then Some(old(sessions)[id].user) else None
      ensures Rows() == Exec(policy, old(Rows()), Event(Resolve(id), now))
      ensures var x := old(sessions)[id];
              var over := x.revokedAt.Some? || x.expiresAt <= now;
              var idle := x.lastSeen + policy.idle <= now;
              && (context.Some? <==>
                    !over && !idle && x.user < |users| && users[x.user].active && users[x.user].placed)
              && sessions == old(sessions)[id :=
                   if !over && idle then x.(revokedAt := Some(now))
                   else if context.Some? && now - x.lastSeen >= policy.throttle then x.(lastSeen := now) else x]
    {
      var x := sessions[id];
      assert sessions == sessions[id := x];
      if x.revokedAt.Some? { return None; }
      if x.expiresAt <= now { return None; }
      if x.lastSeen + policy.idle <= now {
        sessions := sessions[id := x.(revokedAt := Some(now))];
        return None;
      }
      if x.user >= |users| || !users[x.user].active { return None; }
      if !users[x.user].placed { return None; }
      if now - x.lastSeen >= policy.throttle {
        sessions := sessions[id := x.(lastSeen := now)];
      }
      context := Some(x.user);
    }

    /** How many sessions were active and are not any more. */
    method RevokeAllSessions(user: nat, now: int) returns (count: nat)
      modifies `sessions
      ensures sessions == RevokedFor(old(sessions), user, now)
      ensures |sessions| == |old(sessions)| && count == |ActiveOf(old(sessions), user, |old(sessions)|)|
      ensures forall k :: 0 <= k < |sessions| ==>
                var x := old(sessions)[k];
                sessions[k] == if x.user == user && x.revokedAt.None? then x.(revokedAt := Some(now)) else x
    {
      count := 0;
      for n := 0 to |sessions|
        invariant |sessions| == |old(sessions)|
        invariant forall k :: 0 <= k < n ==>
          sessions[k] == if old(sessions)[k].user == user then Revoked(old(sessions)[k], now) else old(sessions)[k]
        invariant forall k :: n <= k < |sessions| ==> sessions[k] == old(sessions)[k]
        invariant count == |ActiveOf(old(sessions), user, n)|
      {
        assert ActiveOf(old(sessions), user, n + 1) ==
          ActiveOf(old(sessions), user, n) + if old(sessions)[n].user == user && old(sessions)[n].revokedAt.None?
                                             then {n} else {};
        if sessions[n].user == user && sessions[n].revokedAt.None? {
          sessions := sessions[n := sessions[n].(revokedAt := Some(now))];
          count := count + 1;
        }
      }
    }

    method DisableUser(user: nat, now: int) returns (revoked: nat)
      requires user < |users|
      modifies this
      ensures Rows() == Exec(policy, old(Rows()), Event(Disable(user), now))
      ensures users == old(users)[user := old(users)[user].(active := false)]
      ensures |sessions| == |old(sessions)| && revoked == |ActiveOf(old(sessions), user, |old(sessions)|)|
      ensures forall k :: 0 <= k < |sessions| ==>
                var x := old(sessions)[k];
                sessions[k] == if x.user == user && x.revokedAt.None? then x.(revokedAt := Some(now)) else x
    {
      users := users[user := users[user].(active := false)];
      revoked := RevokeAllSessions(user, now);
    }

    method EnableUser(user: nat, now: int)
      requires user < |users|
      modifies `users
      ensures Rows() == Exec(policy, old(Rows()), Event(Enable(user), now))
      ensures users == old(users)[user := old(users)[user].(active := true, failed := 0, lockedUntil := None)]
    {
      users := users[user := users[user].(active := true)];
      users := users[user := users[user].(failed := 0)];
      users := users[user := users[user].(lockedUntil := None)];
    }

    method ResetUserPassword(user: nat, now: int) returns (revoked: nat)
      requires user < |users|
      modifies this
      ensures Rows() == Exec(policy, old(Rows()), Event(ResetPassword(user), now))
      ensures users == old(users)[user := old(users)[user].(failed := 0, lockedUntil := None)]
      ensures |sessions| == |old(sessions)| && revoked == |ActiveOf(old(sessions), user, |old(sessions)|)|
      ensures forall k :: 0 <= k < |sessions| ==>
                var x := old(sessions)[k];
                sessions[k] == if x.user == user && x.revokedAt.None? then x.(revokedAt := Some(now)) else x
    {
      users := users[user := users[user].(failed := 0)];
      users := users[user := users[user].(lockedUntil := None)];
      revoked := RevokeAllSessions(user, now);
    }
  }
}
