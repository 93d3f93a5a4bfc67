/** The user service seen from outside: when requests succeed, what each leaves of every token, who is locked when, and
    how many sessions there are, in numbers. */
module SessionUse {
  import opened Options
  import opened Sequences
  import opened Sessions
  import opened SessionRuns

  // ---------- Numbers ----------

  function Limit(c: Config, role: Role): nat {
    match role
    case Driver => if 0 < c.driverLimit then c.driverLimit else 1
    case Rider => if 0 < c.riderLimit then c.riderLimit else 3
    case OtherRole => 0
  }

  /** How long a refresh token lives: thirty days unless configured. */
  function Life(c: Config): int {
    if 0 < c.refreshTTL then c.refreshTTL else 2592000
  }

  /** The tokens a user could refresh now, on one device or another. */
  function Open(tokens: map<TokenID, Token>, u: UserID, now: int): set<TokenID> {
    set t | t in tokens && tokens[t].user == u && !tokens[t].revoked && now < tokens[t].expiresAt
  }

  lemma OpenIsLive(tokens: map<TokenID, Token>, u: UserID, now: int)
    ensures Open(tokens, u, now) == Live(tokens, u, now)
  {
  }

  // ---------- Success ----------

  predicate IsTaken<K>(index: map<K, UserID>, key: Option<K>) {
    key.Some? && key.value in index
  }

  /** Registration succeeds exactly for a rider or driver with an email or a phone, neither of them taken, a strong
      password and a device; the user gets that password and nothing is held against it. */
  lemma RegisterSucceedsExactly(c: Config, db: DB, r: Registration, u: UserID, t: TokenID, now: int)
    requires u !in db.users && t !in db.tokens && forall x :: x in db.tokens ==> db.tokens[x].user != u
    ensures var (after, outcome) := Registered(c, db, r, u, t, now);
            && (outcome == Issued(t)
                <==> && (r.role == Rider || r.role == Driver) && (r.email.Some? || r.phone.Some?)
                     && r.strong && r.device.Some?
                     && !IsTaken(db.emails, r.email) && !IsTaken(db.phones, r.phone) && c.hasSecret)
            && (outcome == Issued(t) ==>
                  && after.users == db.users[u := User(r.role, r.password, 0, None)]
                  && (r.email.Some? ==> after.emails == db.emails[r.email.value := u])
                  && (r.phone.Some? ==> after.phones == db.phones[r.phone.value := u])
                  && after.tokens == db.tokens[t := Token(u, r.device.value, now, now + Life(c), false)])
  {
  }

  /** The user that a login is about: by email if there is one, otherwise by phone. */
  predicate IsAbout(db: DB, l: Credentials, u: UserID) {
    && u in db.users
    && if l.email.Some? then l.email.value in db.emails && db.emails[l.email.value] == u
       else l.phone.Some? && l.phone.value in db.phones && db.phones[l.phone.value] == u
  }

  /** Somebody is locked out. */
  predicate IsLocked(user: User, now: int) {
    user.lockedUntil.Some? && now < user.lockedUntil.value
  }

  /** A login about a user succeeds exactly with a device, outside of a lock, and with the right password. */
  lemma LoginSucceedsExactly(
      c: Config, db: DB, l: Credentials, u: UserID, t: TokenID, now: int, listing: seq<TokenID>)
    requires IsAbout(db, l, u) && t !in db.tokens
    ensures LoggedIn(c, db, l, t, now, listing).1 == Issued(t)
            <==> l.device.Some? && !IsLocked(db.users[u], now) && l.password == db.users[u].password && c.hasSecret
  {
    if l.device.Some? {
      var limit := c.SessionLimit(db.users[u].role);
      ClearedOnlyRevokes(db.tokens, u, l.device.value, listing, limit);
    }
  }

  /** A login about nobody fails. */
  lemma LoginNeedsAUser(c: Config, db: DB, l: Credentials, t: TokenID, now: int, listing: seq<TokenID>)
    requires forall u :: !IsAbout(db, l, u)
    ensures LoggedIn(c, db, l, t, now, listing).0 == db && LoggedIn(c, db, l, t, now, listing).1.Failed?
  {
    if Lookup(db, l).Some? {
      assert IsAbout(db, l, Lookup(db, l).value);
    }
  }

  /** Right after registering, a user can log in, from any device, with that password and with no other. */
  lemma RegisteredUserCanLogIn(
      c: Config, db: DB, r: Registration, u: UserID, t: TokenID, at: int,
      l: Credentials, next: TokenID, now: int, listing: seq<TokenID>)
    requires u !in db.users && t !in db.tokens && forall x :: x in db.tokens ==> db.tokens[x].user != u
    requires Registered(c, db, r, u, t, at).1 == Issued(t) && next != t && next !in db.tokens
    requires l.device.Some? && if l.email.Some? then l.email == r.email else l.phone.Some? && l.phone == r.phone
    ensures var after := Registered(c, db, r, u, t, at).0;
            LoggedIn(c, after, l, next, now, listing).1 == Issued(next) <==> l.password == r.password
  {
    RegisterSucceedsExactly(c, db, r, u, t, at);
    LoginSucceedsExactly(c, Registered(c, db, r, u, t, at).0, l, u, next, now, listing);
  }

  /** A refresh succeeds exactly with a token that exists, was issued for that device, was not revoked and is not too
      old. It revokes that token, issues one in its place, and leaves every other. */
  lemma RefreshSucceedsExactly(c: Config, db: DB, p: TokenID, d: DeviceID, t: TokenID, now: int)
    requires t !in db.tokens && p in db.tokens && db.tokens[p].user in db.users && OnePerDevice(db.tokens)
    ensures var (after, outcome) := Refreshed(c, db, Some(p), Some(d), t, now);
            var was := db.tokens[p];
            && (outcome == Issued(t) <==> was.device == d && !was.revoked && now < was.expiresAt && c.hasSecret)
            && (outcome == Issued(t) ==>
                  after.tokens
                  == db.tokens[p := was.(revoked := true)][t := Token(was.user, d, now, now + Life(c), false)])
  {
    if Usable(db.tokens, p, d, now) {
      ExchangeMakesRoom(db.tokens, p, now);
      assert Revoke(db.tokens, {p}) == db.tokens[p := db.tokens[p].(revoked := true)];
    }
  }

  /** An issued token can be refreshed on its device, and on no other, as long as it lives. */
  lemma IssuedTokenCanBeRefreshed(
      c: Config, db: DB, u: UserID, d: DeviceID, t: TokenID, at: int, device: DeviceID, next: TokenID, now: int)
    requires u in db.users && OnePerDevice(db.tokens) && Issue(c, db, u, d, t, at).1 == Issued(t)
    requires next != t && next !in db.tokens
    ensures var after := Issue(c, db, u, d, t, at).0;
            Refreshed(c, after, Some(t), Some(device), next, now).1 == Issued(next)
            <==> device == d && now < at + Life(c)
  {
    var after := Issue(c, db, u, d, t, at).0;
    AddedIsOnePerDevice(db.tokens, t, after.tokens[t]);
    RefreshSucceedsExactly(c, after, t, device, next, now);
  }

  /** Logging out succeeds exactly with a token that could be refreshed; it revokes that token and leaves every other.
      */
  lemma LogoutSucceedsExactly(db: DB, p: TokenID, d: DeviceID, now: int)
    ensures var (after, outcome) := LoggedOut(db, Some(p), Some(d), now);
            && (outcome == Done
                <==> && p in db.tokens && db.tokens[p].device == d
                     && !db.tokens[p].revoked && now < db.tokens[p].expiresAt)
            && (if outcome == Done then after == db.(tokens := db.tokens[p := db.tokens[p].(revoked := true)])
                else after == db)
  {
    if p in db.tokens {
      assert Revoke(db.tokens, {p}) == db.tokens[p := db.tokens[p].(revoked := true)];
    }
  }

  /** A token that was logged out is never refreshed again. */
  lemma LoggedOutTokenIsDead(
      c: Config, db: DB, p: TokenID, d: DeviceID, at: int, device: DeviceID, t: TokenID, now: int)
    requires LoggedOut(db, Some(p), Some(d), at).1 == Done
    ensures Refreshed(c, LoggedOut(db, Some(p), Some(d), at).0, Some(p), Some(device), t, now).1
            == Failed(InvalidCredentials)
  {
    LogoutSucceedsExactly(db, p, d, at);
  }

  /** Logging out everywhere revokes the user's tokens and no other. */
  lemma LogoutAllRevokesExactly(db: DB, u: UserID, x: TokenID)
    requires x in db.tokens
    ensures var after := LoggedOutAll(db, Some(u)).0;
            && x in after.tokens && after.users == db.users
            && after.tokens[x] == db.tokens[x].(revoked := db.tokens[x].revoked || db.tokens[x].user == u)
  {
  }

  // ---------- Session limits ----------

  lemma LimitIsTheConfigured(c: Config, role: Role)
    ensures c.SessionLimit(role) == Limit(c, role)
  {
  }

  /** A login revokes, of what was not revoked, exactly the sessions of its device and the oldest ones beyond the limit.
      */
  lemma LoginRevokesExactly(
      c: Config, db: DB, l: Credentials, u: UserID, t: TokenID, now: int, listing: seq<TokenID>, x: TokenID)
    requires IsAbout(db, l, u) && t !in db.tokens && x in db.tokens && NoRepeats(listing)
    requires LoggedIn(c, db, l, t, now, listing).1 == Issued(t)
    ensures var after, was := LoggedIn(c, db, l, t, now, listing).0, db.tokens[x];
            var limit := Limit(c, db.users[u].role);
            && x in after.tokens
            && after.tokens[x] == was.(revoked :=
                 || was.revoked || (was.user == u && l.device == Some(was.device))
                 || (0 < limit && exists i :: 0 <= i < |listing| - (limit - 1) && listing[i] == x))
  {
    var limit := c.SessionLimit(db.users[u].role);
    LimitIsTheConfigured(c, db.users[u].role);
    if 0 < limit <= |listing| {
      var n := |listing| - (limit - 1);
      assert x in Oldest(listing, limit - 1) <==> exists i :: 0 <= i < n && listing[..n][i] == x;
      assert forall i :: 0 <= i < n ==> listing[..n][i] == listing[i];
    }
  }

  /** As long as a user has room, a login leaves the sessions on all other devices. */
  lemma LoginWithRoomLeavesOtherDevices(
      c: Config, db: DB, l: Credentials, u: UserID, t: TokenID, now: int, listing: seq<TokenID>, x: TokenID)
    requires IsAbout(db, l, u) && t !in db.tokens && IsListing(db.tokens, u, now, listing)
    requires LoggedIn(c, db, l, t, now, listing).1 == Issued(t)
    requires |Open(db.tokens, u, now)| < Limit(c, db.users[u].role)
    requires x in db.tokens && !(db.tokens[x].user == u && l.device == Some(db.tokens[x].device))
    ensures var after := LoggedIn(c, db, l, t, now, listing).0; x in after.tokens && after.tokens[x] == db.tokens[x]
  {
    OpenIsLive(db.tokens, u, now);
    NoRepeatsCount(listing);
    LoginRevokesExactly(c, db, l, u, t, now, listing, x);
  }

  // ---------- Runs ----------

  function Began(now: int): World {
    World(EMPTY, now, [])
  }

  lemma StepKeepsRolesAndPasswords(c: Config, w: World, step: Step, u: UserID)
    requires u in Next(c, w, step).db.users
    ensures var after := Next(c, w, step).db;
            if u in w.db.users && !(step.Register? && step.user == u) then
              after.users[u].role == w.db.users[u].role && after.users[u].password == w.db.users[u].password
            else if u in w.db.users then after.users[u] == w.db.users[u]
            else step.Register? && step.user == u && (step.r.role == Rider || step.r.role == Driver)
                 && after.users[u] == User(step.r.role, step.r.password, 0, None)
  {
  }

  lemma {:induction false} EveryoneIsRiderOrDriver(c: Config, start: int, steps: seq<Step>, u: UserID)
    requires IsRun(c, Began(start), steps) && u in Run(c, Began(start), steps).db.users
    ensures var role := Run(c, Began(start), steps).db.users[u].role; role == Rider || role == Driver
  {
    if steps == [] {
    } else {
      var before, last := steps[..|steps| - 1], steps[|steps| - 1];
      StepKeepsRolesAndPasswords(c, Run(c, Began(start), before), last, u);
      if u in Run(c, Began(start), before).db.users {
        EveryoneIsRiderOrDriver(c, start, before, u);
      }
    }
  }

  /** In every run a rider has at most three sessions and a driver at most one, or as many as are configured; there are
      no other users. */
  lemma SessionsStayWithinNumbers(c: Config, start: int, steps: seq<Step>, u: UserID)
    requires IsRun(c, Began(start), steps) && u in Run(c, Began(start), steps).db.users
    ensures var w := Run(c, Began(start), steps);
            var sessions := |Open(w.db.tokens, u, w.now)|;
            || (w.db.users[u].role == Rider && sessions <= if 0 < c.riderLimit then c.riderLimit else 3)
            || (w.db.users[u].role == Driver && sessions <= if 0 < c.driverLimit then c.driverLimit else 1)
  {
    EveryoneIsRiderOrDriver(c, start, steps, u);
    SessionsStayWithinLimits(c, start, steps, u);
    OpenIsLive(Run(c, Began(start), steps).db.tokens, u, Run(c, Began(start), steps).now);
    LimitIsTheConfigured(c, Run(c, Began(start), steps).db.users[u].role);
  }

  // ---------- Locks ----------

  /** The login's password is compared with the user's. */
  predicate IsCompared(db: DB, step: Step, u: UserID) {
    step.Login? && step.l.device.Some? && IsAbout(db, step.l, u) && !IsLocked(db.users[u], step.now)
  }

  /** Wrong passwords since the last right one. */
  function WrongInARow(c: Config, w: World, steps: seq<Step>, u: UserID): nat {
    if steps == [] then 0
    else
      var before, last := steps[..|steps| - 1], steps[|steps| - 1];
      var db := Run(c, w, before).db;
      if IsCompared(db, last, u) then
        if last.l.password == db.users[u].password then 0 else WrongInARow(c, w, before, u) + 1
      else WrongInARow(c, w, before, u)
  }

  /** When the last wrong password came, if any did. */
  function LastWrong(c: Config, w: World, steps: seq<Step>, u: UserID): int {
    if steps == [] then 0
    else
      var before, last := steps[..|steps| - 1], steps[|steps| - 1];
      var db := Run(c, w, before).db;
      if IsCompared(db, last, u) && last.l.password != db.users[u].password then last.now
      else LastWrong(c, w, before, u)
  }

  lemma LoginIsAboutCompared(db: DB, l: Credentials, now: int, u: UserID)
    ensures Compared(db, l, now) == Some(u) && u in db.users
            <==> l.device.Some? && IsAbout(db, l, u) && !IsLocked(db.users[u], now)
  {
  }

  /** What a step does to a user's count and lock. */
  lemma StepCountsWrongPasswords(c: Config, w: World, step: Step, u: UserID)
    requires Enabled(w, step) && u in w.db.users
    ensures var after, user := Next(c, w, step).db, w.db.users[u];
            && u in after.users
            && if IsCompared(w.db, step, u) then
                 if step.l.password == user.password then
                   after.users[u].failed == 0 && after.users[u].lockedUntil == None
                 else && after.users[u].failed == user.failed + 1
                      && after.users[u].lockedUntil
                         == if 5 <= user.failed + 1 then Some(step.now + 900) else user.lockedUntil
               else after.users[u] == user
  {
    if step.Login? {
      LoginIsAboutCompared(w.db, step.l, step.now, u);
    }
  }

  lemma {:induction false} NobodyIsUntilRegistered(c: Config, start: int, steps: seq<Step>, u: UserID)
    requires IsRun(c, Began(start), steps) && u !in Run(c, Began(start), steps).db.users
    ensures WrongInARow(c, Began(start), steps, u) == 0
  {
    if steps == [] {
    } else {
      var before, last := steps[..|steps| - 1], steps[|steps| - 1];
      if u in Run(c, Began(start), before).db.users {
        StepCountsWrongPasswords(c, Run(c, Began(start), before), last, u);
      } else {
        NobodyIsUntilRegistered(c, start, before, u);
      }
    }
  }

  /** In every run a user is locked at some time if and only if the last five or more compared passwords were wrong and
      the last of them came less than 15 minutes before. The first four never lock. */
  lemma {:induction false} LockedExactly(c: Config, start: int, steps: seq<Step>, u: UserID, now: int)
    requires IsRun(c, Began(start), steps) && u in Run(c, Began(start), steps).db.users
    ensures var user := Run(c, Began(start), steps).db.users[u];
            var wrong, last := WrongInARow(c, Began(start), steps, u), LastWrong(c, Began(start), steps, u);
            && user.failed == wrong
            && user.lockedUntil == (if 5 <= wrong then Some(last + 900) else None)
            && (Locked(user, now) <==> 5 <= wrong && now < last + 900)
  {
    if steps == [] {
    } else {
      var before, last := steps[..|steps| - 1], steps[|steps| - 1];
      var w := Run(c, Began(start), before);
      if u in w.db.users {
        LockedExactly(c, start, before, u, now);
        StepCountsWrongPasswords(c, w, last, u);
      } else {
        NobodyIsUntilRegistered(c, start, before, u);
        StepKeepsRolesAndPasswords(c, w, last, u);
      }
    }
  }
}
