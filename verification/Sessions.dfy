/** The user service: accounts, refresh tokens per device, session limits per role, and the lock after failed logins. */
module Sessions {
  import opened Options
  import opened Sequences

  type UserID = nat
  type DeviceID = nat
  type Email = nat
  type Phone = nat

  /** Two passwords compare equal if and only if they are the same. */
  type Password = nat

  /** A refresh token stands for its hash and for its row. */
  type TokenID = nat

  datatype Role = Rider | Driver | OtherRole

  datatype User = User(role: Role, password: Password, failed: nat, lockedUntil: Option<int>)

  datatype Token = Token(user: UserID, device: DeviceID, createdAt: int, expiresAt: int, revoked: bool)

  /** `emails` and `phones` are the unique indexes of the user table. */
  datatype DB = DB(
    users: map<UserID, User>, emails: map<Email, UserID>, phones: map<Phone, UserID>, tokens: map<TokenID, Token>)

  datatype Config = Config(refreshTTL: int, riderLimit: int, driverLimit: int, hasSecret: bool)
  {
    function RefreshSeconds(): int {
      if refreshTTL <= 0 then 30 * 24 * 3600 else refreshTTL
    }

    function SessionLimit(role: Role): nat {
      match role
      case Driver => if 0 < driverLimit then driverLimit else 1
      case Rider => if 0 < riderLimit then riderLimit else 3
      case OtherRole => 0
    }
  }

  const LOCK_AFTER: nat := 5
  const LOCK_SECONDS := 15 * 60

  datatype Error =
    | InvalidCredentials | InvalidRole | AlreadyExists | AccountLocked | WeakPassword | DeviceRequired
    | NoSecret | Storage

  datatype Outcome = Issued(token: TokenID) | Done | Failed(error: Error)

  /** Absent fields are empty strings in the request. */
  datatype Registration = Registration(
    email: Option<Email>, phone: Option<Phone>, password: Password, strong: bool, role: Role, device: Option<DeviceID>)

  datatype Credentials = Credentials(
    email: Option<Email>, phone: Option<Phone>, password: Password, device: Option<DeviceID>)

  // ---------- Tokens ----------

  predicate Unrevoked(tokens: map<TokenID, Token>, t: TokenID, u: UserID) {
    t in tokens && tokens[t].user == u && !tokens[t].revoked
  }

  /** A session: unrevoked and not expired. */
  predicate IsLive(tokens: map<TokenID, Token>, t: TokenID, u: UserID, now: int) {
    Unrevoked(tokens, t, u) && now < tokens[t].expiresAt
  }

  function Live(tokens: map<TokenID, Token>, u: UserID, now: int): set<TokenID> {
    set t | t in tokens && IsLive(tokens, t, u, now)
  }

  function OfUser(tokens: map<TokenID, Token>, u: UserID): set<TokenID> {
    set t | t in tokens && tokens[t].user == u
  }

  function OfDevice(tokens: map<TokenID, Token>, u: UserID, d: DeviceID): set<TokenID> {
    set t | t in tokens && tokens[t].user == u && tokens[t].device == d
  }

  function Revoke(tokens: map<TokenID, Token>, gone: set<TokenID>): map<TokenID, Token> {
    map t | t in tokens :: if t in gone then tokens[t].(revoked := true) else tokens[t]
  }

  /** A listing of a user's sessions, oldest first; sessions of the same age come in any order. */
  predicate IsListing(tokens: map<TokenID, Token>, u: UserID, now: int, listing: seq<TokenID>) {
    && NoRepeats(listing) && Elements(listing) == Live(tokens, u, now)
    && forall i, j :: 0 <= i < j < |listing| && listing[i] in tokens && listing[j] in tokens ==>
         tokens[listing[i]].createdAt <= tokens[listing[j]].createdAt
  }

  /** All but the `keep` youngest. */
  function Oldest(listing: seq<TokenID>, keep: int): set<TokenID> {
    if keep < 0 || |listing| <= keep then {} else Elements(listing[..|listing| - keep])
  }

  /** The partial unique index: no second unrevoked token for a user and device. */
  predicate Collides(tokens: map<TokenID, Token>, u: UserID, d: DeviceID) {
    exists t :: t in tokens && tokens[t].user == u && tokens[t].device == d && !tokens[t].revoked
  }

  function Issue(c: Config, db: DB, u: UserID, d: DeviceID, t: TokenID, now: int): (DB, Outcome) {
    if !c.hasSecret then (db, Failed(NoSecret))
    else if t in db.tokens || Collides(db.tokens, u, d) then (db, Failed(Storage))
    else (db.(tokens := db.tokens[t := Token(u, d, now, now + c.RefreshSeconds(), false)]), Issued(t))
  }

  // ---------- Failed logins ----------

  /** A failure counts, and locks the account if it is the `lockAfter`-th or a later one; nothing locks if that is not
      positive. */
  function FailLogin(user: User, lockAfter: int, lockSeconds: int, now: int): User {
    var count := user.failed + 1;
    user.(failed := count, lockedUntil := if 0 < lockAfter <= count then Some(now + lockSeconds) else user.lockedUntil)
  }

  function ResetLogin(user: User): User {
    user.(failed := 0, lockedUntil := None)
  }

  predicate Locked(user: User, now: int) {
    user.lockedUntil.Some? && now < user.lockedUntil.value
  }

  // ---------- Use cases ----------

  function Registered(c: Config, db: DB, r: Registration, u: UserID, t: TokenID, now: int): (DB, Outcome) {
    if r.role == OtherRole then (db, Failed(InvalidRole))
    else if r.email == None && r.phone == None then (db, Failed(InvalidCredentials))
    else if !r.strong then (db, Failed(WeakPassword))
    else if r.device == None then (db, Failed(DeviceRequired))
    else if r.email.Some? && r.email.value in db.emails then (db, Failed(AlreadyExists))
    else if r.phone.Some? && r.phone.value in db.phones then (db, Failed(AlreadyExists))
    else if u in db.users then (db, Failed(Storage))
    else
      var emails := if r.email.Some? then db.emails[r.email.value := u] else db.emails;
      var phones := if r.phone.Some? then db.phones[r.phone.value := u] else db.phones;
      var joined := DB(db.users[u := User(r.role, r.password, 0, None)], emails, phones, db.tokens);
      Issue(c, joined, u, r.device.value, t, now)
  }

  /** The user that credentials name; the phone counts only without an email. */
  function Lookup(db: DB, l: Credentials): Option<UserID> {
    if l.email.Some? then
      if l.email.value in db.emails && db.emails[l.email.value] in db.users
      then Some(db.emails[l.email.value]) else None
    else if l.phone.Some? && l.phone.value in db.phones && db.phones[l.phone.value] in db.users then
      Some(db.phones[l.phone.value])
    else None
  }

  /** The user whose password is compared, if it comes to that. */
  function Compared(db: DB, l: Credentials, now: int): Option<UserID> {
    if l.device == None then None
    else
      var u := Lookup(db, l);
      if u.Some? && u.value in db.users && !Locked(db.users[u.value], now) then u else None
  }

  function LoggedIn(c: Config, db: DB, l: Credentials, t: TokenID, now: int, listing: seq<TokenID>): (DB, Outcome) {
    if l.email == None && l.phone == None then (db, Failed(InvalidCredentials))
    else if l.device == None then (db, Failed(DeviceRequired))
    else
      var u := Lookup(db, l);
      if u == None || u.value !in db.users then (db, Failed(InvalidCredentials))
      else
        var user := db.users[u.value];
        if Locked(user, now) then (db, Failed(AccountLocked))
        else if l.password != user.password then
          (db.(users := db.users[u.value := FailLogin(user, LOCK_AFTER, LOCK_SECONDS, now)]),
           Failed(InvalidCredentials))
        else
          var limit := c.SessionLimit(user.role);
          var kept := if 0 < limit then Revoke(db.tokens, Oldest(listing, limit - 1)) else db.tokens;
          Issue(c, db.(users := db.users[u.value := ResetLogin(user)],
                       tokens := Revoke(kept, OfDevice(kept, u.value, l.device.value))),
                u.value, l.device.value, t, now)
  }

  predicate Usable(tokens: map<TokenID, Token>, t: TokenID, d: DeviceID, now: int) {
    t in tokens && tokens[t].device == d && !tokens[t].revoked && now < tokens[t].expiresAt
  }

  /** Presenting a token that was revoked, or on another device, revokes all tokens of its user. */
  function Suspect(tokens: map<TokenID, Token>, t: TokenID, d: DeviceID): map<TokenID, Token> {
    if t in tokens && (tokens[t].revoked || tokens[t].device != d)
    then Revoke(tokens, OfUser(tokens, tokens[t].user)) else tokens
  }

  function Refreshed(
      c: Config, db: DB, presented: Option<TokenID>, d: Option<DeviceID>, t: TokenID, now: int): (DB, Outcome) {
    if presented == None then (db, Failed(InvalidCredentials))
    else if d == None then (db, Failed(DeviceRequired))
    else if !Usable(db.tokens, presented.value, d.value, now) then
      (db.(tokens := Suspect(db.tokens, presented.value, d.value)), Failed(InvalidCredentials))
    else
      var u := db.tokens[presented.value].user;
      if u !in db.users then (db, Failed(InvalidCredentials))
      else Issue(c, db.(tokens := Revoke(db.tokens, {presented.value})), u, d.value, t, now)
  }

  function LoggedOut(db: DB, t: Option<TokenID>, d: Option<DeviceID>, now: int): (DB, Outcome) {
    if t == None then (db, Failed(InvalidCredentials))
    else if d == None then (db, Failed(DeviceRequired))
    else if !Usable(db.tokens, t.value, d.value, now) then (db, Failed(InvalidCredentials))
    else (db.(tokens := Revoke(db.tokens, {t.value})), Done)
  }

  function LoggedOutAll(db: DB, u: Option<UserID>): (DB, Outcome) {
    if u == None then (db, Failed(InvalidCredentials))
    else (db.(tokens := Revoke(db.tokens, OfUser(db.tokens, u.value))), Done)
  }

  // ---------- The database adapter ----------

  class Repo {
    var users: map<UserID, User>
    var emails: map<Email, UserID>
    var phones: map<Phone, UserID>
    var tokens: map<TokenID, Token>

    function Value(): DB
      reads this
    {
      DB(users, emails, phones, tokens)
    }

    constructor ()
      ensures Value() == DB(map[], map[], map[], map[])
    {
      users, emails, phones, tokens := map[], map[], map[], map[];
    }

    /** Fails if the token or a second unrevoked one for the device exists. */
    method CreateRefreshToken(t: TokenID, token: Token) returns (ok: bool)
      modifies this`tokens
      ensures ok == (t !in old(tokens) && !Collides(old(tokens), token.user, token.device))
      ensures tokens == if ok then old(tokens)[t := token] else old(tokens)
    {
      ok := t !in tokens && !Collides(tokens, token.user, token.device);
      if ok {
        tokens := tokens[t := token];
      }
    }

    method RevokeRefreshToken(t: TokenID)
      modifies this`tokens
      ensures tokens == Revoke(old(tokens), {t})
    {
      tokens := Revoke(tokens, {t});
    }

    method RevokeAllRefreshTokens(u: UserID)
      modifies this`tokens
      ensures tokens == Revoke(old(tokens), OfUser(old(tokens), u))
    {
      tokens := Revoke(tokens, OfUser(tokens, u));
    }

    method RevokeDeviceSessions(u: UserID, d: DeviceID)
      modifies this`tokens
      ensures tokens == Revoke(old(tokens), OfDevice(old(tokens), u, d))
    {
      tokens := Revoke(tokens, OfDevice(tokens, u, d));
    }

    /** `listing` is what the query for the user's sessions, oldest first, returns. */
    method RevokeOldestSessions(ghost u: UserID, ghost now: int, keep: int, listing: seq<TokenID>)
      requires IsListing(tokens, u, now, listing)
      modifies this`tokens
      ensures tokens == Revoke(old(tokens), Oldest(listing, keep))
    {
      assert Revoke(tokens, {}) == tokens;
      if keep < 0 {
        return;
      }
      if |listing| <= keep {
        return;
      }
      var toRevoke := listing[..|listing| - keep];
      var ids: set<TokenID> := {};
      for i := 0 to |toRevoke|
        invariant ids == Elements(toRevoke[..i])
      {
        assert toRevoke[..i + 1] == toRevoke[..i] + [toRevoke[i]];
        ids := ids + {toRevoke[i]};
      }
      assert toRevoke[..|toRevoke|] == toRevoke;
      tokens := Revoke(tokens, ids);
    }

    method IncrementFailedLogin(u: UserID, lockAfter: int, lockSeconds: int, now: int)
      modifies this`users
      ensures users == if u in old(users) then old(users)[u := FailLogin(old(users)[u], lockAfter, lockSeconds, now)]
                       else old(users)
    {
      if u in users {
        var count := users[u].failed + 1;
        var updated := users[u].(failed := count);
        if lockAfter > 0 && count >= lockAfter {
          updated := updated.(lockedUntil := Some(now + lockSeconds));
        }
        users := users[u := updated];
      }
    }

    method ResetFailedLogin(u: UserID)
      modifies this`users
      ensures users == if u in old(users) then old(users)[u := ResetLogin(old(users)[u])] else old(users)
    {
      if u in users {
        users := users[u := users[u].(failed := 0, lockedUntil := None)];
      }
    }
  }

  // ---------- The service ----------

  class Service {
    const config: Config
    const repo: Repo

    constructor (config: Config, repo: Repo)
      ensures this.config == config && this.repo == repo
    {
      this.config, this.repo := config, repo;
    }

    method IssueTokens(u: UserID, d: DeviceID, t: TokenID, now: int) returns (outcome: Outcome)
      modifies repo`tokens
      ensures (repo.Value(), outcome) == Issue(config, old(repo.Value()), u, d, t, now)
    {
      if !config.hasSecret {
        return Failed(NoSecret);
      }
      var ok := repo.CreateRefreshToken(t, Token(u, d, now, now + config.RefreshSeconds(), false));
      outcome := if ok then Issued(t) else Failed(Storage);
    }

    method Register(r: Registration, u: UserID, t: TokenID, now: int) returns (outcome: Outcome)
      modifies repo
      ensures (repo.Value(), outcome) == Registered(config, old(repo.Value()), r, u, t, now)
    {
      if r.role == OtherRole {
        return Failed(InvalidRole);
      }
      if r.email == None && r.phone == None {
        return Failed(InvalidCredentials);
      }
      if !r.strong {
        return Failed(WeakPassword);
      }
      if r.device == None {
        return Failed(DeviceRequired);
      }
      if r.email.Some? {
        if r.email.value in repo.emails {
          return Failed(AlreadyExists);
        }
      }
      if r.phone.Some? {
        if r.phone.value in repo.phones {
          return Failed(AlreadyExists);
        }
      }
      if u in repo.users {
        return Failed(Storage);
      }
      repo.users := repo.users[u := User(r.role, r.password, 0, None)];
      if r.email.Some? {
        repo.emails := repo.emails[r.email.value := u];
      }
      if r.phone.Some? {
        repo.phones := repo.phones[r.phone.value := u];
      }
      outcome := IssueTokens(u, r.device.value, t, now);
    }

    method Login(l: Credentials, t: TokenID, now: int, listing: seq<TokenID>) returns (outcome: Outcome)
      requires Compared(repo.Value(), l, now).Some? ==>
                 IsListing(repo.tokens, Compared(repo.Value(), l, now).value, now, listing)
      modifies repo
      ensures (repo.Value(), outcome) == LoggedIn(config, old(repo.Value()), l, t, now, listing)
    {
      if l.email == None && l.phone == None {
        return Failed(InvalidCredentials);
      }
      if l.device == None {
        return Failed(DeviceRequired);
      }
      var found := Lookup(repo.Value(), l);
      if found == None {
        return Failed(InvalidCredentials);
      }
      var u := found.value;
      var user := repo.users[u];
      if Locked(user, now) {
        return Failed(AccountLocked);
      }
      if l.password != user.password {
        repo.IncrementFailedLogin(u, 5, 15 * 60, now);
        return Failed(InvalidCredentials);
      }
      repo.ResetFailedLogin(u);
      var limit := config.SessionLimit(user.role);
      if limit > 0 {
        repo.RevokeOldestSessions(u, now, limit - 1, listing);
      }
      repo.RevokeDeviceSessions(u, l.device.value);
      outcome := IssueTokens(u, l.device.value, t, now);
    }

    method Refresh(presented: Option<TokenID>, d: Option<DeviceID>, t: TokenID, now: int) returns (outcome: Outcome)
      modifies repo
      ensures (repo.Value(), outcome) == Refreshed(config, old(repo.Value()), presented, d, t, now)
    {
      if presented == None {
        return Failed(InvalidCredentials);
      }
      if d == None {
        return Failed(DeviceRequired);
      }
      var p := presented.value;
      if !Usable(repo.tokens, p, d.value, now) {
        ghost var before := repo.tokens;
        if p in repo.tokens && repo.tokens[p].revoked {
          repo.RevokeAllRefreshTokens(repo.tokens[p].user);
        }
        if p in repo.tokens && repo.tokens[p].device != d.value {
          RevokeTwice(before, OfUser(before, before[p].user));
          repo.RevokeAllRefreshTokens(repo.tokens[p].user);
        }
        return Failed(InvalidCredentials);
      }
      var u := repo.tokens[p].user;
      if u !in repo.users {
        return Failed(InvalidCredentials);
      }
      repo.RevokeRefreshToken(p);
      outcome := IssueTokens(u, d.value, t, now);
    }

    method Logout(presented: Option<TokenID>, d: Option<DeviceID>, now: int) returns (outcome: Outcome)
      modifies repo
      ensures (repo.Value(), outcome) == LoggedOut(old(repo.Value()), presented, d, now)
    {
      if presented == None {
        return Failed(InvalidCredentials);
      }
      if d == None {
        return Failed(DeviceRequired);
      }
      if !Usable(repo.tokens, presented.value, d.value, now) {
        return Failed(InvalidCredentials);
      }
      repo.RevokeRefreshToken(presented.value);
      outcome := Done;
    }

    method LogoutAll(u: Option<UserID>) returns (outcome: Outcome)
      modifies repo
      ensures (repo.Value(), outcome) == LoggedOutAll(old(repo.Value()), u)
    {
      if u == None {
        return Failed(InvalidCredentials);
      }
      repo.RevokeAllRefreshTokens(u.value);
      outcome := Done;
    }
  }

  // ---------- Revocation ----------

  lemma RevokeTwice(tokens: map<TokenID, Token>, gone: set<TokenID>)
    ensures Revoke(Revoke(tokens, gone), gone) == Revoke(tokens, gone)
    ensures forall u :: OfUser(Revoke(tokens, gone), u) == OfUser(tokens, u)
  {
  }

  /** Revoking sessions takes exactly them away. */
  lemma RevokedAreGone(tokens: map<TokenID, Token>, u: UserID, now: int, gone: set<TokenID>)
    ensures Live(Revoke(tokens, gone), u, now) == Live(tokens, u, now) - gone
  {
  }

  lemma ElementAt(xs: seq<TokenID>, x: TokenID) returns (i: nat)
    requires x in Elements(xs)
    ensures i < |xs| && xs[i] == x
  {
    i :| i < |xs| && xs[i] == x;
  }

  /** In a listing, what comes before the cut is as old as what comes after it. */
  lemma ListingIsByAge(
      tokens: map<TokenID, Token>, u: UserID, now: int, listing: seq<TokenID>, n: nat, a: TokenID, b: TokenID)
    requires IsListing(tokens, u, now, listing) && n <= |listing|
    requires a in Elements(listing[..n]) && b in Elements(listing) && b !in Elements(listing[..n])
    ensures a in tokens && b in tokens && tokens[a].createdAt <= tokens[b].createdAt
  {
    var i := ElementAt(listing[..n], a);
    var j := ElementAt(listing, b);
    assert listing[i] == a && a in Elements(listing);
    assert a in Live(tokens, u, now) && b in Live(tokens, u, now);
    forall k | 0 <= k < n
      ensures listing[k] in Elements(listing[..n])
    {
      assert listing[..n][k] == listing[k];
    }
  }

  lemma OldestAreLive(tokens: map<TokenID, Token>, u: UserID, now: int, listing: seq<TokenID>, keep: nat)
    requires IsListing(tokens, u, now, listing)
    ensures Oldest(listing, keep) <= Live(tokens, u, now) && |Live(tokens, u, now)| == |listing|
    ensures |Oldest(listing, keep)| == if |listing| <= keep then 0 else |listing| - keep
  {
    NoRepeatsCount(listing);
    if keep < |listing| {
      NoRepeatsCount(listing[..|listing| - keep]);
      forall a | a in Oldest(listing, keep) ensures a in Elements(listing) {}
    }
  }

  /** Revoking the oldest sessions leaves the wanted number of them, and every one that goes is as old as every one that
      stays. */
  lemma OldestLeavesYoungest(tokens: map<TokenID, Token>, u: UserID, now: int, listing: seq<TokenID>, keep: nat)
    requires IsListing(tokens, u, now, listing)
    ensures var live, gone := Live(tokens, u, now), Oldest(listing, keep);
            && gone <= live && |live - gone| == (if |live| <= keep then |live| else keep)
            && forall a, b :: a in gone && b in live - gone ==> tokens[a].createdAt <= tokens[b].createdAt
  {
    OldestAreLive(tokens, u, now, listing, keep);
    var gone, live := Oldest(listing, keep), Live(tokens, u, now);
    forall a, b | a in gone && b in live - gone
      ensures tokens[a].createdAt <= tokens[b].createdAt
    {
      ListingIsByAge(tokens, u, now, listing, |listing| - keep, a, b);
    }
  }
}
