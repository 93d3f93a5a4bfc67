/** Runs of the user service under a monotone clock, each use case one atomic step. */
module SessionRuns {
  import opened Options
  import opened Sequences
  import opened Sessions

  datatype Step =
    | Register(r: Registration, user: UserID, token: TokenID, now: int)
    | Login(l: Credentials, token: TokenID, now: int, listing: seq<TokenID>)
    | Refresh(presented: Option<TokenID>, device: Option<DeviceID>, token: TokenID, now: int)
    | Logout(presented: Option<TokenID>, device: Option<DeviceID>, now: int)
    | LogoutAll(who: Option<UserID>, now: int)

  /** `refreshed` lists the tokens that were exchanged for new ones. */
  datatype World = World(db: DB, now: int, refreshed: seq<TokenID>)

  function Do(c: Config, db: DB, step: Step): (DB, Outcome) {
    match step
    case Register(r, u, t, now) => Registered(c, db, r, u, t, now)
    case Login(l, t, now, listing) => LoggedIn(c, db, l, t, now, listing)
    case Refresh(p, d, t, now) => Refreshed(c, db, p, d, t, now)
    case Logout(p, d, now) => LoggedOut(db, p, d, now)
    case LogoutAll(u, now) => LoggedOutAll(db, u)
  }

  /** The clock does not run backwards, new identifiers are new, and a query returns what it asks for. */
  predicate Enabled(w: World, step: Step) {
    && w.now <= step.now
    && (step.Register? ==> step.user !in w.db.users)
    && (step.Register? || step.Login? || step.Refresh? ==> step.token !in w.db.tokens)
    && (step.Login? && Compared(w.db, step.l, step.now).Some? ==>
          IsListing(w.db.tokens, Compared(w.db, step.l, step.now).value, step.now, step.listing))
  }

  function Next(c: Config, w: World, step: Step): World {
    var (db, outcome) := Do(c, w.db, step);
    World(db, step.now, if step.Refresh? && outcome.Issued? && step.presented.Some?
                        then w.refreshed + [step.presented.value] else w.refreshed)
  }

  function Run(c: Config, start: World, steps: seq<Step>): World {
    if steps == [] then start else Next(c, Run(c, start, steps[..|steps| - 1]), steps[|steps| - 1])
  }

  predicate IsRun(c: Config, start: World, steps: seq<Step>) {
    steps == []
    || (IsRun(c, start, steps[..|steps| - 1]) && Enabled(Run(c, start, steps[..|steps| - 1]), steps[|steps| - 1]))
  }

  const EMPTY := DB(map[], map[], map[], map[])

  // ---------- The invariant ----------

  predicate SameDevice(a: Token, b: Token) {
    a.user == b.user && a.device == b.device
  }

  predicate OnePerDevice(tokens: map<TokenID, Token>) {
    forall a, b :: a in tokens && b in tokens && SameDevice(tokens[a], tokens[b]) ==>
      tokens[a].revoked || tokens[b].revoked || a == b
  }

  ghost predicate Owned(db: DB) {
    forall t :: t in db.tokens ==> db.tokens[t].user in db.users
  }

  ghost predicate WithinLimits(c: Config, db: DB, now: int) {
    forall u :: u in db.users && 0 < c.SessionLimit(db.users[u].role) ==>
      |Live(db.tokens, u, now)| <= c.SessionLimit(db.users[u].role)
  }

  predicate RefreshedOnce(w: World) {
    && NoRepeats(w.refreshed)
    && forall t :: t in w.refreshed ==> t in w.db.tokens && w.db.tokens[t].revoked
  }

  ghost predicate Inv(c: Config, w: World) {
    OnePerDevice(w.db.tokens) && Owned(w.db) && WithinLimits(c, w.db, w.now) && RefreshedOnce(w)
  }

  lemma LiveShrinks(a: map<TokenID, Token>, b: map<TokenID, Token>, u: UserID, now: int, later: int)
    requires now <= later
    requires forall t :: t in b ==> t in a && b[t].user == a[t].user && b[t].expiresAt == a[t].expiresAt
                                    && (a[t].revoked ==> b[t].revoked)
    ensures Live(b, u, later) <= Live(a, u, now) && |Live(b, u, later)| <= |Live(a, u, now)|
  {
    Subset(Live(b, u, later), Live(a, u, now));
  }

  lemma {:induction false} Subset(a: set<TokenID>, b: set<TokenID>)
    requires a <= b
    ensures |a| <= |b|
  {
    if a == {} {
    } else {
      var x :| x in a;
      Subset(a - {x}, b - {x});
    }
  }

  /** Tokens stay and stay as they are, except that they may be revoked. */
  predicate OnlyRevoked(a: map<TokenID, Token>, b: map<TokenID, Token>) {
    && a.Keys == b.Keys
    && forall t :: t in a ==> b[t] == a[t].(revoked := b[t].revoked) && (a[t].revoked ==> b[t].revoked)
  }

  /** Roles stay, and users do. */
  predicate RolesStay(a: map<UserID, User>, b: map<UserID, User>) {
    a.Keys <= b.Keys && forall u :: u in a ==> b[u].role == a[u].role
  }

  lemma RevokingKeepsInv(c: Config, w: World, db: DB, later: int)
    requires Inv(c, w) && w.now <= later && OnlyRevoked(w.db.tokens, db.tokens)
    requires RolesStay(w.db.users, db.users) && db.users.Keys == w.db.users.Keys
    ensures Inv(c, World(db, later, w.refreshed))
  {
    forall u | u in db.users && 0 < c.SessionLimit(db.users[u].role)
      ensures |Live(db.tokens, u, later)| <= c.SessionLimit(db.users[u].role)
    {
      LiveShrinks(w.db.tokens, db.tokens, u, w.now, later);
    }
  }

  function Added(db: DB, t: TokenID, token: Token): DB {
    db.(tokens := db.tokens[t := token])
  }

  lemma AddedStaysWithinLimits(c: Config, db: DB, now: int, t: TokenID, token: Token)
    requires WithinLimits(c, db, now) && token.user in db.users && t !in db.tokens
    requires var limit := c.SessionLimit(db.users[token.user].role);
             0 < limit ==> |Live(db.tokens, token.user, now)| < limit
    ensures WithinLimits(c, Added(db, t, token), now)
  {
    var tokens := Added(db, t, token).tokens;
    forall x | x in db.users && 0 < c.SessionLimit(db.users[x].role)
      ensures |Live(tokens, x, now)| <= c.SessionLimit(db.users[x].role)
    {
      if x != token.user {
        assert Live(tokens, x, now) == Live(db.tokens, x, now);
      } else {
        Subset(Live(tokens, x, now), Live(db.tokens, x, now) + {t});
      }
    }
  }

  lemma AddedIsOnePerDevice(tokens: map<TokenID, Token>, t: TokenID, token: Token)
    requires OnePerDevice(tokens) && t !in tokens && !Collides(tokens, token.user, token.device)
    ensures OnePerDevice(tokens[t := token])
  {
  }

  lemma AddedKeepsInv(c: Config, w: World, t: TokenID, token: Token)
    requires Inv(c, w) && token.user in w.db.users
    requires t !in w.db.tokens && !Collides(w.db.tokens, token.user, token.device)
    requires var limit := c.SessionLimit(w.db.users[token.user].role);
             0 < limit ==> |Live(w.db.tokens, token.user, w.now)| < limit
    ensures Inv(c, w.(db := Added(w.db, t, token)))
  {
    AddedStaysWithinLimits(c, w.db, w.now, t, token);
    AddedIsOnePerDevice(w.db.tokens, t, token);
  }

  /** A token may be issued for a device without an unrevoked one to a user with room for one more session. */
  lemma IssueKeepsInv(c: Config, w: World, u: UserID, d: DeviceID, t: TokenID)
    requires Inv(c, w) && u in w.db.users && t !in w.db.tokens && !Collides(w.db.tokens, u, d)
    requires var limit := c.SessionLimit(w.db.users[u].role); 0 < limit ==> |Live(w.db.tokens, u, w.now)| < limit
    ensures Inv(c, w.(db := Issue(c, w.db, u, d, t, w.now).0))
    ensures Issue(c, w.db, u, d, t, w.now).1 == if c.hasSecret then Issued(t) else Failed(NoSecret)
  {
    var token := Token(u, d, w.now, w.now + c.RefreshSeconds(), false);
    AddedKeepsInv(c, w, t, token);
    assert Issue(c, w.db, u, d, t, w.now).0 == if c.hasSecret then Added(w.db, t, token) else w.db;
  }

  lemma RevokeOnlyRevokes(tokens: map<TokenID, Token>, gone: set<TokenID>)
    ensures OnlyRevoked(tokens, Revoke(tokens, gone))
  {
  }

  // ---------- Steps ----------

  lemma RegisterKeepsInv(c: Config, w: World, step: Step)
    requires Inv(c, w) && Enabled(w, step) && step.Register?
    ensures Inv(c, Next(c, w, step)) && Do(c, w.db, step).1 != Failed(Storage)
  {
    var r, u, now := step.r, step.user, step.now;
    RevokingKeepsInv(c, w, w.db, now);
    if Do(c, w.db, step).0 != w.db {
      var user := User(r.role, r.password, 0, None);
      var emails := if r.email.Some? then w.db.emails[r.email.value := u] else w.db.emails;
      var phones := if r.phone.Some? then w.db.phones[r.phone.value := u] else w.db.phones;
      var joined := World(DB(w.db.users[u := user], emails, phones, w.db.tokens), now, w.refreshed);
      assert Live(w.db.tokens, u, now) == {};
      assert WithinLimits(c, joined.db, now) by {
        forall x | x in joined.db.users && 0 < c.SessionLimit(joined.db.users[x].role)
          ensures |Live(joined.db.tokens, x, now)| <= c.SessionLimit(joined.db.users[x].role)
        {
          if x != u {
            LiveShrinks(w.db.tokens, w.db.tokens, x, w.now, now);
          }
        }
      }
      IssueKeepsInv(c, joined, u, r.device.value, step.token);
    }
  }

  /** The tokens that a successful login leaves before it issues one. */
  function Cleared(
      tokens: map<TokenID, Token>, u: UserID, d: DeviceID, listing: seq<TokenID>, limit: nat): map<TokenID, Token> {
    var kept := if 0 < limit then Revoke(tokens, Oldest(listing, limit - 1)) else tokens;
    Revoke(kept, OfDevice(kept, u, d))
  }

  lemma ClearedOnlyRevokes(tokens: map<TokenID, Token>, u: UserID, d: DeviceID, listing: seq<TokenID>, limit: nat)
    ensures OnlyRevoked(tokens, Cleared(tokens, u, d, listing, limit))
    ensures !Collides(Cleared(tokens, u, d, listing, limit), u, d)
  {
    var kept := if 0 < limit then Revoke(tokens, Oldest(listing, limit - 1)) else tokens;
    assert OnlyRevoked(tokens, kept);
    RevokeOnlyRevokes(kept, OfDevice(kept, u, d));
  }

  lemma ClearedMakesRoom(
      tokens: map<TokenID, Token>, u: UserID, d: DeviceID, now: int, listing: seq<TokenID>, limit: nat)
    requires IsListing(tokens, u, now, listing) && 0 < limit
    ensures |Live(Cleared(tokens, u, d, listing, limit), u, now)| < limit
  {
    var gone := Oldest(listing, limit - 1);
    var kept := Revoke(tokens, gone);
    OldestLeavesYoungest(tokens, u, now, listing, limit - 1);
    RevokedAreGone(tokens, u, now, gone);
    RevokeOnlyRevokes(kept, OfDevice(kept, u, d));
    LiveShrinks(kept, Revoke(kept, OfDevice(kept, u, d)), u, now, now);
  }

  /** What a successful login does before it issues a token. */
  function Prepared(c: Config, db: DB, u: UserID, d: DeviceID, listing: seq<TokenID>): DB
    requires u in db.users
  {
    db.(users := db.users[u := ResetLogin(db.users[u])],
        tokens := Cleared(db.tokens, u, d, listing, c.SessionLimit(db.users[u].role)))
  }

  lemma PreparedMakesRoom(c: Config, w: World, u: UserID, d: DeviceID, now: int, listing: seq<TokenID>)
    requires Inv(c, w) && w.now <= now && u in w.db.users && IsListing(w.db.tokens, u, now, listing)
    ensures var db := Prepared(c, w.db, u, d, listing);
            && Inv(c, World(db, now, w.refreshed)) && !Collides(db.tokens, u, d) && db.tokens.Keys == w.db.tokens.Keys
            && var limit := c.SessionLimit(w.db.users[u].role); 0 < limit ==> |Live(db.tokens, u, now)| < limit
  {
    var limit := c.SessionLimit(w.db.users[u].role);
    ClearedOnlyRevokes(w.db.tokens, u, d, listing, limit);
    RevokingKeepsInv(c, w, Prepared(c, w.db, u, d, listing), now);
    if 0 < limit {
      ClearedMakesRoom(w.db.tokens, u, d, now, listing, limit);
    }
  }

  /** A login with the right password, and any other. */
  lemma LoginUnfolds(c: Config, w: World, step: Step, u: UserID)
    requires step.Login? && Compared(w.db, step.l, step.now) == Some(u) && u in w.db.users
    requires step.l.password == w.db.users[u].password
    ensures step.l.device.Some?
    ensures var db := Prepared(c, w.db, u, step.l.device.value, step.listing);
            Do(c, w.db, step) == Issue(c, db, u, step.l.device.value, step.token, step.now)
  {
  }

  lemma RefusedLoginOnlyCounts(c: Config, w: World, step: Step)
    requires step.Login?
    requires var u := Compared(w.db, step.l, step.now);
             u.Some? ==> u.value in w.db.users && step.l.password != w.db.users[u.value].password
    ensures var (db, outcome) := Do(c, w.db, step);
            && db.tokens == w.db.tokens && RolesStay(w.db.users, db.users) && db.users.Keys == w.db.users.Keys
            && outcome != Failed(Storage)
  {
  }

  lemma LoginKeepsInv(c: Config, w: World, step: Step)
    requires Inv(c, w) && Enabled(w, step) && step.Login?
    ensures Inv(c, Next(c, w, step)) && Do(c, w.db, step).1 != Failed(Storage)
  {
    var u := Compared(w.db, step.l, step.now);
    if u.Some? && step.l.password == w.db.users[u.value].password {
      var d := step.l.device.value;
      PreparedMakesRoom(c, w, u.value, d, step.now, step.listing);
      LoginUnfolds(c, w, step, u.value);
      var prepared := World(Prepared(c, w.db, u.value, d, step.listing), step.now, w.refreshed);
      IssueKeepsInv(c, prepared, u.value, d, step.token);
    } else {
      RefusedLoginOnlyCounts(c, w, step);
      RevokingKeepsInv(c, w, Do(c, w.db, step).0, step.now);
    }
  }

  /** Revoking a session leaves its device free and makes room for one more. */
  lemma ExchangeMakesRoom(tokens: map<TokenID, Token>, p: TokenID, now: int)
    requires OnePerDevice(tokens) && p in tokens && !tokens[p].revoked && now < tokens[p].expiresAt
    ensures var after := Revoke(tokens, {p});
            && !Collides(after, tokens[p].user, tokens[p].device)
            && |Live(after, tokens[p].user, now)| < |Live(tokens, tokens[p].user, now)|
  {
    var u, after := tokens[p].user, Revoke(tokens, {p});
    RevokedAreGone(tokens, u, now, {p});
    assert p in Live(tokens, u, now);
    forall t | t in after && SameDevice(after[t], after[p])
      ensures after[t].revoked
    {
      assert SameDevice(tokens[t], tokens[p]);
    }
  }

  /** An exchanged token has not been exchanged before. */
  lemma ExchangeIsNew(w: World, db: DB, p: TokenID)
    requires RefreshedOnce(w) && p in w.db.tokens && !w.db.tokens[p].revoked
    requires OnlyRevoked(w.db.tokens, db.tokens) && db.tokens[p].revoked
    ensures RefreshedOnce(World(db, w.now, w.refreshed + [p]))
  {
    assert p !in w.refreshed;
  }

  lemma ExchangeKeepsInv(c: Config, w: World, p: TokenID, now: int)
    requires Inv(c, w) && w.now <= now && p in w.db.tokens && !w.db.tokens[p].revoked && now < w.db.tokens[p].expiresAt
    ensures var db := w.db.(tokens := Revoke(w.db.tokens, {p}));
            && Inv(c, World(db, now, w.refreshed)) && Inv(c, World(db, now, w.refreshed + [p]))
            && var u := w.db.tokens[p].user;
            && !Collides(db.tokens, u, w.db.tokens[p].device)
            && var limit := c.SessionLimit(w.db.users[u].role); 0 < limit ==> |Live(db.tokens, u, now)| < limit
  {
    var db := w.db.(tokens := Revoke(w.db.tokens, {p}));
    RevokeOnlyRevokes(w.db.tokens, {p});
    RevokingKeepsInv(c, w, db, now);
    ExchangeMakesRoom(w.db.tokens, p, now);
    LiveShrinks(w.db.tokens, w.db.tokens, w.db.tokens[p].user, w.now, now);
    ExchangeIsNew(w, db, p);
  }

  /** A refresh with a usable token: the token is revoked, and if access tokens can be signed a new one is issued. */
  lemma RefreshUnfolds(c: Config, w: World, step: Step, db: DB)
    requires step.Refresh? && step.presented.Some? && step.device.Some?
    requires Usable(w.db.tokens, step.presented.value, step.device.value, step.now)
    requires db == w.db.(tokens := Revoke(w.db.tokens, {step.presented.value}))
    requires var u := w.db.tokens[step.presented.value].user;
             u in w.db.users && step.token !in w.db.tokens && !Collides(db.tokens, u, step.device.value)
    ensures var (issued, outcome) :=
              Issue(c, db, w.db.tokens[step.presented.value].user, step.device.value, step.token, step.now);
            && Do(c, w.db, step).1 == outcome && outcome != Failed(Storage)
            && Next(c, w, step) == World(issued, step.now,
                 if c.hasSecret then w.refreshed + [step.presented.value] else w.refreshed)
            && (!c.hasSecret ==> issued == db)
  {
  }

  lemma RefreshKeepsInv(c: Config, w: World, step: Step)
    requires Inv(c, w) && Enabled(w, step) && step.Refresh?
    ensures Inv(c, Next(c, w, step)) && Do(c, w.db, step).1 != Failed(Storage)
  {
    if && step.presented.Some? && step.device.Some?
       && Usable(w.db.tokens, step.presented.value, step.device.value, step.now) {
      var p := step.presented.value;
      var u, db := w.db.tokens[p].user, w.db.(tokens := Revoke(w.db.tokens, {p}));
      ExchangeKeepsInv(c, w, p, step.now);
      RefreshUnfolds(c, w, step, db);
      IssueKeepsInv(c, World(db, step.now, w.refreshed + [p]), u, step.device.value, step.token);
    } else {
      RevokingKeepsInv(c, w, Next(c, w, step).db, step.now);
    }
  }

  lemma LogoutOnlyRevokes(c: Config, db: DB, step: Step)
    requires step.Logout? || step.LogoutAll?
    ensures var (after, outcome) := Do(c, db, step);
            && OnlyRevoked(db.tokens, after.tokens) && after.users == db.users && outcome != Failed(Storage)
  {
  }

  lemma LogoutKeepsInv(c: Config, w: World, step: Step)
    requires Inv(c, w) && Enabled(w, step) && (step.Logout? || step.LogoutAll?)
    ensures Inv(c, Next(c, w, step)) && Do(c, w.db, step).1 != Failed(Storage)
  {
    LogoutOnlyRevokes(c, w.db, step);
    RevokingKeepsInv(c, w, Do(c, w.db, step).0, step.now);
  }

  lemma StepKeepsInv(c: Config, w: World, step: Step)
    requires Inv(c, w) && Enabled(w, step)
    ensures Inv(c, Next(c, w, step)) && Do(c, w.db, step).1 != Failed(Storage)
  {
    match step
    case Register(_, _, _, _) => RegisterKeepsInv(c, w, step);
    case Login(_, _, _, _) => LoginKeepsInv(c, w, step);
    case Refresh(_, _, _, _) => RefreshKeepsInv(c, w, step);
    case Logout(_, _, _) => LogoutKeepsInv(c, w, step);
    case LogoutAll(_, _) => LogoutKeepsInv(c, w, step);
  }

  lemma {:induction false} RunKeepsInv(c: Config, now: int, steps: seq<Step>)
    requires IsRun(c, World(EMPTY, now, []), steps)
    ensures Inv(c, Run(c, World(EMPTY, now, []), steps))
  {
    if steps == [] {
    } else {
      var before := steps[..|steps| - 1];
      RunKeepsInv(c, now, before);
      StepKeepsInv(c, Run(c, World(EMPTY, now, []), before), steps[|steps| - 1]);
    }
  }

  // ---------- Sessions ----------

  /** In every run each device of a user has at most one unrevoked token, and no user has more sessions than the role
      allows. */
  lemma SessionsStayWithinLimits(c: Config, start: int, steps: seq<Step>, u: UserID)
    requires IsRun(c, World(EMPTY, start, []), steps)
    ensures var w := Run(c, World(EMPTY, start, []), steps);
            && OnePerDevice(w.db.tokens)
            && (u in w.db.users && 0 < c.SessionLimit(w.db.users[u].role) ==>
                  |Live(w.db.tokens, u, w.now)| <= c.SessionLimit(w.db.users[u].role))
  {
    RunKeepsInv(c, start, steps);
  }

  /** The unique index on devices is never what makes a request fail. */
  lemma IndexIsNeverHit(c: Config, start: int, steps: seq<Step>, step: Step)
    requires var w := World(EMPTY, start, []); IsRun(c, w, steps) && Enabled(Run(c, w, steps), step)
    ensures Do(c, Run(c, World(EMPTY, start, []), steps).db, step).1 != Failed(Storage)
  {
    RunKeepsInv(c, start, steps);
    StepKeepsInv(c, Run(c, World(EMPTY, start, []), steps), step);
  }

  /** Every refresh token is exchanged at most once. */
  lemma TokensAreExchangedOnce(c: Config, start: int, steps: seq<Step>)
    requires IsRun(c, World(EMPTY, start, []), steps)
    ensures NoRepeats(Run(c, World(EMPTY, start, []), steps).refreshed)
  {
    RunKeepsInv(c, start, steps);
  }

  /** Presenting a token that has been revoked, on whatever device, is refused and leaves its user without an unrevoked
      one. */
  lemma ReuseRevokesAll(c: Config, db: DB, p: TokenID, d: DeviceID, t: TokenID, now: int)
    requires p in db.tokens && (db.tokens[p].revoked || db.tokens[p].device != d)
    ensures var (after, outcome) := Refreshed(c, db, Some(p), Some(d), t, now);
            && outcome == Failed(InvalidCredentials)
            && (forall x :: !Unrevoked(after.tokens, x, db.tokens[p].user))
            && (forall x :: x in db.tokens && db.tokens[x].user != db.tokens[p].user ==>
                  x in after.tokens && after.tokens[x] == db.tokens[x])
  {
  }

  /** So in every run: once a token has been exchanged, presenting it again ends all sessions of its user. */
  lemma ExchangedTokenEndsSessions(
      c: Config, start: int, steps: seq<Step>, p: TokenID, d: DeviceID, t: TokenID, now: int)
    requires IsRun(c, World(EMPTY, start, []), steps) && p in Run(c, World(EMPTY, start, []), steps).refreshed
    ensures var db := Run(c, World(EMPTY, start, []), steps).db;
            && p in db.tokens
            && forall x :: !Unrevoked(Refreshed(c, db, Some(p), Some(d), t, now).0.tokens, x, db.tokens[p].user)
  {
    RunKeepsInv(c, start, steps);
    ReuseRevokesAll(c, Run(c, World(EMPTY, start, []), steps).db, p, d, t, now);
  }

  // ---------- The lock after failed logins ----------

  predicate Compares(db: DB, step: Step, u: UserID) {
    step.Login? && Compared(db, step.l, step.now) == Some(u) && u in db.users
  }

  predicate Fails(db: DB, step: Step, u: UserID) {
    Compares(db, step, u) && step.l.password != db.users[u].password
  }

  predicate Succeeds(db: DB, step: Step, u: UserID) {
    Compares(db, step, u) && step.l.password == db.users[u].password
  }

  /** How many of the steps compare a wrong password with the user's. */
  function Failures(c: Config, w: World, steps: seq<Step>, u: UserID): nat
    decreases |steps|
  {
    if steps == [] then 0
    else (if Fails(w.db, steps[0], u) then 1 else 0) + Failures(c, Next(c, w, steps[0]), steps[1..], u)
  }

  /** All steps are possible, none is later than `end`, and none of them logs the user in. */
  predicate SuccessFree(c: Config, w: World, steps: seq<Step>, u: UserID, end: int)
    decreases |steps|
  {
    steps != [] ==>
      && Enabled(w, steps[0]) && steps[0].now <= end && !Succeeds(w.db, steps[0], u)
      && SuccessFree(c, Next(c, w, steps[0]), steps[1..], u, end)
  }

  /** How many failures a user can still see up to `end`: those before the count reaches the lock, and then one per lock
      period. */
  function Allowance(db: DB, u: UserID, now: int, end: int): nat {
    var failed := if u in db.users then db.users[u].failed else 0;
    var until := if u in db.users && db.users[u].lockedUntil.Some? then db.users[u].lockedUntil.value else now;
    var from := if until < now then now else until;
    (if failed < LOCK_AFTER - 1 then LOCK_AFTER - 1 - failed else 0)
    + if from <= end then 1 + (end - from) / LOCK_SECONDS else 0
  }

  lemma LaterAllowsLess(db: DB, u: UserID, now: int, later: int, end: int)
    requires now <= later <= end
    ensures Allowance(db, u, later, end) <= Allowance(db, u, now, end)
  {
  }

  lemma FailureCosts(db: DB, u: UserID, now: int, end: int)
    requires u in db.users && !Locked(db.users[u], now) && now <= end
    ensures var after := db.(users := db.users[u := FailLogin(db.users[u], LOCK_AFTER, LOCK_SECONDS, now)]);
            Allowance(after, u, now, end) + 1 <= Allowance(db, u, now, end)
  {
  }

  lemma OthersKeepAllowance(c: Config, w: World, step: Step, u: UserID, end: int)
    requires Enabled(w, step) && step.now <= end && !Compares(w.db, step, u)
    ensures Allowance(Do(c, w.db, step).0, u, step.now, end) == Allowance(w.db, u, step.now, end)
  {
  }

  lemma {:induction false} FailuresWithinAllowance(c: Config, w: World, steps: seq<Step>, u: UserID, end: int)
    requires SuccessFree(c, w, steps, u, end) && w.now <= end
    ensures Failures(c, w, steps, u) <= Allowance(w.db, u, w.now, end)
    decreases |steps|
  {
    if steps == [] {
    } else {
      var step := steps[0];
      LaterAllowsLess(w.db, u, w.now, step.now, end);
      if Fails(w.db, step, u) {
        FailureCosts(w.db, u, step.now, end);
      } else {
        OthersKeepAllowance(c, w, step, u, end);
      }
      FailuresWithinAllowance(c, Next(c, w, step), steps[1..], u, end);
    }
  }

  /** From any state, in T seconds without a successful login, at most 5 + T / 900 wrong passwords are compared. */
  lemma LoginsAreThrottled(c: Config, w: World, steps: seq<Step>, u: UserID, seconds: nat)
    requires SuccessFree(c, w, steps, u, w.now + seconds)
    ensures Failures(c, w, steps, u) <= LOCK_AFTER + seconds / LOCK_SECONDS
  {
    FailuresWithinAllowance(c, w, steps, u, w.now + seconds);
  }
}
