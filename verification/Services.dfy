/**
 The Auth services over one database session. Every method goes through the
 repositories commit by commit; its contract says that it ends with the reply
 `Requests` specifies, or at the stage the last successful commit reached.
 */
module Services {
  import opened Outcomes
  import opened Identity
  import opened Requests
  import opened Persistence
  import opened SessionMachine
  import opened Staleness

  const CACHE_TTL: int := 60_000_000  // 60 s

  const MAX_ENTRIES: nat := 10_000

  datatype CacheEntry = CacheEntry(state: UserState, storedAt: Time)

  type CacheEntries = map<UserId, CacheEntry>

  function Unexpired(entries: CacheEntries, now: Time): CacheEntries {
    map u | u in entries && now < entries[u].storedAt + CACHE_TTL :: entries[u]
  }

  /** Setting an entry drops the expired ones, and `victim` if there is still no room for a new one. */
  function WithEntry(entries: CacheEntries, u: UserId, state: UserState, now: Time, victim: UserId): CacheEntries {
    var live := Unexpired(entries, now);
    (if u !in live && |live| >= MAX_ENTRIES then live - {victim} else live)[u := CacheEntry(state, now)]
  }

  lemma UnexpiredIsSmaller(entries: CacheEntries, now: Time)
    ensures |Unexpired(entries, now)| <= |entries|
  {
    assert entries.Keys == Unexpired(entries, now).Keys + (entries.Keys - Unexpired(entries, now).Keys);
  }

  lemma DroppingMakesRoom(entries: CacheEntries, u: UserId)
    requires u in entries
    ensures |entries - {u}| == |entries| - 1
  {
    assert (entries - {u}).Keys == entries.Keys - {u};
  }

  lemma PuttingTakesRoom(entries: CacheEntries, u: UserId, entry: CacheEntry)
    ensures |entries[u := entry]| == if u in entries then |entries| else |entries| + 1
  {
    assert entries[u := entry].Keys == entries.Keys + {u};
  }

  /** The process-local cache in front of the users table: at most 10,000 entries of 60 s each. */
  class UserStateCache {
    var entries: CacheEntries

    ghost predicate Valid()
      reads this
    {
      |entries| <= MAX_ENTRIES
    }

    constructor ()
      ensures entries == map[] && Valid()
    {
      entries := map[];
    }

    method Get(u: UserId, now: Time) returns (hit: Option<UserState>)
      modifies this
      ensures hit == (if u in old(entries) && now < old(entries)[u].storedAt + CACHE_TTL then Some(old(entries)[u].state) else None)
      ensures entries == (if hit == None then old(entries) - {u} else old(entries)) && |entries| <= |old(entries)|
    {
      hit := None;
      if u in entries {
        if now < entries[u].storedAt + CACHE_TTL {
          return Some(entries[u].state);
        }
        assert (entries - {u}).Keys == entries.Keys - {u};
        entries := entries - {u};
      }
    }

    /** Which live entry goes when the cache is full is up to the store. */
    method Set(u: UserId, state: UserState, now: Time) returns (ghost victim: UserId)
      requires Valid()
      modifies this
      ensures Valid() && entries == WithEntry(old(entries), u, state, now, victim)
      ensures
        var live := set v | v in old(entries) && now < old(entries)[v].storedAt + 60_000_000;
        var full := u !in live && |live| >= 10_000;
        && (full ==> victim in live)
        && entries.Keys == (if full then live - {victim} else live) + {u} && entries[u] == CacheEntry(state, now)
        && forall v :: v in entries && v != u ==> entries[v] == old(entries)[v]
    {
      UnexpiredIsSmaller(entries, now);
      assert Unexpired(entries, now).Keys == set v | v in entries && now < entries[v].storedAt + 60_000_000;
      ghost var live := Unexpired(entries, now).Keys;
      hide Unexpired;
      entries := Unexpired(entries, now);
      victim := u;
      if u !in entries && |entries| >= MAX_ENTRIES {
        var dropped :| dropped in entries;
        victim := dropped;
        DroppingMakesRoom(entries, dropped);
        entries := entries - {dropped};
      }
      PuttingTakesRoom(entries, u, CacheEntry(state, now));
      entries := entries[u := CacheEntry(state, now)];
    }

    method Invalidate(u: UserId)
      modifies this
      ensures entries == old(entries) - {u}
    {
      entries := entries - {u};
    }
  }

  class UserStateService {
    const db: Session
    const cache: UserStateCache

    constructor (db: Session, cache: UserStateCache)
      ensures this.db == db && this.cache == cache
    {
      this.db, this.cache := db, cache;
    }

    /** A live entry answers; otherwise the row does, and the answer is remembered for 60 s. */
    method GetUserState(u: UserId, now: Time) returns (state: Option<UserState>, ghost victim: UserId)
      requires cache.Valid()
      modifies cache
      ensures cache.Valid()
      ensures u in old(cache.entries) && now < old(cache.entries)[u].storedAt + CACHE_TTL ==>
        state == Some(old(cache.entries)[u].state) && cache.entries == old(cache.entries)
      ensures !(u in old(cache.entries) && now < old(cache.entries)[u].storedAt + CACHE_TTL) ==>
        if u in db.working.users then
          var row := db.working.users[u];
          && state == Some(UserState(row.isActive, row.isBlocked, row.role, row.passwordChangedAt))
          && cache.entries == WithEntry(old(cache.entries) - {u}, u, state.value, now, victim)
        else
          state == None && cache.entries == old(cache.entries) - {u}
    {
      state := cache.Get(u, now);
      victim := u;
      if state.Some? {
        return;
      }
      if u !in db.working.users {
        return None, u;
      }
      state := Some(StateOf(db.working.users[u]));
      victim := cache.Set(u, state.value, now);
    }
  }

  // ------------------------------------------- the column updates of the services

  /** What the columns set to `row`, with its address kept, make of the tables. */
  ghost predicate Sets(t: Tables, u: UserId, fields: seq<Field>, row: UserRow)
    requires u in t.users
  {
    && (forall f :: f in fields ==> !f.Unknown?)
    && SetFields(t.users[u], fields).email == t.users[u].email
    && ReplaceUser(t, u, SetFields(t.users[u], fields)) == WithUser(t, u, row)
  }

  lemma SetsPassword(t: Tables, u: UserId, password: string, now: Time)
    requires u in t.users
    ensures Sets(t, u, [Password(password), PasswordChangedAt(now)], t.users[u].(password := password, passwordChangedAt := now))
  {
    SetFieldsInOrder(t.users[u], Password(password), PasswordChangedAt(now), IsVerified(true));
  }

  lemma SetsVerified(t: Tables, u: UserId, now: Time)
    requires u in t.users
    ensures Sets(t, u, [IsVerified(true), EmailVerifiedAt(Some(now))], t.users[u].(isVerified := true, emailVerifiedAt := Some(now)))
  {
    SetFieldsInOrder(t.users[u], IsVerified(true), EmailVerifiedAt(Some(now)), IsVerified(true));
  }

  lemma SetsDisabled(t: Tables, u: UserId, now: Time)
    requires u in t.users
    ensures Sets(t, u, [IsActive(false), DisabledAt(Some(now))], Disabled(t.users[u], now))
  {
    SetFieldsInOrder(t.users[u], IsActive(false), DisabledAt(Some(now)), IsActive(false));
  }

  lemma SetsEnabled(t: Tables, u: UserId)
    requires u in t.users
    ensures Sets(t, u, [IsActive(true), DisabledAt(None)], Enabled(t.users[u]))
  {
    SetFieldsInOrder(t.users[u], IsActive(true), DisabledAt(None), IsActive(true));
  }

  lemma SetsBlocked(t: Tables, u: UserId, now: Time, reason: Option<string>)
    requires u in t.users
    ensures Sets(t, u, [IsBlocked(true), BlockedAt(Some(now)), BlockedReason(reason)], Blocked(t.users[u], now, reason))
  {
    SetFieldsInOrder(t.users[u], IsBlocked(true), BlockedAt(Some(now)), BlockedReason(reason));
  }

  lemma SetsUnblocked(t: Tables, u: UserId)
    requires u in t.users
    ensures Sets(t, u, [IsBlocked(false), BlockedAt(None), BlockedReason(None)], Unblocked(t.users[u]))
  {
    SetFieldsInOrder(t.users[u], IsBlocked(false), BlockedAt(None), BlockedReason(None));
  }

  class EmailVerificationService {
    const cfg: Settings
    const db: Session
    const users: UserRepository
    const tokens: EmailVerificationRepository

    ghost predicate Wired()
    {
      users.db == db && tokens.db == db
    }

    constructor (cfg: Settings, db: Session)
      ensures Wired() && this.cfg == cfg && this.db == db
    {
      this.cfg, this.db := cfg, db;
      users := new UserRepository(db);
      tokens := new EmailVerificationRepository(db);
    }

    /** Stores a fresh token; the mail itself may fail afterwards without further effect. */
    method SendVerificationEmail(u: UserId, now: Time) returns (ok: bool)
      requires Wired() && db.Clean()
      modifies db
      ensures db.Clean() && db.commits == old(db.commits) + 1 && ok == (old(db.commits) !in db.outages)
      ensures db.committed == if ok then SendVerification(cfg, old(db.committed), now, u, old(db.nextId)) else old(db.committed)
    {
      var d;
      d, ok := tokens.CreateToken(u, now + cfg.verificationTtl);
    }

    method VerifyEmail(d: Digest, now: Time) returns (outcome: Outcome)
      requires Wired() && db.Clean()
      modifies db
      ensures var t := old(db.committed);
        db.Ended(old(db.commits), VerifyStages(t, d, now), Requests.VerifyEmail(t, now, d), outcome)
    {
      hide SetFields, ReplaceUser;
      var invalid := ValidateOneTime(db.working.verifications, d, now);
      if invalid.Some? {
        return Failed(invalid.value);
      }
      var u := db.working.verifications[d].userId;
      if u !in db.working.users {
        return Failed(UserNotFound);
      }
      if !db.working.users[u].isVerified {
        SetsVerified(db.working, u, now);
        var updateError := users.UpdateUser(u, [IsVerified(true), EmailVerifiedAt(Some(now))], true);
        if updateError.Some? {
          return Failed(updateError.value);
        }
      } else {
        assert WithUser(db.working, u, db.working.users[u]) == db.working;
      }
      var error := tokens.MarkAsUsed(d);
      outcome := if error == None then Done else Failed(error.value);
    }

    method ResendVerification(email: string, now: Time) returns (outcome: Outcome)
      requires Wired() && db.Clean()
      modifies db
      ensures var t := old(db.committed);
        db.Ended(old(db.commits), ResendStages(t, email), Requests.ResendVerification(cfg, t, now, old(db.nextId), email), outcome)
    {
      if email !in db.working.emails || db.working.emails[email] !in db.working.users {
        return Failed(UserNotFound);
      }
      var u := db.working.emails[email];
      if db.working.users[u].isVerified {
        return Failed(EmailAlreadyVerified);
      }
      var retired := tokens.InvalidateUnusedTokens(u);
      if !retired {
        return Failed(Storage);
      }
      var sent := SendVerificationEmail(u, now);
      outcome := if sent then Done else Failed(Storage);
    }
  }

  class AuthService {
    const cfg: Settings
    const db: Session
    const users: UserRepository
    const refreshTokens: RefreshTokenRepository
    const emailVerification: EmailVerificationService

    ghost predicate Wired()
    {
      && users.db == db && refreshTokens.db == db
      && emailVerification.db == db && emailVerification.cfg == cfg && emailVerification.Wired()
    }

    constructor (cfg: Settings, db: Session)
      ensures Wired() && this.cfg == cfg && this.db == db
    {
      this.cfg, this.db := cfg, db;
      users := new UserRepository(db);
      refreshTokens := new RefreshTokenRepository(db);
      emailVerification := new EmailVerificationService(cfg, db);
    }

    method Register(email: string, password: string, now: Time) returns (outcome: Outcome)
      requires Wired() && db.Clean()
      modifies db
      ensures var t, next := old(db.committed), old(db.nextId);
        db.Ended(old(db.commits), [t, InsertUser(t, next, NewUser(email, password, USER, false, now))],
                 Requests.Register(cfg, t, now, next, email, password), outcome)
    {
      var u, error := users.CreateUser(email, password, USER, false, now);
      if error.Some? {
        return Failed(error.value);
      }
      var sent := emailVerification.SendVerificationEmail(u, now);
      outcome := if sent then Done else Failed(Storage);
    }

    method Login(email: string, password: string, required: Option<set<Role>>, now: Time) returns (outcome: Outcome)
      requires Wired() && db.Clean()
      modifies db
      ensures var t := old(db.committed);
        db.Ended(old(db.commits), [t], Requests.Login(cfg, t, now, old(db.nextId), email, password, required), outcome)
    {
      if email !in db.working.emails || db.working.emails[email] !in db.working.users {
        return Failed(InvalidCredentials);
      }
      var u := db.working.emails[email];
      var row := db.working.users[u];
      if row.password != password {
        return Failed(InvalidCredentials);
      }
      if RoleMissing(row, required) {
        return Failed(Forbidden);
      }
      var denied := Inaccessible(row);
      if denied.Some? {
        return Failed(denied.value);
      }
      var access := MintFor(u, row);
      var d, ok := refreshTokens.Create(u, now + cfg.refreshTtl);
      outcome := if ok then Issued(access, d) else Failed(Storage);
    }

    /** A revoked token revokes every session of its user before the request fails. */
    method Refresh(presented: Digest, required: Option<set<Role>>, now: Time) returns (outcome: Outcome)
      requires Wired() && db.Clean()
      modifies db
      ensures var t := old(db.committed);
        db.Ended(old(db.commits), [t], Requests.Refresh(cfg, t, now, old(db.nextId), presented, required), outcome)
    {
      if presented !in db.working.refresh {
        return Failed(InvalidToken);
      }
      var stored := db.working.refresh[presented];
      if stored.isRevoked {
        var ok := refreshTokens.RevokeAllTokens(stored.userId, true);
        return Failed(if ok then RevokedToken else Storage);
      }
      if stored.expiresAt <= now {
        return Failed(ExpiredToken);
      }
      if stored.userId !in db.working.users {
        return Failed(UserNotFound);
      }
      var row := db.working.users[stored.userId];
      var denied := Inaccessible(row);
      if denied.Some? {
        return Failed(denied.value);
      }
      if RoleMissing(row, required) {
        return Failed(Forbidden);
      }
      var d, error := refreshTokens.RotateToken(presented, stored.userId, now + cfg.refreshTtl);
      outcome := if error == None then Issued(MintFor(stored.userId, row), d) else Failed(error.value);
    }

    method Logout(presented: Digest) returns (outcome: Outcome)
      requires Wired() && db.Clean()
      modifies db
      ensures var t := old(db.committed);
        db.Ended(old(db.commits), [t], Requests.Logout(t, presented), outcome)
    {
      if presented !in db.working.refresh {
        return Failed(InvalidToken);
      }
      outcome := Done;
      if !db.working.refresh[presented].isRevoked {
        var error := refreshTokens.RevokeToken(presented);
        outcome := if error == None then Done else Failed(error.value);
      }
    }

    /** The user of a decoded access token: the account's flags play no part, a password change since the minting does. */
    method ResolveUser(isAccess: bool, claimed: Option<UserId>, pwdTs: PwdTs)
      returns (user: UserId, error: Option<Error>)
      ensures error == None <==>
        && isAccess && claimed.Some? && claimed.value in db.working.users
        && !AuthRejects(pwdTs, Some(db.working.users[claimed.value].passwordChangedAt))
      ensures error == None ==> claimed == Some(user)
      ensures error == Some(UserNotFound) <==> isAccess && claimed.Some? && claimed.value !in db.working.users
      ensures error.Some? && error.value != UserNotFound ==> error.value == InvalidToken
    {
      user := if claimed.Some? then claimed.value else 0;
      if !isAccess || claimed.None? {
        return user, Some(InvalidToken);
      }
      if user !in db.working.users {
        return user, Some(UserNotFound);
      }
      error := RejectIfStale(pwdTs, db.working.users[user]);
    }

    static method RejectIfStale(pwdTs: PwdTs, row: UserRow) returns (error: Option<Error>)
      ensures error == if AuthRejects(pwdTs, Some(row.passwordChangedAt)) then Some(InvalidToken) else None
    {
      var current := row.passwordChangedAt;
      if pwdTs.Numeric? && pwdTs.at < current {
        return Some(InvalidToken);
      }
      error := None;
    }
  }

  class PasswordManagementService {
    const cfg: Settings
    const db: Session
    const cache: UserStateCache
    const users: UserRepository
    const refreshTokens: RefreshTokenRepository

    ghost predicate Wired()
    {
      users.db == db && refreshTokens.db == db
    }

    constructor (cfg: Settings, db: Session, cache: UserStateCache)
      ensures Wired() && this.cfg == cfg && this.db == db && this.cache == cache
    {
      this.cfg, this.db, this.cache := cfg, db, cache;
      users := new UserRepository(db);
      refreshTokens := new RefreshTokenRepository(db);
    }

    /** Password, timestamp and revocations are one commit: on a storage failure nothing changed. */
    method ChangePassword(u: UserId, current: string, password: string, keep: Option<Digest>, now: Time)
      returns (outcome: Outcome)
      requires Wired() && db.Clean()
      modifies db, cache
      ensures var t := old(db.committed);
        db.Ended(old(db.commits), [t], Requests.ChangePassword(cfg, t, now, u, current, password, keep), outcome)
      ensures cache.entries == if outcome.Done? then old(cache.entries) - {u} else old(cache.entries)
    {
      hide SetFields, ReplaceUser;
      if u !in db.working.users {
        return Failed(UserNotFound);
      }
      var row := db.working.users[u];
      if row.password != current {
        return Failed(InvalidCredentials);
      }
      if row.password == password {
        return Failed(PasswordReuse);
      }
      SetsPassword(db.working, u, password, now);
      var error := users.UpdateUser(u, [Password(password), PasswordChangedAt(now)], false);
      RevokeSessions(u, keep);
      var ok := db.Commit();
      if !ok {
        return Failed(Storage);
      }
      cache.Invalidate(u);
      outcome := Done;
    }

    method RevokeSessions(u: UserId, keep: Option<Digest>)
      requires Wired()
      modifies db
      ensures db.working == Requests.RevokeSessions(cfg, old(db.working), u, keep)
      ensures db.committed == old(db.committed) && db.commits == old(db.commits)
    {
      if cfg.keepCurrentSession && keep.Some? {
        var rows := db.working.refresh;
        if keep.value in rows && rows[keep.value].userId == u && !rows[keep.value].isRevoked {
          var kept := refreshTokens.RevokeAllTokensExcept(u, keep.value, false);
          return;
        }
      }
      var ok := refreshTokens.RevokeAllTokens(u, false);
    }
  }

  class PasswordResetService {
    const cfg: Settings
    const db: Session
    const cache: UserStateCache
    const users: UserRepository
    const tokens: PasswordResetRepository
    const refreshTokens: RefreshTokenRepository

    ghost predicate Wired()
    {
      users.db == db && tokens.db == db && refreshTokens.db == db
    }

    constructor (cfg: Settings, db: Session, cache: UserStateCache)
      ensures Wired() && this.cfg == cfg && this.db == db && this.cache == cache
    {
      this.cfg, this.db, this.cache := cfg, db, cache;
      users := new UserRepository(db);
      tokens := new PasswordResetRepository(db);
      refreshTokens := new RefreshTokenRepository(db);
    }

    method RequestPasswordReset(email: string, now: Time) returns (outcome: Outcome)
      requires Wired() && db.Clean()
      modifies db
      ensures var t := old(db.committed);
        db.Ended(old(db.commits), RequestResetStages(t, email), RequestReset(cfg, t, now, old(db.nextId), email), outcome)
    {
      if email !in db.working.emails {
        return Done;
      }
      var u := db.working.emails[email];
      var retired := tokens.InvalidateUnusedTokens(u);
      if !retired {
        return Failed(Storage);
      }
      var d, ok := tokens.CreateToken(u, now + cfg.resetTtl);
      outcome := if ok then Done else Failed(Storage);
    }

    method ResetPassword(d: Digest, password: string, now: Time) returns (outcome: Outcome)
      requires Wired() && db.Clean()
      modifies db, cache
      ensures var t := old(db.committed);
        db.Ended(old(db.commits), [t], Requests.ResetPassword(t, now, d, password), outcome)
      ensures cache.entries ==
        if outcome.Done? then old(cache.entries) - Dropped(old(db.committed), ResetPasswordReq(d, password)) else old(cache.entries)
    {
      var invalid := ValidateOneTime(db.working.resets, d, now);
      if invalid.Some? {
        return Failed(invalid.value);
      }
      var u := db.working.resets[d].userId;
      if u !in db.working.users {
        return Failed(UserNotFound);
      }
      outcome := Redeem(d, u, password, now);
    }

    /**
     The transaction of a redemption, from whatever tables it finds: another
     request may have used the token or deleted the user since it was validated.
     */
    method Redeem(d: Digest, u: UserId, password: string, now: Time) returns (outcome: Outcome)
      requires Wired() && db.Clean()
      modifies db, cache
      ensures var t := old(db.committed);
        db.Ended(old(db.commits), [t], RedeemOutcome(t, d, u, password, now), outcome)
      ensures cache.entries == if outcome.Done? then old(cache.entries) - {u} else old(cache.entries)
    {
      hide SetFields, ReplaceUser;
      var consumed, _ := tokens.ConsumeToken(d, false);
      if !consumed {
        db.Rollback();
        return Failed(UsedToken);
      }
      if u in db.working.users {
        SetsPassword(db.working, u, password, now);
      }
      var error := users.UpdateUser(u, [Password(password), PasswordChangedAt(now)], false);
      if error.Some? {
        db.Rollback();
        return Failed(error.value);
      }
      var revoked := refreshTokens.RevokeAllTokens(u, false);
      var ok := db.Commit();
      if !ok {
        return Failed(Storage);
      }
      cache.Invalidate(u);
      outcome := Done;
    }
  }

  function RedeemOutcome(t: Tables, d: Digest, u: UserId, password: string, now: Time): Reply {
    if d !in t.resets || t.resets[d].isUsed then Reject(t, UsedToken)
    else if u !in t.users then Reject(t, RecordNotFound)
    else Reply(RedeemReset(t, d, u, password, now), Done)
  }

  class AccountService {
    const db: Session
    const cache: UserStateCache
    const users: UserRepository
    const refreshTokens: RefreshTokenRepository
    const resets: PasswordResetRepository
    const verifications: EmailVerificationRepository

    ghost predicate Wired()
    {
      users.db == db && refreshTokens.db == db && resets.db == db && verifications.db == db
    }

    constructor (db: Session, cache: UserStateCache)
      ensures Wired() && this.db == db && this.cache == cache
    {
      this.db, this.cache := db, cache;
      users := new UserRepository(db);
      refreshTokens := new RefreshTokenRepository(db);
      resets := new PasswordResetRepository(db);
      verifications := new EmailVerificationRepository(db);
    }

    method DisableAccount(u: UserId, password: string, now: Time) returns (outcome: Outcome)
      requires Wired() && db.Clean()
      modifies db, cache
      ensures var t := old(db.committed);
        db.Ended(old(db.commits), [t], Requests.DisableAccount(t, now, u, password), outcome)
      ensures cache.entries == if outcome.Done? then old(cache.entries) - {u} else old(cache.entries)
    {
      hide SetFields, ReplaceUser;
      if u !in db.working.users {
        return Failed(UserNotFound);
      }
      var row := db.working.users[u];
      if row.password != password {
        return Failed(InvalidCredentials);
      }
      if row.isBlocked {
        return Failed(BlockedUser);
      }
      if !row.isActive {
        return Failed(NoChange);
      }
      SetsDisabled(db.working, u, now);
      var error := users.UpdateUser(u, [IsActive(false), DisabledAt(Some(now))], false);
      var revoked := refreshTokens.RevokeAllTokens(u, false);
      var ok := db.Commit();
      if !ok {
        return Failed(Storage);
      }
      cache.Invalidate(u);
      outcome := Done;
    }

    method EnableAccount(email: string, password: string) returns (outcome: Outcome)
      requires Wired() && db.Clean()
      modifies db, cache
      ensures var t := old(db.committed);
        db.Ended(old(db.commits), [t], Requests.EnableAccount(t, email, password), outcome)
      ensures cache.entries ==
        if outcome.Done? then old(cache.entries) - Dropped(old(db.committed), EnableReq(email, password)) else old(cache.entries)
    {
      hide SetFields, ReplaceUser;
      if email !in db.working.emails || db.working.emails[email] !in db.working.users {
        return Failed(InvalidCredentials);
      }
      var u := db.working.emails[email];
      var row := db.working.users[u];
      if row.password != password {
        return Failed(InvalidCredentials);
      }
      if row.isBlocked {
        return Failed(BlockedUser);
      }
      if row.isActive {
        return Failed(NoChange);
      }
      SetsEnabled(db.working, u);
      var error := users.UpdateUser(u, [IsActive(true), DisabledAt(None)], true);
      if error.Some? {
        return Failed(error.value);
      }
      cache.Invalidate(u);
      outcome := Done;
    }

    /** Three commits: the pending revocations ride on the first one. */
    method DeleteAccount(u: UserId, password: string, confirm: bool) returns (outcome: Outcome)
      requires Wired() && db.Clean()
      modifies db, cache
      ensures var t := old(db.committed);
        db.Ended(old(db.commits), DeleteStages(t, u), Requests.DeleteAccount(t, u, password, confirm), outcome)
      ensures cache.entries == if outcome.Done? then old(cache.entries) - {u} else old(cache.entries)
    {
      if u !in db.working.users {
        return Failed(UserNotFound);
      }
      if !confirm {
        return Failed(NotConfirmed);
      }
      if db.working.users[u].password != password {
        return Failed(InvalidCredentials);
      }
      ghost var t := db.committed;
      var revoked := refreshTokens.RevokeAllTokens(u, false);
      var first := verifications.InvalidateUnusedTokens(u);
      if !first {
        return Failed(Storage);
      }
      var second := resets.InvalidateUnusedTokens(u);
      if !second {
        return Failed(Storage);
      }
      var error := users.Delete(u);
      if error.Some? {
        return Failed(error.value);
      }
      DeletingForgetsTokens(t, u);
      cache.Invalidate(u);
      outcome := Done;
    }
  }

  ghost function DeleteStages(t: Tables, u: UserId): seq<Tables> {
    var t1 := RevokeAll(t, u).(verifications := UseAll(t.verifications, u));
    [t, t1, t1.(resets := UseAll(t.resets, u))]
  }

  /** What the earlier commits of a deletion did to the user's tokens is gone with the user. */
  lemma DeletingForgetsTokens(t: Tables, u: UserId)
    requires u in t.users
    ensures DeleteUser(DeleteStages(t, u)[2], u) == DeleteUser(t, u)
  {
  }

  class AdminUserManagementService {
    const db: Session
    const cache: UserStateCache
    const users: UserRepository
    const refreshTokens: RefreshTokenRepository

    ghost predicate Wired()
    {
      users.db == db && refreshTokens.db == db
    }

    constructor (db: Session, cache: UserStateCache)
      ensures Wired() && this.db == db && this.cache == cache
    {
      this.db, this.cache := db, cache;
      users := new UserRepository(db);
      refreshTokens := new RefreshTokenRepository(db);
    }

    /** Two commits: a failure of the second leaves the user blocked with the sessions alive and the cache untouched. */
    method BlockUser(u: UserId, reason: Option<string>, now: Time) returns (outcome: Outcome)
      requires Wired() && db.Clean()
      modifies db, cache
      ensures var t := old(db.committed);
        db.Ended(old(db.commits), if u in t.users then [t, WithUser(t, u, Blocked(t.users[u], now, reason))] else [t],
                 Requests.BlockUser(t, now, u, reason), outcome)
      ensures cache.entries == if outcome.Done? then old(cache.entries) - {u} else old(cache.entries)
    {
      hide SetFields, ReplaceUser;
      if u !in db.working.users {
        return Failed(RecordNotFound);
      }
      var row := db.working.users[u];
      if IsAdmin(row) {
        return Failed(AdminTarget);
      }
      if row.isBlocked {
        return Failed(NoChange);
      }
      SetsBlocked(db.working, u, now, reason);
      var error := users.UpdateUser(u, [IsBlocked(true), BlockedAt(Some(now)), BlockedReason(reason)], true);
      if error.Some? {
        return Failed(error.value);
      }
      var ok := refreshTokens.RevokeAllTokens(u, true);
      if !ok {
        return Failed(Storage);
      }
      cache.Invalidate(u);
      outcome := Done;
    }

    method UnblockUser(u: UserId) returns (outcome: Outcome)
      requires Wired() && db.Clean()
      modifies db, cache
      ensures var t := old(db.committed);
        db.Ended(old(db.commits), [t], Requests.UnblockUser(t, u), outcome)
      ensures cache.entries == if outcome.Done? then old(cache.entries) - {u} else old(cache.entries)
    {
      hide SetFields, ReplaceUser;
      if u !in db.working.users {
        return Failed(RecordNotFound);
      }
      var row := db.working.users[u];
      if !row.isBlocked {
        return Failed(NoChange);
      }
      SetsUnblocked(db.working, u);
      var error := users.UpdateUser(u, [IsBlocked(false), BlockedAt(None), BlockedReason(None)], true);
      if error.Some? {
        return Failed(error.value);
      }
      cache.Invalidate(u);
      outcome := Done;
    }

    method DeactivateUser(u: UserId, now: Time) returns (outcome: Outcome)
      requires Wired() && db.Clean()
      modifies db, cache
      ensures var t := old(db.committed);
        db.Ended(old(db.commits), if u in t.users then [t, WithUser(t, u, Disabled(t.users[u], now))] else [t],
                 Requests.DeactivateUser(t, now, u), outcome)
      ensures cache.entries == if outcome.Done? then old(cache.entries) - {u} else old(cache.entries)
    {
      hide SetFields, ReplaceUser;
      if u !in db.working.users {
        return Failed(RecordNotFound);
      }
      var row := db.working.users[u];
      if IsAdmin(row) {
        return Failed(AdminTarget);
      }
      if !row.isActive {
        return Failed(NoChange);
      }
      SetsDisabled(db.working, u, now);
      var error := users.UpdateUser(u, [IsActive(false), DisabledAt(Some(now))], true);
      if error.Some? {
        return Failed(error.value);
      }
      var ok := refreshTokens.RevokeAllTokens(u, true);
      if !ok {
        return Failed(Storage);
      }
      cache.Invalidate(u);
      outcome := Done;
    }

    method ActivateUser(u: UserId) returns (outcome: Outcome)
      requires Wired() && db.Clean()
      modifies db, cache
      ensures var t := old(db.committed);
        db.Ended(old(db.commits), [t], Requests.ActivateUser(t, u), outcome)
      ensures cache.entries == if outcome.Done? then old(cache.entries) - {u} else old(cache.entries)
    {
      hide SetFields, ReplaceUser;
      if u !in db.working.users {
        return Failed(RecordNotFound);
      }
      var row := db.working.users[u];
      if row.isActive {
        return Failed(NoChange);
      }
      SetsEnabled(db.working, u);
      var error := users.UpdateUser(u, [IsActive(true), DisabledAt(None)], true);
      if error.Some? {
        return Failed(error.value);
      }
      cache.Invalidate(u);
      outcome := Done;
    }

    method DeleteUser(u: UserId) returns (outcome: Outcome)
      requires Wired() && db.Clean()
      modifies db, cache
      ensures var t := old(db.committed);
        db.Ended(old(db.commits), [t], AdminDeleteUser(t, u), outcome)
      ensures cache.entries == if outcome.Done? then old(cache.entries) - {u} else old(cache.entries)
    {
      if u !in db.working.users {
        return Failed(RecordNotFound);
      }
      if IsAdmin(db.working.users[u]) {
        return Failed(AdminTarget);
      }
      ghost var t := db.committed;
      var revoked := refreshTokens.RevokeAllTokens(u, false);
      var error := users.Delete(u);
      if error.Some? {
        return Failed(error.value);
      }
      DeletingForgetsRevocations(t, u);
      cache.Invalidate(u);
      outcome := Done;
    }
  }

  lemma DeletingForgetsRevocations(t: Tables, u: UserId)
    requires u in t.users
    ensures Identity.DeleteUser(RevokeAll(t, u), u) == Identity.DeleteUser(t, u)
  {
  }

  /** Flipping the flag and consuming the token are two commits, the first only for an unverified user. */
  ghost function VerifyStages(t: Tables, d: Digest, now: Time): seq<Tables> {
    if d in t.verifications && t.verifications[d].userId in t.users then
      var u := t.verifications[d].userId;
      if t.users[u].isVerified then [t] else [t, WithUser(t, u, Verified(t.users[u], now))]
    else [t]
  }

  ghost function ResendStages(t: Tables, email: string): seq<Tables> {
    if email in t.emails then [t, t.(verifications := UseAll(t.verifications, t.emails[email]))] else [t]
  }

  ghost function RequestResetStages(t: Tables, email: string): seq<Tables> {
    if email in t.emails then [t, t.(resets := UseAll(t.resets, t.emails[email]))] else [t]
  }
}
