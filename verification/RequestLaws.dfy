/**
 What the callers of the Auth service get, written out column by column, and how
 requests answer each other: what one opens another closes.
 */
module RequestLaws {
  import opened Outcomes
  import opened Identity
  import opened Requests
  import opened SessionMachine
  import opened SessionRuns

  lemma NextIsUnused(t: Tables, next: nat)
    requires TablesSound(t, next)
    ensures next !in t.users && next !in t.refresh && next !in t.resets
    ensures next !in t.verifications && next + 1 !in t.verifications
  {
    assert Holds(UsersClause, t, next);
    assert Holds(ChainsClause, t, next);
    assert Holds(ResetsClause, t, next);
    assert Holds(VerificationsClause, t, next);
  }

  lemma RowsAreOpenOrDated(t: Tables, next: nat, u: UserId)
    requires TablesSound(t, next) && u in t.users
    ensures t.users[u].email in t.emails && t.emails[t.users[u].email] == u
    ensures (t.users[u].isActive <==> t.users[u].disabledAt == None) && (t.users[u].isBlocked <==> t.users[u].blockedAt.Some?)
  {
    assert Holds(UsersClause, t, next);
  }

  // ------------------------------------------------------------- opening an account

  /** The account a registration opens, and the token that comes with it. */
  lemma RegistrationOpensAnAccount(cfg: Settings, t: Tables, now: Time, next: nat, email: string, password: string)
    ensures
      var reply := Serve(cfg, t, now, next, RegisterReq(email, password));
      if email in t.emails then reply == Reply(t, Failed(DuplicateEmail))
      else
        && reply.outcome == Done
        && reply.tables.users == t.users[next := UserRow(email, password, USER, false, None, true, None, false, None, None, now)]
        && reply.tables.emails == t.emails[email := next]
        && reply.tables.verifications == t.verifications[next + 1 := OneTimeRow(next, now + cfg.verificationTtl, false)]
        && reply.tables.refresh == t.refresh && reply.tables.resets == t.resets
  {
  }

  /** A fresh account can log in at once, verified or not, and its token verifies it until the token expires. */
  lemma RegisterThenLogin(cfg: Settings, t: Tables, now: Time, later: Time, next: nat, email: string, password: string)
    requires email !in t.emails
    ensures
      var t1 := Serve(cfg, t, now, next, RegisterReq(email, password)).tables;
      && Serve(cfg, t1, later, next + 2, LoginReq(email, password, None)).outcome == Issued(Claims(next, USER, now), next + 2)
      && (Serve(cfg, t1, later, next + 2, VerifyEmailReq(next + 1)).outcome == Done <==> later < now + cfg.verificationTtl)
  {
    RegistrationOpensAnAccount(cfg, t, now, next, email, password);
    hide Register;
  }

  /** The seed opens one verified super admin without a verification time, and none if there is one. */
  lemma SeedOpensOneSuperAdmin(cfg: Settings, t: Tables, now: Time, next: nat, email: string, password: string)
    ensures
      var reply := Serve(cfg, t, now, next, SeedReq(email, password));
      if exists u :: u in t.users && t.users[u].role == SUPER_ADMIN then reply == Reply(t, Done)
      else if email in t.emails then reply == Reply(t, Failed(DuplicateEmail))
      else
        && reply.outcome == Done
        && reply.tables.users ==
           t.users[next := UserRow(email, password, SUPER_ADMIN, true, None, true, None, false, None, None, now)]
        && reply.tables.emails == t.emails[email := next]
        && reply.tables.refresh == t.refresh && reply.tables.resets == t.resets && reply.tables.verifications == t.verifications
  {
  }

  // ------------------------------------------------------------------------ sessions

  /** Why a login fails: credentials before role before block before disable. Nothing changes then. */
  lemma LoginFailures(cfg: Settings, t: Tables, now: Time, next: nat, email: string, password: string,
                      required: Option<set<Role>>)
    requires TablesSound(t, next)
    ensures
      var reply := Serve(cfg, t, now, next, LoginReq(email, password, required));
      && (reply.outcome.Failed? ==> reply.tables == t)
      && (reply.outcome == Failed(InvalidCredentials) <==>
            email !in t.emails || t.emails[email] !in t.users || t.users[t.emails[email]].password != password)
      && (email in t.emails && t.emails[email] in t.users && t.users[t.emails[email]].password == password ==>
            var row := t.users[t.emails[email]];
            var admitted := required.Some? ==> row.role in required.value;
            && (reply.outcome == Failed(Forbidden) <==> !admitted)
            && (reply.outcome == Failed(BlockedUser) <==> admitted && row.isBlocked)
            && (reply.outcome == Failed(InactiveUser) <==> admitted && !row.isBlocked && !row.isActive))
  {
    EmailsAreUsers(t, next, email);
  }

  lemma EmailsAreUsers(t: Tables, next: nat, email: string)
    requires TablesSound(t, next)
    ensures email in t.emails ==> t.emails[email] in t.users && t.users[t.emails[email]].email == email
  {
    assert Holds(UsersClause, t, next);
  }

  /** Why a refresh fails, in this order: unknown, revoked, expired, locked out, not admitted. Only reuse changes anything. */
  lemma RefreshFailures(cfg: Settings, t: Tables, now: Time, next: nat, d: Digest, required: Option<set<Role>>)
    requires TablesSound(t, next)
    ensures
      var reply := Serve(cfg, t, now, next, RefreshReq(d, required));
      if d !in t.refresh then reply == Reply(t, Failed(InvalidToken))
      else if t.refresh[d].isRevoked then reply.outcome == Failed(RevokedToken)
      else if t.refresh[d].expiresAt <= now then reply == Reply(t, Failed(ExpiredToken))
      else if t.refresh[d].userId !in t.users then reply == Reply(t, Failed(UserNotFound))
      else
        var row := t.users[t.refresh[d].userId];
        && !row.isBlocked && row.isActive
        && (if required.Some? && row.role !in required.value then reply == Reply(t, Failed(Forbidden)) else reply.outcome.Issued?)
  {
    assert Holds(SessionsClause, t, next);
  }

  /** The session a login opens: its token can be refreshed until its time is over, and not once it is logged out. */
  lemma SessionLifecycle(cfg: Settings, t: Tables, now: Time, later: Time, next: nat, email: string, password: string,
                         required: Option<set<Role>>)
    requires Serve(cfg, t, now, next, LoginReq(email, password, required)).outcome.Issued?
    ensures
      var login := Serve(cfg, t, now, next, LoginReq(email, password, required));
      var refresh := Serve(cfg, login.tables, later, next + 2, RefreshReq(next, required));
      && login.outcome.refresh == next
      && (later < now + cfg.refreshTtl ==>
            && refresh.outcome == Issued(login.outcome.access, next + 2)
            && refresh.tables.refresh[next + 2] == RefreshRow(login.outcome.access.userId, later + cfg.refreshTtl, false, next))
      && (later >= now + cfg.refreshTtl ==> refresh == Reply(login.tables, Failed(ExpiredToken)))
  {
  }

  /** A logout ends exactly the presented session; presenting its token again is theft. */
  lemma LogoutEndsTheSession(cfg: Settings, t: Tables, now: Time, later: Time, next: nat, d: Digest,
                             required: Option<set<Role>>)
    ensures
      var reply := Serve(cfg, t, now, next, LogoutReq(d));
      if d !in t.refresh then reply == Reply(t, Failed(InvalidToken))
      else
        && reply.outcome == Done
        && reply.tables == t.(refresh := t.refresh[d := t.refresh[d].(isRevoked := true)])
        && Serve(cfg, reply.tables, later, next + 2, RefreshReq(d, required)).outcome == Failed(RevokedToken)
  {
    if d in t.refresh && t.refresh[d].isRevoked {
      assert t.refresh[d := t.refresh[d].(isRevoked := true)] == t.refresh;
    }
  }

  // ------------------------------------------------------------------ one-time tokens

  /** A forgotten password: the token that was sent is the only unused one, works until it expires, and sets the new password. */
  lemma ForgottenPassword(cfg: Settings, t: Tables, now: Time, later: Time, next: nat, email: string, password: string)
    requires TablesSound(t, next) && email in t.emails
    ensures
      var u := t.emails[email];
      var t1 := Serve(cfg, t, now, next, RequestResetReq(email)).tables;
      var reset := Serve(cfg, t1, later, next + 2, ResetPasswordReq(next, password));
      && next in t1.resets && t1.resets[next] == OneTimeRow(u, now + cfg.resetTtl, false)
      && (forall d :: d in t1.resets && d != next && t1.resets[d].userId == u ==> t1.resets[d].isUsed)
      && (later < now + cfg.resetTtl ==>
            && reset.outcome == Done && u in reset.tables.users
            && reset.tables.users[u] == t.users[u].(password := password, passwordChangedAt := later)
            && reset.tables.resets[next].isUsed)
      && (later >= now + cfg.resetTtl ==> reset == Reply(t1, Failed(ExpiredToken)))
  {
    EmailsAreUsers(t, next, email);
    NextIsUnused(t, next);
    hide TablesSound;
  }

  /** Asking for a reset never tells whether the address is known: the answer is the same, and nothing else than tokens change. */
  lemma ResetRequestsLookAlike(cfg: Settings, t: Tables, now: Time, next: nat, email: string)
    ensures
      var reply := Serve(cfg, t, now, next, RequestResetReq(email));
      && reply.outcome == Done
      && (email !in t.emails ==> reply.tables == t)
      && reply.tables == t.(resets := reply.tables.resets)
  {
  }

  /** A verification token verifies its user, remembers when for an unverified one, and is used up. */
  lemma VerificationVerifies(cfg: Settings, t: Tables, now: Time, next: nat, d: Digest)
    requires Serve(cfg, t, now, next, VerifyEmailReq(d)).outcome == Done
    ensures
      var t' := Serve(cfg, t, now, next, VerifyEmailReq(d)).tables;
      && d in t.verifications && t.verifications[d].userId in t.users
      && var u := t.verifications[d].userId;
      && t'.users == t.users[u := t.users[u].(isVerified := true,
           emailVerifiedAt := if t.users[u].isVerified then t.users[u].emailVerifiedAt else Some(now))]
      && t'.verifications == t.verifications[d := t.verifications[d].(isUsed := true)]
      && t' == t.(users := t'.users, verifications := t'.verifications)
  {
    var u := t.verifications[d].userId;
    if t.users[u].isVerified {
      assert t.users[u].(isVerified := true) == t.users[u];
    }
  }

  /** Resending is for unverified users; the token that was sent is the only unused one and verifies the user until it expires. */
  lemma ResendThenVerify(cfg: Settings, t: Tables, now: Time, later: Time, next: nat, email: string)
    requires TablesSound(t, next)
    ensures
      var reply := Serve(cfg, t, now, next, ResendReq(email));
      if email !in t.emails then reply == Reply(t, Failed(UserNotFound))
      else if t.emails[email] in t.users && t.users[t.emails[email]].isVerified then reply == Reply(t, Failed(EmailAlreadyVerified))
      else
        var u := t.emails[email];
        && reply.outcome == Done
        && next in reply.tables.verifications
        && reply.tables.verifications[next] == OneTimeRow(u, now + cfg.verificationTtl, false)
        && (forall d :: d in reply.tables.verifications && d != next && reply.tables.verifications[d].userId == u ==>
              reply.tables.verifications[d].isUsed)
        && reply.tables == t.(verifications := reply.tables.verifications)
        && (Serve(cfg, reply.tables, later, next + 2, VerifyEmailReq(next)).outcome == Done
            <==> later < now + cfg.verificationTtl)
  {
    EmailsAreUsers(t, next, email);
    NextIsUnused(t, next);
    hide TablesSound;
  }

  // ------------------------------------------------------------------------ passwords

  /** What a password change or reset leaves of the user: the new password and its time, all sessions revoked but `kept`. */
  predicate PasswordSet(t: Tables, t': Tables, u: UserId, password: string, now: Time, kept: set<Digest>)
    requires u in t.users
  {
    && t'.users == t.users[u := t.users[u].(password := password, passwordChangedAt := now)] && t'.emails == t.emails
    && t'.verifications == t.verifications
    && t'.refresh == map d | d in t.refresh ::
         if t.refresh[d].userId == u && d !in kept then t.refresh[d].(isRevoked := true) else t.refresh[d]
  }

  /** A change needs the current password and a new one; it spares a live session of the user when configured to. */
  lemma ChangingSetsThePassword(cfg: Settings, t: Tables, now: Time, next: nat, u: UserId, current: string, password: string,
                                keep: Option<Digest>)
    ensures
      var reply := Serve(cfg, t, now, next, ChangePasswordReq(u, current, password, keep));
      if u !in t.users then reply == Reply(t, Failed(UserNotFound))
      else if t.users[u].password != current then reply == Reply(t, Failed(InvalidCredentials))
      else if t.users[u].password == password then reply == Reply(t, Failed(PasswordReuse))
      else
        && reply.outcome == Done && reply.tables.resets == t.resets
        && PasswordSet(t, reply.tables, u, password, now, if cfg.keepCurrentSession && keep.Some? then {keep.value} else {})
  {
  }

  /** A reset needs a token that is unused and unexpired, in that order of refusal, and uses it up. */
  lemma ResettingSetsThePassword(cfg: Settings, t: Tables, now: Time, next: nat, d: Digest, password: string)
    ensures
      var reply := Serve(cfg, t, now, next, ResetPasswordReq(d, password));
      if d !in t.resets then reply == Reply(t, Failed(InvalidToken))
      else if t.resets[d].isUsed then reply == Reply(t, Failed(UsedToken))
      else if t.resets[d].expiresAt <= now then reply == Reply(t, Failed(ExpiredToken))
      else if t.resets[d].userId !in t.users then reply == Reply(t, Failed(UserNotFound))
      else
        && reply.outcome == Done && reply.tables.resets == t.resets[d := t.resets[d].(isUsed := true)]
        && PasswordSet(t, reply.tables, t.resets[d].userId, password, now, {})
  {
  }

  /** After a change or a reset the row holds the requested password, and no other password moved. */
  lemma PasswordIsTheRequestedOne(cfg: Settings, s: State, e: Event, u: UserId)
    requires ChangesPassword(cfg, s, e, u)
    ensures u in s.tables.users
    ensures
      Apply(cfg, s, e).tables.users ==
      s.tables.users[u := s.tables.users[u].(password := e.request.password, passwordChangedAt := e.now)]
    ensures Apply(cfg, s, e).tables.emails == s.tables.emails
  {
    match e.request
    case ChangePasswordReq(w, current, password, keep) =>
      ChangingSetsThePassword(cfg, s.tables, e.now, s.next, w, current, password, keep);
      hide ChangePassword;
    case ResetPasswordReq(d, password) =>
      ResettingSetsThePassword(cfg, s.tables, e.now, s.next, d, password);
      hide ResetPassword;
  }

  /** The new password logs in exactly as long as the account is accessible; any other password is refused. */
  lemma NewPasswordLogsIn(cfg: Settings, s: State, e: Event, u: UserId, later: Time, tried: string)
    requires TablesSound(s.tables, s.next) && ChangesPassword(cfg, s, e, u)
    ensures u in s.tables.users
    ensures
      var s' := Apply(cfg, s, e);
      var outcome := Serve(cfg, s'.tables, later, s'.next, LoginReq(s.tables.users[u].email, tried, None)).outcome;
      && (outcome.Issued? <==> tried == e.request.password && Accessible(s.tables.users[u]))
      && (tried != e.request.password ==> outcome == Failed(InvalidCredentials))
  {
    PasswordIsTheRequestedOne(cfg, s, e, u);
    RowsAreOpenOrDated(s.tables, s.next, u);
    hide ChangesPassword, Apply, TablesSound;
  }

  // ------------------------------------------------------------- closing and reopening

  /** What a lockout leaves of the user: the row with its two columns set, all sessions revoked. */
  predicate LockedOut(t: Tables, t': Tables, u: UserId, row: UserRow) {
    && t'.users == t.users[u := row] && t'.emails == t.emails
    && t'.resets == t.resets && t'.verifications == t.verifications
    && t'.refresh == map d | d in t.refresh :: if t.refresh[d].userId == u then t.refresh[d].(isRevoked := true) else t.refresh[d]
  }

  lemma RevokeAllRevokes(t: Tables, u: UserId)
    ensures RevokeAll(t, u).refresh ==
      map d | d in t.refresh :: if t.refresh[d].userId == u then t.refresh[d].(isRevoked := true) else t.refresh[d]
  {
  }

  /** Disabling needs the password of an open account and sets the flag and its time. */
  lemma DisablingLocksOut(cfg: Settings, t: Tables, now: Time, next: nat, u: UserId, password: string)
    ensures
      var reply := Serve(cfg, t, now, next, DisableReq(u, password));
      if u !in t.users then reply == Reply(t, Failed(UserNotFound))
      else if t.users[u].password != password then reply == Reply(t, Failed(InvalidCredentials))
      else if t.users[u].isBlocked then reply == Reply(t, Failed(BlockedUser))
      else if !t.users[u].isActive then reply == Reply(t, Failed(NoChange))
      else reply.outcome == Done && LockedOut(t, reply.tables, u, t.users[u].(isActive := false, disabledAt := Some(now)))
  {
    RevokeAllRevokes(t, u);
  }

  /** Blocking and deactivating spare admins and need a user that is not locked that way yet. */
  lemma BlockingLocksOut(cfg: Settings, t: Tables, now: Time, next: nat, u: UserId, reason: Option<string>)
    ensures
      var reply := Serve(cfg, t, now, next, BlockReq(u, reason));
      if u !in t.users then reply == Reply(t, Failed(RecordNotFound))
      else if t.users[u].role in {ADMIN, SUPER_ADMIN} then reply == Reply(t, Failed(AdminTarget))
      else if t.users[u].isBlocked then reply == Reply(t, Failed(NoChange))
      else
        && reply.outcome == Done
        && LockedOut(t, reply.tables, u, t.users[u].(isBlocked := true, blockedAt := Some(now), blockedReason := reason))
  {
    RevokeAllRevokes(t, u);
  }

  lemma DeactivatingLocksOut(cfg: Settings, t: Tables, now: Time, next: nat, u: UserId)
    ensures
      var reply := Serve(cfg, t, now, next, DeactivateReq(u));
      if u !in t.users then reply == Reply(t, Failed(RecordNotFound))
      else if t.users[u].role in {ADMIN, SUPER_ADMIN} then reply == Reply(t, Failed(AdminTarget))
      else if !t.users[u].isActive then reply == Reply(t, Failed(NoChange))
      else reply.outcome == Done && LockedOut(t, reply.tables, u, t.users[u].(isActive := false, disabledAt := Some(now)))
  {
    RevokeAllRevokes(t, u);
  }

  /** Enabling undoes disabling: the row is back as it was, and the same password logs in again. */
  lemma DisableThenEnable(cfg: Settings, t: Tables, now: Time, later: Time, next: nat, u: UserId, password: string)
    requires TablesSound(t, next) && Serve(cfg, t, now, next, DisableReq(u, password)).outcome == Done
    ensures
      var email, t1 := t.users[u].email, Serve(cfg, t, now, next, DisableReq(u, password)).tables;
      var reply := Serve(cfg, t1, later, next + 2, EnableReq(email, password));
      && Serve(cfg, t1, later, next + 2, LoginReq(email, password, None)) == Reply(t1, Failed(InactiveUser))
      && reply.outcome == Done && reply.tables == t1.(users := t.users)
  {
    RowsAreOpenOrDated(t, next, u);
    DisablingLocksOut(cfg, t, now, next, u, password);
    hide TablesSound, DisableAccount;
    var t1 := Serve(cfg, t, now, next, DisableReq(u, password)).tables;
    assert t1.users[u := t.users[u]] == t.users;
  }

  lemma DeactivateThenActivate(cfg: Settings, t: Tables, now: Time, later: Time, next: nat, u: UserId)
    requires TablesSound(t, next) && Serve(cfg, t, now, next, DeactivateReq(u)).outcome == Done
    ensures
      var t1 := Serve(cfg, t, now, next, DeactivateReq(u)).tables;
      Serve(cfg, t1, later, next + 2, ActivateReq(u)) == Reply(t1.(users := t.users), Done)
  {
    RowsAreOpenOrDated(t, next, u);
    DeactivatingLocksOut(cfg, t, now, next, u);
    hide TablesSound, DeactivateUser;
    var t1 := Serve(cfg, t, now, next, DeactivateReq(u)).tables;
    assert t1.users[u := t.users[u]] == t.users;
  }

  /** Unblocking undoes blocking, reason included when there was none; while blocked neither login nor enabling works. */
  lemma BlockThenUnblock(cfg: Settings, t: Tables, now: Time, later: Time, next: nat, u: UserId, reason: Option<string>)
    requires TablesSound(t, next) && Serve(cfg, t, now, next, BlockReq(u, reason)).outcome == Done
    ensures
      var row, t1 := t.users[u], Serve(cfg, t, now, next, BlockReq(u, reason)).tables;
      && Serve(cfg, t1, later, next + 2, LoginReq(row.email, row.password, None)) == Reply(t1, Failed(BlockedUser))
      && Serve(cfg, t1, later, next + 2, EnableReq(row.email, row.password)) == Reply(t1, Failed(BlockedUser))
      && Serve(cfg, t1, later, next + 2, UnblockReq(u)) ==
         Reply(t1.(users := t.users[u := row.(blockedReason := None)]), Done)
  {
    RowsAreOpenOrDated(t, next, u);
    BlockingLocksOut(cfg, t, now, next, u, reason);
    hide TablesSound, BlockUser;
    var t1 := Serve(cfg, t, now, next, BlockReq(u, reason)).tables;
    assert t1.users[u := t.users[u].(blockedReason := None)] == t.users[u := t.users[u].(blockedReason := None)];
  }

  /** What cannot be reopened: nobody, somebody with another password, a blocked account by its owner, an open one. */
  lemma ReopeningFailures(cfg: Settings, t: Tables, now: Time, next: nat, u: UserId, email: string, password: string)
    requires TablesSound(t, next)
    ensures
      var enable := Serve(cfg, t, now, next, EnableReq(email, password));
      && (enable.outcome.Done? <==>
            && email in t.emails && t.emails[email] in t.users && t.users[t.emails[email]].password == password
            && !t.users[t.emails[email]].isBlocked && !t.users[t.emails[email]].isActive)
      && (enable.outcome == Failed(InvalidCredentials) <==>
            email !in t.emails || t.emails[email] !in t.users || t.users[t.emails[email]].password != password)
      && (enable.outcome.Failed? ==> enable.tables == t)
    ensures
      var unblock, activate := Serve(cfg, t, now, next, UnblockReq(u)), Serve(cfg, t, now, next, ActivateReq(u));
      && (unblock.outcome.Done? <==> u in t.users && t.users[u].isBlocked)
      && (activate.outcome.Done? <==> u in t.users && !t.users[u].isActive)
      && (unblock.outcome == Failed(RecordNotFound) <==> u !in t.users)
      && (activate.outcome == Failed(RecordNotFound) <==> u !in t.users)
      && (unblock.outcome.Failed? ==> unblock.tables == t) && (activate.outcome.Failed? ==> activate.tables == t)
  {
    EmailsAreUsers(t, next, email);
  }

  /** Who may delete: the owner who confirms and knows the password, and the administration anybody but an admin. */
  lemma DeletionNeedsConsent(cfg: Settings, t: Tables, now: Time, next: nat, u: UserId, password: string, confirm: bool)
    ensures
      var reply := Serve(cfg, t, now, next, DeleteReq(u, password, confirm));
      && (reply.outcome.Done? <==> u in t.users && confirm && t.users[u].password == password)
      && (reply.outcome == Failed(NotConfirmed) <==> u in t.users && !confirm)
      && (reply.outcome == Failed(UserNotFound) <==> u !in t.users)
      && (reply.outcome.Failed? ==> reply.tables == t)
    ensures
      var reply := Serve(cfg, t, now, next, AdminDeleteReq(u));
      && (reply.outcome.Done? <==> u in t.users && t.users[u].role == USER)
      && (reply.outcome == Failed(AdminTarget) <==> u in t.users && t.users[u].role != USER)
      && (reply.outcome.Failed? ==> reply.tables == t)
  {
  }

  // ------------------------------------------------------ whom a request touches

  /** The user a request is about. */
  function Subject(t: Tables, next: nat, req: Request): Option<UserId> {
    match req
    case RegisterReq(_, _) => Some(next)
    case SeedReq(_, _) => Some(next)
    case LoginReq(email, _, _) => if email in t.emails then Some(t.emails[email]) else None
    case RefreshReq(d, _) => if d in t.refresh then Some(t.refresh[d].userId) else None
    case LogoutReq(d) => if d in t.refresh then Some(t.refresh[d].userId) else None
    case RequestResetReq(email) => if email in t.emails then Some(t.emails[email]) else None
    case ResetPasswordReq(d, _) => if d in t.resets then Some(t.resets[d].userId) else None
    case VerifyEmailReq(d) => if d in t.verifications then Some(t.verifications[d].userId) else None
    case ResendReq(email) => if email in t.emails then Some(t.emails[email]) else None
    case EnableReq(email, _) => if email in t.emails then Some(t.emails[email]) else None
    case PurgeReq => None
    case _ => Some(req.user)
  }

  predicate SameUser(t: Tables, t': Tables, v: UserId) {
    (v in t.users <==> v in t'.users) && (v in t.users ==> t'.users[v] == t.users[v])
  }

  predicate SameRow<Row(==)>(rows: map<Digest, Row>, rows': map<Digest, Row>, d: Digest) {
    (d in rows <==> d in rows') && (d in rows ==> rows'[d] == rows[d])
  }

  /** The token rows under `d` that belong to `v`, before or after, are as they were. */
  predicate SameTokens(t: Tables, t': Tables, v: UserId, d: Digest) {
    && ((d in t.refresh && t.refresh[d].userId == v) || (d in t'.refresh && t'.refresh[d].userId == v)
        ==> SameRow(t.refresh, t'.refresh, d))
    && ((d in t.resets && t.resets[d].userId == v) || (d in t'.resets && t'.resets[d].userId == v)
        ==> SameRow(t.resets, t'.resets, d))
    && ((d in t.verifications && t.verifications[d].userId == v) || (d in t'.verifications && t'.verifications[d].userId == v)
        ==> SameRow(t.verifications, t'.verifications, d))
  }

  lemma SessionTouchesSubject(cfg: Settings, t: Tables, now: Time, next: nat, req: Request, v: UserId, d: Digest)
    requires (req.LoginReq? || req.RefreshReq?) && Subject(t, next, req) != Some(v)
    requires next !in t.refresh && next !in t.resets && next !in t.verifications && next + 1 !in t.verifications
    ensures SameUser(t, Serve(cfg, t, now, next, req).tables, v) && SameTokens(t, Serve(cfg, t, now, next, req).tables, v, d)
  {
  }

  lemma IssuingTouchesSubject(cfg: Settings, t: Tables, now: Time, next: nat, req: Request, v: UserId, d: Digest)
    requires Issues(req) && Subject(t, next, req) != Some(v)
    requires next !in t.refresh && next !in t.resets && next !in t.verifications && next + 1 !in t.verifications
    ensures SameUser(t, Serve(cfg, t, now, next, req).tables, v) && SameTokens(t, Serve(cfg, t, now, next, req).tables, v, d)
  {
    if req.LoginReq? || req.RefreshReq? {
      SessionTouchesSubject(cfg, t, now, next, req, v, d);
    }
  }

  lemma DeletingTouchesSubject(cfg: Settings, t: Tables, now: Time, next: nat, req: Request, v: UserId, d: Digest)
    requires (req.DeleteReq? || req.AdminDeleteReq?) && Subject(t, next, req) != Some(v)
    ensures SameUser(t, Serve(cfg, t, now, next, req).tables, v) && SameTokens(t, Serve(cfg, t, now, next, req).tables, v, d)
  {
  }

  lemma LockingTouchesSubject(cfg: Settings, t: Tables, now: Time, next: nat, req: Request, v: UserId, d: Digest)
    requires (req.DisableReq? || req.DeactivateReq? || req.BlockReq?) && Subject(t, next, req) != Some(v)
    ensures SameUser(t, Serve(cfg, t, now, next, req).tables, v) && SameTokens(t, Serve(cfg, t, now, next, req).tables, v, d)
  {
    match req
    case DisableReq(u, password) =>
      DisablingLocksOut(cfg, t, now, next, u, password);
      hide DisableAccount;
    case BlockReq(u, reason) =>
      BlockingLocksOut(cfg, t, now, next, u, reason);
      hide BlockUser;
    case DeactivateReq(u) =>
      DeactivatingLocksOut(cfg, t, now, next, u);
      hide DeactivateUser;
  }

  lemma AccountTouchesSubject(cfg: Settings, t: Tables, now: Time, next: nat, req: Request, v: UserId, d: Digest)
    requires IsAccountRequest(req) && Subject(t, next, req) != Some(v)
    ensures SameUser(t, Serve(cfg, t, now, next, req).tables, v) && SameTokens(t, Serve(cfg, t, now, next, req).tables, v, d)
  {
    if req.DisableReq? || req.DeactivateReq? || req.BlockReq? {
      LockingTouchesSubject(cfg, t, now, next, req, v, d);
    } else if req.DeleteReq? || req.AdminDeleteReq? {
      DeletingTouchesSubject(cfg, t, now, next, req, v, d);
    }
  }

  lemma PasswordTouchesSubject(cfg: Settings, t: Tables, now: Time, next: nat, req: Request, v: UserId, d: Digest)
    requires (req.ChangePasswordReq? || req.ResetPasswordReq?) && Subject(t, next, req) != Some(v)
    ensures SameUser(t, Serve(cfg, t, now, next, req).tables, v) && SameTokens(t, Serve(cfg, t, now, next, req).tables, v, d)
  {
    match req
    case ChangePasswordReq(u, current, password, keep) =>
      ChangingSetsThePassword(cfg, t, now, next, u, current, password, keep);
      hide ChangePassword;
    case ResetPasswordReq(token, password) =>
      ResettingSetsThePassword(cfg, t, now, next, token, password);
      hide ResetPassword;
  }

  lemma InPlaceTouchesSubject(cfg: Settings, t: Tables, now: Time, next: nat, req: Request, v: UserId, d: Digest)
    requires !Issues(req) && !IsAccountRequest(req) && !req.PurgeReq? && Subject(t, next, req) != Some(v)
    ensures SameUser(t, Serve(cfg, t, now, next, req).tables, v) && SameTokens(t, Serve(cfg, t, now, next, req).tables, v, d)
  {
    if req.ChangePasswordReq? || req.ResetPasswordReq? {
      PasswordTouchesSubject(cfg, t, now, next, req, v, d);
    }
  }

  /** Whatever a request does, the rows of every user it is not about are as they were. Only the purge looks at everybody. */
  lemma OnlyTheSubjectChanges(cfg: Settings, t: Tables, now: Time, next: nat, req: Request, v: UserId, d: Digest)
    requires TablesSound(t, next) && !req.PurgeReq? && Subject(t, next, req) != Some(v)
    ensures SameUser(t, Serve(cfg, t, now, next, req).tables, v) && SameTokens(t, Serve(cfg, t, now, next, req).tables, v, d)
  {
    NextIsUnused(t, next);
    hide Serve, Subject, SameUser, SameTokens, TablesSound;
    if Issues(req) {
      IssuingTouchesSubject(cfg, t, now, next, req, v, d);
    } else if IsAccountRequest(req) {
      AccountTouchesSubject(cfg, t, now, next, req, v, d);
    } else {
      InPlaceTouchesSubject(cfg, t, now, next, req, v, d);
    }
  }

  /** The purge removes exactly the refresh tokens at or past their expiry. */
  lemma PurgeRemovesExpired(cfg: Settings, t: Tables, now: Time, next: nat, d: Digest)
    ensures
      var t' := Serve(cfg, t, now, next, PurgeReq).tables;
      && (d in t'.refresh <==> d in t.refresh && now < t.refresh[d].expiresAt)
      && (d in t'.refresh ==> t'.refresh[d] == t.refresh[d])
      && t' == t.(refresh := t'.refresh)
  {
  }

  // -------------------------------------------------- which columns a request sets

  predicate SetsPasswords(req: Request) { req.ChangePasswordReq? || req.ResetPasswordReq? }

  predicate SetsActive(req: Request) { req.DisableReq? || req.EnableReq? || req.DeactivateReq? || req.ActivateReq? }

  predicate SetsBlock(req: Request) { req.BlockReq? || req.UnblockReq? }

  predicate ColumnsKept(row: UserRow, row': UserRow, req: Request) {
    && row'.email == row.email && row'.role == row.role
    && (SetsPasswords(req) || (row'.password == row.password && row'.passwordChangedAt == row.passwordChangedAt))
    && (req.VerifyEmailReq? || (row'.isVerified == row.isVerified && row'.emailVerifiedAt == row.emailVerifiedAt))
    && (SetsActive(req) || (row'.isActive == row.isActive && row'.disabledAt == row.disabledAt))
    && (SetsBlock(req) ||
          (row'.isBlocked == row.isBlocked && row'.blockedAt == row.blockedAt && row'.blockedReason == row.blockedReason))
  }

  lemma IssuingKeepsColumns(cfg: Settings, t: Tables, now: Time, next: nat, req: Request, u: UserId)
    requires Issues(req) && u in t.users && u != next
    ensures u in Serve(cfg, t, now, next, req).tables.users
    ensures ColumnsKept(t.users[u], Serve(cfg, t, now, next, req).tables.users[u], req)
  {
  }

  lemma LockingKeepsColumns(cfg: Settings, t: Tables, now: Time, next: nat, req: Request, u: UserId)
    requires (req.DisableReq? || req.DeactivateReq? || req.BlockReq?) && u in t.users && u in Serve(cfg, t, now, next, req).tables.users
    ensures ColumnsKept(t.users[u], Serve(cfg, t, now, next, req).tables.users[u], req)
  {
    match req
    case DisableReq(w, password) =>
      DisablingLocksOut(cfg, t, now, next, w, password);
      hide DisableAccount;
    case BlockReq(w, reason) =>
      BlockingLocksOut(cfg, t, now, next, w, reason);
      hide BlockUser;
    case DeactivateReq(w) =>
      DeactivatingLocksOut(cfg, t, now, next, w);
      hide DeactivateUser;
  }

  lemma DeletingKeepsColumns(cfg: Settings, t: Tables, now: Time, next: nat, req: Request, u: UserId)
    requires (req.DeleteReq? || req.AdminDeleteReq?) && u in t.users && u in Serve(cfg, t, now, next, req).tables.users
    ensures ColumnsKept(t.users[u], Serve(cfg, t, now, next, req).tables.users[u], req)
  {
  }

  lemma AccountKeepsColumns(cfg: Settings, t: Tables, now: Time, next: nat, req: Request, u: UserId)
    requires IsAccountRequest(req) && u in t.users && u in Serve(cfg, t, now, next, req).tables.users
    ensures ColumnsKept(t.users[u], Serve(cfg, t, now, next, req).tables.users[u], req)
  {
    if req.DisableReq? || req.DeactivateReq? || req.BlockReq? {
      LockingKeepsColumns(cfg, t, now, next, req, u);
    } else if req.DeleteReq? || req.AdminDeleteReq? {
      DeletingKeepsColumns(cfg, t, now, next, req, u);
    }
  }

  lemma PasswordKeepsColumns(cfg: Settings, t: Tables, now: Time, next: nat, req: Request, u: UserId)
    requires (req.ChangePasswordReq? || req.ResetPasswordReq?) && u in t.users && u in Serve(cfg, t, now, next, req).tables.users
    ensures ColumnsKept(t.users[u], Serve(cfg, t, now, next, req).tables.users[u], req)
  {
    match req
    case ChangePasswordReq(w, current, password, keep) =>
      ChangingSetsThePassword(cfg, t, now, next, w, current, password, keep);
      hide ChangePassword;
    case ResetPasswordReq(token, password) =>
      ResettingSetsThePassword(cfg, t, now, next, token, password);
      hide ResetPassword;
  }

  lemma InPlaceKeepsColumns(cfg: Settings, t: Tables, now: Time, next: nat, req: Request, u: UserId)
    requires !Issues(req) && !IsAccountRequest(req) && u in t.users && u in Serve(cfg, t, now, next, req).tables.users
    ensures ColumnsKept(t.users[u], Serve(cfg, t, now, next, req).tables.users[u], req)
  {
    if req.ChangePasswordReq? || req.ResetPasswordReq? {
      PasswordKeepsColumns(cfg, t, now, next, req, u);
    }
  }

  /** E-mail and role never change; each other column changes only through the requests made for it. */
  lemma ColumnsChangeOnlyByTheirRequests(cfg: Settings, t: Tables, now: Time, next: nat, req: Request, u: UserId)
    requires TablesSound(t, next) && u in t.users && u in Serve(cfg, t, now, next, req).tables.users
    ensures ColumnsKept(t.users[u], Serve(cfg, t, now, next, req).tables.users[u], req)
  {
    NextIsUnused(t, next);
    hide Serve, ColumnsKept, TablesSound;
    if Issues(req) {
      IssuingKeepsColumns(cfg, t, now, next, req, u);
    } else if IsAccountRequest(req) {
      AccountKeepsColumns(cfg, t, now, next, req, u);
    } else {
      InPlaceKeepsColumns(cfg, t, now, next, req, u);
    }
  }
}
