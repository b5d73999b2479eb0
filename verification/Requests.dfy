/**
 What one request of the Auth service does to the database when every commit
 succeeds: the tables it leaves and the answer it gives. `now` is the request's
 clock reading and `next` is the first identifier nobody has used yet.
 */
module Requests {
  import opened Outcomes
  import opened Identity

  datatype Settings = Settings(refreshTtl: nat, resetTtl: nat, verificationTtl: nat, keepCurrentSession: bool)

  /** The claims of a signed access token. */
  datatype Claims = Claims(userId: UserId, role: Role, pwdTs: Time)

  datatype Outcome =
    | Done
    | Issued(access: Claims, refresh: Digest)
    | Failed(error: Error)

  datatype Reply = Reply(tables: Tables, outcome: Outcome)

  function Reject(t: Tables, error: Error): Reply {
    Reply(t, Failed(error))
  }

  function MintFor(u: UserId, row: UserRow): Claims {
    Claims(u, row.role, row.passwordChangedAt)
  }

  /** `_ensure_account_accessible`: a block is reported before a disabled account. */
  function Inaccessible(row: UserRow): (r: Option<Error>)
    ensures r == None <==> row.isActive && !row.isBlocked
  {
    if row.isBlocked then Some(BlockedUser)
    else if !row.isActive then Some(InactiveUser)
    else None
  }

  predicate RoleMissing(row: UserRow, required: Option<set<Role>>) {
    required.Some? && row.role !in required.value
  }

  // ------------------------------------------------------ authentication

  function NewUser(email: string, password: string, role: Role, verified: bool, now: Time): UserRow {
    UserRow(email, password, role, verified, None, true, None, false, None, None, now)
  }

  /** The user takes the identifier `next`, the verification token `next + 1`. */
  function Register(cfg: Settings, t: Tables, now: Time, next: nat, email: string, password: string): Reply {
    if email in t.emails then Reject(t, DuplicateEmail)
    else
      var t1 := InsertUser(t, next, NewUser(email, password, USER, false, now));
      Reply(SendVerification(cfg, t1, now, next, next + 1), Done)
  }

  function SeedSuperAdmin(t: Tables, now: Time, next: nat, email: string, password: string): Reply {
    if exists u :: u in t.users && t.users[u].role == SUPER_ADMIN then Reply(t, Done)
    else if email in t.emails then Reject(t, DuplicateEmail)
    else Reply(InsertUser(t, next, NewUser(email, password, SUPER_ADMIN, true, now)), Done)
  }

  function Login(cfg: Settings, t: Tables, now: Time, next: nat,
                 email: string, password: string, required: Option<set<Role>>): Reply
  {
    if email !in t.emails || t.emails[email] !in t.users then Reject(t, InvalidCredentials)
    else
      var u := t.emails[email];
      var row := t.users[u];
      if row.password != password then Reject(t, InvalidCredentials)
      else if RoleMissing(row, required) then Reject(t, Forbidden)
      else if Inaccessible(row).Some? then Reject(t, Inaccessible(row).value)
      else Reply(InsertRefresh(t, next, RefreshRow(u, now + cfg.refreshTtl, false, next)), Issued(MintFor(u, row), next))
  }

  function Refresh(cfg: Settings, t: Tables, now: Time, next: nat, d: Digest, required: Option<set<Role>>): Reply {
    if d !in t.refresh then Reject(t, InvalidToken)
    else
      var stored := t.refresh[d];
      if stored.isRevoked then Reject(RevokeAll(t, stored.userId), RevokedToken)
      else if stored.expiresAt <= now then Reject(t, ExpiredToken)
      else if stored.userId !in t.users then Reject(t, UserNotFound)
      else
        var row := t.users[stored.userId];
        if Inaccessible(row).Some? then Reject(t, Inaccessible(row).value)
        else if RoleMissing(row, required) then Reject(t, Forbidden)
        else Reply(Rotate(t, d, stored.userId, next, now + cfg.refreshTtl), Issued(MintFor(stored.userId, row), next))
  }

  function Logout(t: Tables, d: Digest): Reply {
    if d !in t.refresh then Reject(t, InvalidToken)
    else if t.refresh[d].isRevoked then Reply(t, Done)
    else Reply(Revoke(t, d), Done)
  }

  // ----------------------------------------------------------- passwords

  /** The password columns of `u` change and nothing else of the row does. */
  function WithPassword(t: Tables, u: UserId, password: string, now: Time): Tables
    requires u in t.users
  {
    WithUser(t, u, t.users[u].(password := password, passwordChangedAt := now))
  }

  predicate KeepsSession(cfg: Settings, t: Tables, u: UserId, keep: Option<Digest>) {
    && cfg.keepCurrentSession
    && keep.Some?
    && keep.value in t.refresh
    && t.refresh[keep.value].userId == u
    && !t.refresh[keep.value].isRevoked
  }

  function RevokeSessions(cfg: Settings, t: Tables, u: UserId, keep: Option<Digest>): Tables {
    if KeepsSession(cfg, t, u, keep) then RevokeAllExcept(t, u, keep.value) else RevokeAll(t, u)
  }

  function ChangePassword(cfg: Settings, t: Tables, now: Time, u: UserId,
                          current: string, password: string, keep: Option<Digest>): Reply
  {
    if u !in t.users then Reject(t, UserNotFound)
    else if t.users[u].password != current then Reject(t, InvalidCredentials)
    else if t.users[u].password == password then Reject(t, PasswordReuse)
    else Reply(RevokeSessions(cfg, WithPassword(t, u, password, now), u, keep), Done)
  }

  function SendReset(cfg: Settings, t: Tables, now: Time, u: UserId, next: nat): Tables {
    t.(resets := t.resets[next := OneTimeRow(u, now + cfg.resetTtl, false)])
  }

  function RequestReset(cfg: Settings, t: Tables, now: Time, next: nat, email: string): Reply {
    if email !in t.emails then Reply(t, Done)
    else
      var u := t.emails[email];
      Reply(SendReset(cfg, t.(resets := UseAll(t.resets, u)), now, u, next), Done)
  }

  /** The one transaction of a redemption: consume the token, set the password, revoke the sessions. */
  function RedeemReset(t: Tables, d: Digest, u: UserId, password: string, now: Time): Tables
    requires d in t.resets && u in t.users
  {
    RevokeAll(WithPassword(t.(resets := Use(t.resets, d)), u, password, now), u)
  }

  function ResetPassword(t: Tables, now: Time, d: Digest, password: string): Reply {
    var invalid := ValidateOneTime(t.resets, d, now);
    if invalid.Some? then Reject(t, invalid.value)
    else if t.resets[d].userId !in t.users then Reject(t, UserNotFound)
    else Reply(RedeemReset(t, d, t.resets[d].userId, password, now), Done)
  }

  // -------------------------------------------------- email verification

  function SendVerification(cfg: Settings, t: Tables, now: Time, u: UserId, next: nat): Tables {
    t.(verifications := t.verifications[next := OneTimeRow(u, now + cfg.verificationTtl, false)])
  }

  function Verified(row: UserRow, now: Time): UserRow {
    if row.isVerified then row else row.(isVerified := true, emailVerifiedAt := Some(now))
  }

  function VerifyEmail(t: Tables, now: Time, d: Digest): Reply {
    var invalid := ValidateOneTime(t.verifications, d, now);
    if invalid.Some? then Reject(t, invalid.value)
    else
      var u := t.verifications[d].userId;
      if u !in t.users then Reject(t, UserNotFound)
      else Reply(WithUser(t, u, Verified(t.users[u], now)).(verifications := Use(t.verifications, d)), Done)
  }

  function ResendVerification(cfg: Settings, t: Tables, now: Time, next: nat, email: string): Reply {
    if email !in t.emails || t.emails[email] !in t.users then Reject(t, UserNotFound)
    else
      var u := t.emails[email];
      if t.users[u].isVerified then Reject(t, EmailAlreadyVerified)
      else Reply(SendVerification(cfg, t.(verifications := UseAll(t.verifications, u)), now, u, next), Done)
  }

  // ------------------------------------------------------------- account

  function Disabled(row: UserRow, now: Time): UserRow { row.(isActive := false, disabledAt := Some(now)) }

  function Enabled(row: UserRow): UserRow { row.(isActive := true, disabledAt := None) }

  function Blocked(row: UserRow, now: Time, reason: Option<string>): UserRow {
    row.(isBlocked := true, blockedAt := Some(now), blockedReason := reason)
  }

  function Unblocked(row: UserRow): UserRow {
    row.(isBlocked := false, blockedAt := None, blockedReason := None)
  }

  function DisableAccount(t: Tables, now: Time, u: UserId, password: string): Reply {
    if u !in t.users then Reject(t, UserNotFound)
    else if t.users[u].password != password then Reject(t, InvalidCredentials)
    else if t.users[u].isBlocked then Reject(t, BlockedUser)
    else if !t.users[u].isActive then Reject(t, NoChange)
    else Reply(RevokeAll(WithUser(t, u, Disabled(t.users[u], now)), u), Done)
  }

  function EnableAccount(t: Tables, email: string, password: string): Reply {
    if email !in t.emails || t.emails[email] !in t.users then Reject(t, InvalidCredentials)
    else
      var u := t.emails[email];
      if t.users[u].password != password then Reject(t, InvalidCredentials)
      else if t.users[u].isBlocked then Reject(t, BlockedUser)
      else if t.users[u].isActive then Reject(t, NoChange)
      else Reply(WithUser(t, u, Enabled(t.users[u])), Done)
  }

  function DeleteAccount(t: Tables, u: UserId, password: string, confirm: bool): Reply {
    if u !in t.users then Reject(t, UserNotFound)
    else if !confirm then Reject(t, NotConfirmed)
    else if t.users[u].password != password then Reject(t, InvalidCredentials)
    else Reply(DeleteUser(t, u), Done)
  }

  // --------------------------------------------------------------- admin

  predicate IsAdmin(row: UserRow) { row.role == ADMIN || row.role == SUPER_ADMIN }

  function BlockUser(t: Tables, now: Time, u: UserId, reason: Option<string>): Reply {
    if u !in t.users then Reject(t, RecordNotFound)
    else if IsAdmin(t.users[u]) then Reject(t, AdminTarget)
    else if t.users[u].isBlocked then Reject(t, NoChange)
    else Reply(RevokeAll(WithUser(t, u, Blocked(t.users[u], now, reason)), u), Done)
  }

  function UnblockUser(t: Tables, u: UserId): Reply {
    if u !in t.users then Reject(t, RecordNotFound)
    else if !t.users[u].isBlocked then Reject(t, NoChange)
    else Reply(WithUser(t, u, Unblocked(t.users[u])), Done)
  }

  function DeactivateUser(t: Tables, now: Time, u: UserId): Reply {
    if u !in t.users then Reject(t, RecordNotFound)
    else if IsAdmin(t.users[u]) then Reject(t, AdminTarget)
    else if !t.users[u].isActive then Reject(t, NoChange)
    else Reply(RevokeAll(WithUser(t, u, Disabled(t.users[u], now)), u), Done)
  }

  function ActivateUser(t: Tables, u: UserId): Reply {
    if u !in t.users then Reject(t, RecordNotFound)
    else if t.users[u].isActive then Reject(t, NoChange)
    else Reply(WithUser(t, u, Enabled(t.users[u])), Done)
  }

  function AdminDeleteUser(t: Tables, u: UserId): Reply {
    if u !in t.users then Reject(t, RecordNotFound)
    else if IsAdmin(t.users[u]) then Reject(t, AdminTarget)
    else Reply(DeleteUser(t, u), Done)
  }
}
