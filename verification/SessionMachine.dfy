/**
 Runs of the Auth service, one request at a time: the database, the user-state
 cache in front of the users table and the access tokens handed out so far.
 */
module SessionMachine {
  import opened Outcomes
  import opened Identity
  import opened Requests

  /** What a session check needs to know about a user. */
  datatype UserState = UserState(isActive: bool, isBlocked: bool, role: Role, pwdTs: Time)

  function StateOf(row: UserRow): UserState {
    UserState(row.isActive, row.isBlocked, row.role, row.passwordChangedAt)
  }

  datatype State = State(tables: Tables, cache: map<UserId, UserState>, minted: set<Claims>, next: nat, clock: Time)

  const INITIAL := State(EMPTY, map[], {}, 0, 0)

  datatype Request =
    | RegisterReq(email: string, password: string)
    | SeedReq(email: string, password: string)
    | LoginReq(email: string, password: string, required: Option<set<Role>>)
    | RefreshReq(token: Digest, required: Option<set<Role>>)
    | LogoutReq(token: Digest)
    | ChangePasswordReq(user: UserId, current: string, password: string, keep: Option<Digest>)
    | RequestResetReq(email: string)
    | ResetPasswordReq(token: Digest, password: string)
    | VerifyEmailReq(token: Digest)
    | ResendReq(email: string)
    | DisableReq(user: UserId, password: string)
    | EnableReq(email: string, password: string)
    | DeleteReq(user: UserId, password: string, confirm: bool)
    | BlockReq(user: UserId, reason: Option<string>)
    | UnblockReq(user: UserId)
    | DeactivateReq(user: UserId)
    | ActivateReq(user: UserId)
    | AdminDeleteReq(user: UserId)
    | PurgeReq
    | LookupReq(user: UserId)  // get_user_state: a miss fills the cache
    | EvictReq(user: UserId)   // the cache forgets an entry

  datatype Event = Event(now: Time, request: Request)

  function Serve(cfg: Settings, t: Tables, now: Time, next: nat, req: Request): Reply {
    match req
    case RegisterReq(email, password) => Register(cfg, t, now, next, email, password)
    case SeedReq(email, password) => SeedSuperAdmin(t, now, next, email, password)
    case LoginReq(email, password, required) => Login(cfg, t, now, next, email, password, required)
    case RefreshReq(d, required) => Refresh(cfg, t, now, next, d, required)
    case LogoutReq(d) => Logout(t, d)
    case ChangePasswordReq(u, current, password, keep) => ChangePassword(cfg, t, now, u, current, password, keep)
    case RequestResetReq(email) => RequestReset(cfg, t, now, next, email)
    case ResetPasswordReq(d, password) => ResetPassword(t, now, d, password)
    case VerifyEmailReq(d) => VerifyEmail(t, now, d)
    case ResendReq(email) => ResendVerification(cfg, t, now, next, email)
    case DisableReq(u, password) => DisableAccount(t, now, u, password)
    case EnableReq(email, password) => EnableAccount(t, email, password)
    case DeleteReq(u, password, confirm) => DeleteAccount(t, u, password, confirm)
    case BlockReq(u, reason) => BlockUser(t, now, u, reason)
    case UnblockReq(u) => UnblockUser(t, u)
    case DeactivateReq(u) => DeactivateUser(t, now, u)
    case ActivateReq(u) => ActivateUser(t, u)
    case AdminDeleteReq(u) => AdminDeleteUser(t, u)
    case PurgeReq => Reply(DeleteExpired(t, now), Done)
    case LookupReq(u) => if u in t.users then Reply(t, Done) else Reject(t, UserNotFound)
    case EvictReq(u) => Reply(t, Done)
  }

  /** The cache entries the service drops after the request succeeded. */
  function Dropped(t: Tables, req: Request): set<UserId> {
    match req
    case ChangePasswordReq(u, _, _, _) => {u}
    case ResetPasswordReq(d, _) => if d in t.resets then {t.resets[d].userId} else {}
    case DisableReq(u, _) => {u}
    case EnableReq(email, _) => if email in t.emails then {t.emails[email]} else {}
    case DeleteReq(u, _, _) => {u}
    case BlockReq(u, _) => {u}
    case UnblockReq(u) => {u}
    case DeactivateReq(u) => {u}
    case ActivateReq(u) => {u}
    case AdminDeleteReq(u) => {u}
    case EvictReq(u) => {u}
    case _ => {}
  }

  function CacheAfter(s: State, req: Request, outcome: Outcome): map<UserId, UserState> {
    if !outcome.Done? then s.cache
    else if req.LookupReq? then
      if req.user in s.cache || req.user !in s.tables.users then s.cache
      else s.cache[req.user := StateOf(s.tables.users[req.user])]
    else s.cache - Dropped(s.tables, req)
  }

  function Apply(cfg: Settings, s: State, e: Event): State {
    var reply := Serve(cfg, s.tables, e.now, s.next, e.request);
    State(
      reply.tables,
      CacheAfter(s, e.request, reply.outcome),
      if reply.outcome.Issued? then s.minted + {reply.outcome.access} else s.minted,
      s.next + 2,
      e.now)
  }

  function OutcomeOf(cfg: Settings, s: State, e: Event): Outcome {
    Serve(cfg, s.tables, e.now, s.next, e.request).outcome
  }

  /** The state after a run of requests. */
  function After(cfg: Settings, events: seq<Event>): State {
    if events == [] then INITIAL
    else Apply(cfg, After(cfg, events[..|events| - 1]), events[|events| - 1])
  }

  // ---------------------------------------------------------- invariants

  predicate Accessible(row: UserRow) { row.isActive && !row.isBlocked }

  predicate FlagsAgree(row: UserRow) {
    (row.isActive <==> row.disabledAt == None) && (row.isBlocked <==> row.blockedAt.Some?)
  }

  ghost predicate UsersSound(users: map<UserId, UserRow>, emails: map<string, UserId>, next: nat) {
    && (forall u :: u in users ==> u < next && FlagsAgree(users[u]))
    && (forall u :: u in users ==> users[u].email in emails && emails[users[u].email] == u)
    && (forall e :: e in emails ==> emails[e] in users && users[emails[e]].email == e)
  }

  ghost predicate SessionsSound(refresh: map<Digest, RefreshRow>, users: map<UserId, UserRow>) {
    forall d :: d in refresh ==>
      && refresh[d].userId in users
      && (!refresh[d].isRevoked ==> Accessible(users[refresh[d].userId]))
  }

  /** The unrevoked refresh tokens of everybody. */
  ghost function LiveRows(refresh: map<Digest, RefreshRow>): set<Digest> {
    set d | d in refresh && !refresh[d].isRevoked
  }

  /** One login starts one chain: its tokens share a user and at most one of them is unrevoked. */
  ghost predicate ChainsSound(refresh: map<Digest, RefreshRow>, next: nat) {
    && (forall d :: d in refresh ==> d < next && refresh[d].login < next)
    && (forall d, e :: d in refresh && e in refresh && refresh[d].login == refresh[e].login ==>
          refresh[d].userId == refresh[e].userId)
    && (forall d, e :: d in LiveRows(refresh) && e in LiveRows(refresh) && refresh[d].login == refresh[e].login ==> d == e)
  }

  ghost function UnusedRows(rows: map<Digest, OneTimeRow>): set<Digest> {
    set d | d in rows && !rows[d].isUsed
  }

  /** Each user has at most one unused token of the kind. */
  ghost predicate OneTimeSound(rows: map<Digest, OneTimeRow>, users: set<UserId>, next: nat) {
    && (forall d :: d in rows ==> d < next && rows[d].userId in users)
    && (forall d, e :: d in UnusedRows(rows) && e in UnusedRows(rows) && rows[d].userId == rows[e].userId ==> d == e)
  }

  datatype Clause = UsersClause | SessionsClause | ChainsClause | ResetsClause | VerificationsClause

  ghost predicate Holds(clause: Clause, t: Tables, next: nat) {
    match clause
    case UsersClause => UsersSound(t.users, t.emails, next)
    case SessionsClause => SessionsSound(t.refresh, t.users)
    case ChainsClause => ChainsSound(t.refresh, next)
    case ResetsClause => OneTimeSound(t.resets, t.users.Keys, next)
    case VerificationsClause => OneTimeSound(t.verifications, t.users.Keys, next)
  }

  /** The invariant of the tables. Quantifying over its clauses keeps them folded until one is named. */
  ghost predicate TablesSound(t: Tables, next: nat) {
    forall clause :: Holds(clause, t, next)
  }

  lemma Unfold(t: Tables, next: nat)
    requires TablesSound(t, next)
    ensures UsersSound(t.users, t.emails, next)
    ensures SessionsSound(t.refresh, t.users)
    ensures ChainsSound(t.refresh, next)
    ensures OneTimeSound(t.resets, t.users.Keys, next)
    ensures OneTimeSound(t.verifications, t.users.Keys, next)
  {
    assert Holds(UsersClause, t, next);
    assert Holds(SessionsClause, t, next);
    assert Holds(ChainsClause, t, next);
    assert Holds(ResetsClause, t, next);
    assert Holds(VerificationsClause, t, next);
  }

  lemma Fold(t: Tables, next: nat)
    requires UsersSound(t.users, t.emails, next)
    requires SessionsSound(t.refresh, t.users)
    requires ChainsSound(t.refresh, next)
    requires OneTimeSound(t.resets, t.users.Keys, next)
    requires OneTimeSound(t.verifications, t.users.Keys, next)
    ensures TablesSound(t, next)
  {
  }

  /** Every cached snapshot is the one a lookup would compute from the table right now. */
  ghost predicate CacheCoherent(s: State) {
    forall u :: u in s.cache ==> u in s.tables.users && s.cache[u] == StateOf(s.tables.users[u])
  }

  // ------------------------------------- what each kind of write preserves

  lemma RevokingKeepsChains(rows: map<Digest, RefreshRow>, which: set<Digest>, next: nat)
    requires ChainsSound(rows, next)
    ensures ChainsSound(RevokeRows(rows, which), next)
  {
    assert LiveRows(RevokeRows(rows, which)) == LiveRows(rows) - which;
  }

  lemma RevokingKeepsSound(t: Tables, which: set<Digest>, next: nat)
    requires TablesSound(t, next)
    ensures TablesSound(t.(refresh := RevokeRows(t.refresh, which)), next)
  {
    Unfold(t, next);
    hide UsersSound, ChainsSound, OneTimeSound;
    RevokingKeepsChains(t.refresh, which, next);
    Fold(t.(refresh := RevokeRows(t.refresh, which)), next);
  }

  lemma ChangingUserKeepsSound(t: Tables, u: UserId, row: UserRow, next: nat)
    requires TablesSound(t, next) && u in t.users
    requires row.email == t.users[u].email && FlagsAgree(row)
    requires Accessible(row) || (Accessible(t.users[u]) ==> LiveTokens(t, u) == {})
    ensures TablesSound(WithUser(t, u, row), next)
  {
    Unfold(t, next);
    var t' := WithUser(t, u, row);
    assert t'.users.Keys == t.users.Keys;
    forall d | d in t'.refresh && !t'.refresh[d].isRevoked
      ensures Accessible(t'.users[t'.refresh[d].userId])
    {
      assert t.refresh[d].userId == u ==> d in LiveTokens(t, u);
    }
    Fold(t', next);
  }

  lemma LockingOutKeepsSound(t: Tables, u: UserId, row: UserRow, next: nat)
    requires TablesSound(t, next) && u in t.users
    requires row.email == t.users[u].email && (FlagsAgree(t.users[u]) ==> FlagsAgree(row))
    ensures TablesSound(RevokeAll(WithUser(t, u, row), u), next)
  {
    assert Holds(UsersClause, t, next);
    RevokingKeepsSound(t, LiveTokens(t, u), next);
    assert LiveTokens(RevokeAll(t, u), u) == {};
    ChangingUserKeepsSound(RevokeAll(t, u), u, row, next);
    assert LiveTokens(WithUser(t, u, row), u) == LiveTokens(t, u);
    assert RevokeAll(WithUser(t, u, row), u) == WithUser(RevokeAll(t, u), u, row);
  }

  lemma InsertingUserKeepsSound(t: Tables, u: UserId, row: UserRow, next: nat)
    requires TablesSound(t, next) && u == next && row.email !in t.emails && FlagsAgree(row)
    ensures TablesSound(InsertUser(t, u, row), next + 1)
  {
    Unfold(t, next);
    Fold(InsertUser(t, u, row), next + 1);
  }

  lemma ForgettingRowsKeepsChains(rows: map<Digest, RefreshRow>, rows': map<Digest, RefreshRow>, next: nat)
    requires ChainsSound(rows, next)
    requires forall d :: d in rows' ==> d in rows && rows'[d] == rows[d]
    ensures ChainsSound(rows', next)
  {
    assert LiveRows(rows') <= LiveRows(rows);
  }

  lemma ForgettingRowsKeepsOneTime(rows: map<Digest, OneTimeRow>, users: set<UserId>,
                                   rows': map<Digest, OneTimeRow>, users': set<UserId>, next: nat)
    requires OneTimeSound(rows, users, next)
    requires forall d :: d in rows' ==> d in rows && rows'[d] == rows[d] && rows[d].userId in users'
    ensures OneTimeSound(rows', users', next)
  {
    assert UnusedRows(rows') <= UnusedRows(rows);
  }

  lemma DeletingKeepsUsers(t: Tables, u: UserId, next: nat)
    requires u in t.users && UsersSound(t.users, t.emails, next)
    ensures UsersSound(DeleteUser(t, u).users, DeleteUser(t, u).emails, next)
  {
  }

  lemma DeletingKeepsSessions(t: Tables, u: UserId)
    requires u in t.users && SessionsSound(t.refresh, t.users)
    ensures SessionsSound(DeleteUser(t, u).refresh, DeleteUser(t, u).users)
  {
  }

  lemma DeletingUserKeepsSound(t: Tables, u: UserId, next: nat)
    requires TablesSound(t, next) && u in t.users
    ensures TablesSound(DeleteUser(t, u), next)
  {
    Unfold(t, next);
    DeletingKeepsUsers(t, u, next);
    DeletingKeepsSessions(t, u);
    hide UsersSound, SessionsSound, ChainsSound, OneTimeSound;
    var t' := DeleteUser(t, u);
    ForgettingRowsKeepsChains(t.refresh, t'.refresh, next);
    ForgettingRowsKeepsOneTime(t.resets, t.users.Keys, t'.resets, t'.users.Keys, next);
    ForgettingRowsKeepsOneTime(t.verifications, t.users.Keys, t'.verifications, t'.users.Keys, next);
    Fold(t', next);
  }

  lemma AddingTokenKeepsChains(rows: map<Digest, RefreshRow>, row: RefreshRow, next: nat)
    requires ChainsSound(rows, next) && row.login <= next
    requires forall d :: d in rows && rows[d].login == row.login ==> rows[d].userId == row.userId
    requires forall d :: d in LiveRows(rows) ==> rows[d].login != row.login
    ensures ChainsSound(rows[next := row], next + 1)
  {
    assert forall d :: d in LiveRows(rows[next := row]) ==> d in LiveRows(rows) || d == next;
  }

  lemma AddingRowsKeepsSound(t: Tables, rows: map<Digest, RefreshRow>, next: nat)
    requires TablesSound(t, next) && ChainsSound(rows, next) && SessionsSound(rows, t.users)
    ensures TablesSound(t.(refresh := rows), next)
  {
    Unfold(t, next);
    Fold(t.(refresh := rows), next);
  }

  lemma AddingTokenKeepsSound(t: Tables, row: RefreshRow, next: nat)
    requires TablesSound(t, next) && row.userId in t.users && Accessible(t.users[row.userId]) && row.login <= next
    requires forall d :: d in t.refresh && t.refresh[d].login == row.login ==> t.refresh[d].userId == row.userId
    requires forall d :: d in LiveRows(t.refresh) ==> t.refresh[d].login != row.login
    ensures TablesSound(InsertRefresh(t, next, row), next + 1)
  {
    TablesSoundGrows(t, next, next + 1);
    assert Holds(ChainsClause, t, next);
    AddingTokenKeepsChains(t.refresh, row, next);
    assert Holds(SessionsClause, t, next);
    assert SessionsSound(t.refresh[next := row], t.users);
    AddingRowsKeepsSound(t, t.refresh[next := row], next + 1);
  }

  lemma StartingChainKeepsSound(t: Tables, u: UserId, expiresAt: Time, next: nat)
    requires TablesSound(t, next) && u in t.users && Accessible(t.users[u])
    ensures TablesSound(InsertRefresh(t, next, RefreshRow(u, expiresAt, false, next)), next + 1)
  {
    assert Holds(ChainsClause, t, next);
    AddingTokenKeepsSound(t, RefreshRow(u, expiresAt, false, next), next);
  }

  lemma RevokingOneKeepsSound(t: Tables, d: Digest, next: nat)
    requires TablesSound(t, next) && d in t.refresh
    ensures TablesSound(Revoke(t, d), next)
    ensures LiveRows(Revoke(t, d).refresh) == LiveRows(t.refresh) - {d}
  {
    RevokingKeepsSound(t, {d}, next);
    assert Revoke(t, d) == t.(refresh := RevokeRows(t.refresh, {d}));
  }

  lemma RotatingKeepsSound(t: Tables, d: Digest, expiresAt: Time, next: nat)
    requires TablesSound(t, next) && d in t.refresh && !t.refresh[d].isRevoked
    ensures TablesSound(Rotate(t, d, t.refresh[d].userId, next, expiresAt), next + 1)
  {
    Unfold(t, next);
    RevokingOneKeepsSound(t, d, next);
    assert d in LiveRows(t.refresh);
    AddingTokenKeepsSound(Revoke(t, d), RefreshRow(t.refresh[d].userId, expiresAt, false, t.refresh[d].login), next);
  }

  lemma PurgingKeepsSound(t: Tables, now: Time, next: nat)
    requires TablesSound(t, next)
    ensures TablesSound(DeleteExpired(t, now), next)
  {
    Unfold(t, next);
    ForgettingRowsKeepsChains(t.refresh, DeleteExpired(t, now).refresh, next);
    Fold(DeleteExpired(t, now), next);
  }

  /** A token may be issued to a user who has no unused one. */
  lemma IssuingKeepsSound(rows: map<Digest, OneTimeRow>, users: set<UserId>, u: UserId, expiresAt: Time, next: nat)
    requires OneTimeSound(rows, users, next) && u in users
    requires forall d :: d in UnusedRows(rows) ==> rows[d].userId != u
    ensures OneTimeSound(rows[next := OneTimeRow(u, expiresAt, false)], users, next + 1)
  {
  }

  lemma RetiringKeepsSound(rows: map<Digest, OneTimeRow>, users: set<UserId>, u: UserId, next: nat)
    requires OneTimeSound(rows, users, next)
    ensures OneTimeSound(UseAll(rows, u), users, next)
    ensures forall d :: d in UnusedRows(UseAll(rows, u)) ==> UseAll(rows, u)[d].userId != u
  {
  }

  lemma UsingKeepsSound(rows: map<Digest, OneTimeRow>, users: set<UserId>, d: Digest, next: nat)
    requires OneTimeSound(rows, users, next) && d in rows
    ensures OneTimeSound(Use(rows, d), users, next)
  {
    assert UnusedRows(Use(rows, d)) <= UnusedRows(rows);
  }

  lemma TablesSoundGrows(t: Tables, next: nat, next': nat)
    requires TablesSound(t, next) && next <= next'
    ensures TablesSound(t, next')
  {
    Unfold(t, next);
    Fold(t, next');
  }

  // ------------------------------------------------ every request, every run

  lemma IssuingResetKeepsSound(t: Tables, rows: map<Digest, OneTimeRow>, next: nat)
    requires TablesSound(t, next) && OneTimeSound(rows, t.users.Keys, next)
    ensures TablesSound(t.(resets := rows), next)
  {
    Unfold(t, next);
    Fold(t.(resets := rows), next);
  }

  lemma IssuingVerificationKeepsSound(t: Tables, rows: map<Digest, OneTimeRow>, next: nat)
    requires TablesSound(t, next) && OneTimeSound(rows, t.users.Keys, next)
    ensures TablesSound(t.(verifications := rows), next)
  {
    Unfold(t, next);
    Fold(t.(verifications := rows), next);
  }

  lemma SendingVerificationKeepsSound(cfg: Settings, t: Tables, now: Time, u: UserId, next: nat)
    requires TablesSound(t, next) && u in t.users
    requires forall d :: d in UnusedRows(t.verifications) ==> t.verifications[d].userId != u
    ensures TablesSound(SendVerification(cfg, t, now, u, next), next + 1)
  {
    assert Holds(VerificationsClause, t, next);
    IssuingKeepsSound(t.verifications, t.users.Keys, u, now + cfg.verificationTtl, next);
    TablesSoundGrows(t, next, next + 1);
    IssuingVerificationKeepsSound(t, t.verifications[next := OneTimeRow(u, now + cfg.verificationTtl, false)], next + 1);
  }

  lemma NewUserHasNoTokens(t: Tables, next: nat)
    requires TablesSound(t, next)
    ensures forall d :: d in UnusedRows(t.verifications) ==> t.verifications[d].userId != next
  {
    assert Holds(UsersClause, t, next);
    assert Holds(VerificationsClause, t, next);
  }

  lemma RegisterKeepsSound(cfg: Settings, t: Tables, now: Time, next: nat, email: string, password: string)
    requires TablesSound(t, next)
    ensures TablesSound(Register(cfg, t, now, next, email, password).tables, next + 2)
  {
    hide TablesSound, SendVerification;
    if email in t.emails {
      TablesSoundGrows(t, next, next + 2);
    } else {
      var row := NewUser(email, password, USER, false, now);
      InsertingUserKeepsSound(t, next, row, next);
      NewUserHasNoTokens(t, next);
      SendingVerificationKeepsSound(cfg, InsertUser(t, next, row), now, next, next + 1);
    }
  }

  lemma SeedKeepsSound(t: Tables, now: Time, next: nat, email: string, password: string)
    requires TablesSound(t, next)
    ensures TablesSound(SeedSuperAdmin(t, now, next, email, password).tables, next + 2)
  {
    hide TablesSound;
    var row := NewUser(email, password, SUPER_ADMIN, true, now);
    TablesSoundGrows(t, next, next + 2);
    if email !in t.emails {
      InsertingUserKeepsSound(t, next, row, next);
      TablesSoundGrows(InsertUser(t, next, row), next + 1, next + 2);
    }
  }

  lemma LoginKeepsSound(cfg: Settings, t: Tables, now: Time, next: nat, email: string, password: string,
                        required: Option<set<Role>>)
    requires TablesSound(t, next)
    ensures TablesSound(Login(cfg, t, now, next, email, password, required).tables, next + 2)
  {
    hide TablesSound;
    var reply := Login(cfg, t, now, next, email, password, required);
    if reply.outcome.Issued? {
      StartingChainKeepsSound(t, t.emails[email], now + cfg.refreshTtl, next);
      TablesSoundGrows(reply.tables, next + 1, next + 2);
    } else {
      TablesSoundGrows(t, next, next + 2);
    }
  }

  lemma EmailsNameUsers(t: Tables, next: nat, email: string)
    requires TablesSound(t, next) && email in t.emails
    ensures t.emails[email] in t.users
  {
    assert Holds(UsersClause, t, next);
  }

  lemma RequestResetKeepsSound(cfg: Settings, t: Tables, now: Time, next: nat, email: string)
    requires TablesSound(t, next)
    ensures TablesSound(RequestReset(cfg, t, now, next, email).tables, next + 2)
  {
    hide TablesSound, SendReset;
    if email in t.emails {
      EmailsNameUsers(t, next, email);
      ReplacingResetKeepsSound(cfg, t, now, next, t.emails[email]);
      TablesSoundGrows(RequestReset(cfg, t, now, next, email).tables, next + 1, next + 2);
    } else {
      TablesSoundGrows(t, next, next + 2);
    }
  }

  lemma ResendKeepsSound(cfg: Settings, t: Tables, now: Time, next: nat, email: string)
    requires TablesSound(t, next)
    ensures TablesSound(ResendVerification(cfg, t, now, next, email).tables, next + 2)
  {
    hide TablesSound, SendVerification;
    var reply := ResendVerification(cfg, t, now, next, email);
    if reply.outcome.Done? {
      ReplacingVerificationKeepsSound(cfg, t, now, next, t.emails[email]);
      TablesSoundGrows(reply.tables, next + 1, next + 2);
    } else {
      TablesSoundGrows(t, next, next + 2);
    }
  }

  lemma ReplacingResetKeepsSound(cfg: Settings, t: Tables, now: Time, next: nat, u: UserId)
    requires TablesSound(t, next) && u in t.users
    ensures TablesSound(SendReset(cfg, t.(resets := UseAll(t.resets, u)), now, u, next), next + 1)
  {
    assert Holds(ResetsClause, t, next);
    RetiringKeepsSound(t.resets, t.users.Keys, u, next);
    IssuingKeepsSound(UseAll(t.resets, u), t.users.Keys, u, now + cfg.resetTtl, next);
    TablesSoundGrows(t, next, next + 1);
    IssuingResetKeepsSound(t, UseAll(t.resets, u)[next := OneTimeRow(u, now + cfg.resetTtl, false)], next + 1);
  }

  lemma ReplacingVerificationKeepsSound(cfg: Settings, t: Tables, now: Time, next: nat, u: UserId)
    requires TablesSound(t, next) && u in t.users
    ensures TablesSound(SendVerification(cfg, t.(verifications := UseAll(t.verifications, u)), now, u, next), next + 1)
  {
    assert Holds(VerificationsClause, t, next);
    RetiringKeepsSound(t.verifications, t.users.Keys, u, next);
    IssuingVerificationKeepsSound(t, UseAll(t.verifications, u), next);
    SendingVerificationKeepsSound(cfg, t.(verifications := UseAll(t.verifications, u)), now, u, next);
  }

  lemma VerifyEmailKeepsSound(t: Tables, now: Time, d: Digest, next: nat)
    requires TablesSound(t, next) && VerifyEmail(t, now, d).outcome.Done?
    ensures TablesSound(VerifyEmail(t, now, d).tables, next)
  {
    assert Holds(VerificationsClause, t, next);
    UsingKeepsSound(t.verifications, t.users.Keys, d, next);
    IssuingVerificationKeepsSound(t, Use(t.verifications, d), next);
    VerifyingUserKeepsSound(t.(verifications := Use(t.verifications, d)), t.verifications[d].userId, now, next);
  }

  lemma VerifyingUserKeepsSound(t: Tables, u: UserId, now: Time, next: nat)
    requires TablesSound(t, next) && u in t.users
    ensures TablesSound(WithUser(t, u, Verified(t.users[u], now)), next)
  {
    assert Holds(UsersClause, t, next);
    ChangingUserKeepsSound(t, u, Verified(t.users[u], now), next);
  }

  lemma RefreshKeepsSound(cfg: Settings, t: Tables, now: Time, next: nat, d: Digest, required: Option<set<Role>>)
    requires TablesSound(t, next)
    ensures TablesSound(Refresh(cfg, t, now, next, d, required).tables, next + 2)
  {
    var reply := Refresh(cfg, t, now, next, d, required);
    if d in t.refresh && t.refresh[d].isRevoked {
      RevokingKeepsSound(t, LiveTokens(t, t.refresh[d].userId), next);
      TablesSoundGrows(reply.tables, next, next + 2);
    } else if reply.outcome.Issued? {
      RotatingKeepsSound(t, d, now + cfg.refreshTtl, next);
      TablesSoundGrows(reply.tables, next + 1, next + 2);
    } else {
      TablesSoundGrows(t, next, next + 2);
    }
  }

  /** A new password leaves a live session's user exactly as accessible as before. */
  lemma ChangingPasswordKeepsSound(t: Tables, u: UserId, password: string, now: Time, next: nat)
    requires TablesSound(t, next) && u in t.users
    ensures TablesSound(WithPassword(t, u, password, now), next)
  {
    assert Holds(UsersClause, t, next);
    assert Holds(SessionsClause, t, next);
    ChangingUserKeepsSound(t, u, t.users[u].(password := password, passwordChangedAt := now), next);
  }

  lemma ChangePasswordKeepsSound(cfg: Settings, t: Tables, now: Time, u: UserId, password: string,
                                 keep: Option<Digest>, next: nat)
    requires TablesSound(t, next) && u in t.users
    ensures TablesSound(RevokeSessions(cfg, WithPassword(t, u, password, now), u, keep), next)
  {
    var t1 := WithPassword(t, u, password, now);
    ChangingPasswordKeepsSound(t, u, password, now, next);
    var which := if KeepsSession(cfg, t1, u, keep) then LiveTokens(t1, u) - {keep.value} else LiveTokens(t1, u);
    RevokingKeepsSound(t1, which, next);
  }

  lemma RedeemResetKeepsSound(t: Tables, d: Digest, u: UserId, password: string, now: Time, next: nat)
    requires TablesSound(t, next) && d in t.resets && u in t.users
    ensures TablesSound(RedeemReset(t, d, u, password, now), next)
  {
    var t1 := t.(resets := Use(t.resets, d));
    assert Holds(ResetsClause, t, next);
    UsingKeepsSound(t.resets, t.users.Keys, d, next);
    IssuingResetKeepsSound(t, Use(t.resets, d), next);
    ChangingPasswordKeepsSound(t1, u, password, now, next);
    var t2 := WithPassword(t1, u, password, now);
    RevokingKeepsSound(t2, LiveTokens(t2, u), next);
  }

  lemma ReopeningKeepsSound(t: Tables, u: UserId, next: nat)
    requires TablesSound(t, next) && u in t.users
    ensures !t.users[u].isActive ==> TablesSound(WithUser(t, u, Enabled(t.users[u])), next)
    ensures t.users[u].isBlocked ==> TablesSound(WithUser(t, u, Unblocked(t.users[u])), next)
  {
    assert Holds(UsersClause, t, next);
    assert Holds(SessionsClause, t, next);
    if !t.users[u].isActive {
      ChangingUserKeepsSound(t, u, Enabled(t.users[u]), next);
    }
    if t.users[u].isBlocked {
      ChangingUserKeepsSound(t, u, Unblocked(t.users[u]), next);
    }
  }

  lemma ServeKeepsTablesSound(cfg: Settings, t: Tables, now: Time, next: nat, req: Request)
    requires TablesSound(t, next)
    ensures TablesSound(Serve(cfg, t, now, next, req).tables, next + 2)
  {
    hide TablesSound, Register, SeedSuperAdmin, Login, Refresh, RequestReset, ResendVerification;
    match req
    case RegisterReq(email, password) => RegisterKeepsSound(cfg, t, now, next, email, password);
    case SeedReq(email, password) => SeedKeepsSound(t, now, next, email, password);
    case LoginReq(email, password, required) => LoginKeepsSound(cfg, t, now, next, email, password, required);
    case RefreshReq(d, required) => RefreshKeepsSound(cfg, t, now, next, d, required);
    case RequestResetReq(email) => RequestResetKeepsSound(cfg, t, now, next, email);
    case ResendReq(email) => ResendKeepsSound(cfg, t, now, next, email);
    case _ =>
      hide Serve;
      InPlaceRequestsKeepSound(cfg, t, now, next, req);
      TablesSoundGrows(Serve(cfg, t, now, next, req).tables, next, next + 2);
  }

  predicate Issues(req: Request) {
    req.RefreshReq? || req.RegisterReq? || req.SeedReq? || req.LoginReq? || req.RequestResetReq? || req.ResendReq?
  }

  lemma InPlaceRequestsKeepSound(cfg: Settings, t: Tables, now: Time, next: nat, req: Request)
    requires TablesSound(t, next) && !Issues(req)
    ensures TablesSound(Serve(cfg, t, now, next, req).tables, next)
  {
    hide TablesSound;
    if Serve(cfg, t, now, next, req).outcome.Done? {
      match req
      case LogoutReq(d) => RevokingOneKeepsSound(t, d, next);
      case PurgeReq => PurgingKeepsSound(t, now, next);
      case ChangePasswordReq(u, _, password, keep) => ChangePasswordKeepsSound(cfg, t, now, u, password, keep, next);
      case ResetPasswordReq(d, password) => RedeemResetKeepsSound(t, d, t.resets[d].userId, password, now, next);
      case VerifyEmailReq(d) => VerifyEmailKeepsSound(t, now, d, next);
      case EnableReq(email, _) => ReopeningKeepsSound(t, t.emails[email], next);
      case _ => AccountRequestsKeepSound(cfg, t, now, next, req);
    }
  }

  predicate IsAccountRequest(req: Request) {
    || req.DisableReq? || req.DeactivateReq? || req.BlockReq? || req.DeleteReq? || req.AdminDeleteReq?
    || req.ActivateReq? || req.UnblockReq? || req.LookupReq? || req.EvictReq?
  }

  lemma AccountRequestsKeepSound(cfg: Settings, t: Tables, now: Time, next: nat, req: Request)
    requires TablesSound(t, next) && IsAccountRequest(req)
    ensures TablesSound(Serve(cfg, t, now, next, req).tables, next)
  {
    hide RevokeAll, WithUser, DeleteUser, TablesSound;
    if req.user in t.users {
      var u := req.user;
      DeletingUserKeepsSound(t, u, next);
      ReopeningKeepsSound(t, u, next);
      LockingOutKeepsSound(t, u, Disabled(t.users[u], now), next);
      if req.BlockReq? {
        LockingOutKeepsSound(t, u, Blocked(t.users[u], now, req.reason), next);
      }
    }
  }
}
