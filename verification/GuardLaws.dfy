/** Auth and the gateway together: what a lookup answers, and what the guard makes of it. */
module GuardLaws {
  import opened Outcomes
  import opened Identity
  import opened Requests
  import opened SessionMachine
  import opened SessionRuns
  import opened Staleness
  import opened SessionGuard
  import RequestLaws

  /** What `get_user_state` answers in a state of the machine: the cached snapshot, else one of the row. */
  function Answer(s: SessionMachine.State, u: UserId): Option<UserState> {
    if u in s.cache then Some(s.cache[u])
    else if u in s.tables.users then Some(StateOf(s.tables.users[u]))
    else None
  }

  /** In every state with a coherent cache a lookup answers the columns of the row, and nothing for nobody. */
  lemma AnswersAreTheRow(s: SessionMachine.State, u: UserId)
    requires CacheCoherent(s)
    ensures Answer(s, u) ==
      if u !in s.tables.users then None
      else
        var row := s.tables.users[u];
        Some(UserState(row.isActive, row.isBlocked, row.role, row.passwordChangedAt))
  {
  }

  /** Hence on every run: the answer is active and unblocked exactly when the user may log in. */
  lemma {:induction false} AnswersShowAccess(cfg: Settings, events: seq<Event>, u: UserId)
    ensures
      var s := After(cfg, events);
      && (Answer(s, u).Some? <==> u in s.tables.users)
      && (u in s.tables.users ==>
            (Answer(s, u).value.isActive && !Answer(s, u).value.isBlocked
             <==> s.tables.users[u].isActive && !s.tables.users[u].isBlocked))
  {
    RunsAreSound(cfg, events);
    AnswersAreTheRow(After(cfg, events), u);
  }

  /** What the guard decides on an access token of `u` with the given role and timestamp, by Auth's answer. */
  function Decided(s: SessionMachine.State, u: UserId, role: Role, pwdTs: PwdTs): Option<Decision> {
    if Answer(s, u).None? then None
    else Some(Evaluate(Payload(true, Some(u), Some(role), pwdTs), Answer(s, u).value))
  }

  /** After a block, a disable or a deactivation every access token of the user is forbidden. */
  lemma LockoutIsForbidden(cfg: Settings, s: SessionMachine.State, e: Event, role: Role, pwdTs: PwdTs)
    requires TablesSound(s.tables, s.next) && CacheCoherent(s) && OutcomeOf(cfg, s, e).Done?
    requires e.request.DisableReq? || e.request.BlockReq? || e.request.DeactivateReq?
    ensures Decided(Apply(cfg, s, e), e.request.user, role, pwdTs) == Some(Reject(403))
  {
    LockoutTakesEffect(cfg, s, e);
    CacheStaysCoherent(cfg, s, e);
    AnswersAreTheRow(Apply(cfg, s, e), e.request.user);
    hide Apply, TablesSound, CacheCoherent, Answer;
  }

  /** The access token a login or a refresh hands out is forwarded at once. */
  lemma IssuedTokenIsForwarded(cfg: Settings, s: SessionMachine.State, e: Event)
    requires TablesSound(s.tables, s.next) && CacheCoherent(s) && OutcomeOf(cfg, s, e).Issued?
    ensures
      var m := OutcomeOf(cfg, s, e).access;
      Decided(Apply(cfg, s, e), m.userId, m.role, Numeric(m.pwdTs)) == Some(Forward)
  {
    TokensCarryTheirUsersTimestamp(cfg, s, e);
    IssuedUserIsAccessible(cfg, s, e);
    CacheStaysCoherent(cfg, s, e);
    AnswersAreTheRow(Apply(cfg, s, e), OutcomeOf(cfg, s, e).access.userId);
    hide Apply, TablesSound, CacheCoherent, Answer, OutcomeOf;
  }

  lemma IssuedUserIsAccessible(cfg: Settings, s: SessionMachine.State, e: Event)
    requires TablesSound(s.tables, s.next) && OutcomeOf(cfg, s, e).Issued?
    ensures
      var u, t := OutcomeOf(cfg, s, e).access.userId, Apply(cfg, s, e).tables;
      u in t.users && Accessible(t.users[u])
  {
    TokensCarryTheirUsersTimestamp(cfg, s, e);
  }

  /** After a password change exactly the tokens from before its clock reading are refused as stale. */
  lemma OldTokensAreUnauthorised(cfg: Settings, s: SessionMachine.State, e: Event, u: UserId, at: Time)
    requires TablesSound(s.tables, s.next) && CacheCoherent(s) && ChangesPassword(cfg, s, e, u) && e.now > 0
    requires u in s.tables.users && Accessible(s.tables.users[u])
    ensures Decided(Apply(cfg, s, e), u, s.tables.users[u].role, Numeric(at)) == Some(if at < e.now then Reject(401) else Forward)
  {
    RequestLaws.PasswordIsTheRequestedOne(cfg, s, e, u);
    CacheStaysCoherent(cfg, s, e);
    AnswersAreTheRow(Apply(cfg, s, e), u);
    hide Apply, TablesSound, CacheCoherent, Answer, ChangesPassword;
  }

  /** A role the user does not have is refused, whatever else the token says. */
  lemma ForeignRoleIsUnauthorised(s: SessionMachine.State, u: UserId, role: Role, pwdTs: PwdTs)
    requires CacheCoherent(s) && u in s.tables.users && Accessible(s.tables.users[u]) && role != s.tables.users[u].role
    ensures Decided(s, u, role, pwdTs) == Some(Reject(401))
  {
    AnswersAreTheRow(s, u);
  }
}
