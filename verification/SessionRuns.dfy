/**
 What holds over every run of the request-at-a-time machine.
 */
module SessionRuns {
  import opened Outcomes
  import opened Identity
  import opened Requests
  import opened SessionMachine
  import opened Staleness

  function StateAt(cfg: Settings, events: seq<Event>, i: nat): State
    requires i <= |events|
  {
    After(cfg, events[..i])
  }

  lemma StateAtNext(cfg: Settings, events: seq<Event>, i: nat)
    requires i < |events|
    ensures StateAt(cfg, events, i + 1) == Apply(cfg, StateAt(cfg, events, i), events[i])
  {
    assert events[..i + 1][..i] == events[..i];
  }

  // ------------------------------------------- soundness and coherence

  /** A token row of digest `d` only ages: it keeps its user, no deleted row returns, no revocation or use is undone. */
  predicate TokenOnlyAges(t: Tables, t': Tables, d: Digest) {
    && (d in t'.refresh ==>
          d in t.refresh && t'.refresh[d].userId == t.refresh[d].userId && (t.refresh[d].isRevoked ==> t'.refresh[d].isRevoked))
    && (d in t'.resets ==>
          d in t.resets && t'.resets[d].userId == t.resets[d].userId && (t.resets[d].isUsed ==> t'.resets[d].isUsed))
    && (d in t'.verifications ==>
          && d in t.verifications && t'.verifications[d].userId == t.verifications[d].userId
          && (t.verifications[d].isUsed ==> t'.verifications[d].isUsed))
  }

  /** A user survives unless dropped, keeps the role, and keeps the reported state unless dropped. */
  predicate UserOnlyChangesWhenDropped(t: Tables, reply: Reply, u: UserId, dropped: set<UserId>) {
    && (u in reply.tables.users ==> u in t.users && reply.tables.users[u].role == t.users[u].role)
    && (u in t.users && (u !in dropped || !reply.outcome.Done?) ==>
          u in reply.tables.users && StateOf(reply.tables.users[u]) == StateOf(t.users[u]))
  }

  lemma IssuingTokenFrame(cfg: Settings, t: Tables, now: Time, next: nat, req: Request, d: Digest)
    requires Issues(req) && d < next
    ensures TokenOnlyAges(t, Serve(cfg, t, now, next, req).tables, d)
  {
    if req.RefreshReq? || req.LoginReq? {
      SessionTokenFrame(cfg, t, now, next, req, d);
    }
  }

  lemma SessionTokenFrame(cfg: Settings, t: Tables, now: Time, next: nat, req: Request, d: Digest)
    requires (req.RefreshReq? || req.LoginReq?) && d < next
    ensures TokenOnlyAges(t, Serve(cfg, t, now, next, req).tables, d)
  {
  }

  lemma IssuingUserFrame(cfg: Settings, t: Tables, now: Time, next: nat, req: Request, u: UserId)
    requires Issues(req) && u < next
    ensures UserOnlyChangesWhenDropped(t, Serve(cfg, t, now, next, req), u, {})
  {
  }

  lemma AccountTokenFrame(cfg: Settings, t: Tables, now: Time, next: nat, req: Request, d: Digest)
    requires IsAccountRequest(req)
    ensures TokenOnlyAges(t, Serve(cfg, t, now, next, req).tables, d)
  {
    if req.DisableReq? || req.DeactivateReq? || req.BlockReq? {
      LockingTokenFrame(cfg, t, now, next, req, d);
    }
  }

  lemma LockingTokenFrame(cfg: Settings, t: Tables, now: Time, next: nat, req: Request, d: Digest)
    requires req.DisableReq? || req.DeactivateReq? || req.BlockReq?
    ensures TokenOnlyAges(t, Serve(cfg, t, now, next, req).tables, d)
  {
  }

  lemma AccountUserFrame(cfg: Settings, t: Tables, now: Time, next: nat, req: Request, u: UserId)
    requires IsAccountRequest(req)
    ensures UserOnlyChangesWhenDropped(t, Serve(cfg, t, now, next, req), u, {req.user})
  {
    if req.DisableReq? || req.DeactivateReq? || req.BlockReq? {
      LockingUserFrame(cfg, t, now, next, req, u);
    }
  }

  lemma LockingUserFrame(cfg: Settings, t: Tables, now: Time, next: nat, req: Request, u: UserId)
    requires req.DisableReq? || req.DeactivateReq? || req.BlockReq?
    ensures UserOnlyChangesWhenDropped(t, Serve(cfg, t, now, next, req), u, {req.user})
  {
  }

  lemma InPlaceTokenFrame(cfg: Settings, t: Tables, now: Time, next: nat, req: Request, d: Digest)
    requires !Issues(req) && !IsAccountRequest(req)
    ensures TokenOnlyAges(t, Serve(cfg, t, now, next, req).tables, d)
  {
    if req.ChangePasswordReq? || req.ResetPasswordReq? {
      PasswordTokenFrame(cfg, t, now, next, req, d);
    }
  }

  lemma PasswordTokenFrame(cfg: Settings, t: Tables, now: Time, next: nat, req: Request, d: Digest)
    requires req.ChangePasswordReq? || req.ResetPasswordReq?
    ensures TokenOnlyAges(t, Serve(cfg, t, now, next, req).tables, d)
  {
  }

  lemma InPlaceUserFrame(cfg: Settings, t: Tables, now: Time, next: nat, req: Request, u: UserId)
    requires !Issues(req) && !IsAccountRequest(req)
    ensures UserOnlyChangesWhenDropped(t, Serve(cfg, t, now, next, req), u, Dropped(t, req))
  {
  }

  /** Every request ages tokens only, and only dropped users change the state a lookup reports. */
  lemma {:induction false} ServeFrame(cfg: Settings, t: Tables, now: Time, next: nat, req: Request, u: UserId,
                                      d: Digest)
    requires u < next && d < next
    ensures TokenOnlyAges(t, Serve(cfg, t, now, next, req).tables, d)
    ensures UserOnlyChangesWhenDropped(t, Serve(cfg, t, now, next, req), u, Dropped(t, req))
  {
    if Issues(req) {
      IssuingTokenFrame(cfg, t, now, next, req, d);
      IssuingUserFrame(cfg, t, now, next, req, u);
    } else if IsAccountRequest(req) {
      AccountTokenFrame(cfg, t, now, next, req, d);
      AccountUserFrame(cfg, t, now, next, req, u);
    } else {
      InPlaceTokenFrame(cfg, t, now, next, req, d);
      InPlaceUserFrame(cfg, t, now, next, req, u);
    }
  }

  lemma {:induction false} CacheStaysCoherent(cfg: Settings, s: State, e: Event)
    requires TablesSound(s.tables, s.next) && CacheCoherent(s)
    ensures CacheCoherent(Apply(cfg, s, e))
  {
    var s' := Apply(cfg, s, e);
    forall u | u in s'.cache
      ensures u in s'.tables.users && s'.cache[u] == StateOf(s'.tables.users[u])
    {
      if u in s.tables.users {
        assert Holds(UsersClause, s.tables, s.next);
        ServeFrame(cfg, s.tables, e.now, s.next, e.request, u, u);
      }
    }
  }

  /** The invariant holds after every run, whatever the clock reads. */
  lemma {:induction false} RunsAreSound(cfg: Settings, events: seq<Event>)
    ensures TablesSound(After(cfg, events).tables, After(cfg, events).next)
    ensures CacheCoherent(After(cfg, events))
  {
    if events == [] {
      Fold(EMPTY, 0);
    } else {
      var s, e := After(cfg, events[..|events| - 1]), events[|events| - 1];
      RunsAreSound(cfg, events[..|events| - 1]);
      ServeKeepsTablesSound(cfg, s.tables, e.now, s.next, e.request);
      CacheStaysCoherent(cfg, s, e);
    }
  }

  lemma {:induction false} LiveTokensBelongToAccessibleUsers(cfg: Settings, events: seq<Event>, d: Digest)
    requires d in After(cfg, events).tables.refresh && !After(cfg, events).tables.refresh[d].isRevoked
    ensures var t := After(cfg, events).tables;
      t.refresh[d].userId in t.users && t.users[t.refresh[d].userId].isActive && !t.users[t.refresh[d].userId].isBlocked
  {
    RunsAreSound(cfg, events);
    assert Holds(SessionsClause, After(cfg, events).tables, After(cfg, events).next);
  }

  lemma {:induction false} FlagsAgreeWithTimestamps(cfg: Settings, events: seq<Event>, u: UserId)
    requires u in After(cfg, events).tables.users
    ensures var row := After(cfg, events).tables.users[u];
      (row.isActive <==> row.disabledAt.None?) && (row.isBlocked <==> row.blockedAt.Some?)
  {
    RunsAreSound(cfg, events);
    assert Holds(UsersClause, After(cfg, events).tables, After(cfg, events).next);
  }

  /** Two unrevoked tokens of one login are one token. */
  lemma {:induction false} OneLiveTokenPerLogin(cfg: Settings, events: seq<Event>, d: Digest, e: Digest)
    requires var rows := After(cfg, events).tables.refresh;
      d in rows && e in rows && rows[d].login == rows[e].login && !rows[d].isRevoked && !rows[e].isRevoked
    ensures d == e
  {
    RunsAreSound(cfg, events);
    var s := After(cfg, events);
    assert Holds(ChainsClause, s.tables, s.next);
    assert d in LiveRows(s.tables.refresh) && e in LiveRows(s.tables.refresh);
  }

  lemma OneUnusedTokenPerUser(cfg: Settings, events: seq<Event>)
    ensures var rows := After(cfg, events).tables.resets;
      forall d, e :: d in rows && e in rows && rows[d].userId == rows[e].userId && !rows[d].isUsed && !rows[e].isUsed ==> d == e
    ensures var rows := After(cfg, events).tables.verifications;
      forall d, e :: d in rows && e in rows && rows[d].userId == rows[e].userId && !rows[d].isUsed && !rows[e].isUsed ==> d == e
  {
    RunsAreSound(cfg, events);
    var s := After(cfg, events);
    assert Holds(ResetsClause, s.tables, s.next);
    assert Holds(VerificationsClause, s.tables, s.next);
    assert forall d :: d in s.tables.resets && !s.tables.resets[d].isUsed ==> d in UnusedRows(s.tables.resets);
    assert forall d :: d in s.tables.verifications && !s.tables.verifications[d].isUsed ==> d in UnusedRows(s.tables.verifications);
  }

  /** A cache hit answers what the users table says now. */
  lemma CacheHitsAreExact(cfg: Settings, events: seq<Event>, u: UserId)
    requires u in After(cfg, events).cache
    ensures u in After(cfg, events).tables.users
    ensures After(cfg, events).cache[u] == StateOf(After(cfg, events).tables.users[u])
  {
    RunsAreSound(cfg, events);
  }

  // --------------------------------------------- tokens never come back

  /** The refresh token was handed out and is revoked or already deleted. */
  predicate Spent(s: State, d: Digest) {
    d < s.next && (d in s.tables.refresh ==> s.tables.refresh[d].isRevoked)
  }

  predicate UsedUp(rows: map<Digest, OneTimeRow>, next: nat, d: Digest) {
    d < next && (d in rows ==> rows[d].isUsed)
  }

  lemma ApplyKeepsSpent(cfg: Settings, s: State, e: Event, d: Digest)
    requires Spent(s, d)
    ensures Spent(Apply(cfg, s, e), d)
  {
    if d < s.next {
      ServeFrame(cfg, s.tables, e.now, s.next, e.request, d, d);
    }
  }

  lemma ApplyKeepsUsedUp(cfg: Settings, s: State, e: Event, d: Digest)
    ensures UsedUp(s.tables.resets, s.next, d) ==> UsedUp(Apply(cfg, s, e).tables.resets, Apply(cfg, s, e).next, d)
    ensures UsedUp(s.tables.verifications, s.next, d) ==> UsedUp(Apply(cfg, s, e).tables.verifications, Apply(cfg, s, e).next, d)
  {
    if d < s.next {
      ServeFrame(cfg, s.tables, e.now, s.next, e.request, d, d);
    }
  }

  lemma {:induction false} SpentForever(cfg: Settings, events: seq<Event>, i: nat, j: nat, d: Digest)
    requires i <= j <= |events| && Spent(StateAt(cfg, events, i), d)
    ensures Spent(StateAt(cfg, events, j), d)
  {
    if i < j {
      SpentForever(cfg, events, i, j - 1, d);
      StateAtNext(cfg, events, j - 1);
      ApplyKeepsSpent(cfg, StateAt(cfg, events, j - 1), events[j - 1], d);
    }
  }

  lemma {:induction false} UsedUpForever(cfg: Settings, events: seq<Event>, i: nat, j: nat, d: Digest)
    requires i <= j <= |events|
    ensures UsedUp(StateAt(cfg, events, i).tables.resets, StateAt(cfg, events, i).next, d) ==>
            UsedUp(StateAt(cfg, events, j).tables.resets, StateAt(cfg, events, j).next, d)
    ensures UsedUp(StateAt(cfg, events, i).tables.verifications, StateAt(cfg, events, i).next, d) ==>
            UsedUp(StateAt(cfg, events, j).tables.verifications, StateAt(cfg, events, j).next, d)
  {
    hide StateAt, UsedUp, Apply;
    if i < j {
      UsedUpForever(cfg, events, i, j - 1, d);
      StateAtNext(cfg, events, j - 1);
      ApplyKeepsUsedUp(cfg, StateAt(cfg, events, j - 1), events[j - 1], d);
    }
  }

  /** Once a token was rotated, no later request rotates it again. */
  lemma RotatedAtMostOnce(cfg: Settings, events: seq<Event>, i: nat, j: nat)
    requires i < j < |events| && events[i].request.RefreshReq? && events[j].request.RefreshReq?
    requires events[i].request.token == events[j].request.token
    requires OutcomeOf(cfg, StateAt(cfg, events, i), events[i]).Issued?
    ensures OutcomeOf(cfg, StateAt(cfg, events, j), events[j]).Failed?
  {
    var d, s := events[i].request.token, StateAt(cfg, events, i);
    RunsAreSound(cfg, events[..i]);
    assert Holds(ChainsClause, s.tables, s.next);
    StateAtNext(cfg, events, i);
    SpentForever(cfg, events, i + 1, j, d);
  }

  /** Presenting a revoked token fails and leaves its user with no unrevoked token. */
  lemma ReuseRevokesEverySession(cfg: Settings, s: State, e: Event)
    requires e.request.RefreshReq? && e.request.token in s.tables.refresh
    requires s.tables.refresh[e.request.token].isRevoked
    ensures OutcomeOf(cfg, s, e) == Failed(RevokedToken)
    ensures LiveTokens(Apply(cfg, s, e).tables, s.tables.refresh[e.request.token].userId) == {}
    ensures Apply(cfg, s, e).tables.refresh.Keys == s.tables.refresh.Keys
    ensures forall d :: d in s.tables.refresh && s.tables.refresh[d].userId != s.tables.refresh[e.request.token].userId ==>
              Apply(cfg, s, e).tables.refresh[d] == s.tables.refresh[d]
  {
  }

  /** A redemption succeeds only on an unused, unexpired token of an existing user, and uses it up. */
  lemma RedemptionNeedsUnusedToken(cfg: Settings, s: State, e: Event)
    requires e.request.ResetPasswordReq? || e.request.VerifyEmailReq?
    ensures var d := e.request.token;
      var rows := if e.request.ResetPasswordReq? then s.tables.resets else s.tables.verifications;
      OutcomeOf(cfg, s, e).Done? <==> d in rows && !rows[d].isUsed && e.now < rows[d].expiresAt && rows[d].userId in s.tables.users
    ensures OutcomeOf(cfg, s, e).Done? && e.request.ResetPasswordReq? && e.request.token < s.next ==>
      UsedUp(Apply(cfg, s, e).tables.resets, Apply(cfg, s, e).next, e.request.token)
    ensures OutcomeOf(cfg, s, e).Done? && e.request.VerifyEmailReq? && e.request.token < s.next ==>
      UsedUp(Apply(cfg, s, e).tables.verifications, Apply(cfg, s, e).next, e.request.token)
  {
  }

  lemma RedeemedAtMostOnce(cfg: Settings, events: seq<Event>, i: nat, j: nat)
    requires i < j < |events|
    requires (events[i].request.ResetPasswordReq? && events[j].request.ResetPasswordReq?)
      || (events[i].request.VerifyEmailReq? && events[j].request.VerifyEmailReq?)
    requires events[i].request.token == events[j].request.token
    requires OutcomeOf(cfg, StateAt(cfg, events, i), events[i]).Done?
    ensures OutcomeOf(cfg, StateAt(cfg, events, j), events[j]).Failed?
  {
    var d, s := events[i].request.token, StateAt(cfg, events, i);
    RunsAreSound(cfg, events[..i]);
    hide StateAt, Apply;
    assert Holds(ResetsClause, s.tables, s.next);
    assert Holds(VerificationsClause, s.tables, s.next);
    StateAtNext(cfg, events, i);
    RedemptionNeedsUnusedToken(cfg, s, events[i]);
    UsedUpForever(cfg, events, i + 1, j, d);
    RedemptionNeedsUnusedToken(cfg, StateAt(cfg, events, j), events[j]);
  }

  // ------------------------------------------ what each success requires

  predicate ChangesPassword(cfg: Settings, s: State, e: Event, u: UserId) {
    && OutcomeOf(cfg, s, e).Done?
    && (|| (e.request.ChangePasswordReq? && e.request.user == u)
        || (e.request.ResetPasswordReq? && e.request.token in s.tables.resets && s.tables.resets[e.request.token].userId == u))
  }

  /** A login succeeds exactly for the right password, an admitted role and an accessible account, and adds one live token. */
  lemma LoginSucceedsExactlyWhen(cfg: Settings, s: State, e: Event)
    requires TablesSound(s.tables, s.next) && e.request.LoginReq?
    ensures
      var t, req := s.tables, e.request;
      OutcomeOf(cfg, s, e).Issued? <==>
      exists u :: u in t.users && t.users[u].email == req.email && t.users[u].password == req.password
        && Accessible(t.users[u]) && (req.required.Some? ==> t.users[u].role in req.required.value)
    ensures OutcomeOf(cfg, s, e).Issued? ==>
      var u := OutcomeOf(cfg, s, e).access.userId;
      LiveTokens(Apply(cfg, s, e).tables, u) == LiveTokens(s.tables, u) + {OutcomeOf(cfg, s, e).refresh}
  {
    assert Holds(UsersClause, s.tables, s.next);
    assert Holds(ChainsClause, s.tables, s.next);
  }

  /** A refresh succeeds exactly for a live, unexpired token of an accessible user with an admitted role, and replaces it. */
  lemma RefreshSucceedsExactlyWhen(cfg: Settings, s: State, e: Event)
    requires TablesSound(s.tables, s.next) && e.request.RefreshReq?
    ensures
      var t, d := s.tables, e.request.token;
      OutcomeOf(cfg, s, e).Issued? <==>
        && d in t.refresh && !t.refresh[d].isRevoked && e.now < t.refresh[d].expiresAt && t.refresh[d].userId in t.users
        && (e.request.required.Some? ==> t.users[t.refresh[d].userId].role in e.request.required.value)
    ensures OutcomeOf(cfg, s, e).Issued? ==>
      var u := s.tables.refresh[e.request.token].userId;
      && OutcomeOf(cfg, s, e).access.userId == u
      && LiveTokens(Apply(cfg, s, e).tables, u) ==
         LiveTokens(s.tables, u) - {e.request.token} + {OutcomeOf(cfg, s, e).refresh}
  {
    assert Holds(SessionsClause, s.tables, s.next);
    assert Holds(ChainsClause, s.tables, s.next);
  }

  /** A password change ends every session but, when configured, the presented one; a reset ends them all. */
  lemma PasswordChangeEndsSessions(cfg: Settings, s: State, e: Event, u: UserId)
    requires TablesSound(s.tables, s.next) && ChangesPassword(cfg, s, e, u)
    ensures
      var req, kept := e.request, LiveTokens(Apply(cfg, s, e).tables, u);
      kept == if req.ChangePasswordReq? && cfg.keepCurrentSession && req.keep.Some? && req.keep.value in LiveTokens(s.tables, u)
              then {req.keep.value} else {}
    ensures u !in Apply(cfg, s, e).cache
  {
    if e.request.ChangePasswordReq? {
      ChangeEndsSessions(cfg, s, e);
    }
  }

  lemma ChangeEndsSessions(cfg: Settings, s: State, e: Event)
    requires e.request.ChangePasswordReq? && OutcomeOf(cfg, s, e).Done?
    ensures
      var u, keep := e.request.user, e.request.keep;
      LiveTokens(Apply(cfg, s, e).tables, u) ==
      if cfg.keepCurrentSession && keep.Some? && keep.value in LiveTokens(s.tables, u) then {keep.value} else {}
    ensures e.request.user !in Apply(cfg, s, e).cache
  {
  }

  /** Disabling, blocking and deactivating lock the user out at once: no login, no live token, no cached state. */
  lemma LockoutTakesEffect(cfg: Settings, s: State, e: Event)
    requires TablesSound(s.tables, s.next) && OutcomeOf(cfg, s, e).Done?
    requires e.request.DisableReq? || e.request.BlockReq? || e.request.DeactivateReq?
    ensures
      var u, s' := e.request.user, Apply(cfg, s, e);
      && u in s'.tables.users && !Accessible(s'.tables.users[u])
      && LiveTokens(s'.tables, u) == {} && u !in s'.cache
      && (forall v :: v in s.tables.users && v != u ==> v in s'.tables.users && s'.tables.users[v] == s.tables.users[v])
  {
    ServeKeepsTablesSound(cfg, s.tables, e.now, s.next, e.request);
    assert Holds(SessionsClause, Apply(cfg, s, e).tables, Apply(cfg, s, e).next);
  }

  /** A deletion leaves no row of the user, in any table, nor a cached state. */
  lemma DeletionLeavesNothing(cfg: Settings, s: State, e: Event)
    requires TablesSound(s.tables, s.next) && OutcomeOf(cfg, s, e).Done?
    requires e.request.DeleteReq? || e.request.AdminDeleteReq?
    ensures
      var u, s' := e.request.user, Apply(cfg, s, e);
      && u !in s'.tables.users && u !in s'.tables.emails.Values && u !in s'.cache
      && (forall d :: d in s'.tables.refresh ==> s'.tables.refresh[d].userId != u)
      && (forall d :: d in s'.tables.resets ==> s'.tables.resets[d].userId != u)
      && (forall d :: d in s'.tables.verifications ==> s'.tables.verifications[d].userId != u)
  {
    ServeKeepsTablesSound(cfg, s.tables, e.now, s.next, e.request);
    assert Holds(UsersClause, Apply(cfg, s, e).tables, Apply(cfg, s, e).next);
  }

  // --------------------------------------- access tokens and passwords

  lemma PasswordTimestampAfter(cfg: Settings, s: State, e: Event, u: UserId)
    requires TablesSound(s.tables, s.next) && u in s.tables.users && u in Apply(cfg, s, e).tables.users
    ensures Apply(cfg, s, e).tables.users[u].passwordChangedAt
         == if ChangesPassword(cfg, s, e, u) then e.now else s.tables.users[u].passwordChangedAt
    ensures Apply(cfg, s, e).tables.users[u].role == s.tables.users[u].role
  {
    assert Holds(UsersClause, s.tables, s.next);
    ServeFrame(cfg, s.tables, e.now, s.next, e.request, u, u);
    if IsAccountRequest(e.request) {
      AccountTimestamps(cfg, s.tables, e.now, s.next, e.request, u);
    } else if !Issues(e.request) {
      InPlaceTimestamps(cfg, s, e, u);
    }
  }

  lemma AccountTimestamps(cfg: Settings, t: Tables, now: Time, next: nat, req: Request, u: UserId)
    requires IsAccountRequest(req)
    ensures
      var t' := Serve(cfg, t, now, next, req).tables;
      u in t'.users ==> u in t.users && t'.users[u].passwordChangedAt == t.users[u].passwordChangedAt
  {
  }

  lemma InPlaceTimestamps(cfg: Settings, s: State, e: Event, u: UserId)
    requires !Issues(e.request) && !IsAccountRequest(e.request)
    requires u in s.tables.users && u in Apply(cfg, s, e).tables.users
    ensures Apply(cfg, s, e).tables.users[u].passwordChangedAt
         == if ChangesPassword(cfg, s, e, u) then e.now else s.tables.users[u].passwordChangedAt
  {
    if !e.request.ChangePasswordReq? && !e.request.ResetPasswordReq? {
      OtherTimestamps(cfg, s, e, u);
    }
  }

  lemma OtherTimestamps(cfg: Settings, s: State, e: Event, u: UserId)
    requires !Issues(e.request) && !IsAccountRequest(e.request) && !e.request.ChangePasswordReq? && !e.request.ResetPasswordReq?
    requires u in s.tables.users && u in Apply(cfg, s, e).tables.users
    ensures Apply(cfg, s, e).tables.users[u].passwordChangedAt == s.tables.users[u].passwordChangedAt
  {
  }

  /** The exact effect of a password change on a token: it is rejected iff its timestamp is below the new reading. */
  lemma PasswordChangeRejects(cfg: Settings, s: State, e: Event, u: UserId, token: PwdTs)
    requires TablesSound(s.tables, s.next) && u in s.tables.users && ChangesPassword(cfg, s, e, u)
    ensures u in Apply(cfg, s, e).tables.users
    ensures var row := Apply(cfg, s, e).tables.users[u];
      AuthRejects(token, Some(row.passwordChangedAt)) <==> token.Numeric? && token.at < e.now
  {
    PasswordTimestampAfter(cfg, s, e, u);
  }

  lemma DeletedUsersStayDeleted(cfg: Settings, s: State, e: Event, u: UserId)
    requires u < s.next && u !in s.tables.users
    ensures u !in Apply(cfg, s, e).tables.users
  {
    ServeFrame(cfg, s.tables, e.now, s.next, e.request, u, u);
  }

  /** Every password change of `u` in the run reads the clock later than the previous one did. */
  ghost predicate DistinctReadings(cfg: Settings, events: seq<Event>, u: UserId) {
    forall k | 0 <= k < |events| && ChangesPassword(cfg, StateAt(cfg, events, k), events[k], u) ::
      u in StateAt(cfg, events, k).tables.users ==> StateAt(cfg, events, k).tables.users[u].passwordChangedAt < events[k].now
  }

  lemma TokensCarryTheirUsersTimestamp(cfg: Settings, s: State, e: Event)
    requires TablesSound(s.tables, s.next) && OutcomeOf(cfg, s, e).Issued?
    ensures var m := OutcomeOf(cfg, s, e).access;
      && m.userId < s.next && m.userId in s.tables.users && m.userId in Apply(cfg, s, e).tables.users
      && m.pwdTs == s.tables.users[m.userId].passwordChangedAt == Apply(cfg, s, e).tables.users[m.userId].passwordChangedAt
      && m.role == Apply(cfg, s, e).tables.users[m.userId].role
      && Accessible(s.tables.users[m.userId])
  {
    assert Holds(UsersClause, s.tables, s.next);
    assert Holds(SessionsClause, s.tables, s.next);
  }

  lemma {:induction false} IdentifiersGrow(cfg: Settings, events: seq<Event>, i: nat, j: nat)
    requires i <= j <= |events|
    ensures StateAt(cfg, events, i).next <= StateAt(cfg, events, j).next
  {
    if i < j {
      IdentifiersGrow(cfg, events, i, j - 1);
      StateAtNext(cfg, events, j - 1);
    }
  }

  lemma PasswordStep(cfg: Settings, events: seq<Event>, k: nat, u: UserId)
    requires k < |events| && DistinctReadings(cfg, events, u)
    requires u in StateAt(cfg, events, k).tables.users && u in StateAt(cfg, events, k + 1).tables.users
    ensures var before, after := StateAt(cfg, events, k).tables.users[u], StateAt(cfg, events, k + 1).tables.users[u];
      && after.role == before.role
      && (if ChangesPassword(cfg, StateAt(cfg, events, k), events[k], u)
          then before.passwordChangedAt < after.passwordChangedAt else before.passwordChangedAt == after.passwordChangedAt)
  {
    RunsAreSound(cfg, events[..k]);
    StateAtNext(cfg, events, k);
    PasswordTimestampAfter(cfg, StateAt(cfg, events, k), events[k], u);
  }

  lemma UsersAreNumbered(cfg: Settings, events: seq<Event>, i: nat, u: UserId)
    requires i <= |events| && u in StateAt(cfg, events, i).tables.users
    ensures u < StateAt(cfg, events, i).next
  {
    RunsAreSound(cfg, events[..i]);
    assert Holds(UsersClause, StateAt(cfg, events, i).tables, StateAt(cfg, events, i).next);
  }

  /** A user present at both ends of a stretch was never away. */
  lemma PresentThroughout(cfg: Settings, events: seq<Event>, i: nat, j: nat, u: UserId)
    requires i < j <= |events|
    requires u in StateAt(cfg, events, i).tables.users && u in StateAt(cfg, events, j).tables.users
    ensures u in StateAt(cfg, events, j - 1).tables.users
  {
    UsersAreNumbered(cfg, events, i, u);
    hide StateAt, Apply;
    IdentifiersGrow(cfg, events, i, j - 1);
    StateAtNext(cfg, events, j - 1);
    if u !in StateAt(cfg, events, j - 1).tables.users {
      DeletedUsersStayDeleted(cfg, StateAt(cfg, events, j - 1), events[j - 1], u);
    }
  }

  ghost predicate PasswordChangedBetween(cfg: Settings, events: seq<Event>, i: nat, j: nat, u: UserId)
    requires j <= |events|
  {
    exists k :: i <= k < j && ChangesPassword(cfg, StateAt(cfg, events, k), events[k], u)
  }

  lemma {:induction false} TimestampGrowsExactlyOnChange(cfg: Settings, events: seq<Event>, i: nat, j: nat, u: UserId)
    requires i <= j <= |events| && DistinctReadings(cfg, events, u)
    requires u in StateAt(cfg, events, i).tables.users && u in StateAt(cfg, events, j).tables.users
    ensures var first, last := StateAt(cfg, events, i).tables.users[u], StateAt(cfg, events, j).tables.users[u];
      && first.role == last.role
      && (if PasswordChangedBetween(cfg, events, i, j, u)
          then first.passwordChangedAt < last.passwordChangedAt else first.passwordChangedAt == last.passwordChangedAt)
    decreases j
  {
    hide ChangesPassword, After;
    if i < j {
      PresentThroughout(cfg, events, i, j, u);
      TimestampGrowsExactlyOnChange(cfg, events, i, j - 1, u);
      PasswordStep(cfg, events, j - 1, u);
      assert PasswordChangedBetween(cfg, events, i, j, u) <==>
        PasswordChangedBetween(cfg, events, i, j - 1, u) || ChangesPassword(cfg, StateAt(cfg, events, j - 1), events[j - 1], u);
    }
  }

  /**
   An access token minted by request `i` is rejected by Auth after request `j`
   exactly when some request in between changed its user's password, and the
   gateway, judging by the current row, agrees once that row's timestamp is
   positive. The token's role still matches the row either way.
   */
  lemma TokenRejectedExactlyAfterPasswordChange(cfg: Settings, events: seq<Event>, i: nat, j: nat)
    requires i < j <= |events| && OutcomeOf(cfg, StateAt(cfg, events, i), events[i]).Issued?
    requires DistinctReadings(cfg, events, OutcomeOf(cfg, StateAt(cfg, events, i), events[i]).access.userId)
    requires OutcomeOf(cfg, StateAt(cfg, events, i), events[i]).access.userId in StateAt(cfg, events, j).tables.users
    ensures var m := OutcomeOf(cfg, StateAt(cfg, events, i), events[i]).access;
      var row := StateAt(cfg, events, j).tables.users[m.userId];
      && (AuthRejects(Numeric(m.pwdTs), Some(row.passwordChangedAt)) <==>
            PasswordChangedBetween(cfg, events, i + 1, j, m.userId))
      && (row.passwordChangedAt > 0 ==>
            (GatewayRejects(Numeric(m.pwdTs), StateOf(row).pwdTs) <==> AuthRejects(Numeric(m.pwdTs), Some(row.passwordChangedAt))))
      && m.role == StateOf(row).role
  {
    RunsAreSound(cfg, events[..i]);
    TokensCarryTheirUsersTimestamp(cfg, StateAt(cfg, events, i), events[i]);
    StateAtNext(cfg, events, i);
    TimestampGrowsExactlyOnChange(cfg, events, i + 1, j, OutcomeOf(cfg, StateAt(cfg, events, i), events[i]).access.userId);
  }

  // ------------------------------------------------- interrupted requests

  /**
   Blocking and deactivating commit the row before they revoke. When the second
   commit fails, the session invariant survives exactly if the user had no live
   session, and the cache stays coherent exactly if it held no entry for the user.
   */
  lemma InterruptedLockout(s: State, u: UserId, row: UserRow)
    requires TablesSound(s.tables, s.next) && CacheCoherent(s) && u in s.tables.users
    requires !Accessible(row) && StateOf(row) != StateOf(s.tables.users[u])
    ensures SessionsSound(s.tables.refresh, WithUser(s.tables, u, row).users) <==> LiveTokens(s.tables, u) == {}
    ensures CacheCoherent(s.(tables := WithUser(s.tables, u, row))) <==> u !in s.cache
  {
    assert Holds(SessionsClause, s.tables, s.next);
    var users' := WithUser(s.tables, u, row).users;
    if d :| d in LiveTokens(s.tables, u) {
      assert !Accessible(users'[s.tables.refresh[d].userId]);
    } else {
      assert forall d :: d in s.tables.refresh && !s.tables.refresh[d].isRevoked ==> d in LiveTokens(s.tables, s.tables.refresh[d].userId);
    }
  }

  // ------------------------------------------------ overlapping requests

  /**
   A rotation on whatever rows it finds, because another request may have come
   between the check and the rotation, keeps the chains sound exactly if the
   chain had no live token besides the rotated one: the old flag is not looked at.
   */
  lemma RotationKeepsChainsExactlyWhen(t: Tables, d: Digest, expiresAt: Time, next: nat)
    requires ChainsSound(t.refresh, next) && d in t.refresh
    ensures ChainsSound(Rotate(t, d, t.refresh[d].userId, next, expiresAt).refresh, next + 1)
      <==> forall e :: e in LiveRows(t.refresh) && t.refresh[e].login == t.refresh[d].login ==> e == d
  {
    var rows, rows' := t.refresh, Rotate(t, d, t.refresh[d].userId, next, expiresAt).refresh;
    var revoked := Revoke(t, d).refresh;
    assert LiveRows(revoked) == LiveRows(rows) - {d};
    if e :| e in LiveRows(rows) && rows[e].login == rows[d].login && e != d {
      assert e in LiveRows(rows') && next in LiveRows(rows') && e != next;
    } else {
      AddingTokenKeepsChains(revoked, RefreshRow(rows[d].userId, expiresAt, false, rows[d].login), next);
    }
  }

  /** A successful refresh rotates a live token of its stored user. */
  lemma RefreshRotates(cfg: Settings, t: Tables, now: Time, next: nat, d: Digest, required: Option<set<Role>>)
    requires Refresh(cfg, t, now, next, d, required).outcome.Issued?
    ensures d in LiveRows(t.refresh)
    ensures Refresh(cfg, t, now, next, d, required).tables == Rotate(t, d, t.refresh[d].userId, next, now + cfg.refreshTtl)
  {
  }

  lemma RotatingTwiceForks(t: Tables, d: Digest, expiresAt: Time, later: Time, next: nat)
    requires ChainsSound(t.refresh, next) && d in LiveRows(t.refresh)
    ensures
      var first := Rotate(t, d, t.refresh[d].userId, next, expiresAt);
      && d in first.refresh && ChainsSound(first.refresh, next + 1)
      && !ChainsSound(Rotate(first, d, t.refresh[d].userId, next + 1, later).refresh, next + 2)
  {
    hide ChainsSound;
    LiveTokenIsAlone(t.refresh, d, next);
    RotationKeepsChainsExactlyWhen(t, d, expiresAt, next);
    var first := Rotate(t, d, t.refresh[d].userId, next, expiresAt);
    assert next in LiveRows(first.refresh) && first.refresh[next].login == first.refresh[d].login;
    RotationKeepsChainsExactlyWhen(first, d, later, next + 1);
  }

  /**
   Two refreshes that both pass their checks on the same tables, before either
   rotates, leave two live tokens of one login: the second rotation meets the
   tables the first one left.
   */
  lemma RacingRefreshesForkTheChain(cfg: Settings, t: Tables, now: Time, later: Time, next: nat, d: Digest,
                                    required: Option<set<Role>>)
    requires ChainsSound(t.refresh, next)
    requires Refresh(cfg, t, now, next, d, required).outcome.Issued?
    requires Refresh(cfg, t, later, next, d, required).outcome.Issued?
    ensures
      var first := Refresh(cfg, t, now, next, d, required).tables;
      && d in t.refresh && d in first.refresh && ChainsSound(first.refresh, next + 1)
      && !ChainsSound(Rotate(first, d, t.refresh[d].userId, next + 1, later + cfg.refreshTtl).refresh, next + 2)
  {
    hide ChainsSound, Refresh, Rotate;
    RefreshRotates(cfg, t, now, next, d, required);
    RotatingTwiceForks(t, d, now + cfg.refreshTtl, later + cfg.refreshTtl, next);
  }

  lemma LiveTokenIsAlone(rows: map<Digest, RefreshRow>, d: Digest, next: nat)
    requires ChainsSound(rows, next) && d in LiveRows(rows)
    ensures d < next && forall e :: e in LiveRows(rows) && rows[e].login == rows[d].login ==> e == d
  {
  }

  /**
   A login's insert or a rotation that meets other tables than its check did
   keeps every live session with an accessible user exactly if its own user is
   still accessible in the tables it meets.
   */
  lemma LateTokenKeepsSessionsExactlyWhen(t: Tables, u: UserId, d: Digest, row: RefreshRow)
    requires SessionsSound(t.refresh, t.users) && row.userId == u && !row.isRevoked
    ensures SessionsSound(InsertRefresh(t, d, row).refresh, t.users) <==> u in t.users && Accessible(t.users[u])
  {
    assert InsertRefresh(t, d, row).refresh[d] == row;
  }

  lemma LateRotationKeepsSessionsExactlyWhen(t: Tables, d: Digest, expiresAt: Time, next: nat)
    requires SessionsSound(t.refresh, t.users) && d in t.refresh
    ensures SessionsSound(Rotate(t, d, t.refresh[d].userId, next, expiresAt).refresh, t.users)
      <==> Accessible(t.users[t.refresh[d].userId])
  {
    var u := t.refresh[d].userId;
    LateTokenKeepsSessionsExactlyWhen(Revoke(t, d), u, next, RefreshRow(u, expiresAt, false, t.refresh[d].login));
  }

  /** A login that was checked before a block and inserts after it hands out a session of the blocked user. */
  lemma LoginOvertakenByBlock(cfg: Settings, t: Tables, now: Time, next: nat, email: string, password: string,
                              required: Option<set<Role>>, reason: Option<string>)
    requires TablesSound(t, next) && Login(cfg, t, now, next, email, password, required).outcome.Issued?
    requires BlockUser(t, now, t.emails[email], reason).outcome.Done?
    ensures
      var u, blocked := t.emails[email], BlockUser(t, now, t.emails[email], reason).tables;
      && SessionsSound(blocked.refresh, blocked.users)
      && !SessionsSound(InsertRefresh(blocked, next, RefreshRow(u, now + cfg.refreshTtl, false, next)).refresh, blocked.users)
  {
    var u, blocked := t.emails[email], BlockUser(t, now, t.emails[email], reason).tables;
    ServeKeepsTablesSound(cfg, t, now, next, BlockReq(u, reason));
    assert Holds(SessionsClause, blocked, next + 2);
    hide SessionsSound;
    LateTokenKeepsSessionsExactlyWhen(blocked, u, next, RefreshRow(u, now + cfg.refreshTtl, false, next));
  }
}
