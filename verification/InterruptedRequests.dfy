/**
 What a request leaves behind whose later commits failed, and whether doing it
 again completes it. The stages are those the services expose.
 */
module InterruptedRequests {
  import opened Outcomes
  import opened Identity
  import opened Requests
  import opened SessionMachine
  import opened Services

  /** An interrupted registration leaves the account; registering again is refused, asking for a new token is not. */
  lemma RegistrationIsCompletedByResend(cfg: Settings, t: Tables, now: Time, later: Time, next: nat, email: string, password: string)
    requires email !in t.emails
    ensures
      var stage := InsertUser(t, next, NewUser(email, password, USER, false, now));
      && Serve(cfg, stage, later, next + 1, RegisterReq(email, password)) == Reply(stage, Failed(DuplicateEmail))
      && Serve(cfg, stage, later, next + 1, ResendReq(email)).outcome == Done
  {
  }

  /** An interrupted verification has verified the user but not used the token: it can be repeated and ends the same. */
  lemma VerificationCanBeRepeated(cfg: Settings, t: Tables, now: Time, later: Time, next: nat, d: Digest)
    requires Serve(cfg, t, now, next, VerifyEmailReq(d)).outcome == Done && !t.users[t.verifications[d].userId].isVerified
    ensures
      var stages := VerifyStages(t, d, now);
      && |stages| == 2 && stages[1].verifications == t.verifications
      && (later < t.verifications[d].expiresAt ==>
            Serve(cfg, stages[1], later, next, VerifyEmailReq(d)) == Serve(cfg, t, now, next, VerifyEmailReq(d)))
  {
    var u := t.verifications[d].userId;
    var stage := VerifyStages(t, d, now)[1];
    assert stage.users[u := stage.users[u]] == stage.users;
  }

  /** An interrupted request for a token has retired the older ones: no token works, and repeating ends the same. */
  lemma TokenRequestsCanBeRepeated(cfg: Settings, t: Tables, now: Time, next: nat, email: string)
    requires email in t.emails
    ensures
      var u, stage := t.emails[email], RequestResetStages(t, email)[1];
      && (forall d :: d in stage.resets && stage.resets[d].userId == u ==> stage.resets[d].isUsed)
      && Serve(cfg, stage, now, next, RequestResetReq(email)) == Serve(cfg, t, now, next, RequestResetReq(email))
    ensures Serve(cfg, t, now, next, ResendReq(email)).outcome.Done? ==>
      var u, stage := t.emails[email], ResendStages(t, email)[1];
      && (forall d :: d in stage.verifications && stage.verifications[d].userId == u ==> stage.verifications[d].isUsed)
      && Serve(cfg, stage, now, next, ResendReq(email)) == Serve(cfg, t, now, next, ResendReq(email))
  {
    UsingAllTwice(t.resets, t.emails[email]);
    UsingAllTwice(t.verifications, t.emails[email]);
  }

  lemma UsingAllTwice(rows: map<Digest, OneTimeRow>, u: UserId)
    ensures UseAll(UseAll(rows, u), u) == UseAll(rows, u)
  {
  }

  /** An interrupted deletion has ended the sessions and used up tokens, kept the user, and ends the same when repeated. */
  lemma DeletionCanBeRepeated(cfg: Settings, t: Tables, now: Time, next: nat, u: UserId, password: string, k: nat)
    requires u in t.users && t.users[u].password == password && 1 <= k < |DeleteStages(t, u)|
    ensures
      var stage := DeleteStages(t, u)[k];
      && stage.users == t.users && LiveTokens(stage, u) == {}
      && (forall d :: d in stage.verifications && stage.verifications[d].userId == u ==> stage.verifications[d].isUsed)
      && (k == 2 ==> forall d :: d in stage.resets && stage.resets[d].userId == u ==> stage.resets[d].isUsed)
      && Serve(cfg, stage, now, next, DeleteReq(u, password, true)) == Serve(cfg, t, now, next, DeleteReq(u, password, true))
  {
    StagesForgetTokens(t, u, k);
  }

  lemma StagesForgetTokens(t: Tables, u: UserId, k: nat)
    requires u in t.users && 1 <= k < |DeleteStages(t, u)|
    ensures DeleteUser(DeleteStages(t, u)[k], u) == DeleteUser(t, u)
  {
    var t1 := RevokeAll(t, u);
    var t2 := t1.(verifications := UseAll(t.verifications, u));
    DeletingForgetsRevocations(t, u);
    DeletingForgetsUses(t1, UseAll(t.verifications, u), t.resets, u);
    DeletingForgetsUses(t1, UseAll(t.verifications, u), UseAll(t.resets, u), u);
    hide DeleteUser, RevokeAll, UseAll;
    assert t1.(verifications := UseAll(t.verifications, u), resets := t.resets) == t2;
  }

  lemma DeletingForgetsUses(t: Tables, verifications: map<Digest, OneTimeRow>, resets: map<Digest, OneTimeRow>, u: UserId)
    requires u in t.users
    requires verifications == t.verifications || verifications == UseAll(t.verifications, u)
    requires resets == t.resets || resets == UseAll(t.resets, u)
    ensures DeleteUser(t.(verifications := verifications, resets := resets), u) == DeleteUser(t, u)
  {
  }

  /** An interrupted block or deactivation cannot be completed by repeating it: the flag is set, so the sessions stay. */
  lemma LockoutCannotBeRepeated(cfg: Settings, t: Tables, now: Time, later: Time, next: nat, u: UserId, reason: Option<string>)
    requires u in t.users && t.users[u].role == USER
    ensures
      var blocked := WithUser(t, u, t.users[u].(isBlocked := true, blockedAt := Some(now), blockedReason := reason));
      && Serve(cfg, blocked, later, next, BlockReq(u, reason)) == Reply(blocked, Failed(NoChange))
      && LiveTokens(blocked, u) == LiveTokens(t, u)
    ensures
      var inactive := WithUser(t, u, t.users[u].(isActive := false, disabledAt := Some(now)));
      && Serve(cfg, inactive, later, next, DeactivateReq(u)) == Reply(inactive, Failed(NoChange))
      && LiveTokens(inactive, u) == LiveTokens(t, u)
  {
  }
}
