/**
 Password resets that overlap. Each reset is a transaction of several
 statements; between two statements of one transaction any other transaction or
 any other request may run, as far as row locks let it. Statements see what is
 committed when they start; their writes stay private until the commit.
 */
module ResetRace {
  import opened Outcomes
  import opened Identity
  import opened Requests

  datatype Phase =
    | Validated                      // the token was read as unused and unexpired
    | Consumed                       // holds the lock on the token's row
    | Updated                        // also holds the lock on the user's row
    | Revoking(which: set<Digest>)   // also holds the locks on these refresh tokens
    | Committed
    | RolledBack

  datatype Txn = Txn(token: Digest, user: UserId, password: string, changedAt: Time, phase: Phase)

  datatype State = State(db: Tables, next: nat, txns: map<nat, Txn>)

  datatype Action =
    | Begin(id: nat, token: Digest, password: string, now: Time)
    | Consume(id: nat)
    | Update(id: nat)
    | RevokeSessions(id: nat)
    | Commit(id: nat)
    | Rollback(id: nat)
    | Other  // some other request commits

  predicate LocksToken(x: Txn) { x.phase.Consumed? || x.phase.Updated? || x.phase.Revoking? }

  predicate LocksUser(x: Txn) { x.phase.Updated? || x.phase.Revoking? }

  function Advance(s: State, id: nat, phase: Phase): State
    requires id in s.txns
  {
    s.(txns := s.txns[id := s.txns[id].(phase := phase)])
  }

  /** What the commit of a transaction publishes. */
  function Publish(db: Tables, x: Txn): Tables
    requires x.token in db.resets && x.user in db.users && x.phase.Revoking?
  {
    db.(resets := Use(db.resets, x.token),
        users := db.users[x.user := db.users[x.user].(password := x.password, passwordChangedAt := x.changedAt)],
        refresh := RevokeRows(db.refresh, x.phase.which))
  }

  /** The rows some transaction has locked are as they were. */
  ghost predicate LeavesLockedRows(s: State, db': Tables) {
    && (forall id :: id in s.txns && LocksToken(s.txns[id]) ==>
          s.txns[id].token in s.db.resets ==>
            s.txns[id].token in db'.resets && db'.resets[s.txns[id].token] == s.db.resets[s.txns[id].token])
    && (forall id :: id in s.txns && LocksUser(s.txns[id]) ==>
          s.txns[id].user in s.db.users ==>
            s.txns[id].user in db'.users && db'.users[s.txns[id].user] == s.db.users[s.txns[id].user])
    && (forall id, d :: id in s.txns && s.txns[id].phase.Revoking? && d in s.txns[id].phase.which && d in s.db.refresh ==>
          d in db'.refresh && db'.refresh[d] == s.db.refresh[d])
  }

  /**
   Another request may change anything but locked rows. It cannot make a used
   reset token unused, hand it to another user or bring back a deleted one.
   */
  ghost predicate Interferes(s: State, db': Tables, next': nat) {
    && s.next <= next'
    && (forall d :: d in db'.resets ==> d < next')
    && (forall d :: d in db'.resets && d < s.next ==>
          d in s.db.resets && db'.resets[d].userId == s.db.resets[d].userId && (s.db.resets[d].isUsed ==> db'.resets[d].isUsed))
    && LeavesLockedRows(s, db')
  }

  ghost predicate Next(s: State, a: Action, s': State) {
    match a
    case Begin(id, token, password, now) =>
      && id !in s.txns
      && ValidateOneTime(s.db.resets, token, now) == None
      && s.db.resets[token].userId in s.db.users
      && s' == s.(txns := s.txns[id := Txn(token, s.db.resets[token].userId, password, now, Validated)])
    case Consume(id) =>
      && id in s.txns && s.txns[id].phase == Validated
      && (forall other :: other in s.txns && LocksToken(s.txns[other]) ==> s.txns[other].token != s.txns[id].token)
      && var d := s.txns[id].token;
         s' == Advance(s, id, if d in s.db.resets && !s.db.resets[d].isUsed then Consumed else RolledBack)
    case Update(id) =>
      && id in s.txns && s.txns[id].phase == Consumed
      && (forall other :: other in s.txns && LocksUser(s.txns[other]) ==> s.txns[other].user != s.txns[id].user)
      && s' == Advance(s, id, if s.txns[id].user in s.db.users then Updated else RolledBack)
    case RevokeSessions(id) =>
      && id in s.txns && s.txns[id].phase == Updated
      && s' == Advance(s, id, Revoking(LiveTokens(s.db, s.txns[id].user)))
    case Commit(id) =>
      && id in s.txns && s.txns[id].phase.Revoking?
      && s.txns[id].token in s.db.resets && s.txns[id].user in s.db.users
      && s' == Advance(s, id, Committed).(db := Publish(s.db, s.txns[id]))
    case Rollback(id) =>
      && id in s.txns && !s.txns[id].phase.Committed?
      && s' == Advance(s, id, RolledBack)
    case Other =>
      Interferes(s, s'.db, s'.next) && s'.txns == s.txns
  }

  ghost predicate Initial(s: State) {
    s.txns == map[] && forall d :: d in s.db.resets ==> d < s.next
  }

  // ----------------------------------------------------------- invariant

  predicate Spent(s: State, d: Digest) {
    d < s.next && (d in s.db.resets ==> s.db.resets[d].isUsed)
  }

  predicate TxnSound(s: State, x: Txn) {
    && x.token < s.next
    && (x.token in s.db.resets ==> s.db.resets[x.token].userId == x.user)
    && (LocksToken(x) ==> x.token in s.db.resets && !s.db.resets[x.token].isUsed)
    && (LocksUser(x) ==> x.user in s.db.users)
    && (x.phase.Revoking? ==> x.phase.which <= LiveTokens(s.db, x.user))
    && (x.phase.Committed? ==> Spent(s, x.token))
  }

  predicate Exclusive(x: Txn, y: Txn) {
    && (LocksToken(x) && LocksToken(y) ==> x.token != y.token)
    && (LocksUser(x) && LocksUser(y) ==> x.user != y.user)
    && (x.phase.Committed? && y.phase.Committed? ==> x.token != y.token)
  }

  ghost predicate Inv(s: State) {
    && (forall d :: d in s.db.resets ==> d < s.next)
    && (forall id :: id in s.txns ==> TxnSound(s, s.txns[id]))
    && (forall i, j :: i in s.txns && j in s.txns && i != j ==> Exclusive(s.txns[i], s.txns[j]))
  }

  /** A commit touches only rows its transaction holds, so the others stay sound. */
  lemma CommitKeepsOthersSound(s: State, id: nat, other: nat)
    requires Inv(s) && id in s.txns && other in s.txns && id != other && s.txns[id].phase.Revoking?
    ensures TxnSound(s.(db := Publish(s.db, s.txns[id])), s.txns[other])
  {
    var x, y := s.txns[id], s.txns[other];
    assert Exclusive(x, y) && TxnSound(s, x) && TxnSound(s, y);
    var db' := Publish(s.db, x);
    if y.phase.Revoking? {
      assert forall d :: d in y.phase.which ==> s.db.refresh[d].userId == y.user != x.user;
      assert y.phase.which <= LiveTokens(db', y.user);
    }
  }

  lemma PuttingKeepsInv(s: State, id: nat, x: Txn)
    requires Inv(s) && TxnSound(s, x)
    requires forall other :: other in s.txns && other != id ==> Exclusive(x, s.txns[other]) && Exclusive(s.txns[other], x)
    ensures Inv(s.(txns := s.txns[id := x]))
  {
    var s' := s.(txns := s.txns[id := x]);
    assert forall y :: TxnSound(s, y) ==> TxnSound(s', y);
  }

  lemma CommitKeepsInv(s: State, id: nat, s': State)
    requires Inv(s) && Next(s, Commit(id), s')
    ensures Inv(s')
  {
    var x := s.txns[id];
    forall other | other in s.txns && other != id
      ensures TxnSound(s', s'.txns[other])
      ensures Exclusive(x.(phase := Committed), s.txns[other]) && Exclusive(s.txns[other], x.(phase := Committed))
    {
      CommitKeepsOthersSound(s, id, other);
      assert TxnSound(s, s.txns[other]) && TxnSound(s, x);
    }
    assert TxnSound(s', s'.txns[id]) by {
      assert TxnSound(s, x);
    }
    forall i, j | i in s'.txns && j in s'.txns && i != j
      ensures Exclusive(s'.txns[i], s'.txns[j])
    {
      assert i != id && j != id ==> Exclusive(s.txns[i], s.txns[j]);
    }
  }

  lemma InterferenceKeepsInv(s: State, s': State)
    requires Inv(s) && Next(s, Other, s')
    ensures Inv(s')
  {
    forall id | id in s'.txns
      ensures TxnSound(s', s'.txns[id])
    {
      var x := s.txns[id];
      assert TxnSound(s, x);
      if x.phase.Revoking? {
        assert x.phase.which <= LiveTokens(s'.db, x.user);
      }
    }
  }

  lemma {:induction false} NextKeepsInv(s: State, a: Action, s': State)
    requires Inv(s) && Next(s, a, s')
    ensures Inv(s')
  {
    if a.Commit? {
      CommitKeepsInv(s, a.id, s');
    } else if a.Other? {
      InterferenceKeepsInv(s, s');
    } else {
      var x := s'.txns[a.id];
      assert TxnSound(s, x) by {
        assert a.id in s.txns ==> TxnSound(s, s.txns[a.id]);
      }
      forall other | other in s.txns && other != a.id
        ensures Exclusive(x, s.txns[other]) && Exclusive(s.txns[other], x)
      {
        assert a.id in s.txns ==> Exclusive(s.txns[a.id], s.txns[other]) && Exclusive(s.txns[other], s.txns[a.id]);
      }
      PuttingKeepsInv(s, a.id, x);
    }
  }

  // ---------------------------------------------------------------- runs

  datatype Run = Run(states: seq<State>, actions: seq<Action>) {
    ghost predicate Valid() {
      && |states| == |actions| + 1
      && Initial(states[0])
      && forall k :: 0 <= k < |actions| ==> Next(states[k], actions[k], states[k + 1])
    }
  }

  lemma {:induction false} RunsKeepInv(run: Run, k: nat)
    requires run.Valid() && k < |run.states|
    ensures Inv(run.states[k])
  {
    if k > 0 {
      RunsKeepInv(run, k - 1);
      NextKeepsInv(run.states[k - 1], run.actions[k - 1], run.states[k]);
    }
  }

  /** Of all the resets of one token, however they overlap, at most one is ever committed. */
  lemma AtMostOneCommit(run: Run, k: nat, i: nat, j: nat)
    requires run.Valid() && k < |run.states|
    requires i in run.states[k].txns && j in run.states[k].txns
    requires run.states[k].txns[i].phase.Committed? && run.states[k].txns[j].phase.Committed?
    requires run.states[k].txns[i].token == run.states[k].txns[j].token
    ensures i == j
  {
    RunsKeepInv(run, k);
    assert i != j ==> Exclusive(run.states[k].txns[i], run.states[k].txns[j]);
  }

  lemma {:induction false} CommittedForever(run: Run, m: nat, n: nat, id: nat)
    requires run.Valid() && m <= n < |run.states| && id in run.states[m].txns && run.states[m].txns[id].phase.Committed?
    ensures id in run.states[n].txns && run.states[n].txns[id] == run.states[m].txns[id]
  {
    if m < n {
      CommittedForever(run, m, n - 1, id);
      assert Next(run.states[n - 1], run.actions[n - 1], run.states[n]);
    }
  }

  /** Hence a run contains at most one commit of a reset with a given token. */
  lemma OneCommitPerToken(run: Run, m: nat, n: nat)
    requires run.Valid() && m < n < |run.actions| && run.actions[m].Commit? && run.actions[n].Commit?
    ensures run.actions[m].id in run.states[m].txns && run.actions[n].id in run.states[n].txns
    ensures run.states[m].txns[run.actions[m].id].token != run.states[n].txns[run.actions[n].id].token
  {
    var i, j := run.actions[m].id, run.actions[n].id;
    assert Next(run.states[m], run.actions[m], run.states[m + 1]);
    assert Next(run.states[n], run.actions[n], run.states[n + 1]);
    CommittedForever(run, m + 1, n, i);
    CommittedForever(run, m + 1, n + 1, i);
    if run.states[m].txns[i].token == run.states[n].txns[j].token {
      AtMostOneCommit(run, n + 1, i, j);
    }
  }

  // ---------------------------------------------------------- visibility

  /** The three effects of a reset on what everybody else can see. */
  predicate Visible(db: Tables, x: Txn, which: set<Digest>) {
    && x.token in db.resets && db.resets[x.token].isUsed
    && x.user in db.users && db.users[x.user].password == x.password && db.users[x.user].passwordChangedAt == x.changedAt
    && (forall d :: d in which ==> d in db.refresh && db.refresh[d].isRevoked)
  }

  /** None of the three effects. */
  predicate Invisible(db: Tables, x: Txn, which: set<Digest>) {
    && x.token in db.resets && !db.resets[x.token].isUsed
    && (forall d :: d in which ==> d in db.refresh && !db.refresh[d].isRevoked)
  }

  /**
   Only a commit and other requests change what is visible. A commit turns none
   of the effects into all three, and leaves every other row as it was.
   */
  lemma EffectsBecomeVisibleTogether(run: Run, k: nat)
    requires run.Valid() && k < |run.actions| && !run.actions[k].Other?
    ensures !run.actions[k].Commit? ==> run.states[k + 1].db == run.states[k].db
    ensures run.actions[k].Commit? ==>
      && run.actions[k].id in run.states[k].txns
      && var before, after, x := run.states[k].db, run.states[k + 1].db, run.states[k].txns[run.actions[k].id];
      && x.phase.Revoking?
      && Invisible(before, x, x.phase.which) && Visible(after, x, x.phase.which)
      && (forall d :: d in before.resets && d != x.token ==> d in after.resets && after.resets[d] == before.resets[d])
      && (forall u :: u in before.users && u != x.user ==> u in after.users && after.users[u] == before.users[u])
      && (forall d :: d in before.refresh && d !in x.phase.which ==> d in after.refresh && after.refresh[d] == before.refresh[d])
      && after.resets.Keys == before.resets.Keys && after.users.Keys == before.users.Keys
      && after.refresh.Keys == before.refresh.Keys && after.verifications == before.verifications
  {
    RunsKeepInv(run, k);
    assert Next(run.states[k], run.actions[k], run.states[k + 1]);
    if run.actions[k].Commit? {
      assert TxnSound(run.states[k], run.states[k].txns[run.actions[k].id]);
    }
  }

  /**
   A commit equals the redemption that runs in one step exactly if no session of
   the user was opened after the transaction collected the sessions to revoke.
   */
  lemma CommitIsAtomicExactlyWhen(run: Run, k: nat)
    requires run.Valid() && k < |run.actions| && run.actions[k].Commit?
    ensures run.actions[k].id in run.states[k].txns
    ensures var x := run.states[k].txns[run.actions[k].id];
      && x.phase.Revoking? && x.token in run.states[k].db.resets && x.user in run.states[k].db.users
      && (run.states[k + 1].db == RedeemReset(run.states[k].db, x.token, x.user, x.password, x.changedAt)
          <==> LiveTokens(run.states[k].db, x.user) <= x.phase.which)
  {
    RunsKeepInv(run, k);
    var s, s' := run.states[k], run.states[k + 1];
    var x := s.txns[run.actions[k].id];
    assert Next(s, run.actions[k], s');
    assert TxnSound(s, x);
    var live := LiveTokens(s.db, x.user);
    var atOnce := RedeemReset(s.db, x.token, x.user, x.password, x.changedAt);
    assert LiveTokens(WithPassword(s.db.(resets := Use(s.db.resets, x.token)), x.user, x.password, x.changedAt), x.user) == live;
    if live <= x.phase.which {
      assert live == x.phase.which;
    } else {
      var d :| d in live && d !in x.phase.which;
      assert !s'.db.refresh[d].isRevoked && atOnce.refresh[d].isRevoked;
    }
  }

  /** A login that commits while the sessions are already collected is let through, and its session outlives the reset. */
  lemma SessionOpenedDuringReset(s: State, id: nat, expiresAt: Time)
    requires Inv(s) && id in s.txns && s.txns[id].phase.Revoking? && s.next !in s.db.refresh
    ensures var x := s.txns[id];
      var s1 := s.(db := InsertRefresh(s.db, s.next, RefreshRow(x.user, expiresAt, false, s.next)), next := s.next + 1);
      && Next(s, Other, s1)
      && TxnSound(s1, x)
      && var s2 := Advance(s1, id, Committed).(db := Publish(s1.db, x));
         Next(s1, Commit(id), s2) && s.next in LiveTokens(s2.db, x.user)
  {
    assert TxnSound(s, s.txns[id]);
    var x := s.txns[id];
    var s1 := s.(db := InsertRefresh(s.db, s.next, RefreshRow(x.user, expiresAt, false, s.next)), next := s.next + 1);
    assert Next(s, Other, s1);
    InterferenceKeepsInv(s, s1);
    assert TxnSound(s1, s1.txns[id]);
  }
}
