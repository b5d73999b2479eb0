/**
 Runs in which password resets are interleaved statement by statement with any
 of the other requests of the Auth service. Both machines' invariants hold: that
 of the overlapping resets and that of the tables.
 */
module MixedRuns {
  import opened Identity
  import opened Requests
  import opened SessionMachine
  import opened SessionRuns
  import Race = ResetRace

  datatype Step =
    | Statement(action: Race.Action)          // of some reset transaction
    | Whole(now: Time, request: Request)      // any request, served at once

  function Served(cfg: Settings, s: Race.State, now: Time, req: Request): Race.State {
    s.(db := Serve(cfg, s.db, now, s.next, req).tables, next := s.next + 2)
  }

  /** A request that needs a locked row waits, so one that is served leaves the locked rows alone. */
  ghost predicate Next(cfg: Settings, s: Race.State, step: Step, s': Race.State) {
    match step
    case Statement(action) => !action.Other? && Race.Next(s, action, s')
    case Whole(now, req) => s' == Served(cfg, s, now, req) && Race.LeavesLockedRows(s, s'.db)
  }

  /** Serving a request is one of the steps the resets have to expect from others. */
  lemma RequestsInterfere(cfg: Settings, s: Race.State, now: Time, req: Request)
    requires TablesSound(s.db, s.next) && Race.LeavesLockedRows(s, Served(cfg, s, now, req).db)
    ensures Race.Next(s, Race.Other, Served(cfg, s, now, req))
  {
    var db' := Serve(cfg, s.db, now, s.next, req).tables;
    ServeKeepsTablesSound(cfg, s.db, now, s.next, req);
    ResetsAreNumbered(db', s.next + 2);
    hide Serve, TablesSound, Race.LeavesLockedRows;
    forall d | d in db'.resets && d < s.next
      ensures TokenOnlyAges(s.db, db', d)
    {
      ServeFrame(cfg, s.db, now, s.next, req, d, d);
    }
  }

  lemma ResetsAreNumbered(t: Tables, next: nat)
    requires TablesSound(t, next)
    ensures forall d :: d in t.resets ==> d < next
  {
    assert Holds(ResetsClause, t, next);
  }

  /** What a commit publishes keeps the tables sound, however long ago its statements ran. */
  lemma PublishingKeepsSound(s: Race.State, x: Race.Txn)
    requires TablesSound(s.db, s.next) && x.phase.Revoking? && x.token in s.db.resets && x.user in s.db.users
    ensures TablesSound(Race.Publish(s.db, x), s.next)
  {
    hide TablesSound;
    var t1 := s.db.(resets := Use(s.db.resets, x.token));
    UsingResetKeepsSound(s.db, x.token, s.next);
    ChangingPasswordKeepsSound(t1, x.user, x.password, x.changedAt, s.next);
    var t2 := WithPassword(t1, x.user, x.password, x.changedAt);
    RevokingKeepsSound(t2, x.phase.which, s.next);
    assert t2.(refresh := RevokeRows(t2.refresh, x.phase.which)) == Race.Publish(s.db, x);
  }

  lemma UsingResetKeepsSound(t: Tables, d: Digest, next: nat)
    requires TablesSound(t, next) && d in t.resets
    ensures TablesSound(t.(resets := Use(t.resets, d)), next)
  {
    assert Holds(ResetsClause, t, next);
    UsingKeepsSound(t.resets, t.users.Keys, d, next);
    IssuingResetKeepsSound(t, Use(t.resets, d), next);
  }

  lemma NextKeepsSound(cfg: Settings, s: Race.State, step: Step, s': Race.State)
    requires Race.Inv(s) && TablesSound(s.db, s.next) && Next(cfg, s, step, s')
    ensures Race.Inv(s') && TablesSound(s'.db, s'.next)
  {
    hide TablesSound, Race.Inv, Serve;
    match step
    case Statement(action) =>
      Race.NextKeepsInv(s, action, s');
      if action.Commit? {
        PublishingKeepsSound(s, s.txns[action.id]);
      }
    case Whole(now, req) =>
      RequestsInterfere(cfg, s, now, req);
      Race.NextKeepsInv(s, Race.Other, s');
      ServeKeepsTablesSound(cfg, s.db, now, s.next, req);
  }

  datatype Run = Run(states: seq<Race.State>, steps: seq<Step>) {
    ghost predicate Valid(cfg: Settings) {
      && |states| == |steps| + 1
      && Race.Initial(states[0]) && TablesSound(states[0].db, states[0].next)
      && forall k :: 0 <= k < |steps| ==> Next(cfg, states[k], steps[k], states[k + 1])
    }
  }

  /** Every state of a mixed run keeps the tables sound and the resets exclusive. */
  lemma {:induction false} MixedRunsAreSound(cfg: Settings, run: Run, k: nat)
    requires run.Valid(cfg) && k < |run.states|
    ensures Race.Inv(run.states[k]) && TablesSound(run.states[k].db, run.states[k].next)
  {
    if k > 0 {
      MixedRunsAreSound(cfg, run, k - 1);
      NextKeepsSound(cfg, run.states[k - 1], run.steps[k - 1], run.states[k]);
    }
  }

  function ToAction(step: Step): Race.Action {
    if step.Statement? then step.action else Race.Other
  }

  /** A mixed run is a run of the overlapping resets, so all that is proved of those holds of it. */
  lemma MixedRunsAreResetRuns(cfg: Settings, run: Run)
    requires run.Valid(cfg)
    ensures Race.Run(run.states, seq(|run.steps|, k requires 0 <= k < |run.steps| => ToAction(run.steps[k]))).Valid()
  {
    hide TablesSound, Race.Inv, Race.Next, Serve;
    forall k | 0 <= k < |run.steps|
      ensures Race.Next(run.states[k], ToAction(run.steps[k]), run.states[k + 1])
    {
      MixedRunsAreSound(cfg, run, k);
      assert Next(cfg, run.states[k], run.steps[k], run.states[k + 1]);
      if run.steps[k].Whole? {
        RequestsInterfere(cfg, run.states[k], run.steps[k].now, run.steps[k].request);
      }
    }
  }
}
