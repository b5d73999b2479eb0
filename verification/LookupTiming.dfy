/**
 How old a snapshot the gateway may act on. Lookups overlap with changes of the
 users table: Auth reads the row, fills its cache later, the answer travels to
 the gateway, and the gateway may cache it again.

 `readAt` in every item is the model's own record of when the row was read.
 */
module LookupTiming {
  import opened Outcomes
  import opened Identity
  import opened SessionMachine

  /** `fillTime` bounds the time from reading a row to filling the cache, `answerTime` the way to the gateway. */
  datatype Timing = Timing(authTtl: nat, gatewayTtl: int, fillTime: nat, answerTime: nat)

  datatype Version = Version(at: Time, rows: map<UserId, UserState>)

  datatype Reading = Reading(user: UserId, state: UserState, readAt: Time)

  datatype AuthEntry = AuthEntry(state: UserState, storedAt: Time, readAt: Time)

  datatype Answer = Answer(user: UserId, state: UserState, readAt: Time, sentAt: Time)

  datatype GatewayEntry = GatewayEntry(state: UserState, expiresAt: Time, readAt: Time)

  /** `history` lists the contents of the users table, each from its commit until the next one. */
  datatype State = State(
    now: Time,
    history: seq<Version>,
    readings: map<nat, Reading>,
    auth: map<UserId, AuthEntry>,
    answers: map<nat, Answer>,
    gateway: map<UserId, GatewayEntry>)

  datatype Action =
    | Tick(to: Time)
    | Change(rows: map<UserId, UserState>)   // an identity change commits
    | DropAuth(user: UserId)                 // invalidation, eviction or expiry in Auth
    | DropGateway(user: UserId)
    | ReadRow(id: nat, user: UserId)         // Auth's cache misses, the row is read
    | Fill(id: nat)                          // the read row goes into Auth's cache and the answer leaves
    | HitAuth(id: nat, user: UserId)         // Auth answers from its cache
    | Receive(id: nat)                       // the answer reaches the gateway, which acts on it
    | HitGateway(user: UserId)               // the gateway acts on its own entry

  function Rows(s: State): map<UserId, UserState>
    requires s.history != []
  {
    s.history[|s.history| - 1].rows
  }

  ghost predicate Next(cfg: Timing, s: State, a: Action, s': State) {
    s.history != [] &&
    match a
    case Tick(to) =>
      && s.now <= to
      && (forall id :: id in s.readings ==> to <= s.readings[id].readAt + cfg.fillTime)
      && (forall id :: id in s.answers ==> to <= s.answers[id].sentAt + cfg.answerTime)
      && s' == s.(now := to)
    case Change(rows) =>
      s' == s.(history := s.history + [Version(s.now, rows)])
    case DropAuth(u) =>
      s' == s.(auth := s.auth - {u})
    case DropGateway(u) =>
      s' == s.(gateway := s.gateway - {u})
    case ReadRow(id, u) =>
      && id !in s.readings && id !in s.answers && u in Rows(s)
      && (u in s.auth ==> s.auth[u].storedAt + cfg.authTtl <= s.now)
      && s' == s.(readings := s.readings[id := Reading(u, Rows(s)[u], s.now)])
    case Fill(id) =>
      && id in s.readings
      && var r := s.readings[id];
         s' == s.(readings := s.readings - {id},
                  auth := s.auth[r.user := AuthEntry(r.state, s.now, r.readAt)],
                  answers := s.answers[id := Answer(r.user, r.state, r.readAt, s.now)])
    case HitAuth(id, u) =>
      && id !in s.readings && id !in s.answers && u in s.auth && s.now < s.auth[u].storedAt + cfg.authTtl
      && s' == s.(answers := s.answers[id := Answer(u, s.auth[u].state, s.auth[u].readAt, s.now)])
    case Receive(id) =>
      && id in s.answers
      && var r := s.answers[id];
         s' == s.(answers := s.answers - {id},
                  gateway := if cfg.gatewayTtl <= 0 then s.gateway
                             else s.gateway[r.user := GatewayEntry(r.state, s.now + cfg.gatewayTtl, r.readAt)])
    case HitGateway(u) =>
      u in s.gateway && s.now < s.gateway[u].expiresAt && s' == s
  }

  /** The snapshot the guard evaluates in this step, if it evaluates one. */
  function ActedOn(s: State, a: Action): Option<(UserId, UserState)> {
    match a
    case Receive(id) => if id in s.answers then Some((s.answers[id].user, s.answers[id].state)) else None
    case HitGateway(u) => if u in s.gateway then Some((u, s.gateway[u].state)) else None
    case _ => None
  }

  ghost predicate Initial(s: State) {
    |s.history| == 1 && s.history[0].at <= s.now
    && s.readings == map[] && s.auth == map[] && s.answers == map[] && s.gateway == map[]
  }

  datatype Run = Run(states: seq<State>, actions: seq<Action>) {
    ghost predicate From(cfg: Timing, s: State) {
      && |states| == |actions| + 1 && states[0] == s
      && forall k :: 0 <= k < |actions| ==> Next(cfg, states[k], actions[k], states[k + 1])
    }

    function Last(): State
      requires states != []
    {
      states[|states| - 1]
    }
  }

  // -------------------------------------------------------------- the bound

  /** Version `i` of the table was current at the instant `t` and showed `state` for `u`. */
  predicate Shows(history: seq<Version>, i: nat, u: UserId, state: UserState, t: Time) {
    && i < |history| && history[i].at <= t && (i + 1 < |history| ==> t <= history[i + 1].at)
    && u in history[i].rows && history[i].rows[u] == state
  }

  /** At the instant `t` the row of `u` read `state`. */
  ghost predicate WasRow(history: seq<Version>, u: UserId, state: UserState, t: Time) {
    exists i: nat :: Shows(history, i, u, state, t)
  }

  /** From `from` until `to` no more than `span` passes. */
  predicate Within(from: Time, to: Time, span: int) { from <= to <= from + span }

  /** How long after it was stored an entry with this time to live is served last. */
  function Lag(ttl: int): nat {
    if ttl <= 0 then 0 else ttl - 1
  }

  ghost predicate ReadingSound(cfg: Timing, history: seq<Version>, now: Time, r: Reading) {
    Within(r.readAt, now, cfg.fillTime) && WasRow(history, r.user, r.state, r.readAt)
  }

  ghost predicate AuthEntrySound(cfg: Timing, history: seq<Version>, now: Time, u: UserId, e: AuthEntry) {
    Within(e.readAt, e.storedAt, cfg.fillTime) && e.storedAt <= now && WasRow(history, u, e.state, e.readAt)
  }

  ghost predicate AnswerSound(cfg: Timing, history: seq<Version>, now: Time, r: Answer) {
    && Within(r.readAt, r.sentAt, Lag(cfg.authTtl) + cfg.fillTime) && Within(r.sentAt, now, cfg.answerTime)
    && WasRow(history, r.user, r.state, r.readAt)
  }

  ghost predicate GatewayEntrySound(cfg: Timing, history: seq<Version>, now: Time, u: UserId, e: GatewayEntry) {
    && Within(e.readAt, e.expiresAt - cfg.gatewayTtl, Lag(cfg.authTtl) + cfg.fillTime + cfg.answerTime)
    && e.expiresAt - cfg.gatewayTtl <= now && WasRow(history, u, e.state, e.readAt)
  }

  ghost predicate Sound(cfg: Timing, s: State) {
    && s.history != [] && s.history[|s.history| - 1].at <= s.now
    && (forall id :: id in s.readings ==> ReadingSound(cfg, s.history, s.now, s.readings[id]))
    && (forall u :: u in s.auth ==> AuthEntrySound(cfg, s.history, s.now, u, s.auth[u]))
    && (forall id :: id in s.answers ==> AnswerSound(cfg, s.history, s.now, s.answers[id]))
    && (forall u :: u in s.gateway ==> GatewayEntrySound(cfg, s.history, s.now, u, s.gateway[u]))
    && (cfg.gatewayTtl <= 0 ==> s.gateway == map[])
  }

  lemma HistoryGrows(history: seq<Version>, v: Version, u: UserId, state: UserState, t: Time)
    requires WasRow(history, u, state, t) && t <= v.at
    ensures WasRow(history + [v], u, state, t)
  {
    var i: nat :| Shows(history, i, u, state, t);
    assert Shows(history + [v], i, u, state, t);
  }

  lemma ChangeKeepsSound(cfg: Timing, s: State, rows: map<UserId, UserState>)
    requires Sound(cfg, s)
    ensures Sound(cfg, s.(history := s.history + [Version(s.now, rows)]))
  {
    forall u, state, t | WasRow(s.history, u, state, t) && t <= s.now
      ensures WasRow(s.history + [Version(s.now, rows)], u, state, t)
    {
      HistoryGrows(s.history, Version(s.now, rows), u, state, t);
    }
  }

  lemma AnsweringKeepsSound(cfg: Timing, s: State, a: Action, s': State)
    requires Sound(cfg, s) && Next(cfg, s, a, s') && (a.Fill? || a.HitAuth?)
    ensures Sound(cfg, s')
  {
    if a.Fill? {
      var r := s.readings[a.id];
      assert ReadingSound(cfg, s.history, s.now, r);
      assert AuthEntrySound(cfg, s.history, s.now, r.user, s'.auth[r.user]);
    } else {
      assert AuthEntrySound(cfg, s.history, s.now, a.user, s.auth[a.user]);
    }
    assert AnswerSound(cfg, s.history, s.now, s'.answers[a.id]);
  }

  lemma ReceivingKeepsSound(cfg: Timing, s: State, id: nat, s': State)
    requires Sound(cfg, s) && Next(cfg, s, Receive(id), s')
    ensures Sound(cfg, s')
  {
    assert AnswerSound(cfg, s.history, s.now, s.answers[id]);
  }

  lemma WaitingKeepsSound(cfg: Timing, s: State, to: Time, s': State)
    requires Sound(cfg, s) && Next(cfg, s, Tick(to), s')
    ensures Sound(cfg, s')
  {
    forall id | id in s.readings
      ensures ReadingSound(cfg, s.history, to, s.readings[id])
    {
      assert ReadingSound(cfg, s.history, s.now, s.readings[id]);
    }
    forall id | id in s.answers
      ensures AnswerSound(cfg, s.history, to, s.answers[id])
    {
      assert AnswerSound(cfg, s.history, s.now, s.answers[id]);
    }
  }

  lemma NextKeepsSound(cfg: Timing, s: State, a: Action, s': State)
    requires Sound(cfg, s) && Next(cfg, s, a, s')
    ensures Sound(cfg, s')
  {
    match a
    case Change(rows) => ChangeKeepsSound(cfg, s, rows);
    case ReadRow(id, u) =>
      assert Shows(s.history, |s.history| - 1, u, Rows(s)[u], s.now);
      assert ReadingSound(cfg, s.history, s.now, s'.readings[id]);
    case Fill(_) => AnsweringKeepsSound(cfg, s, a, s');
    case HitAuth(_, _) => AnsweringKeepsSound(cfg, s, a, s');
    case Receive(id) => ReceivingKeepsSound(cfg, s, id, s');
    case Tick(to) => WaitingKeepsSound(cfg, s, to, s');
    case DropAuth(_) =>
    case DropGateway(_) =>
    case HitGateway(_) =>
  }

  lemma {:induction false} RunsAreSound(cfg: Timing, run: Run, s: State, k: nat)
    requires Initial(s) && run.From(cfg, s) && k < |run.states|
    ensures Sound(cfg, run.states[k])
  {
    if k > 0 {
      RunsAreSound(cfg, run, s, k - 1);
      NextKeepsSound(cfg, run.states[k - 1], run.actions[k - 1], run.states[k]);
    }
  }

  /** The greatest age: both caches serve as late as they can and the lookup is in flight as long as it can. */
  function GreatestAge(cfg: Timing): nat {
    Lag(cfg.authTtl) + Lag(cfg.gatewayTtl) + cfg.fillTime + cfg.answerTime
  }

  /**
   Whatever the guard acts on was the user's row at an instant no older than that.
   With the gateway cache off its term is zero.
   */
  lemma GuardActsOnRecentRow(cfg: Timing, run: Run, s: State, k: nat)
    requires Initial(s) && run.From(cfg, s) && k < |run.actions| && ActedOn(run.states[k], run.actions[k]).Some?
    ensures var (u, state) := ActedOn(run.states[k], run.actions[k]).value;
      var now := run.states[k].now;
      exists t :: now - GreatestAge(cfg) <= t <= now
        && WasRow(run.states[k].history, u, state, t)
  {
    RunsAreSound(cfg, run, s, k);
    var st := run.states[k];
    match run.actions[k]
    case Receive(id) =>
      assert AnswerSound(cfg, st.history, st.now, st.answers[id]);
    case HitGateway(u) =>
      assert Next(cfg, st, run.actions[k], run.states[k + 1]);
      assert GatewayEntrySound(cfg, st.history, st.now, u, st.gateway[u]);
  }

  lemma Extended(cfg: Timing, run: Run, s: State, a: Action, s': State) returns (longer: Run)
    requires run.From(cfg, s) && Next(cfg, run.Last(), a, s')
    ensures longer == Run(run.states + [s'], run.actions + [a]) && longer.From(cfg, s) && longer.Last() == s'
  {
    longer := Run(run.states + [s'], run.actions + [a]);
    forall k | 0 <= k < |longer.actions|
      ensures Next(cfg, longer.states[k], longer.actions[k], longer.states[k + 1])
    {
      if k < |run.actions| {
        assert longer.states[k] == run.states[k] && longer.states[k + 1] == run.states[k + 1];
      }
    }
  }

  /** The table of one user whose row changes at once after the instant 0. */
  function Changed(u: UserId, before: UserState, after: UserState): seq<Version> {
    [Version(0, map[u := before]), Version(0, map[u := after])]
  }

  /** The row is read, changes, and is remembered as late as possible. */
  lemma SlowFill(cfg: Timing, u: UserId, before: UserState, after: UserState) returns (run: Run)
    ensures run.states != [] && Initial(run.states[0]) && run.From(cfg, run.states[0])
    ensures run.Last() ==
      State.State(cfg.fillTime, Changed(u, before, after), map[], map[u := AuthEntry(before, cfg.fillTime, 0)],
            map[0 := Answer(u, before, 0, cfg.fillTime)], map[])
  {
    var s := State.State(0, [Version(0, map[u := before])], map[], map[], map[], map[]);
    run := Run([s], []);
    var s1 := s.(readings := map[0 := Reading(u, before, 0)]);
    run := Extended(cfg, run, s, ReadRow(0, u), s1);
    var s2 := s1.(history := Changed(u, before, after));
    run := Extended(cfg, run, s, Change(map[u := after]), s2);
    var s3 := s2.(now := cfg.fillTime);
    run := Extended(cfg, run, s, Tick(cfg.fillTime), s3);
    var s4 := s3.(readings := map[], auth := map[u := AuthEntry(before, cfg.fillTime, 0)],
                  answers := map[0 := Answer(u, before, 0, cfg.fillTime)]);
    assert s3.readings - {0} == map[];
    run := Extended(cfg, run, s, Fill(0), s4);
  }

  /** The remembered row is answered as late as possible. */
  lemma SlowAnswer(cfg: Timing, u: UserId, before: UserState, after: UserState) returns (run: Run, id: nat)
    ensures run.states != [] && Initial(run.states[0]) && run.From(cfg, run.states[0])
    ensures
      var at := cfg.fillTime + Lag(cfg.authTtl);
      && run.Last().now == at && run.Last().history == Changed(u, before, after) && run.Last().readings == map[]
      && run.Last().answers == map[id := Answer(u, before, 0, at)]
  {
    run := SlowFill(cfg, u, before, after);
    id := 0;
    if cfg.authTtl > 0 {
      var s, at := run.states[0], cfg.fillTime + Lag(cfg.authTtl);
      var s1 := run.Last();
      var s2 := s1.(answers := map[],
                    gateway := if cfg.gatewayTtl <= 0 then map[]
                               else map[u := GatewayEntry(before, s1.now + cfg.gatewayTtl, 0)]);
      assert s1.answers - {0} == map[];
      run := Extended(cfg, run, s, Receive(0), s2);
      var s3 := s2.(now := at);
      run := Extended(cfg, run, s, Tick(at), s3);
      id := 1;
      run := Extended(cfg, run, s, HitAuth(1, u), s3.(answers := map[1 := Answer(u, before, 0, at)]));
    }
  }

  /** The bound is exact: for every timing some run acts on a row that is that old and was superseded at once. */
  lemma GreatestAgeIsReached(cfg: Timing, u: UserId, before: UserState, after: UserState) returns (run: Run, k: nat)
    requires before != after
    ensures run.states != [] && Initial(run.states[0]) && run.From(cfg, run.states[0]) && k < |run.actions|
    ensures ActedOn(run.states[k], run.actions[k]) == Some((u, before))
    ensures run.states[k].now == GreatestAge(cfg)
    ensures forall t :: WasRow(run.states[k].history, u, before, t) ==> t == 0
  {
    var id;
    assert forall t :: WasRow(Changed(u, before, after), u, before, t) ==> t == 0;
    run, id := SlowAnswer(cfg, u, before, after);
    var s, s1 := run.states[0], run.Last();
    var at := s1.now + cfg.answerTime;
    var s2 := s1.(now := at);
    run := Extended(cfg, run, s, Tick(at), s2);
    var s3 := s2.(answers := map[],
                  gateway := if cfg.gatewayTtl <= 0 then s2.gateway
                             else s2.gateway[u := GatewayEntry(before, at + cfg.gatewayTtl, 0)]);
    assert s2.answers - {id} == map[];
    k := |run.actions|;
    run := Extended(cfg, run, s, Receive(id), s3);
    if cfg.gatewayTtl > 0 {
      var s4 := s3.(now := at + Lag(cfg.gatewayTtl));
      run := Extended(cfg, run, s, Tick(s4.now), s4);
      k := |run.actions|;
      run := Extended(cfg, run, s, HitGateway(u), s4);
    }
  }

  // ------------------------------------------- when a change takes hold at once

  predicate Current(s: State, u: UserId, state: UserState)
    requires s.history != []
  {
    u in Rows(s) && Rows(s)[u] == state
  }

  /** Auth's entry for `u`, if any, is the current row. */
  predicate AuthCurrent(s: State, u: UserId)
    requires s.history != []
  {
    u in s.auth ==> Current(s, u, s.auth[u].state)
  }

  /** Some lookup of `u` read the row before its last change and has not filled the cache yet. */
  ghost predicate OutdatedReading(s: State, u: UserId)
    requires s.history != []
  {
    exists id :: id in s.readings && s.readings[id].user == u && !Current(s, u, s.readings[id].state)
  }

  /** The row of `u` does not change during the run. */
  ghost predicate Leaves(run: Run, u: UserId) {
    |run.actions| < |run.states| &&
    forall k | 0 <= k < |run.actions| && run.actions[k].Change? && run.states[k].history != [] ::
      (u in run.actions[k].rows <==> u in Rows(run.states[k]))
      && (u in Rows(run.states[k]) ==> run.actions[k].rows[u] == Rows(run.states[k])[u])
  }

  /** One step that leaves the row of `u` alone cannot bring an outdated one back. */
  lemma StepKeepsCurrent(cfg: Timing, s: State, a: Action, s': State, u: UserId)
    requires s.history != [] && AuthCurrent(s, u) && !OutdatedReading(s, u) && Next(cfg, s, a, s')
    requires a.Change? ==> (u in a.rows <==> u in Rows(s)) && (u in Rows(s) ==> a.rows[u] == Rows(s)[u])
    ensures s'.history != [] && AuthCurrent(s', u) && !OutdatedReading(s', u)
  {
    assert Rows(s') == if a.Change? then a.rows else Rows(s);
    assert forall state :: Current(s', u, state) == Current(s, u, state);
    match a
    case Change(rows) => assert s'.readings == s.readings && s'.auth == s.auth;
    case Fill(id) => assert forall i :: i in s'.readings ==> i in s.readings && s'.readings[i] == s.readings[i];
    case _ =>
  }

  lemma {:induction false} StaysCurrent(cfg: Timing, run: Run, s: State, u: UserId, k: nat)
    requires s.history != [] && AuthCurrent(s, u) && !OutdatedReading(s, u)
    requires run.From(cfg, s) && Leaves(run, u) && k < |run.states|
    ensures run.states[k].history != [] && AuthCurrent(run.states[k], u) && !OutdatedReading(run.states[k], u)
  {
    if k > 0 {
      StaysCurrent(cfg, run, s, u, k - 1);
      var before, after := run.states[k - 1], run.states[k];
      hide Next, AuthCurrent, OutdatedReading;
      StepKeepsCurrent(cfg, before, run.actions[k - 1], after, u);
    }
  }

  /**
   Right after an invalidation Auth never answers with a superseded row again,
   until the next change of that row, exactly if no lookup that read the row
   before the change is still under way.
   */
  lemma InvalidationTakesHoldExactlyWhen(cfg: Timing, s: State, u: UserId)
    requires s.history != [] && u !in s.auth
    ensures !OutdatedReading(s, u) <==>
      forall run: Run :: run.From(cfg, s) && Leaves(run, u) && run.Last().history != [] ==> AuthCurrent(run.Last(), u)
  {
    if OutdatedReading(s, u) {
      var id :| id in s.readings && s.readings[id].user == u && !Current(s, u, s.readings[id].state);
      var r := s.readings[id];
      var s' := s.(readings := s.readings - {id},
                   auth := s.auth[u := AuthEntry(r.state, s.now, r.readAt)],
                   answers := s.answers[id := Answer(u, r.state, r.readAt, s.now)]);
      var run := Run([s, s'], [Fill(id)]);
      assert Next(cfg, s, Fill(id), s');
      assert run.From(cfg, s) && Leaves(run, u);
      assert Rows(s') == Rows(s);
      assert !AuthCurrent(run.Last(), u);
    } else {
      forall run: Run | run.From(cfg, s) && Leaves(run, u) && run.Last().history != []
        ensures AuthCurrent(run.Last(), u)
      {
        StaysCurrent(cfg, run, s, u, |run.states| - 1);
      }
    }
  }
}
