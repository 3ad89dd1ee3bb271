// Runs that show what interleaving costs: their endings are excluded in the serial model.

module RotationWitness {
  import opened RefreshTokens
  import opened RotationMachine
  import opened RotationPreserved
  import opened RotationSafety
  import opened AuthHandlers
  import opened SerialRuns

  const ADMIN: Username := "admin"

  /** Transaction `t` executes its next statement; `j` is the jti it mints or the row it locks. */
  function Do(t: Tid, j: Jti): Action {
    Exec(t, Choice(j, 90, 90))
  }

  lemma Play(acts: seq<Action>, s: State, a: Action, b: Action, c: Action)
    requires Reach(acts) == s
    ensures Reach(acts + [a] + [b] + [c]) == Next(Next(Next(s, a), b), c)
  {
    RunSnoc(INIT, acts, a);
    RunSnoc(INIT, acts + [a], b);
    RunSnoc(INIT, acts + [a] + [b], c);
  }

  // ----- Token 1 (refresh) and token 2 (access) come from the first login -----

  const TOKENS: map<Jti, Claims> := map[1 := Claims(Refresh, ADMIN, 1, 90, 0), 2 := Claims(Access, ADMIN, 1, 90, 0)]
  const ACTIVE: Row := Row(ADMIN, Active, 90)
  const ROTATED: Row := Row(ADMIN, Rotated, 90)
  const REVOKED: Row := Row(ADMIN, Revoked, 90)
  const LOGGED_IN: Txn := Txn(Login(ADMIN), Done(Succeeded), 0, 1, EMPTY, 0, 0)

  const LOGGING_IN: Txn := Txn(Login(ADMIN), AtInsert, 0, 1, Db(map[ADMIN := 1], map[]), -1, 0)

  const S0: State := State(EMPTY, map[0 := LOGGING_IN], map[], {}, INIT.h)
  const S1: State := State(Db(map[ADMIN := 1], map[1 := ACTIVE]), map[0 := LOGGED_IN],
                           TOKENS, {1, 2}, History([Born(0, 1, ADMIN)], map[1 := 0], map[]))

  lemma FirstReads()
    ensures Next(Next(Next(INIT, StartLogin(0, ADMIN, 0)), Do(0, 0)), Do(0, 0)) == S0
  {
    assert Next(Next(INIT, StartLogin(0, ADMIN, 0)), Do(0, 0)).txns[0].w.admins == map[ADMIN := 1];
    assert Next(Next(Next(INIT, StartLogin(0, ADMIN, 0)), Do(0, 0)), Do(0, 0)).txns == S0.txns;
  }

  lemma LoginIssues()
    ensures Next(Next(Next(S0, Do(0, 1)), Do(0, 0)), Do(0, 2)) == S1
  {
    var s := Next(Next(Next(S0, Do(0, 1)), Do(0, 0)), Do(0, 2));
    assert s.db == S1.db;
    assert s.txns == S1.txns;
    assert s.claims == S1.claims && s.delivered == S1.delivered && s.h == S1.h;
  }

  lemma FirstLogin() returns (acts: seq<Action>)
    ensures Reach(acts) == S1
  {
    FirstReads();
    LoginIssues();
    Play([], INIT, StartLogin(0, ADMIN, 0), Do(0, 0), Do(0, 0));
    acts := [] + [StartLogin(0, ADMIN, 0)] + [Do(0, 0)] + [Do(0, 0)];
    Play(acts, S0, Do(0, 1), Do(0, 0), Do(0, 2));
    acts := acts + [Do(0, 1)] + [Do(0, 0)] + [Do(0, 2)];
  }

  // ----- A refresh of token 1 is in flight while its subject logs out -----

  const ID: Identity := Identity(ADMIN, 1, 1)
  const OUT: Identity := Identity(ADMIN, 1, 2)

  /** The refresh has claimed token 1 and is about to insert token 3. */
  const CLAIMED: Txn := Txn(RefreshWith(ID), AtInsert, 0, 1, Db(map[], map[1 := ROTATED]), -1, 0)
  const INSERTED: Txn := CLAIMED.(pc := AtCommitIssue(3), w := Db(map[], map[1 := ROTATED, 3 := ACTIVE]))
  const MORE: map<Jti, Claims> := TOKENS[3 := Claims(Refresh, ADMIN, 1, 90, 1)]

  const S2: State := S1.(txns := map[0 := LOGGED_IN, 1 := CLAIMED.(pc := AtClaimLock, w := EMPTY)])
  const ARRIVED: Txn := Txn(LogoutBy(OUT), AtReadAdmin, 0, 0, EMPTY, -1, 0)
  const S3: State := S1.(txns := map[0 := LOGGED_IN, 1 := INSERTED, 2 := ARRIVED],
                         claims := MORE)

  /** The logout has bumped the version and seen one row, token 1, which the refresh holds. */
  const LEAVING: Txn := Txn(LogoutBy(OUT), AtRevokeRows({1}), 0, 1, Db(map[ADMIN := 2], map[]), -1, 1)
  const S4: State := S3.(txns := map[0 := LOGGED_IN, 1 := INSERTED, 2 := LEAVING])

  lemma RefreshClaims()
    ensures Next(Next(Next(S1, StartRefresh(1, ADMIN, 1, 0, 0)), Do(1, 0)), Do(1, 0)) == S2
  {
    assert Next(Next(Next(S1, StartRefresh(1, ADMIN, 1, 0, 0)), Do(1, 0)), Do(1, 0)).txns == S2.txns;
  }

  const S21: State := S1.(txns := map[0 := LOGGED_IN, 1 := CLAIMED])
  const S22: State := S1.(txns := map[0 := LOGGED_IN, 1 := INSERTED], claims := MORE)

  lemma RefreshLocks()
    ensures Next(S2, Do(1, 0)) == S21
  {
    assert Next(S2, Do(1, 0)).txns == S21.txns;
  }

  lemma RefreshInserts()
    ensures Next(S21, Do(1, 3)) == S22
  {
    assert Next(S21, Do(1, 3)).txns == S22.txns;
  }

  lemma LogoutArrives()
    ensures Next(S22, StartLogout(2, ADMIN, 2, 0, 0)) == S3
  {
    assert Next(S22, StartLogout(2, ADMIN, 2, 0, 0)).txns == S3.txns;
  }

  const BUMPED: Txn := LEAVING.(pc := AtRevoke, since := 0)

  lemma LogoutReads()
    ensures Next(Next(S3, Do(2, 0)), Do(2, 0)) == Put(S3, 2, BUMPED)
  {
    assert S3.db.admins + map[] == S3.db.admins;
    var s := Next(S3, Do(2, 0));
    assert s.txns[2] == Txn(LogoutBy(OUT), AtBump, 0, 1, EMPTY, -1, 0);
    assert Next(s, Do(2, 0)).txns[2].w.admins == map[ADMIN := 2];
    assert Next(s, Do(2, 0)).txns == S3.txns[2 := BUMPED];
  }

  lemma LogoutScans()
    ensures Next(Put(S3, 2, BUMPED), Do(2, 0)) == S4
  {
    var s := Put(S3, 2, BUMPED);
    assert s.db.rows + map[] == s.db.rows;
    assert VisibleRowsOf(s.db, BUMPED.w, ADMIN) == {1};
    assert Next(s, Do(2, 0)).txns == S4.txns;
  }

  const S5: State := Commit(S4, 1)
  const S6: State := Put(S5, 2, LEAVING.(pc := AtRevokeRows({}), w := Db(map[ADMIN := 2], map[1 := REVOKED])))

  /** The logout waits for token 1 until the refresh has committed, and then revokes it alone: token 3
      was not visible when its statement began. */
  lemma LogoutWaits()
    ensures Next(S4, Do(2, 1)) == S4
  {
    assert !RowFree(S4, 2, 1) by {
      assert 1 in S4.txns && 1 in S4.txns[1].w.rows;
    }
  }

  lemma RefreshCommits()
    ensures Next(S4, Do(1, 0)) == S5
    ensures S5.db.rows == map[1 := ROTATED, 3 := ACTIVE] && S5.txns == S4.txns[1 := S5.txns[1]] && S5.txns[1].w == EMPTY
  {
    assert S4.db.rows + INSERTED.w.rows == map[1 := ROTATED, 3 := ACTIVE];
  }

  lemma LogoutRevokes()
    ensures Next(S5, Do(2, 1)) == S6
  {
    RefreshCommits();
    assert S5.txns[2] == LEAVING && RowFree(S5, 2, 1);
    assert {1} - {1} == {};
  }

  lemma LogoutEnds()
    ensures var s := Next(Next(S6, Do(2, 0)), Do(2, 0));
            && s.db == Override(S5.db, S6.txns[2].w)
            && 2 in s.txns && s.txns[2].req.LogoutBy? && s.txns[2].pc == Done(Succeeded) && s.claims == MORE
  {
    var x := LEAVING.(pc := AtRevokeRows({}), w := Db(map[ADMIN := 2], map[1 := REVOKED]));
    assert Do(2, 0) == Exec(2, Choice(0, 90, 90));
    LastSteps(S5, 2, x, Choice(0, 90, 90));
  }

  lemma LastSteps(s: State, t: Tid, x: Txn, c: Choice)
    requires x.pc == AtRevokeRows({}) && x.req.LogoutBy?
    ensures var s' := Next(Next(Put(s, t, x), Exec(t, c)), Exec(t, c));
            && s'.db == Override(s.db, x.w) && s'.claims == s.claims
            && t in s'.txns && s'.txns[t].req == x.req && s'.txns[t].pc == Done(Succeeded)
  {
    StepLocal(s, t, x, c);
  }

  lemma FinalTables()
    ensures Override(S5.db, S6.txns[2].w) == Db(map[ADMIN := 2], map[1 := REVOKED, 3 := ACTIVE])
  {
    assert S5.db.rows == map[1 := ROTATED, 3 := ACTIVE];
    assert S5.db.admins + map[ADMIN := 2] == map[ADMIN := 2];
    assert S5.db.rows + map[1 := REVOKED] == map[1 := REVOKED, 3 := ACTIVE];
  }

  lemma RefreshInFlight() returns (acts: seq<Action>)
    ensures Reach(acts) == S22
  {
    acts := FirstLogin();
    RefreshClaims();
    Play(acts, S1, StartRefresh(1, ADMIN, 1, 0, 0), Do(1, 0), Do(1, 0));
    acts := acts + [StartRefresh(1, ADMIN, 1, 0, 0)] + [Do(1, 0)] + [Do(1, 0)];
    RefreshLocks();
    RefreshInserts();
    RunSnoc(INIT, acts, Do(1, 0));
    RunSnoc(INIT, acts + [Do(1, 0)], Do(1, 3));
    acts := acts + [Do(1, 0)] + [Do(1, 3)];
  }

  lemma BothInFlight() returns (acts: seq<Action>)
    ensures Reach(acts) == S4
  {
    acts := RefreshInFlight();
    LogoutArrives();
    RunSnoc(INIT, acts, StartLogout(2, ADMIN, 2, 0, 0));
    acts := acts + [StartLogout(2, ADMIN, 2, 0, 0)];
    LogoutReads();
    LogoutScans();
    Play(acts, S3, Do(2, 0), Do(2, 0), Do(2, 0));
    acts := acts + [Do(2, 0)] + [Do(2, 0)] + [Do(2, 0)];
  }

  /** "No active row after logout" fails under concurrency: a logout can leave an active row behind,
      and only the version check keeps its token from being used. */
  lemma StaleActiveRowAfterLogout() returns (acts: seq<Action>)
    ensures var s := Reach(acts);
            && 2 in s.txns && s.txns[2].req.LogoutBy? && s.txns[2].pc == Done(Succeeded)
            && 3 in s.db.rows && s.db.rows[3] == Row(ADMIN, Active, 90) && !Usable(s, 3)
  {
    acts := BothInFlight();
    LogoutWaits();
    RefreshCommits();
    LogoutRevokes();
    LogoutEnds();
    FinalTables();
    Play(acts, S4, Do(1, 0), Do(2, 1), Do(2, 0));
    acts := acts + [Do(1, 0)] + [Do(2, 1)] + [Do(2, 0)];
    RunSnoc(INIT, acts, Do(2, 0));
    acts := acts + [Do(2, 0)];
  }

  // ----- Two replays at once kill twice -----

  /** A replay of a rotated token of the current version, up to its bump. */
  lemma ReplayToBump(s0: State, acts: seq<Action>, s: State, t: Tid, admin: Username, j: Jti, clock: int, now: int)
    returns (more: seq<Action>)
    requires Run(s0, acts) == s && t !in s.txns && VerifyClaims(s.claims, s.delivered, admin, j, Refresh, clock).Ok?
    requires var id := Identity(admin, s.claims[j].version, j);
             !Outdated(s.db, id) && j in s.db.rows && s.db.rows[j].status.Rotated?
    ensures var id := Identity(admin, s.claims[j].version, j);
            Run(s0, more) == Put(s, t, Txn(RefreshWith(id), AtBump, now, id.version, EMPTY, -1, 0))
  {
    var id := VerifyClaims(s.claims, s.delivered, admin, j, Refresh, clock).value;
    var start, x := StartRefresh(t, admin, j, clock, now), Begun(RefreshWith(id), now);
    RunSnoc(s0, acts, start);
    ReadIsRun(s0, acts + [start], s, t, x);
    ViewOfNothing(s.db);
    more := ClaimLost(s0, acts + [start] + [Exec(t, NOTHING)], s, t, ReadAdmin(s.db, x));
  }

  lemma PutSame(s: State, t: Tid)
    requires t in s.txns
    ensures Put(s, t, s.txns[t]) == s
  {
    assert s.txns[t := s.txns[t]] == s.txns;
  }

  predicate HasKilled(x: Txn, j: Jti) {
    x.req.RefreshWith? && x.req.id.jti == j && x.pc == Done(ReuseDetected)
  }

  /** In every quiet state two replays of one rotated token, both past their reads before either bumps,
      bump twice: run one after the other, the second would have been refused (`SerialFamilies`). */
  lemma ReplaysKillTwice(s0: State, before: seq<Action>, s: State, t: Tid, u: Tid, admin: Username, j: Jti,
                         clock: int, now: int)
    returns (acts: seq<Action>)
    requires Run(s0, before) == s && Quiet(s) && t !in s.txns && u !in s.txns && t != u
    requires VerifyClaims(s.claims, s.delivered, admin, j, Refresh, clock).Ok?
    requires admin in s.db.admins && s.db.admins[admin] == s.claims[j].version < MAX_VERSION - 1
    requires j in s.db.rows && s.db.rows[j].status.Rotated?
    ensures var s' := Run(s0, acts);
            && s'.db == Killed(Killed(s.db, admin), admin)
            && t in s'.txns && HasKilled(s'.txns[t], j) && u in s'.txns && HasKilled(s'.txns[u], j)
  {
    acts := ReplayToBump(s0, before, s, t, admin, j, clock, now);
    acts := ReplayToBump(s0, acts, Run(s0, acts), u, admin, j, clock, now);
    var both := Run(s0, acts);
    PutSame(both, t);
    acts := KillIsRun(s0, acts, both, t, both.txns[t]);
    var one := Run(s0, acts);
    PutSame(one, u);
    acts := KillIsRun(s0, acts, one, u, one.txns[u]);
  }

  /** The refresh of token 1 has committed and answered; nothing else is going on. */
  ghost predicate Answered(s: State) {
    && Quiet(s) && s.txns.Keys == {0, 1} && 1 in s.delivered && 1 in s.claims && s.claims[1] == TOKENS[1]
    && s.db == Db(map[ADMIN := 1], map[1 := ROTATED, 3 := ACTIVE])
  }

  const S24: State := Commit(S22, 1)

  lemma RefreshCommitsAlone()
    ensures Next(S22, Do(1, 0)) == S24
    ensures S24.db == Db(map[ADMIN := 1], map[1 := ROTATED, 3 := ACTIVE])
    ensures S24.txns == map[0 := LOGGED_IN, 1 := S24.txns[1]] && S24.claims == MORE && S24.delivered == {1, 2}
    ensures S24.txns[1].pc == AtRespond(3) && S24.txns[1].w == EMPTY && S24.txns[1].req == RefreshWith(ID)
  {
    assert S24.db.rows == S1.db.rows + map[1 := ROTATED, 3 := ACTIVE] == map[1 := ROTATED, 3 := ACTIVE];
    assert S24.db.admins == S1.db.admins + map[] == S1.db.admins;
  }

  lemma RefreshAnswers(s: State)
    requires s.db == Db(map[ADMIN := 1], map[1 := ROTATED, 3 := ACTIVE])
    requires s.txns.Keys == {0, 1} && s.txns[0].w == EMPTY && s.txns[1].w == EMPTY
    requires s.txns[1].pc == AtRespond(3) && !s.txns[1].req.LogoutBy?
    requires s.claims == MORE && 1 in s.delivered
    ensures Answered(Next(s, Do(1, 4)))
  {
    assert Next(s, Do(1, 4)) == Respond(s, 1, Choice(4, 90, 90));
  }

  lemma RefreshEnded() returns (acts: seq<Action>)
    ensures Answered(Reach(acts))
  {
    acts := RefreshInFlight();
    RunSnoc(INIT, acts, Do(1, 0));
    RunSnoc(INIT, acts + [Do(1, 0)], Do(1, 4));
    acts := acts + [Do(1, 0)] + [Do(1, 4)];
    RefreshCommitsAlone();
    RefreshAnswers(S24);
  }

  /** "A token leads to at most one kill" fails under concurrency: from a first login, two replays of
      its token at once take the version from 1 to 3. */
  lemma OneTokenKillsTwice() returns (acts: seq<Action>)
    ensures var s := Reach(acts);
            && 2 in s.txns && HasKilled(s.txns[2], 1) && 3 in s.txns && HasKilled(s.txns[3], 1)
            && ADMIN in s.db.admins && s.db.admins[ADMIN] == 3
  {
    acts := RefreshEnded();
    acts := ReplaysKillTwice(INIT, acts, Reach(acts), 2, 3, ADMIN, 1, 0, 0);
  }
}
