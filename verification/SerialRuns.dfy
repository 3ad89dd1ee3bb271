// Calls that run one after another: the stronger invariant of the serial model, and its place among
// the runs of the interleaved machine.

module SerialRuns {
  import opened RefreshTokens
  import opened RotationMachine
  import opened RotationPreserved
  import opened AuthHandlers

  // ----- The serial model -----

  /** `newJti` and `access` are the jtis drawn for the tokens of the answer, if the call gives any. */
  datatype Call =
    | CallLogin(a: Username, newJti: Jti, access: Jti, expiresAt: int)
    | CallRefresh(jti: Jti, now: int, newJti: Jti, access: Jti, expiresAt: int)
    | CallLogout(jti: Jti)

  /** `issued` and `access` remember the refresh and access tokens handed out, `killers` the replayed
      tokens that led to a kill. */
  datatype Serial = Serial(db: Db, issued: map<Jti, Identity>, access: map<Jti, Identity>, killers: seq<Jti>)

  predicate Fresh(s: Serial, newJti: Jti, access: Jti) {
    newJti != access && newJti !in s.issued.Keys + s.access.Keys && access !in s.issued.Keys + s.access.Keys
  }

  /** A call that presents a token never handed out does nothing; jtis are drawn fresh. */
  function SerialNext(s: Serial, call: Call): Serial {
    match call
    case CallLogin(a, newJti, access, expiresAt) =>
      if !Fresh(s, newJti, access) then s else Issue(s, LoginCall(s.db, a, newJti, expiresAt), access)
    case CallRefresh(j, now, newJti, access, expiresAt) =>
      if !Fresh(s, newJti, access) || j !in s.issued then s
      else
        var r := RefreshCall(s.db, s.issued[j], now, newJti, expiresAt);
        if r.1 == Refused(ReuseDetected) then s.(db := r.0, killers := s.killers + [j]) else Issue(s, r, access)
    case CallLogout(j) => if j !in s.access then s else s.(db := LogoutCall(s.db, s.access[j]).0)
  }

  function Issue(s: Serial, r: (Db, Answer), access: Jti): Serial {
    if !r.1.Issued? then s.(db := r.0)
    else s.(db := r.0,
            issued := s.issued[r.1.jti := Identity(r.1.subject, r.1.version, r.1.jti)],
            access := s.access[access := Identity(r.1.subject, r.1.version, access)])
  }

  function SerialRun(calls: seq<Call>): Serial {
    if calls == [] then Serial(EMPTY, map[], map[], [])
    else SerialNext(SerialRun(calls[..|calls| - 1]), calls[|calls| - 1])
  }

  /** Every row not revoked carries the current version, and a token that led to a kill is revoked. */
  ghost predicate SerialOk(s: Serial) {
    && s.issued.Keys == s.db.rows.Keys
    && (forall a <- s.db.admins :: s.db.admins[a] <= MAX_VERSION)
    && (forall j <- s.db.rows ::
          && s.issued[j].jti == j && s.issued[j].subject == s.db.rows[j].subject && s.db.rows[j].subject in s.db.admins
          && (if s.db.rows[j].status.Revoked? then s.issued[j].version < s.db.admins[s.db.rows[j].subject]
              else s.issued[j].version == s.db.admins[s.db.rows[j].subject]))
    && (forall i | 0 <= i < |s.killers| :: s.killers[i] in s.db.rows && s.db.rows[s.killers[i]].status.Revoked?)
    && (forall i, k | 0 <= i < k < |s.killers| :: s.killers[i] != s.killers[k])
  }

  lemma LoginKeeps(s: Serial, a: Username, newJti: Jti, access: Jti, expiresAt: int)
    requires SerialOk(s)
    ensures SerialOk(SerialNext(s, CallLogin(a, newJti, access, expiresAt)))
  {}

  lemma KillKeeps(s: Serial, j: Jti)
    requires SerialOk(s) && j in s.db.rows && s.db.rows[j].status.Rotated?
    requires s.db.admins[s.db.rows[j].subject] < MAX_VERSION
    ensures SerialOk(s.(db := Killed(s.db, s.db.rows[j].subject), killers := s.killers + [j]))
  {}

  lemma RefreshKeeps(s: Serial, j: Jti, now: int, newJti: Jti, access: Jti, expiresAt: int)
    requires SerialOk(s)
    ensures SerialOk(SerialNext(s, CallRefresh(j, now, newJti, access, expiresAt)))
  {
    if Fresh(s, newJti, access) && j in s.issued
       && RefreshCall(s.db, s.issued[j], now, newJti, expiresAt).1 == Refused(ReuseDetected) {
      KillKeeps(s, j);
    }
  }

  lemma LogoutKeeps(s: Serial, j: Jti)
    requires SerialOk(s)
    ensures SerialOk(SerialNext(s, CallLogout(j)))
  {}

  /** In the serial model every active row carries the current version, and each token leads to at
      most one kill. */
  lemma {:induction false} SerialFamilies(calls: seq<Call>)
    ensures SerialOk(SerialRun(calls))
  {
    if calls != [] {
      SerialFamilies(calls[..|calls| - 1]);
      var s := SerialRun(calls[..|calls| - 1]);
      match calls[|calls| - 1]
      case CallLogin(a, newJti, access, expiresAt) => LoginKeeps(s, a, newJti, access, expiresAt);
      case CallRefresh(j, now, newJti, access, expiresAt) => RefreshKeeps(s, j, now, newJti, access, expiresAt);
      case CallLogout(j) => LogoutKeeps(s, j);
    }
  }

  /** A login with fresh jtis gives an active row and remembers both tokens, whatever came before. */
  lemma SerialLoginIssues(calls: seq<Call>, a: Username, newJti: Jti, access: Jti, expiresAt: int)
    requires newJti != access
    requires var s := SerialRun(calls);
             newJti !in s.issued && newJti !in s.access && access !in s.issued && access !in s.access
    ensures var s := SerialRun(calls + [CallLogin(a, newJti, access, expiresAt)]);
            && newJti in s.db.rows && s.db.rows[newJti] == Row(a, Active, expiresAt)
            && a in s.db.admins && newJti in s.issued && s.issued[newJti] == Identity(a, s.db.admins[a], newJti)
            && access in s.access && s.access[access] == Identity(a, s.db.admins[a], access)
  {
    SerialSnoc(calls, CallLogin(a, newJti, access, expiresAt));
  }

  lemma SerialSnoc(calls: seq<Call>, call: Call)
    ensures SerialRun(calls + [call]) == SerialNext(SerialRun(calls), call)
  {
    assert (calls + [call])[..|calls|] == calls;
  }

  function StoryOne(a: Username, e: int): Serial {
    Serial(Db(map[a := 1], map[1 := Row(a, Active, e)]), map[1 := Identity(a, 1, 1)], map[2 := Identity(a, 1, 2)], [])
  }

  function StoryTwo(a: Username, e: int): Serial {
    Serial(Db(map[a := 1], map[1 := Row(a, Rotated, e), 3 := Row(a, Active, e)]),
           map[1 := Identity(a, 1, 1), 3 := Identity(a, 1, 3)], map[2 := Identity(a, 1, 2), 4 := Identity(a, 1, 4)], [])
  }

  function StoryThree(a: Username, e: int): Serial {
    StoryTwo(a, e).(db := Db(map[a := 2], map[1 := Row(a, Revoked, e), 3 := Row(a, Revoked, e)]), killers := [1])
  }

  lemma StoryBegins(a: Username, e: int)
    ensures SerialNext(Serial(EMPTY, map[], map[], []), CallLogin(a, 1, 2, e)) == StoryOne(a, e)
  {}

  lemma StoryExchanges(a: Username, e: int)
    requires e > 0
    ensures SerialNext(StoryOne(a, e), CallRefresh(1, 0, 3, 4, e)) == StoryTwo(a, e)
  {}

  lemma StoryReplays(a: Username, e: int)
    ensures SerialNext(StoryTwo(a, e), CallRefresh(1, 0, 5, 6, e)) == StoryThree(a, e)
  {
    var s := StoryTwo(a, e);
    assert Killed(s.db, a) == StoryThree(a, e).db;
    assert RefreshCall(s.db, s.issued[1], 0, 5, e) == (Killed(s.db, a), Refused(ReuseDetected));
  }

  lemma StoryEnds(a: Username, e: int)
    ensures SerialNext(StoryThree(a, e), CallRefresh(3, 0, 7, 8, e)) == StoryThree(a, e)
  {}

  /** The life of a stolen token: logged in, exchanged, replayed. The replay bumps the version once and
      revokes the row exchanged and its successor, and the successor is good for nothing afterwards. */
  lemma ReplayStory(a: Username, e: int)
    requires e > 0
    ensures var s := SerialRun([CallLogin(a, 1, 2, e), CallRefresh(1, 0, 3, 4, e), CallRefresh(1, 0, 5, 6, e)]);
            && s.killers == [1] && s.db.admins == map[a := 2]
            && s.db.rows == map[1 := Row(a, Revoked, e), 3 := Row(a, Revoked, e)]
            && SerialNext(s, CallRefresh(3, 0, 7, 8, e)) == s
  {
    var login, refresh, replay := CallLogin(a, 1, 2, e), CallRefresh(1, 0, 3, 4, e), CallRefresh(1, 0, 5, 6, e);
    StoryBegins(a, e);
    StoryExchanges(a, e);
    StoryReplays(a, e);
    StoryEnds(a, e);
    SerialSnoc([], login);
    SerialSnoc([login], refresh);
    SerialSnoc([login, refresh], replay);
    assert [] + [login] == [login] && [login] + [refresh] == [login, refresh];
    assert [login, refresh] + [replay] == [login, refresh, replay];
  }

  // ----- A serial call is a run of the interleaved machine -----

  /** No other transaction holds a row. */
  ghost predicate Quiet(s: State) {
    forall u <- s.txns :: s.txns[u].w == EMPTY
  }

  function Put(s: State, t: Tid, x: Txn): State {
    s.(txns := s.txns[t := x])
  }

  lemma RunSnoc(s: State, acts: seq<Action>, a: Action)
    ensures Run(s, acts + [a]) == Next(Run(s, acts), a)
  {
    assert (acts + [a])[..|acts|] == acts;
  }

  lemma RunOne(s: State, a: Action)
    ensures Run(s, [a]) == Next(s, a)
  {
    assert [a][..0] == [];
  }

  lemma StepLocal(s: State, t: Tid, x: Txn, c: Choice)
    requires CanExec(Put(s, t, x), t, c) && IsLocal(x.pc) && !x.pc.AtInsert?
    ensures Next(Put(s, t, x), Exec(t, c)) == Put(s, t, Local(Put(s, t, x), t, c))
  {
    var y := Local(Put(s, t, x), t, c);
    assert s.txns[t := x][t := y] == s.txns[t := y];
  }

  const NOTHING: Choice := Choice(0, 0, 0)

  function Marked(db: Db, js: set<Jti>): map<Jti, Row>
    requires js <= db.rows.Keys
  {
    map j | j in js :: db.rows[j].(status := Revoked)
  }

  /** The transaction while its revoke statement has written the rows `did` and still has `pending` to do. */
  function Revoking(db: Db, x: Txn, did: set<Jti>, pending: set<Jti>): Txn
    requires did <= db.rows.Keys
  {
    x.(pc := AtRevokeRows(pending), w := x.w.(rows := Marked(db, did)))
  }

  lemma RevokeOne(s: State, t: Tid, x: Txn, did: set<Jti>, pending: set<Jti>, j: Jti)
    requires Quiet(s) && did <= s.db.rows.Keys && pending <= s.db.rows.Keys && j in pending
    ensures Next(Put(s, t, Revoking(s.db, x, did, pending)), Exec(t, Choice(j, 0, 0)))
            == Put(s, t, Revoking(s.db, x, did + {j}, pending - {j}))
  {
    var y := Revoking(s.db, x, did, pending);
    StepLocal(s, t, y, Choice(j, 0, 0));
    assert Marked(s.db, did)[j := s.db.rows[j].(status := Revoked)] == Marked(s.db, did + {j});
  }

  /** The revoke statement works through its rows; alone, it never waits. */
  lemma {:induction false} RevokeLoop(s0: State, acts: seq<Action>, s: State, t: Tid, x: Txn, did: set<Jti>,
                                      pending: set<Jti>)
    returns (more: seq<Action>)
    requires Quiet(s) && did <= s.db.rows.Keys && pending <= s.db.rows.Keys
    requires Run(s0, acts) == Put(s, t, Revoking(s.db, x, did, pending))
    ensures Run(s0, more) == Put(s, t, Revoking(s.db, x, did + pending, {}))
    decreases |pending|
  {
    if pending == {} {
      more := acts;
      assert did + pending == did;
    } else {
      var j :| j in pending;
      var a := Exec(t, Choice(j, 0, 0));
      RunSnoc(s0, acts, a);
      RevokeOne(s, t, x, did, pending, j);
      more := RevokeLoop(s0, acts + [a], s, t, x, did + {j}, pending - {j});
      assert did + {j} + (pending - {j}) == did + pending;
    }
  }

  function Mine(db: Db, a: Username): set<Jti> {
    set j <- db.rows | db.rows[j].subject == a
  }

  lemma BumpStep(s: State, t: Tid, x: Txn)
    requires Quiet(s) && x.pc == AtBump && x.w == EMPTY
    requires SubjectOf(x.req) in s.db.admins && s.db.admins[SubjectOf(x.req)] < MAX_VERSION
    ensures var a := SubjectOf(x.req);
            Next(Put(s, t, x), Exec(t, NOTHING))
            == Put(s, t, x.(pc := AtRevoke, w := Db(map[a := s.db.admins[a] + 1], map[])))
  {
    StepLocal(s, t, x, NOTHING);
  }

  lemma ScanStep(s: State, t: Tid, x: Txn)
    requires x.pc == AtRevoke && x.w.rows == map[]
    ensures Next(Put(s, t, x), Exec(t, NOTHING))
            == Put(s, t, Revoking(s.db, x.(since := |s.h.log|), {}, Mine(s.db, SubjectOf(x.req))))
  {
    StepLocal(s, t, x, NOTHING);
    assert s.db.rows + map[] == s.db.rows;
    assert VisibleRowsOf(s.db, x.w, SubjectOf(x.req)) == Mine(s.db, SubjectOf(x.req));
    assert Marked(s.db, {}) == map[];
  }

  lemma FinishStep(s: State, t: Tid, x: Txn)
    requires x.pc == AtRevokeRows({})
    ensures Next(Put(s, t, x), Exec(t, NOTHING)) == Put(s, t, x.(pc := AtCommitKill))
  {
    StepLocal(s, t, x, NOTHING);
  }

  lemma CommitStep(s: State, t: Tid, x: Txn)
    requires x.pc == AtCommitKill
    ensures var s' := Next(Put(s, t, x), Exec(t, NOTHING));
            && s'.db == Override(s.db, x.w)
            && s'.txns == s.txns[t := x.(pc := Done(if x.req.RefreshWith? then ReuseDetected else Succeeded),
                                         w := EMPTY, event := |s.h.log|)]
            && s'.claims == s.claims && s'.delivered == s.delivered
  {
    assert s.txns[t := x][t := Commit(Put(s, t, x), t).txns[t]] == s.txns[t := Commit(Put(s, t, x), t).txns[t]];
  }

  lemma RevokeIsRun(s0: State, acts: seq<Action>, s: State, t: Tid, x: Txn) returns (more: seq<Action>)
    requires Quiet(s) && Run(s0, acts) == Put(s, t, x) && x.pc == AtRevoke && x.w.rows == map[]
    ensures var y := x.(since := |s.h.log|);
            Run(s0, more) == Put(s, t, Revoking(s.db, y, Mine(s.db, SubjectOf(x.req)), {}).(pc := AtCommitKill))
  {
    var y := x.(since := |s.h.log|);
    var mine, step := Mine(s.db, SubjectOf(x.req)), Exec(t, NOTHING);
    RunSnoc(s0, acts, step);
    ScanStep(s, t, x);
    var acts' := RevokeLoop(s0, acts + [step], s, t, y, {}, mine);
    assert {} + mine == mine;
    RunSnoc(s0, acts', step);
    FinishStep(s, t, Revoking(s.db, y, mine, {}));
    more := acts' + [step];
  }

  /** From the bump on, a kill that runs alone does to the tables what the serial call does. */
  lemma KillIsRun(s0: State, acts: seq<Action>, s: State, t: Tid, x: Txn) returns (more: seq<Action>)
    requires Quiet(s) && Run(s0, acts) == Put(s, t, x) && x.pc == AtBump && x.w == EMPTY
    requires SubjectOf(x.req) in s.db.admins && s.db.admins[SubjectOf(x.req)] < MAX_VERSION
    ensures var s' := Run(s0, more);
            && s'.db == Killed(s.db, SubjectOf(x.req)) && t in s'.txns
            && s'.txns[t].pc == Done(if x.req.RefreshWith? then ReuseDetected else Succeeded)
            && s'.txns[t].req == x.req && s'.txns[t].w == EMPTY && s'.txns == s.txns[t := s'.txns[t]]
            && s'.claims == s.claims && s'.delivered == s.delivered
  {
    var a, step := SubjectOf(x.req), Exec(t, NOTHING);
    RunSnoc(s0, acts, step);
    BumpStep(s, t, x);
    var y := x.(pc := AtRevoke, w := Db(map[a := s.db.admins[a] + 1], map[]));
    var acts' := RevokeIsRun(s0, acts + [step], s, t, y);
    var z := Revoking(s.db, y.(since := |s.h.log|), Mine(s.db, a), {}).(pc := AtCommitKill);
    RunSnoc(s0, acts', step);
    CommitStep(s, t, z);
    KillMerges(s.db, z.w, a);
    more := acts' + [step];
  }

  lemma KillMerges(db: Db, w: Db, a: Username)
    requires a in db.admins && w.admins == map[a := db.admins[a] + 1]
    requires w.rows == Marked(db, Mine(db, a))
    ensures Override(db, w) == Killed(db, a)
  {
    assert Override(db, w).admins == Killed(db, a).admins;
    assert Override(db, w).rows == Killed(db, a).rows;
  }

  /** `x` having recorded the new refresh token. */
  function Inserted(x: Txn, newJti: Jti, expiresAt: int): Txn {
    x.(pc := AtCommitIssue(newJti), w := x.w.(rows := x.w.rows[newJti := Row(SubjectOf(x.req), Active, expiresAt)]))
  }

  lemma InsertIsStep(s: State, t: Tid, x: Txn, newJti: Jti, expiresAt: int)
    requires x.pc == AtInsert && !x.req.LogoutBy? && newJti !in s.claims
    ensures Next(Put(s, t, x), Exec(t, Choice(newJti, expiresAt, expiresAt)))
            == Put(s, t, Inserted(x, newJti, expiresAt))
               .(claims := s.claims[newJti := Claims(Refresh, SubjectOf(x.req), x.seen, expiresAt, t)])
  {
    var y := Inserted(x, newJti, expiresAt);
    assert s.txns[t := x][t := y] == s.txns[t := y];
  }

  lemma CommitAndRespond(s: State, t: Tid, x: Txn, newJti: Jti, access: Jti)
    requires t in s.txns && s.txns[t] == x && x.pc == AtCommitIssue(newJti) && !x.req.LogoutBy? && access !in s.claims
    ensures var s' := Next(Next(s, Exec(t, NOTHING)), Exec(t, Choice(access, 0, 0)));
            && s'.db == Override(s.db, x.w) && t in s'.txns && s'.txns[t].pc == Done(Succeeded)
            && s'.txns[t].w == EMPTY && s'.txns == s.txns[t := s'.txns[t]]
            && s'.delivered == s.delivered + {newJti, access}
            && s'.claims == s.claims[access := Claims(Access, SubjectOf(x.req), x.seen, 0, t)]
  {}

  /** `s'` is `s` after transaction `t`, from its insert `x` on, has recorded, committed and handed out the
      token pair. */
  ghost predicate IssuedPair(s: State, s': State, t: Tid, x: Txn, newJti: Jti, expiresAt: int, access: Jti) {
    && s'.db == Override(s.db, Inserted(x, newJti, expiresAt).w)
    && t in s'.txns && s'.txns[t].pc == Done(Succeeded)
    && s'.txns[t].w == EMPTY && s'.txns == s.txns[t := s'.txns[t]]
    && s'.delivered == s.delivered + {newJti, access}
    && s'.claims == s.claims[newJti := Claims(Refresh, SubjectOf(x.req), x.seen, expiresAt, t)]
                            [access := Claims(Access, SubjectOf(x.req), x.seen, 0, t)]
  }

  lemma IssueSteps(s: State, t: Tid, x: Txn, newJti: Jti, expiresAt: int, access: Jti)
    requires x.pc == AtInsert && !x.req.LogoutBy?
    requires newJti !in s.claims && access !in s.claims && newJti != access
    ensures var s1 := Next(Put(s, t, x), Exec(t, Choice(newJti, expiresAt, expiresAt)));
            var s2 := Next(Next(s1, Exec(t, NOTHING)), Exec(t, Choice(access, 0, 0)));
            IssuedPair(s, s2, t, x, newJti, expiresAt, access)
  {
    InsertIsStep(s, t, x, newJti, expiresAt);
    var y := Inserted(x, newJti, expiresAt);
    var claims := s.claims[newJti := Claims(Refresh, SubjectOf(x.req), x.seen, expiresAt, t)];
    var s1 := Put(s, t, y).(claims := claims);
    CommitAndRespond(s1, t, y, newJti, access);
    var s2 := Next(Next(s1, Exec(t, NOTHING)), Exec(t, Choice(access, 0, 0)));
    assert s.txns[t := y][t := s2.txns[t]] == s.txns[t := s2.txns[t]];
  }

  /** The token pair is recorded, committed and handed out. */
  lemma IssueIsRun(s0: State, acts: seq<Action>, s: State, t: Tid, x: Txn, newJti: Jti, expiresAt: int, access: Jti)
    returns (more: seq<Action>)
    requires Run(s0, acts) == Put(s, t, x) && x.pc == AtInsert && !x.req.LogoutBy?
    requires newJti !in s.claims && access !in s.claims && newJti != access
    ensures IssuedPair(s, Run(s0, more), t, x, newJti, expiresAt, access)
  {
    var insert := Exec(t, Choice(newJti, expiresAt, expiresAt));
    var commit, respond := Exec(t, NOTHING), Exec(t, Choice(access, 0, 0));
    RunSnoc(s0, acts, insert);
    RunSnoc(s0, acts + [insert], commit);
    RunSnoc(s0, acts + [insert] + [commit], respond);
    IssueSteps(s, t, x, newJti, expiresAt, access);
    more := acts + [insert] + [commit] + [respond];
  }

  predicate Bears(s: State, j: Jti, kind: Kind, subject: Username, version: int) {
    && j in s.delivered && j in s.claims
    && s.claims[j].kind == kind && s.claims[j].subject == subject && s.claims[j].version == version
  }

  /** From the quiet state `s`, transaction `t` has come to its end in the quiet state `s'` with tables and
      answer `r`; the only tokens handed out are the pair of the answer. */
  ghost predicate Ended(s: State, s': State, t: Tid, r: (Db, Answer), access: Jti) {
    && s'.db == r.0 && t in s'.txns && !r.1.BadCredentials?
    && s'.txns[t].pc == Done(if r.1.Refused? then r.1.outcome else Succeeded)
    && Quiet(s') && s'.txns.Keys == s.txns.Keys + {t}
    && (forall j <- s.claims :: j in s'.claims && s'.claims[j] == s.claims[j])
    && if !r.1.Issued? then s'.claims.Keys == s.claims.Keys && s'.delivered == s.delivered
       else && s'.claims.Keys == s.claims.Keys + {r.1.jti, access} && s'.delivered == s.delivered + {r.1.jti, access}
            && Bears(s', r.1.jti, Refresh, r.1.subject, r.1.version)
            && Bears(s', access, Access, r.1.subject, r.1.version)
  }

  /** A pair issued is an end with the answer `Issued`, whose tables are those of the transaction. */
  lemma IssueIsEnd(s0: State, acts: seq<Action>, s: State, t: Tid, x: Txn, newJti: Jti, expiresAt: int, access: Jti,
                   db: Db)
    returns (more: seq<Action>)
    requires Quiet(s) && Run(s0, acts) == Put(s, t, x) && x.pc == AtInsert && !x.req.LogoutBy?
    requires newJti !in s.claims && access !in s.claims && newJti != access
    requires db == Override(s.db, Inserted(x, newJti, expiresAt).w)
    ensures Ended(s, Run(s0, more), t, (db, Issued(SubjectOf(x.req), x.seen, newJti)), access)
  {
    more := IssueIsRun(s0, acts, s, t, x, newJti, expiresAt, access);
  }

  lemma UpsertIsRun(s: State, t: Tid, a: Username, now: int) returns (acts: seq<Action>)
    requires Quiet(s) && t !in s.txns
    ensures var inserted := if a in s.db.admins then map[] else map[a := 1];
            Run(s, acts) == Put(s, t, Begun(Login(a), now).(pc := AtReadAdmin, w := Db(inserted, map[])))
  {
    var start, step := StartLogin(t, a, now), Exec(t, NOTHING);
    RunOne(s, start);
    RunSnoc(s, [start], step);
    StepLocal(s, t, Begun(Login(a), now), NOTHING);
    acts := [start] + [step];
  }

  /** A login that runs alone. */
  lemma LoginIsRun(s: State, t: Tid, a: Username, now: int, newJti: Jti, expiresAt: int, access: Jti)
    returns (acts: seq<Action>)
    requires Quiet(s) && t !in s.txns && newJti !in s.claims && access !in s.claims && newJti != access
    ensures Ended(s, Run(s, acts), t, LoginCall(s.db, a, newJti, expiresAt), access)
  {
    acts := UpsertIsRun(s, t, a, now);
    var x := Run(s, acts).txns[t];
    ReadIsRun(s, acts, s, t, x);
    var y := ReadAdmin(s.db, x);
    LoginReads(s.db, x, a);
    LoginMerges(s.db, x.w, a, newJti, expiresAt);
    var db := LoginCall(s.db, a, newJti, expiresAt).0;
    acts := IssueIsEnd(s, acts + [Exec(t, NOTHING)], s, t, y, newJti, expiresAt, access, db);
  }

  lemma LoginReads(db: Db, x: Txn, a: Username)
    requires x.req == Login(a) && x.w == Db(if a in db.admins then map[] else map[a := 1], map[])
    ensures ReadAdmin(db, x) == x.(pc := AtInsert, seen := Upserted(db, a).admins[a])
  {}

  lemma LoginMerges(db: Db, w: Db, a: Username, newJti: Jti, expiresAt: int)
    requires w == Db(if a in db.admins then map[] else map[a := 1], map[])
    ensures Override(db, w.(rows := w.rows[newJti := Row(a, Active, expiresAt)]))
            == LoginCall(db, a, newJti, expiresAt).0
  {
    var row := Row(a, Active, expiresAt);
    assert db.rows + map[newJti := row] == db.rows[newJti := row];
    assert db.admins + w.admins == Upserted(db, a).admins;
  }

  lemma ReadStep(s: State, t: Tid, x: Txn)
    requires x.pc == AtReadAdmin
    ensures Next(Put(s, t, x), Exec(t, NOTHING)) == Put(s, t, ReadAdmin(s.db, x))
  {
    StepLocal(s, t, x, NOTHING);
  }

  /** The SELECT that each refresh and logout begins with. */
  lemma ReadIsRun(s0: State, acts: seq<Action>, s: State, t: Tid, x: Txn)
    requires Run(s0, acts) == Put(s, t, x) && x.pc == AtReadAdmin
    ensures Run(s0, acts + [Exec(t, NOTHING)]) == Put(s, t, ReadAdmin(s.db, x))
  {
    RunSnoc(s0, acts, Exec(t, NOTHING));
    ReadStep(s, t, x);
  }

  lemma AbortIsRun(s0: State, acts: seq<Action>, s: State, t: Tid, x: Txn) returns (more: seq<Action>)
    requires Run(s0, acts) == Put(s, t, x) && !Finished(x)
    ensures Run(s0, more) == Put(s, t, x.(pc := Done(Aborted), w := EMPTY))
  {
    RunSnoc(s0, acts, Abort(t));
    more := acts + [Abort(t)];
    assert s.txns[t := x][t := x.(pc := Done(Aborted), w := EMPTY)] == s.txns[t := x.(pc := Done(Aborted), w := EMPTY)];
  }

  /** A logout that runs alone. */
  lemma LogoutIsRun(s: State, t: Tid, admin: Username, j: Jti, clock: int, now: int) returns (acts: seq<Action>)
    requires Quiet(s) && t !in s.txns && VerifyClaims(s.claims, s.delivered, admin, j, Access, clock).Ok?
    requires forall a <- s.db.admins :: s.db.admins[a] <= MAX_VERSION
    ensures var id := VerifyClaims(s.claims, s.delivered, admin, j, Access, clock).value;
            Ended(s, Run(s, acts), t, LogoutCall(s.db, id), 0)
  {
    var id := VerifyClaims(s.claims, s.delivered, admin, j, Access, clock).value;
    var start, req := StartLogout(t, admin, j, clock, now), LogoutBy(id);
    RunOne(s, start);
    ReadIsRun(s, [start], s, t, Begun(req, now));
    ViewOfNothing(s.db);
    var x := ReadAdmin(s.db, Begun(req, now));
    acts := [start] + [Exec(t, NOTHING)];
    if !Outdated(s.db, id) {
      if s.db.admins[id.subject] == MAX_VERSION {
        acts := AbortIsRun(s, acts, s, t, x);
      } else {
        acts := KillIsRun(s, acts, s, t, x);
      }
    }
  }

  lemma ClaimWon(s0: State, acts: seq<Action>, s: State, t: Tid, x: Txn) returns (more: seq<Action>)
    requires Quiet(s) && Run(s0, acts) == Put(s, t, x) && x.pc == AtClaim && x.w == EMPTY && x.req.RefreshWith?
    requires x.req.id.jti in s.db.rows && Claimable(s.db.rows[x.req.id.jti], x.now)
    ensures var j := x.req.id.jti;
            Run(s0, more) == Put(s, t, x.(pc := AtInsert, w := Db(map[], map[j := s.db.rows[j].(status := Rotated)])))
  {
    var step := Exec(t, NOTHING);
    RunSnoc(s0, acts, step);
    StepLocal(s, t, x, NOTHING);
    RunSnoc(s0, acts + [step], step);
    StepLocal(s, t, x.(pc := AtClaimLock), NOTHING);
    more := acts + [step] + [step];
  }

  lemma ClaimLost(s0: State, acts: seq<Action>, s: State, t: Tid, x: Txn) returns (more: seq<Action>)
    requires Run(s0, acts) == Put(s, t, x) && x.pc == AtClaim && x.w == EMPTY && x.req.RefreshWith?
    requires !(x.req.id.jti in s.db.rows && Claimable(s.db.rows[x.req.id.jti], x.now))
    ensures Run(s0, more) == Put(s, t, ReadRow(s.db, x.(pc := AtReadRow)))
  {
    var step := Exec(t, NOTHING);
    RunSnoc(s0, acts, step);
    StepLocal(s, t, x, NOTHING);
    RunSnoc(s0, acts + [step], step);
    StepLocal(s, t, x.(pc := AtReadRow), NOTHING);
    more := acts + [step] + [step];
  }

  lemma RotationIsRun(s0: State, acts: seq<Action>, s: State, t: Tid, x: Txn, newJti: Jti, expiresAt: int, access: Jti)
    returns (more: seq<Action>)
    requires Quiet(s) && Run(s0, acts) == Put(s, t, x) && x.pc == AtClaim && x.w == EMPTY && x.req.RefreshWith?
    requires x.req.id.jti in s.db.rows && Claimable(s.db.rows[x.req.id.jti], x.now)
    requires newJti !in s.claims && access !in s.claims && newJti != access && !Outdated(s.db, x.req.id)
    requires x.seen == x.req.id.version && x.req.id.subject in s.db.admins
    ensures Ended(s, Run(s0, more), t, RefreshCall(s.db, x.req.id, x.now, newJti, expiresAt), access)
  {
    var j := x.req.id.jti;
    var rotated, row := s.db.rows[j].(status := Rotated), Row(x.req.id.subject, Active, expiresAt);
    more := ClaimWon(s0, acts, s, t, x);
    var y := x.(pc := AtInsert, w := Db(map[], map[j := rotated]));
    assert s.db.rows + map[j := rotated][newJti := row] == s.db.rows[j := rotated][newJti := row];
    assert s.db.admins + map[] == s.db.admins;
    var db := RefreshCall(s.db, x.req.id, x.now, newJti, expiresAt).0;
    more := IssueIsEnd(s0, more, s, t, y, newJti, expiresAt, access, db);
  }

  lemma LostCall(db: Db, x: Txn, newJti: Jti, expiresAt: int)
    requires x.req.RefreshWith? && x.w == EMPTY && !Outdated(db, x.req.id)
    requires !(x.req.id.jti in db.rows && Claimable(db.rows[x.req.id.jti], x.now))
    ensures var a, pc := x.req.id.subject, ReadRow(db, x.(pc := AtReadRow)).pc;
            RefreshCall(db, x.req.id, x.now, newJti, expiresAt)
            == if pc != AtBump then (db, Refused(pc.outcome))
               else if db.admins[a] == MAX_VERSION then (db, Refused(Aborted))
               else (Killed(db, a), Refused(ReuseDetected))
    ensures ReadRow(db, x.(pc := AtReadRow)).w == EMPTY
  {
    ViewOfNothing(db);
  }

  lemma LostIsRun(s0: State, acts: seq<Action>, s: State, t: Tid, x: Txn, newJti: Jti, expiresAt: int, access: Jti)
    returns (more: seq<Action>)
    requires Quiet(s) && Run(s0, acts) == Put(s, t, x) && x.pc == AtClaim && x.w == EMPTY && x.req.RefreshWith?
    requires !(x.req.id.jti in s.db.rows && Claimable(s.db.rows[x.req.id.jti], x.now)) && !Outdated(s.db, x.req.id)
    requires forall a <- s.db.admins :: s.db.admins[a] <= MAX_VERSION
    ensures Ended(s, Run(s0, more), t, RefreshCall(s.db, x.req.id, x.now, newJti, expiresAt), access)
  {
    more := ClaimLost(s0, acts, s, t, x);
    var y := ReadRow(s.db, x.(pc := AtReadRow));
    LostCall(s.db, x, newJti, expiresAt);
    if y.pc == AtBump {
      if s.db.admins[x.req.id.subject] == MAX_VERSION {
        more := AbortIsRun(s0, more, s, t, y);
      } else {
        more := KillIsRun(s0, more, s, t, y);
      }
    }
  }

  /** A refresh that runs alone. */
  lemma RefreshIsRun(s: State, t: Tid, admin: Username, j: Jti, clock: int, now: int, newJti: Jti, expiresAt: int,
                     access: Jti)
    returns (acts: seq<Action>)
    requires Quiet(s) && t !in s.txns && VerifyClaims(s.claims, s.delivered, admin, j, Refresh, clock).Ok?
    requires newJti !in s.claims && access !in s.claims && newJti != access
    requires forall a <- s.db.admins :: s.db.admins[a] <= MAX_VERSION
    ensures var id := VerifyClaims(s.claims, s.delivered, admin, j, Refresh, clock).value;
            Ended(s, Run(s, acts), t, RefreshCall(s.db, id, now, newJti, expiresAt), access)
  {
    var id := VerifyClaims(s.claims, s.delivered, admin, j, Refresh, clock).value;
    var start, req := StartRefresh(t, admin, j, clock, now), RefreshWith(id);
    RunOne(s, start);
    ReadIsRun(s, [start], s, t, Begun(req, now));
    ViewOfNothing(s.db);
    var x := ReadAdmin(s.db, Begun(req, now));
    acts := [start] + [Exec(t, NOTHING)];
    if Outdated(s.db, id) {
    } else if id.jti in s.db.rows && Claimable(s.db.rows[id.jti], now) {
      acts := RotationIsRun(s, acts, s, t, x, newJti, expiresAt, access);
    } else {
      acts := LostIsRun(s, acts, s, t, x, newJti, expiresAt, access);
    }
  }
}
