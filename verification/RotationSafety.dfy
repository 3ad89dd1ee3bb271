// What holds of every run of the interleaved machine.

module RotationSafety {
  import opened RefreshTokens
  import opened RotationMachine
  import opened RotationInvariant
  import opened RotationPreserved

  function Reach(acts: seq<Action>): State {
    Run(INIT, acts)
  }

  lemma {:induction false} ReachInv(acts: seq<Action>)
    ensures Inv(Reach(acts))
  {
    InitInv();
    RunKeepsInv(INIT, acts);
  }

  // ----- Versions and statuses -----

  /** No lost update and no reset: the committed version of a subject is one more than the logouts
      and reuse kills committed for it, and nothing ever moves back. */
  lemma VersionsCountKills(acts: seq<Action>, more: seq<Action>, a: Username)
    ensures var s, s' := Reach(acts), Run(Reach(acts), more);
            && (a in s.db.admins ==> s.db.admins[a] == 1 + Kills(s.h.log, a))
            && (a !in s.db.admins ==> Kills(s.h.log, a) == 0)
            && Advances(s.db, s'.db)
  {
    ReachInv(acts);
    RunKeepsInv(Reach(acts), more);
  }

  // ----- Revocation -----

  /** `require_admin` outside prod: the claims checks, then the version against the database. */
  predicate AcceptedByAdminRead(s: State, adminUsername: Username, j: Jti, clock: int) {
    var id := VerifyClaims(s.claims, s.delivered, adminUsername, j, Access, clock);
    id.Ok? && adminUsername in s.db.admins && s.db.admins[adminUsername] == id.value.version
  }

  /** A refresh token the next refresh would exchange, its expiry aside. */
  predicate Usable(s: State, j: Jti) {
    && j in s.db.rows && j in s.claims && s.db.rows[j].status.Active?
    && s.db.rows[j].subject in s.db.admins && s.claims[j].version == s.db.admins[s.db.rows[j].subject]
  }

  lemma MintedVersions(s: State, j: Jti)
    requires ReadersOk(s.db, s.claims, s.txns, s.h.spentAt) && j in s.claims && s.claims[j].subject in s.db.admins
    ensures s.claims[j].version <= s.db.admins[s.claims[j].subject]
  {
    assert ReadOk(s.db, s.txns[s.claims[j].issuer]);
  }

  lemma KillWritesVersion(db: Db, claims: map<Jti, Claims>, x: Txn)
    requires TxnOk(db, claims, x) && x.pc.AtCommitKill?
    ensures var a := SubjectOf(x.req); a in db.admins && Override(db, x.w).admins == db.admins[a := db.admins[a] + 1]
    ensures Override(db, x.w).rows.Keys == db.rows.Keys
    ensures forall j <- db.rows :: Override(db, x.w).rows[j].subject == db.rows[j].subject
  {}

  lemma KillOutdatesReads(s: State, t: Tid, u: Tid)
    requires t in s.txns && s.txns[t].pc.AtCommitKill? && TxnOk(s.db, s.claims, s.txns[t])
    requires ReadsOk(s.db, s.txns) && u in s.txns && SubjectOf(s.txns[u].req) == SubjectOf(s.txns[t].req)
    ensures var a := SubjectOf(s.txns[t].req);
            a in Commit(s, t).db.admins && s.txns[u].seen < Commit(s, t).db.admins[a]
  {
    KillWritesVersion(s.db, s.claims, s.txns[t]);
    assert ReadOk(s.db, s.txns[u]);
  }

  lemma KillOutdatesTokens(s: State, t: Tid, j: Jti)
    requires t in s.txns && s.txns[t].pc.AtCommitKill? && TxnOk(s.db, s.claims, s.txns[t])
    requires ReadersOk(s.db, s.claims, s.txns, s.h.spentAt)
    requires j in s.claims && s.claims[j].subject == SubjectOf(s.txns[t].req)
    ensures var a := SubjectOf(s.txns[t].req);
            a in Commit(s, t).db.admins && s.claims[j].version < Commit(s, t).db.admins[a]
  {
    KillOutdatesReads(s, t, s.claims[j].issuer);
  }

  lemma KillOutdatesRow(s: State, t: Tid, j: Jti)
    requires t in s.txns && s.txns[t].pc.AtCommitKill? && TxnOk(s.db, s.claims, s.txns[t])
    requires ReadersOk(s.db, s.claims, s.txns, s.h.spentAt) && RowsOk(s.db, s.claims)
    requires j in Commit(s, t).db.rows && Commit(s, t).db.rows[j].subject == SubjectOf(s.txns[t].req)
    ensures !Usable(Commit(s, t), j)
  {
    KillWritesVersion(s.db, s.claims, s.txns[t]);
    KillOutdatesTokens(s, t, j);
  }

  /** When a logout or reuse kill commits, no refresh token of the subject is usable, every token minted
      so far is of an older version, and so is whatever a transaction in flight has read. */
  lemma KillLeavesNothingUsable(s: State, t: Tid)
    requires Inv(s) && t in s.txns && s.txns[t].pc.AtCommitKill?
    ensures var a, s' := SubjectOf(s.txns[t].req), Commit(s, t);
            && a in s'.db.admins
            && (forall j <- s'.db.rows :: s'.db.rows[j].subject == a ==> !Usable(s', j))
            && (forall j <- s'.claims :: s'.claims[j].subject == a ==> s'.claims[j].version < s'.db.admins[a])
            && (forall u <- s.txns :: SubjectOf(s.txns[u].req) == a ==> s.txns[u].seen < s'.db.admins[a])
  {
    var a, s' := SubjectOf(s.txns[t].req), Commit(s, t);
    KillWritesVersion(s.db, s.claims, s.txns[t]);
    forall j <- s'.db.rows | s'.db.rows[j].subject == a ensures !Usable(s', j) {
      KillOutdatesRow(s, t, j);
    }
    forall j <- s'.claims | s'.claims[j].subject == a ensures s'.claims[j].version < s'.db.admins[a] {
      KillOutdatesTokens(s, t, j);
    }
    forall u <- s.txns | SubjectOf(s.txns[u].req) == a ensures s.txns[u].seen < s'.db.admins[a] {
      KillOutdatesReads(s, t, u);
    }
  }

  /** An action of another transaction leaves `t` as it is. */
  lemma OthersStep(s: State, t: Tid, a: Action)
    requires t in s.txns && (Enabled(s, a) ==> a.tid != t)
    ensures t in Next(s, a).txns && Next(s, a).txns[t] == s.txns[t]
  {}

  /** What a transaction has read, and the claims of a token, never change. */
  lemma ReadsStay(s: State, a: Action, u: Tid)
    requires u in s.txns
    ensures u in Next(s, a).txns && Next(s, a).txns[u].req == s.txns[u].req
    ensures HasRead(s.txns[u]) ==> HasRead(Next(s, a).txns[u]) && Next(s, a).txns[u].seen == s.txns[u].seen
  {}

  lemma {:induction false} ReadsStayInRun(s: State, acts: seq<Action>, u: Tid)
    requires u in s.txns
    ensures u in Run(s, acts).txns && Run(s, acts).txns[u].req == s.txns[u].req
    ensures HasRead(s.txns[u]) ==> HasRead(Run(s, acts).txns[u]) && Run(s, acts).txns[u].seen == s.txns[u].seen
  {
    if acts != [] {
      ReadsStayInRun(s, acts[..|acts| - 1], u);
      ReadsStay(Run(s, acts[..|acts| - 1]), acts[|acts| - 1], u);
    }
  }

  /** Revocation is final: whatever runs after a state, a token of a version older than the one
      committed there is neither accepted on an admin read nor usable for a refresh. */
  lemma RevocationIsFinal(acts: seq<Action>, more: seq<Action>, a: Username, j: Jti, clock: int)
    requires var s, s' := Reach(acts), Run(Reach(acts), more);
             && a in s.db.admins
             && j in s'.claims && s'.claims[j].subject == a && s'.claims[j].version < s.db.admins[a]
    ensures var s' := Run(Reach(acts), more);
            !AcceptedByAdminRead(s', a, j, clock) && !Usable(s', j)
  {
    ReachInv(acts);
    RunKeepsInv(Reach(acts), more);
  }

  /** The tokens a logout or reuse kill puts out of use: those minted before it commits, and those that
      a login or refresh which had read the admin row by then mints at any later time. */
  lemma KillIsFinal(acts: seq<Action>, t: Tid, c: Choice, more: seq<Action>, j: Jti, clock: int)
    requires t in Reach(acts).txns && Reach(acts).txns[t].pc.AtCommitKill?
    requires var s1 := Next(Reach(acts), Exec(t, c)); var s' := Run(s1, more);
             && j in s'.claims && s'.claims[j].subject == SubjectOf(Reach(acts).txns[t].req)
             && s'.claims[j].issuer in s1.txns && HasRead(s1.txns[s'.claims[j].issuer])
    ensures var s' := Run(Next(Reach(acts), Exec(t, c)), more);
            !AcceptedByAdminRead(s', s'.claims[j].subject, j, clock) && !Usable(s', j)
  {
    var s, s1 := Reach(acts), Next(Reach(acts), Exec(t, c));
    ReachInv(acts);
    assert TxnOk(s.db, s.claims, s.txns[t]);
    NextKeepsInv(s, Exec(t, c));
    KillThenRun(s, s1, t, c, more, j, clock);
  }

  lemma KillThenRun(s: State, s1: State, t: Tid, c: Choice, more: seq<Action>, j: Jti, clock: int)
    requires t in s.txns && s.txns[t].pc.AtCommitKill? && TxnOk(s.db, s.claims, s.txns[t]) && ReadsOk(s.db, s.txns)
    requires s1 == Next(s, Exec(t, c)) && Inv(s1)
    requires j in Run(s1, more).claims && Run(s1, more).claims[j].subject == SubjectOf(s.txns[t].req)
    requires Run(s1, more).claims[j].issuer in s1.txns && HasRead(s1.txns[Run(s1, more).claims[j].issuer])
    ensures !AcceptedByAdminRead(Run(s1, more), SubjectOf(s.txns[t].req), j, clock) && !Usable(Run(s1, more), j)
  {
    var i := Run(s1, more).claims[j].issuer;
    KillOutdatesRead(s, t, c, t);
    if SubjectOf(s1.txns[i].req) == SubjectOf(s.txns[t].req) {
      KillOutdatesRead(s, t, c, i);
    }
    OutdatedIssuer(s1, more, j, SubjectOf(s.txns[t].req), clock);
  }

  lemma KillOutdatesRead(s: State, t: Tid, c: Choice, i: Tid)
    requires t in s.txns && s.txns[t].pc.AtCommitKill? && TxnOk(s.db, s.claims, s.txns[t]) && ReadsOk(s.db, s.txns)
    requires i in Next(s, Exec(t, c)).txns && SubjectOf(Next(s, Exec(t, c)).txns[i].req) == SubjectOf(s.txns[t].req)
    ensures var a, s1 := SubjectOf(s.txns[t].req), Next(s, Exec(t, c));
            a in s1.db.admins && s1.txns[i].seen < s1.db.admins[a]
  {
    assert Next(s, Exec(t, c)) == Commit(s, t);
    KillOutdatesReads(s, t, i);
  }

  lemma OutdatedIssuer(s1: State, more: seq<Action>, j: Jti, a: Username, clock: int)
    requires Inv(s1) && a in s1.db.admins && j in Run(s1, more).claims && Run(s1, more).claims[j].subject == a
    requires var i := Run(s1, more).claims[j].issuer;
             i in s1.txns && HasRead(s1.txns[i])
             && (SubjectOf(s1.txns[i].req) == a ==> s1.txns[i].seen < s1.db.admins[a])
    ensures !AcceptedByAdminRead(Run(s1, more), a, j, clock) && !Usable(Run(s1, more), j)
  {
    RunKeepsInv(s1, more);
    ReadsStayInRun(s1, more, Run(s1, more).claims[j].issuer);
    OldTokenIsDead(s1.db, Run(s1, more), a, j, clock);
  }

  lemma OldTokenIsDead(db: Db, s': State, a: Username, j: Jti, clock: int)
    requires Advances(db, s'.db) && RowsOk(s'.db, s'.claims) && a in db.admins
    requires j in s'.claims && s'.claims[j].subject == a && s'.claims[j].version < db.admins[a]
    ensures !AcceptedByAdminRead(s', a, j, clock) && !Usable(s', j)
  {}

  /** Every token carries a version at most the committed one, from its minting on; a token handed out
      belongs to a committed subject. */
  lemma IssuedVersionsAreCommitted(acts: seq<Action>, j: Jti)
    requires j in Reach(acts).claims
    ensures var s := Reach(acts); var a := s.claims[j].subject;
            && (a in s.db.admins ==> s.claims[j].version <= s.db.admins[a])
            && (j in s.delivered ==> a in s.db.admins)
  {
    ReachInv(acts);
    if Reach(acts).claims[j].subject in Reach(acts).db.admins {
      MintedVersions(Reach(acts), j);
    }
  }

  // ----- Refusal -----

  /** `t` presented a token of an older version than `v`, and has got nowhere with it. */
  ghost predicate Refused(s: State, t: Tid, a: Username, v: int) {
    t in s.txns && a in s.db.admins && v <= s.db.admins[a]
    && var x := s.txns[t];
       !x.req.Login? && x.req.id.subject == a && x.req.id.version < v
       && ((x.pc.AtReadAdmin? && x.w == EMPTY) || (x.pc.Done? && !Committed(x)))
  }

  lemma RefusedNext(s: State, t: Tid, a: Username, v: int, act: Action)
    requires Refused(s, t, a, v) && Advances(s.db, Next(s, act).db)
    ensures Refused(Next(s, act), t, a, v)
  {
    if act.Exec? && act.tid == t {
      assert s.db.admins + map[] == s.db.admins;
    }
  }

  lemma {:induction false} RefusedRun(s: State, t: Tid, a: Username, v: int, acts: seq<Action>)
    requires Inv(s) && Refused(s, t, a, v)
    ensures Refused(Run(s, acts), t, a, v)
  {
    if acts != [] {
      RefusedRun(s, t, a, v, acts[..|acts| - 1]);
      RunKeepsInv(s, acts[..|acts| - 1]);
      NextKeepsInv(Run(s, acts[..|acts| - 1]), acts[|acts| - 1]);
      RefusedNext(Run(s, acts[..|acts| - 1]), t, a, v, acts[|acts| - 1]);
    }
  }

  /** A refresh or logout that has not yet read the admin row when the version moves past that of its
      token never commits anything, whatever runs beside it. */
  lemma StaleTokensAreRefused(acts: seq<Action>, t: Tid, more: seq<Action>)
    requires var s := Reach(acts);
             && t in s.txns && !s.txns[t].req.Login? && s.txns[t].pc.AtReadAdmin?
             && var id := s.txns[t].req.id; id.subject in s.db.admins && id.version < s.db.admins[id.subject]
    ensures var s' := Run(Reach(acts), more);
            && t in s'.txns && !Committed(s'.txns[t])
            && forall i | 0 <= i < |s'.h.log| :: s'.h.log[i].tid != t
  {
    var s := Reach(acts);
    ReachInv(acts);
    assert TxnOk(s.db, s.claims, s.txns[t]);
    var id := s.txns[t].req.id;
    RefusedRun(s, t, id.subject, s.db.admins[id.subject], more);
    RunKeepsInv(s, more);
    assert EventsOk(Run(s, more).txns, Run(s, more).h);
  }

  /** No false alarm: a kill by a refresh means that another refresh had exchanged the same token. */
  lemma ReuseMeansReplay(acts: seq<Action>, t: Tid)
    requires var s := Reach(acts); t in s.txns && s.txns[t].req.RefreshWith? && s.txns[t].pc == Done(ReuseDetected)
    ensures var s := Reach(acts); var j := s.txns[t].req.id.jti;
            exists i :: 0 <= i < |s.h.log| && s.h.log[i].Rotation? && s.h.log[i].parent == j && s.h.log[i].tid != t
  {
    var s := Reach(acts);
    ReachInv(acts);
    ReplayedAt(s.txns, s.h, t);
  }

  lemma ReplayedAt(txns: map<Tid, Txn>, h: History, t: Tid)
    requires EventsOk(txns, h) && SpentOk(h) && ReplaysOk(txns, h.spentAt)
    requires t in txns && txns[t].req.RefreshWith? && txns[t].pc == Done(ReuseDetected)
    ensures var j := txns[t].req.id.jti;
            && j in h.spentAt && h.spentAt[j] < |h.log|
            && h.log[h.spentAt[j]].Rotation? && h.log[h.spentAt[j]].parent == j && h.log[h.spentAt[j]].tid != t
  {
    assert Replays(txns[t]);
    assert EventFits(t, txns[t], h.log[txns[t].event]);
  }

  // ----- Replay -----

  lemma FailureOutcome(db: Db, claims: map<Jti, Claims>, x: Txn)
    requires TxnOk(db, claims, x) && x.req.RefreshWith? && x.pc.Done?
    requires x.pc.outcome != Aborted && x.pc.outcome != Succeeded
    ensures var id := x.req.id;
            && id.subject in db.admins && id.jti in db.rows
            && (db.admins[id.subject] > id.version
                || (x.pc.outcome == Rejected(RowExpired) && db.rows[id.jti].expiresAt <= x.now))
  {}

  /** A refresh that succeeded presented a row unexpired when its transaction began. */
  lemma SuccessMeansUnexpired(acts: seq<Action>, t: Tid)
    requires var s := Reach(acts); t in s.txns && s.txns[t].req.RefreshWith? && s.txns[t].pc == Done(Succeeded)
    ensures var s := Reach(acts); var x := s.txns[t];
            x.req.id.jti in s.db.rows && s.db.rows[x.req.id.jti].expiresAt > x.now
  {
    ReachInv(acts);
    assert TxnOk(Reach(acts).db, Reach(acts).claims, Reach(acts).txns[t]);
  }

  /** A refresh that ran to its end without succeeding, unless its row was expired when it began,
      finds its subject moved on to a later version. */
  lemma FailedRefreshMeansMovedOn(acts: seq<Action>, t: Tid)
    requires var s := Reach(acts);
             && t in s.txns && s.txns[t].req.RefreshWith? && s.txns[t].pc.Done?
             && s.txns[t].pc.outcome != Aborted && s.txns[t].pc.outcome != Succeeded
    ensures var s := Reach(acts); var x := s.txns[t]; var id := x.req.id;
            && id.subject in s.db.admins && id.jti in s.db.rows
            && (s.db.admins[id.subject] > id.version
                || (x.pc.outcome == Rejected(RowExpired) && s.db.rows[id.jti].expiresAt <= x.now))
  {
    ReachInv(acts);
    FailureOutcome(Reach(acts).db, Reach(acts).claims, Reach(acts).txns[t]);
  }

  /** Whether `x` has won the rotation of the token it presented, answered or not. */
  predicate Won(x: Txn) {
    x.req.RefreshWith? && (x.pc.AtRespond? || x.pc == Done(Succeeded))
  }

  /** Two refreshes that win presented different tokens. */
  lemma SingleUse(acts: seq<Action>, t: Tid, u: Tid)
    requires var s := Reach(acts);
             && t in s.txns && Won(s.txns[t]) && u in s.txns && Won(s.txns[u])
             && s.txns[t].req.id.jti == s.txns[u].req.id.jti
    ensures t == u
  {
    ReachInv(acts);
    WonTwice(Reach(acts).txns, Reach(acts).h, t, u);
  }

  lemma WonTwice(txns: map<Tid, Txn>, h: History, t: Tid, u: Tid)
    requires EventsOk(txns, h) && SpentOk(h) && t in txns && u in txns && Won(txns[t]) && Won(txns[u])
    requires txns[t].req.id.jti == txns[u].req.id.jti
    ensures t == u
  {
    assert EventFits(t, txns[t], h.log[txns[t].event]);
    assert EventFits(u, txns[u], h.log[txns[u].event]);
    assert h.log[txns[t].event].Rotation? && h.log[txns[u].event].Rotation?;
  }

  /** Whether `x` is a refresh of `j` that has won, or has run to its end without winning. */
  predicate Concluded(x: Txn, j: Jti) {
    x.req.RefreshWith? && x.req.id.jti == j && (Won(x) || (x.pc.Done? && x.pc.outcome != Aborted))
  }

  /** A token has one subject and one version, whoever presents it. */
  lemma PresentedOnce(s: State, t: Tid, u: Tid)
    requires TxnsOk(s.db, s.claims, s.txns) && t in s.txns && u in s.txns
    requires !s.txns[t].req.Login? && !s.txns[u].req.Login? && s.txns[t].req.id.jti == s.txns[u].req.id.jti
    ensures s.txns[t].req.id.subject == s.txns[u].req.id.subject && s.txns[t].req.id.version == s.txns[u].req.id.version
  {
    assert PresentedOk(s.db, s.claims, s.txns[t]) && PresentedOk(s.db, s.claims, s.txns[u]);
  }

  /** Replay always kills: once two refreshes of the same token, unexpired when they began, have won or
      run to their ends, the version the token carries is dead for good. */
  lemma ReplayAlwaysKills(acts: seq<Action>, t: Tid, u: Tid, more: seq<Action>, j: Jti)
    requires t != u
    requires var s := Reach(acts);
             && t in s.txns && u in s.txns && s.txns[t].req.RefreshWith?
             && Concluded(s.txns[t], s.txns[t].req.id.jti) && Concluded(s.txns[u], s.txns[t].req.id.jti)
             && (s.txns[t].req.id.jti in s.db.rows ==>
                   && s.txns[t].now < s.db.rows[s.txns[t].req.id.jti].expiresAt
                   && s.txns[u].now < s.db.rows[s.txns[t].req.id.jti].expiresAt)
    ensures var s, s' := Reach(acts), Run(Reach(acts), more); var id := s.txns[t].req.id;
            && id.subject in s'.db.admins && s'.db.admins[id.subject] > id.version
            && (Usable(s', j) && s'.db.rows[j].subject == id.subject ==> s'.claims[j].version > id.version)
  {
    var s := Reach(acts);
    ReachInv(acts);
    PresentedOnce(s, t, u);
    if Won(s.txns[t]) && Won(s.txns[u]) {
      SingleUse(acts, t, u);
    } else if Won(s.txns[t]) {
      FailedRefreshMeansMovedOn(acts, u);
    } else {
      FailedRefreshMeansMovedOn(acts, t);
    }
    RunKeepsInv(s, more);
  }

  // ----- What a transaction did -----

  ghost predicate IsRotationEffect(db: Db, db': Db, claims: map<Jti, Claims>, parent: Jti, child: Jti) {
    && parent in db.rows && db.rows[parent].status.Active? && child !in db.rows
    && db'.admins == db.admins && child in db'.rows
    && db'.rows == db.rows[parent := db.rows[parent].(status := Rotated)][child := db'.rows[child]]
    && db'.rows[child].subject == db.rows[parent].subject && db'.rows[child].status.Active?
    && child in claims && parent in claims && claims[child].version == claims[parent].version
  }

  /** Every row of the subject committed by the log entries before `since` is revoked, and no other. */
  ghost predicate IsKillEffect(h: History, db: Db, db': Db, a: Username, since: nat) {
    && a in db.admins && db'.admins == db.admins[a := db.admins[a] + 1]
    && db'.rows.Keys == db.rows.Keys == h.bornAt.Keys
    && (forall j <- db.rows :: db'.rows[j] == if db.rows[j].subject == a && h.bornAt[j] < since
                                              then db.rows[j].(status := Revoked) else db.rows[j])
  }

  ghost predicate IsBirthEffect(db: Db, db': Db, claims: map<Jti, Claims>, j: Jti, a: Username) {
    && j !in db.rows && j in db'.rows && db'.rows == db.rows[j := db'.rows[j]]
    && db'.rows[j].status.Active? && db'.rows[j].subject == a && j in claims && claims[j].subject == a
    && db'.admins == (if a in db.admins then db.admins else db.admins[a := 1])
    && claims[j].version <= db'.admins[a]
  }

  ghost predicate Explains(h: History, db: Db, db': Db, claims: map<Jti, Claims>, e: Event) {
    match e
    case Born(_, j, subject) => IsBirthEffect(db, db', claims, j, subject)
    case Rotation(_, p, j) => IsRotationEffect(db, db', claims, p, j)
    case Kill(_, subject, since) => IsKillEffect(h, db, db', subject, since)
  }

  lemma RotationEffect(db: Db, claims: map<Jti, Claims>, x: Txn)
    requires Commits(db, claims, x) && x.pc.AtCommitIssue? && x.req.RefreshWith?
    ensures IsRotationEffect(db, Override(db, x.w), claims, x.req.id.jti, x.pc.child)
  {}

  lemma KillEffect(db: Db, claims: map<Jti, Claims>, h: History, x: Txn)
    requires Commits(db, claims, x) && x.pc.AtCommitKill? && ScanOk(db, h, x) && h.bornAt.Keys == db.rows.Keys
    ensures IsKillEffect(h, db, Override(db, x.w), SubjectOf(x.req), x.since)
  {}

  lemma BirthEffect(db: Db, claims: map<Jti, Claims>, x: Txn)
    requires Commits(db, claims, x) && x.pc.AtCommitIssue? && x.req.Login?
    ensures IsBirthEffect(db, Override(db, x.w), claims, x.pc.child, SubjectOf(x.req))
  {}

  lemma CommitExplained(s: State, t: Tid)
    requires t in s.txns && Commits(s.db, s.claims, s.txns[t])
    requires ScanOk(s.db, s.h, s.txns[t]) && s.h.bornAt.Keys == s.db.rows.Keys
    ensures Commit(s, t).h.log == s.h.log + [EventOf(t, s.txns[t])]
    ensures Explains(s.h, s.db, Commit(s, t).db, s.claims, EventOf(t, s.txns[t]))
  {
    var x := s.txns[t];
    if x.pc.AtCommitKill? {
      KillEffect(s.db, s.claims, s.h, x);
    } else if x.req.Login? {
      BirthEffect(s.db, s.claims, x);
    } else {
      RotationEffect(s.db, s.claims, x);
    }
  }

  /** An action changes the committed database only by adding one entry to the log, and the entry
      says exactly what changed. */
  lemma LogExplainsDatabase(s: State, a: Action)
    requires Inv(s)
    ensures var s' := Next(s, a);
            if s'.h.log == s.h.log then s'.db == s.db
            else |s'.h.log| == |s.h.log| + 1 && s'.h.log[..|s.h.log|] == s.h.log
                 && Explains(s.h, s.db, s'.db, s.claims, s'.h.log[|s.h.log|])
  {
    if a.Exec? && a.tid in s.txns && (s.txns[a.tid].pc.AtCommitIssue? || s.txns[a.tid].pc.AtCommitKill?) {
      assert TxnOk(s.db, s.claims, s.txns[a.tid]);
      CommitExplained(s, a.tid);
    } else {
      QuietActions(s, a);
    }
  }

  lemma QuietActions(s: State, a: Action)
    requires a.Exec? && a.tid in s.txns ==> !s.txns[a.tid].pc.AtCommitIssue? && !s.txns[a.tid].pc.AtCommitKill?
    ensures Next(s, a).db == s.db && Next(s, a).h == s.h
  {}

  predicate Did(t: Tid, x: Txn, e: Event)
    requires x.pc.Done?
  {
    && e.tid == t
    && (match x.req
        case Login(a) => e.Born? && e.subject == a
        case RefreshWith(id) => if x.pc.outcome == ReuseDetected then e.Kill? && e.subject == id.subject
                                else e.Rotation? && e.parent == id.jti
        case LogoutBy(id) => e.Kill? && e.subject == id.subject)
  }

  /** The outcome decides the effect: a success and a detected reuse committed exactly one log entry
      of the kind they stand for; every other outcome committed nothing. */
  lemma OutcomeDecidesEffect(acts: seq<Action>, t: Tid)
    requires t in Reach(acts).txns && Reach(acts).txns[t].pc.Done?
    ensures var s := Reach(acts); var x := s.txns[t];
            if x.pc.outcome == Succeeded || x.pc.outcome == ReuseDetected then
              && 0 <= x.event < |s.h.log| && Did(t, x, s.h.log[x.event])
              && (forall i | 0 <= i < |s.h.log| :: s.h.log[i].tid == t ==> i == x.event)
            else forall i | 0 <= i < |s.h.log| :: s.h.log[i].tid != t
  {
    ReachInv(acts);
    EventOfOutcome(Reach(acts).txns, Reach(acts).h, t);
  }

  lemma EventOfOutcome(txns: map<Tid, Txn>, h: History, t: Tid)
    requires EventsOk(txns, h) && t in txns && txns[t].pc.Done?
    ensures Committed(txns[t]) ==> 0 <= txns[t].event < |h.log| && Did(t, txns[t], h.log[txns[t].event])
    ensures forall i | 0 <= i < |h.log| :: h.log[i].tid == t ==> Committed(txns[t]) && i == txns[t].event
  {
    if Committed(txns[t]) {
      assert EventFits(t, txns[t], h.log[txns[t].event]);
    }
  }
}
