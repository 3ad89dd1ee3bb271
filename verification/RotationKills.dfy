// What a kill's revoke statement reaches, and what it does not.

module RotationKills {
  import opened RefreshTokens
  import opened RotationMachine
  import opened RotationInvariant
  import opened RotationPreserved
  import opened RotationSafety

  /** `t` is revoking at least the rows `v`, or has committed doing so, or has given up. */
  ghost predicate Covers(s: State, t: Tid, v: set<Jti>) {
    t in s.txns
    && (match s.txns[t].pc
        case AtRevokeRows(pending) => v <= pending + s.txns[t].w.rows.Keys
        case AtCommitKill => v <= s.txns[t].w.rows.Keys
        case Done(outcome) => outcome == Aborted || AllRevoked(s.db, v)
        case _ => false)
  }

  ghost predicate AllRevoked(db: Db, v: set<Jti>) {
    forall j <- v :: j in db.rows && db.rows[j].status.Revoked?
  }

  lemma CoversOwnStep(s: State, t: Tid, v: set<Jti>, c: Choice)
    requires Covers(s, t, v) && CanExec(s, t, c) && TxnOk(s.db, s.claims, s.txns[t])
    ensures Covers(Execute(s, t, c), t, v)
  {}

  lemma CoversNext(s: State, t: Tid, v: set<Jti>, a: Action)
    requires Covers(s, t, v) && TxnOk(s.db, s.claims, s.txns[t]) && Advances(s.db, Next(s, a).db)
    ensures Covers(Next(s, a), t, v)
  {
    if Enabled(s, a) && a.Exec? && a.tid == t {
      CoversOwnStep(s, t, v, a.c);
    } else if !(a.Abort? && a.tid == t) {
      OthersStep(s, t, a);
    }
  }

  lemma {:induction false} CoversRun(s: State, t: Tid, v: set<Jti>, acts: seq<Action>)
    requires Inv(s) && Covers(s, t, v)
    ensures Covers(Run(s, acts), t, v)
  {
    if acts != [] {
      CoversRun(s, t, v, acts[..|acts| - 1]);
      RunKeepsInv(s, acts[..|acts| - 1]);
      var m := Run(s, acts[..|acts| - 1]);
      assert TxnOk(m.db, m.claims, m.txns[t]);
      NextKeepsInv(m, acts[|acts| - 1]);
      CoversNext(m, t, v, acts[|acts| - 1]);
    }
  }

  lemma RevokeStarts(s: State, t: Tid, c: Choice)
    requires t in s.txns && s.txns[t].pc.AtRevoke? && TxnOk(s.db, s.claims, s.txns[t])
    ensures Covers(Next(s, Exec(t, c)), t, set j <- s.db.rows | s.db.rows[j].subject == SubjectOf(s.txns[t].req))
  {}

  /** Every row of the subject that was committed when the revoke statement of a logout or reuse kill
      began is revoked once that transaction has committed, whatever ran in between. */
  lemma RevokeReachesCommittedRows(acts: seq<Action>, t: Tid, c: Choice, more: seq<Action>)
    requires t in Reach(acts).txns && Reach(acts).txns[t].pc.AtRevoke?
    requires var s' := Run(Next(Reach(acts), Exec(t, c)), more);
             t in s'.txns && s'.txns[t].pc.Done? && s'.txns[t].pc.outcome != Aborted
    ensures var s, s' := Reach(acts), Run(Next(Reach(acts), Exec(t, c)), more);
            forall j <- s.db.rows :: s.db.rows[j].subject == SubjectOf(s.txns[t].req) ==>
                                       j in s'.db.rows && s'.db.rows[j].status.Revoked?
  {
    var s := Reach(acts);
    ReachInv(acts);
    assert TxnOk(s.db, s.claims, s.txns[t]);
    var v := set j <- s.db.rows | s.db.rows[j].subject == SubjectOf(s.txns[t].req);
    var s1 := Next(s, Exec(t, c));
    NextKeepsInv(s, Exec(t, c));
    RevokeStarts(s, t, c);
    CoversRun(s1, t, v, more);
  }

  // ----- What the commit of a kill does to the rows -----

  /** `t` is past the start of its revoke statement, when the log had length `n`. */
  predicate Started(s: State, t: Tid, n: nat) {
    t in s.txns && s.txns[t].since == n
    && (s.txns[t].pc.AtRevokeRows? || s.txns[t].pc.AtCommitKill? || s.txns[t].pc.Done?)
  }

  lemma StartedNext(s: State, t: Tid, n: nat, a: Action)
    requires Started(s, t, n)
    ensures Started(Next(s, a), t, n) && Next(s, a).txns[t].req == s.txns[t].req
  {}

  lemma LogGrows(s: State, a: Action)
    ensures s.h.log <= Next(s, a).h.log
  {}

  lemma {:induction false} StartedRun(s: State, t: Tid, n: nat, acts: seq<Action>)
    requires Started(s, t, n)
    ensures Started(Run(s, acts), t, n) && Run(s, acts).txns[t].req == s.txns[t].req
    ensures s.h.log <= Run(s, acts).h.log
  {
    if acts != [] {
      StartedRun(s, t, n, acts[..|acts| - 1]);
      StartedNext(Run(s, acts[..|acts| - 1]), t, n, acts[|acts| - 1]);
      LogGrows(Run(s, acts[..|acts| - 1]), acts[|acts| - 1]);
    }
  }

  lemma RevokeBegins(s: State, t: Tid, c: Choice)
    requires t in s.txns && s.txns[t].pc.AtRevoke?
    ensures Started(Next(s, Exec(t, c)), t, |s.h.log|)
    ensures Next(s, Exec(t, c)).txns[t].req == s.txns[t].req && Next(s, Exec(t, c)).h == s.h
  {}

  /** The rows committed while the log was still `h` are those born in it. */
  lemma BornBefore(h: History, h': History, j: Jti)
    requires BornOk(h) && BornOk(h') && h.log <= h'.log && j in h'.bornAt
    ensures h'.bornAt[j] < |h.log| <==> j in h.bornAt
  {
    if j in h.bornAt {
      assert h'.log[h.bornAt[j]] == h.log[h.bornAt[j]];
    }
  }

  /** The tables before and after the commit of `t`, a kill that began to revoke when they held the rows `seen`. */
  ghost predicate RevokesExactly(seen: set<Jti>, db: Db, db': Db, a: Username) {
    && a in db.admins && db'.admins == db.admins[a := db.admins[a] + 1]
    && db'.rows.Keys == db.rows.Keys
    && (forall j <- db.rows :: db'.rows[j] == if db.rows[j].subject == a && j in seen
                                              then db.rows[j].(status := Revoked) else db.rows[j])
  }

  lemma RevokedOnCommit(h: History, m: State, t: Tid, seen: set<Jti>)
    requires t in m.txns && m.txns[t].pc.AtCommitKill? && Commits(m.db, m.claims, m.txns[t])
    requires ScanOk(m.db, m.h, m.txns[t]) && BornOk(m.h) && m.h.bornAt.Keys == m.db.rows.Keys
    requires BornOk(h) && h.bornAt.Keys == seen && h.log <= m.h.log && m.txns[t].since == |h.log|
    ensures RevokesExactly(seen, m.db, Commit(m, t).db, SubjectOf(m.txns[t].req))
  {
    KillEffect(m.db, m.claims, m.h, m.txns[t]);
    forall j <- m.db.rows ensures m.h.bornAt[j] < |h.log| <==> j in seen {
      BornBefore(h, m.h, j);
    }
  }

  /** The commit of a logout or reuse kill bumps the version and revokes exactly the rows of its subject
      that were committed when its revoke statement began; every other row it leaves as it is. */
  lemma RevokeIsExact(acts: seq<Action>, t: Tid, c: Choice, more: seq<Action>)
    requires t in Reach(acts).txns && Reach(acts).txns[t].pc.AtRevoke?
    requires var m := Run(Next(Reach(acts), Exec(t, c)), more); t in m.txns && m.txns[t].pc.AtCommitKill?
    ensures var s, m := Reach(acts), Run(Next(Reach(acts), Exec(t, c)), more);
            RevokesExactly(s.db.rows.Keys, m.db, Commit(m, t).db, SubjectOf(s.txns[t].req))
  {
    var s, s1 := Reach(acts), Next(Reach(acts), Exec(t, c));
    ReachInv(acts);
    RevokeBegins(s, t, c);
    NextKeepsInv(s, Exec(t, c));
    StartedRun(s1, t, |s.h.log|, more);
    RunKeepsInv(s1, more);
    RevokedOnCommit(s.h, Run(s1, more), t, s.db.rows.Keys);
  }

  // ----- When a kill leaves an active row behind -----

  /** Log entry `i`, of a login or refresh of the subject, was committed after the first `n` entries. */
  predicate IssuedSince(s: State, n: nat, i: int, a: Username) {
    n <= i < |s.h.log| && !s.h.log[i].Kill?
    && s.h.log[i].tid in s.txns && SubjectOf(s.txns[s.h.log[i].tid].req) == a
  }

  predicate ActiveRow(db: Db, j: Jti, a: Username) {
    j in db.rows && db.rows[j].subject == a && db.rows[j].status.Active?
  }

  /** The row a login or refresh has recorded belongs to its subject. */
  lemma ChildSubject(m: State, i: int)
    requires EventsOk(m.txns, m.h) && HistoryOk(m.db, m.claims, m.h) && RowsOk(m.db, m.claims)
    requires TxnsOk(m.db, m.claims, m.txns) && 0 <= i < |m.h.log| && !m.h.log[i].Kill?
    ensures var j := Child(m.h.log[i]);
            && j in m.db.rows && j in m.h.bornAt && m.h.bornAt[j] == i && m.h.log[i].tid in m.txns
            && m.db.rows[j].subject == SubjectOf(m.txns[m.h.log[i].tid].req)
  {
    var e := m.h.log[i];
    assert EventFits(e.tid, m.txns[e.tid], e);
    if e.Rotation? {
      assert PresentedOk(m.db, m.claims, m.txns[e.tid]);
    }
  }

  /** At the commit, the rows not revoked are active unless exchanged. */
  lemma ActiveOnCommit(m: State, t: Tid, j: Jti)
    requires t in m.txns && m.txns[t].pc.AtCommitKill? && Commits(m.db, m.claims, m.txns[t])
    requires ScanOk(m.db, m.h, m.txns[t]) && HistoryOk(m.db, m.claims, m.h) && j in m.db.rows
    requires m.db.rows[j].subject == SubjectOf(m.txns[t].req)
    ensures Commit(m, t).db.rows[j].status.Active? <==> m.txns[t].since <= m.h.bornAt[j] && j !in m.h.spentAt
    ensures Commit(m, t).db.rows[j].subject == m.db.rows[j].subject
  {
    KillEffect(m.db, m.claims, m.h, m.txns[t]);
  }

  lemma ActiveMeansIssued(m: State, t: Tid, j: Jti)
    requires Inv(m) && t in m.txns && m.txns[t].pc.AtCommitKill?
    requires ActiveRow(Commit(m, t).db, j, SubjectOf(m.txns[t].req))
    ensures j in m.h.bornAt && IssuedSince(m, m.txns[t].since, m.h.bornAt[j], SubjectOf(m.txns[t].req))
    ensures Child(m.h.log[m.h.bornAt[j]]) == j && j !in m.h.spentAt
  {
    KillKeepsRows(m, t);
    ActiveOnCommit(m, t, j);
    ChildSubject(m, m.h.bornAt[j]);
  }

  lemma KillKeepsRows(m: State, t: Tid)
    requires t in m.txns && m.txns[t].pc.AtCommitKill? && TxnsOk(m.db, m.claims, m.txns)
    requires ScansOk(m.db, m.txns, m.h) && LedgerOk(m.db, m.claims, m.h)
    ensures Commits(m.db, m.claims, m.txns[t]) && ScanOk(m.db, m.h, m.txns[t])
    ensures Commit(m, t).db.rows.Keys == m.db.rows.Keys
    ensures forall j <- m.db.rows :: Commit(m, t).db.rows[j].subject == m.db.rows[j].subject
  {
    KillEffect(m.db, m.claims, m.h, m.txns[t]);
  }

  lemma IssuedMeansActive(m: State, t: Tid, i: int)
    requires Inv(m) && t in m.txns && m.txns[t].pc.AtCommitKill?
    requires IssuedSince(m, m.txns[t].since, i, SubjectOf(m.txns[t].req)) && Child(m.h.log[i]) !in m.h.spentAt
    ensures ActiveRow(Commit(m, t).db, Child(m.h.log[i]), SubjectOf(m.txns[t].req))
  {
    KillKeepsRows(m, t);
    ChildSubject(m, i);
    ActiveOnCommit(m, t, Child(m.h.log[i]));
  }

  /** "No active row after a logout or reuse kill" holds at the commit if and only if no login or refresh
      of the subject that committed since the revoke statement began left a token not exchanged since. */
  lemma KillLeavesActiveExactly(acts: seq<Action>, t: Tid, c: Choice, more: seq<Action>)
    requires t in Reach(acts).txns && Reach(acts).txns[t].pc.AtRevoke?
    requires var m := Run(Next(Reach(acts), Exec(t, c)), more); t in m.txns && m.txns[t].pc.AtCommitKill?
    ensures var s, m := Reach(acts), Run(Next(Reach(acts), Exec(t, c)), more); var a := SubjectOf(s.txns[t].req);
            (exists j :: ActiveRow(Commit(m, t).db, j, a))
            <==> (exists i :: IssuedSince(m, |s.h.log|, i, a) && Child(m.h.log[i]) !in m.h.spentAt)
  {
    var s, s1 := Reach(acts), Next(Reach(acts), Exec(t, c));
    ReachInv(acts);
    RevokeBegins(s, t, c);
    NextKeepsInv(s, Exec(t, c));
    StartedRun(s1, t, |s.h.log|, more);
    RunKeepsInv(s1, more);
    LeavesActive(Run(s1, more), t);
  }

  lemma LeavesActive(m: State, t: Tid)
    requires Inv(m) && t in m.txns && m.txns[t].pc.AtCommitKill?
    ensures var a := SubjectOf(m.txns[t].req);
            (exists j :: ActiveRow(Commit(m, t).db, j, a))
            <==> (exists i :: IssuedSince(m, m.txns[t].since, i, a) && Child(m.h.log[i]) !in m.h.spentAt)
  {
    var a := SubjectOf(m.txns[t].req);
    if j :| ActiveRow(Commit(m, t).db, j, a) {
      ActiveMeansIssued(m, t, j);
    }
    if i :| IssuedSince(m, m.txns[t].since, i, a) && Child(m.h.log[i]) !in m.h.spentAt {
      IssuedMeansActive(m, t, i);
    }
  }
}
