// The log of commits determines the status of every row.

module RotationLog {
  import opened RefreshTokens
  import opened RotationMachine
  import opened RotationInvariant
  import opened RotationPreserved
  import opened RotationSafety
  import opened RotationChains
  import opened RotationKills

  /** Entry `i` is a kill of `a` whose revoke statement began after the row `j` had been committed. */
  predicate KillReaches(h: History, i: int, j: Jti, a: Username) {
    0 <= i < |h.log| && h.log[i].Kill? && h.log[i].subject == a && j in h.bornAt && h.bornAt[j] < h.log[i].since
  }

  /** No revoke statement began after its commit, and a row is revoked exactly if a kill reaches it. */
  ghost predicate RevokedByLog(db: Db, h: History) {
    && h.bornAt.Keys == db.rows.Keys
    && (forall i | 0 <= i < |h.log| && h.log[i].Kill? :: h.log[i].since <= i)
    && (forall j <- db.rows :: db.rows[j].status.Revoked? <==> exists i :: KillReaches(h, i, j, db.rows[j].subject))
  }

  lemma ReachesAppended(h: History, e: Event, i: int, j: Jti, a: Username)
    requires j in h.bornAt && (e.Kill? || Child(e) !in h.bornAt)
    ensures KillReaches(Logged(h, e), i, j, a)
            <==> KillReaches(h, i, j, a) || (i == |h.log| && e.Kill? && e.subject == a && h.bornAt[j] < e.since)
  {}

  /** A row that the log has just seen is reached by no kill. */
  lemma NewbornUnreached(h: History, e: Event, i: int, a: Username)
    requires !e.Kill? && forall k | 0 <= k < |h.log| && h.log[k].Kill? :: h.log[k].since <= k
    ensures !KillReaches(Logged(h, e), i, Child(e), a)
  {}

  lemma ReachedStays(h: History, e: Event, j: Jti, a: Username)
    requires j in h.bornAt && (e.Kill? || Child(e) !in h.bornAt)
    ensures (exists i :: KillReaches(Logged(h, e), i, j, a))
            <==> (exists i :: KillReaches(h, i, j, a)) || (e.Kill? && e.subject == a && h.bornAt[j] < e.since)
  {
    if i :| KillReaches(h, i, j, a) {
      ReachesAppended(h, e, i, j, a);
    }
    if i :| KillReaches(Logged(h, e), i, j, a) {
      ReachesAppended(h, e, i, j, a);
    }
    ReachesAppended(h, e, |h.log|, j, a);
  }

  /** What the commit of `e` does to the row `j`. */
  lemma RowExplained(h: History, db: Db, db': Db, claims: map<Jti, Claims>, e: Event, j: Jti)
    requires Explains(h, db, db', claims, e) && h.bornAt.Keys == db.rows.Keys && j in db.rows
    ensures j in db'.rows && db'.rows[j].subject == db.rows[j].subject
    ensures db'.rows[j].status.Revoked?
            <==> db.rows[j].status.Revoked? || (e.Kill? && e.subject == db.rows[j].subject && h.bornAt[j] < e.since)
    ensures e.Kill? || Child(e) !in db.rows
  {}

  lemma NewRowsExplained(h: History, db: Db, db': Db, claims: map<Jti, Claims>, e: Event)
    requires Explains(h, db, db', claims, e) && h.bornAt.Keys == db.rows.Keys
    ensures db'.rows.Keys == db.rows.Keys + if e.Kill? then {} else {Child(e)}
    ensures !e.Kill? ==> Child(e) !in db.rows && !db'.rows[Child(e)].status.Revoked?
    ensures Logged(h, e).bornAt.Keys == db'.rows.Keys
  {}

  lemma RevokedByLogStep(h: History, db: Db, db': Db, claims: map<Jti, Claims>, e: Event)
    requires RevokedByLog(db, h) && Explains(h, db, db', claims, e) && (e.Kill? ==> e.since <= |h.log|)
    ensures RevokedByLog(db', Logged(h, e))
  {
    var h' := Logged(h, e);
    NewRowsExplained(h, db, db', claims, e);
    forall j <- db'.rows
      ensures db'.rows[j].status.Revoked? <==> exists i :: KillReaches(h', i, j, db'.rows[j].subject)
    {
      if j in db.rows {
        RowExplained(h, db, db', claims, e, j);
        ReachedStays(h, e, j, db.rows[j].subject);
      } else {
        forall i ensures !KillReaches(h', i, j, db'.rows[j].subject) {
          NewbornUnreached(h, e, i, db'.rows[j].subject);
        }
      }
    }
  }

  lemma CommitRevokesByLog(s: State, t: Tid)
    requires t in s.txns && Commits(s.db, s.claims, s.txns[t]) && ScanOk(s.db, s.h, s.txns[t])
    requires RevokedByLog(s.db, s.h)
    ensures RevokedByLog(Commit(s, t).db, Commit(s, t).h)
  {
    CommitExplained(s, t);
    RevokedByLogStep(s.h, s.db, Commit(s, t).db, s.claims, EventOf(t, s.txns[t]));
  }

  lemma RevokedByLogNext(s: State, a: Action)
    requires TxnsOk(s.db, s.claims, s.txns) && RowsOk(s.db, s.claims) && ScansOk(s.db, s.txns, s.h)
    requires RevokedByLog(s.db, s.h)
    ensures RevokedByLog(Next(s, a).db, Next(s, a).h)
  {
    if a.Exec? && a.tid in s.txns && (s.txns[a.tid].pc.AtCommitIssue? || s.txns[a.tid].pc.AtCommitKill?) {
      assert Next(s, a) == Commit(s, a.tid);
      CommitRevokesByLog(s, a.tid);
    } else {
      QuietActions(s, a);
    }
  }

  lemma {:induction false} RevokedByLogRun(acts: seq<Action>)
    ensures RevokedByLog(Reach(acts).db, Reach(acts).h)
  {
    if acts != [] {
      var init := acts[..|acts| - 1];
      RevokedByLogRun(init);
      ReachInv(init);
      RevokedByLogNext(Reach(init), acts[|acts| - 1]);
    }
  }

  /** The status that the log gives to the row `j` of subject `a`. */
  ghost function StatusOf(h: History, j: Jti, a: Username): Status {
    if exists i :: KillReaches(h, i, j, a) then Revoked
    else if exists i :: RotatesAt(h.log, i, j) then Rotated
    else Active
  }

  /** In every reachable state a row is revoked if and only if some kill of its subject began to revoke
      after the row was committed; otherwise it is rotated if and only if a refresh has exchanged it. */
  lemma StatusIsFromLog(acts: seq<Action>, j: Jti)
    requires j in Reach(acts).db.rows
    ensures var s := Reach(acts); s.db.rows[j].status == StatusOf(s.h, j, s.db.rows[j].subject)
  {
    RevokedByLogRun(acts);
    ReachInv(acts);
    RotationsOf(Reach(acts).db, Reach(acts).claims, Reach(acts).h, j);
  }

  /** Log entry `i` gave subject `a` a token that is not exchanged, after the last revoke statement that
      has been committed for `a` began. */
  predicate Escapes(s: State, i: int, a: Username) {
    && IssuedSince(s, 0, i, a) && Child(s.h.log[i]) !in s.h.spentAt
    && (forall k | 0 <= k < |s.h.log| && s.h.log[k].Kill? && s.h.log[k].subject == a :: s.h.log[k].since <= i)
  }

  lemma ActiveEscapes(s: State, j: Jti, a: Username)
    requires LedgerOk(s.db, s.claims, s.h) && EventsOk(s.txns, s.h) && TxnsOk(s.db, s.claims, s.txns)
    requires RevokedByLog(s.db, s.h) && ActiveRow(s.db, j, a)
    ensures j in s.h.bornAt && Escapes(s, s.h.bornAt[j], a)
  {
    ChildSubject(s, s.h.bornAt[j]);
    forall k | 0 <= k < |s.h.log| && s.h.log[k].Kill? && s.h.log[k].subject == a
      ensures s.h.log[k].since <= s.h.bornAt[j]
    {
      assert !KillReaches(s.h, k, j, a);
    }
  }

  lemma EscapesActive(s: State, i: int, a: Username)
    requires LedgerOk(s.db, s.claims, s.h) && EventsOk(s.txns, s.h) && TxnsOk(s.db, s.claims, s.txns)
    requires RevokedByLog(s.db, s.h) && Escapes(s, i, a)
    ensures ActiveRow(s.db, Child(s.h.log[i]), a)
  {
    ChildSubject(s, i);
    forall k ensures !KillReaches(s.h, k, Child(s.h.log[i]), a) {}
  }

  /** In every reachable state a subject has an active row if and only if some login or refresh of the
      subject committed after its last committed revoke statement began, and its token is not exchanged. */
  lemma ActiveIsFromLog(acts: seq<Action>, a: Username)
    ensures var s := Reach(acts); (exists j :: ActiveRow(s.db, j, a)) <==> (exists i :: Escapes(s, i, a))
  {
    var s := Reach(acts);
    RevokedByLogRun(acts);
    ReachInv(acts);
    if j :| ActiveRow(s.db, j, a) {
      ActiveEscapes(s, j, a);
    }
    if i :| Escapes(s, i, a) {
      EscapesActive(s, i, a);
    }
  }
}
