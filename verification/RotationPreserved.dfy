// Every action keeps the invariant.

module RotationPreserved {
  import opened RefreshTokens
  import opened RotationMachine
  import opened RotationInvariant

  // ----- Statements that do not commit -----

  ghost predicate ClaimsGrow(claims: map<Jti, Claims>, claims': map<Jti, Claims>) {
    forall j <- claims :: j in claims' && claims'[j] == claims[j]
  }

  lemma LedgerUnderGrowth(db: Db, claims: map<Jti, Claims>, claims': map<Jti, Claims>, delivered: set<Jti>, h: History)
    requires LedgerOk(db, claims, h) && DeliveredOk(db, claims, delivered) && ClaimsGrow(claims, claims')
    ensures LedgerOk(db, claims', h) && DeliveredOk(db, claims', delivered)
  {}

  lemma TxnUnderGrowth(db: Db, claims: map<Jti, Claims>, claims': map<Jti, Claims>, x: Txn)
    requires TxnOk(db, claims, x) && ClaimsGrow(claims, claims')
    ensures TxnOk(db, claims', x)
  {}

  ghost predicate Executes(s: State, t: Tid, c: Choice) {
    && t in s.txns && CanExec(s, t, c) && IsLocal(s.txns[t].pc)
    && TxnOk(s.db, s.claims, s.txns[t]) && RowsOk(s.db, s.claims)
  }

  lemma UpsertStep(s: State, t: Tid, c: Choice)
    requires Executes(s, t, c) && s.txns[t].pc.AtUpsert?
    ensures TxnOk(s.db, s.claims, Local(s, t, c))
  {}

  lemma ReadAdminStep(db: Db, claims: map<Jti, Claims>, x: Txn)
    requires TxnOk(db, claims, x) && x.pc.AtReadAdmin?
    ensures TxnOk(db, claims, ReadAdmin(db, x))
  {}

  lemma ClaimStep(s: State, t: Tid, c: Choice)
    requires Executes(s, t, c) && (s.txns[t].pc.AtClaim? || s.txns[t].pc.AtClaimLock?)
    ensures TxnOk(s.db, s.claims, Local(s, t, c))
  {}

  lemma ReadRowStep(s: State, t: Tid, c: Choice)
    requires Executes(s, t, c) && s.txns[t].pc.AtReadRow?
    ensures TxnOk(s.db, s.claims, Local(s, t, c))
  {}

  lemma InsertStep(s: State, t: Tid, c: Choice)
    requires Executes(s, t, c) && s.txns[t].pc.AtInsert?
    ensures TxnOk(s.db, Minted(s, t, c), Local(s, t, c))
  {
    TxnUnderGrowth(s.db, s.claims, Minted(s, t, c), s.txns[t]);
  }

  lemma KillStatement(s: State, t: Tid, c: Choice)
    requires Executes(s, t, c)
    requires s.txns[t].pc.AtBump? || s.txns[t].pc.AtRevoke? || s.txns[t].pc.AtRevokeRows?
    ensures TxnOk(s.db, s.claims, Local(s, t, c))
  {}

  lemma LocalTxn(s: State, t: Tid, c: Choice)
    requires Executes(s, t, c)
    ensures TxnOk(s.db, Minted(s, t, c), Local(s, t, c))
  {
    match s.txns[t].pc
    case AtUpsert => UpsertStep(s, t, c);
    case AtReadAdmin => ReadAdminStep(s.db, s.claims, s.txns[t]);
    case AtClaim => ClaimStep(s, t, c);
    case AtClaimLock => ClaimStep(s, t, c);
    case AtReadRow => ReadRowStep(s, t, c);
    case AtInsert => InsertStep(s, t, c);
    case _ => KillStatement(s, t, c);
  }

  /** A statement writes only row versions it already held, or that no other transaction holds. */
  lemma LocalTakesFreeRows(s: State, t: Tid, c: Choice)
    requires Executes(s, t, c) && TxnsOk(s.db, s.claims, s.txns)
    ensures forall a <- Local(s, t, c).w.admins :: a in s.txns[t].w.admins || AdminFree(s, t, a)
    ensures forall j <- Local(s, t, c).w.rows :: j in s.txns[t].w.rows || RowFree(s, t, j)
  {
    if s.txns[t].pc.AtInsert? {
      forall u <- s.txns ensures c.jti !in s.txns[u].w.rows {
        assert TxnOk(s.db, s.claims, s.txns[u]);
      }
    }
  }

  lemma LocalExclusive(s: State, t: Tid, c: Choice)
    requires Executes(s, t, c) && TxnsOk(s.db, s.claims, s.txns) && Exclusive(s.txns)
    ensures Exclusive(s.txns[t := Local(s, t, c)])
  {
    LocalTakesFreeRows(s, t, c);
  }

  lemma LocalReads(s: State, t: Tid, c: Choice)
    requires Executes(s, t, c) && ReadOk(s.db, s.txns[t]) && VersionsOk(s.db, s.h)
    ensures ReadOk(s.db, Local(s, t, c))
  {}

  lemma LocalIssues(s: State, t: Tid, c: Choice)
    requires Executes(s, t, c) && IssuersOk(s.claims, s.txns)
    ensures IssuersOk(Minted(s, t, c), s.txns[t := Local(s, t, c)])
  {
    var x, y := s.txns[t], Local(s, t, c);
    assert HasRead(x) ==> HasRead(y) && y.seen == x.seen;
    assert y.req == x.req;
  }

  lemma LocalReplays(s: State, t: Tid, c: Choice)
    requires Executes(s, t, c) && StatusOk(s.db.rows, s.h.spentAt)
    requires Replays(s.txns[t]) ==> s.txns[t].req.id.jti in s.h.spentAt
    ensures Replays(Local(s, t, c)) ==> Local(s, t, c).req.id.jti in s.h.spentAt
  {
    ViewOfNothing(s.db);
  }

  /** The revoke statement sets out to write what is visible at its start, and writes nothing else. */
  lemma LocalScan(s: State, t: Tid, c: Choice)
    requires Executes(s, t, c) && BornOk(s.h) && s.h.bornAt.Keys == s.db.rows.Keys && ScanOk(s.db, s.h, s.txns[t])
    ensures ScanOk(s.db, s.h, Local(s, t, c))
  {
    if s.txns[t].pc.AtRevoke? {
      assert s.db.rows + map[] == s.db.rows;
    }
  }

  lemma LocalReaders(s: State, t: Tid, c: Choice)
    requires Executes(s, t, c) && ReadersOk(s.db, s.claims, s.txns, s.h.spentAt)
    requires VersionsOk(s.db, s.h) && StatusOk(s.db.rows, s.h.spentAt)
    ensures ReadersOk(s.db, Minted(s, t, c), s.txns[t := Local(s, t, c)], s.h.spentAt)
  {
    LocalReads(s, t, c);
    LocalIssues(s, t, c);
    LocalReplays(s, t, c);
  }

  lemma ViewOfNothing(db: Db)
    ensures Override(db, EMPTY) == db
  {
    assert db.admins + map[] == db.admins && db.rows + map[] == db.rows;
  }

  // ----- Commits -----

  ghost predicate Commits(db: Db, claims: map<Jti, Claims>, x: Txn) {
    TxnOk(db, claims, x) && RowsOk(db, claims) && (x.pc.AtCommitIssue? || x.pc.AtCommitKill?)
  }

  lemma CommitAdvances(db: Db, claims: map<Jti, Claims>, x: Txn)
    requires Commits(db, claims, x)
    ensures Advances(db, Override(db, x.w))
  {}

  lemma CommitRows(db: Db, claims: map<Jti, Claims>, x: Txn)
    requires Commits(db, claims, x)
    ensures RowsOk(Override(db, x.w), claims)
  {
    if x.pc.AtCommitKill? {
      KillRows(db, claims, x);
    } else {
      IssueRows(db, claims, x);
    }
  }

  lemma KillRows(db: Db, claims: map<Jti, Claims>, x: Txn)
    requires TxnOk(db, claims, x) && RowsOk(db, claims) && x.pc.AtCommitKill?
    ensures RowsOk(Override(db, x.w), claims)
  {}

  lemma IssueRows(db: Db, claims: map<Jti, Claims>, x: Txn)
    requires TxnOk(db, claims, x) && RowsOk(db, claims) && x.pc.AtCommitIssue?
    ensures RowsOk(Override(db, x.w), claims)
  {}

  lemma CommitReaders(s: State, t: Tid)
    requires t in s.txns && (s.txns[t].pc.AtCommitIssue? || s.txns[t].pc.AtCommitKill?)
    requires ReadersOk(s.db, s.claims, s.txns, s.h.spentAt)
    requires Advances(s.db, Commit(s, t).db) && VersionsOk(Commit(s, t).db, Commit(s, t).h)
    ensures ReadersOk(Commit(s, t).db, s.claims, Commit(s, t).txns, Commit(s, t).h.spentAt)
  {
    assert ReadsOk(Commit(s, t).db, s.txns);
    assert s.h.spentAt.Keys <= Commit(s, t).h.spentAt.Keys;
  }

  lemma DeliveredStable(db: Db, db': Db, claims: map<Jti, Claims>, delivered: set<Jti>)
    requires DeliveredOk(db, claims, delivered) && Advances(db, db')
    ensures DeliveredOk(db', claims, delivered)
  {}

  /** The rows `y` holds were not touched between `db` and `db'`. */
  ghost predicate Untouched(db: Db, db': Db, w: Db, y: Txn) {
    && w.admins.Keys !! y.w.admins.Keys && w.rows.Keys !! y.w.rows.Keys
    && db' == Override(db, w)
  }

  /** Another transaction's commit does not invalidate what is known about `y`. */
  lemma TxnStable(db: Db, db': Db, claims: map<Jti, Claims>, w: Db, y: Txn)
    requires TxnOk(db, claims, y) && Advances(db, db') && Untouched(db, db', w, y)
    ensures TxnOk(db', claims, y)
  {
  }

  lemma KillsAppend(log: seq<Event>, e: Event, a: Username)
    ensures Kills(log + [e], a) == Kills(log, a) + (if e.Kill? && e.subject == a then 1 else 0)
  {
    assert (log + [e])[..|log|] == log;
  }

  lemma CommitVersions(db: Db, claims: map<Jti, Claims>, t: Tid, x: Txn, h: History)
    requires Commits(db, claims, x) && VersionsOk(db, h)
    ensures VersionsOk(Override(db, x.w), Logged(h, EventOf(t, x)))
  {
    forall a ensures Kills(Logged(h, EventOf(t, x)).log, a)
                     == Kills(h.log, a) + (if x.pc.AtCommitKill? && SubjectOf(x.req) == a then 1 else 0) {
      KillsAppend(h.log, EventOf(t, x), a);
    }
  }

  lemma AppendKill(h: History, e: Event)
    requires BornOk(h) && SpentOk(h) && e.Kill?
    ensures BornOk(Logged(h, e)) && SpentOk(Logged(h, e))
  {}

  lemma AppendBirth(h: History, e: Event)
    requires BornOk(h) && SpentOk(h) && e.Born? && e.jti !in h.bornAt
    ensures BornOk(Logged(h, e)) && SpentOk(Logged(h, e))
  {}

  lemma AppendRotationBorn(h: History, e: Event)
    requires BornOk(h) && e.Rotation? && e.child !in h.bornAt
    ensures BornOk(Logged(h, e))
  {}

  lemma AppendRotationSpent(h: History, e: Event)
    requires BornOk(h) && SpentOk(h) && e.Rotation?
    requires e.child !in h.bornAt && e.parent in h.bornAt && e.parent !in h.spentAt
    ensures SpentOk(Logged(h, e))
  {}

  lemma CommitLineage(db: Db, claims: map<Jti, Claims>, t: Tid, x: Txn, h: History)
    requires Commits(db, claims, x) && LineageOk(claims, h.log)
    ensures LineageOk(claims, Logged(h, EventOf(t, x)).log)
  {
    var e := EventOf(t, x);
    assert e.Born? ==> claims[e.jti].subject == e.subject;
    assert e.Rotation? ==> claims[e.child].subject == claims[e.parent].subject
                           && claims[e.child].version == claims[e.parent].version;
  }

  lemma CommitStatuses(db: Db, claims: map<Jti, Claims>, t: Tid, x: Txn, h: History)
    requires Commits(db, claims, x) && StatusOk(db.rows, h.spentAt)
    requires h.bornAt.Keys == db.rows.Keys && h.spentAt.Keys <= h.bornAt.Keys
    ensures StatusOk(Override(db, x.w).rows, Logged(h, EventOf(t, x)).spentAt)
    ensures Logged(h, EventOf(t, x)).bornAt.Keys == Override(db, x.w).rows.Keys
  {
    if x.pc.AtCommitKill? {
      KillStatuses(db, claims, t, x, h);
    } else {
      IssueStatuses(db, claims, t, x, h);
    }
  }

  lemma KillStatuses(db: Db, claims: map<Jti, Claims>, t: Tid, x: Txn, h: History)
    requires Commits(db, claims, x) && StatusOk(db.rows, h.spentAt) && x.pc.AtCommitKill?
    requires h.bornAt.Keys == db.rows.Keys && h.spentAt.Keys <= h.bornAt.Keys
    ensures StatusOk(Override(db, x.w).rows, Logged(h, EventOf(t, x)).spentAt)
    ensures Logged(h, EventOf(t, x)).bornAt.Keys == Override(db, x.w).rows.Keys
  {}

  lemma IssueStatuses(db: Db, claims: map<Jti, Claims>, t: Tid, x: Txn, h: History)
    requires Commits(db, claims, x) && StatusOk(db.rows, h.spentAt) && x.pc.AtCommitIssue?
    requires h.bornAt.Keys == db.rows.Keys && h.spentAt.Keys <= h.bornAt.Keys
    ensures StatusOk(Override(db, x.w).rows, Logged(h, EventOf(t, x)).spentAt)
    ensures Logged(h, EventOf(t, x)).bornAt.Keys == Override(db, x.w).rows.Keys
  {}

  lemma SpentWasBorn(h: History)
    requires SpentOk(h)
    ensures h.spentAt.Keys <= h.bornAt.Keys
  {
    forall j <- h.spentAt ensures j in h.bornAt {
      assert h.log[h.spentAt[j]].parent == j;
    }
  }

  lemma AppendEvent(db: Db, claims: map<Jti, Claims>, t: Tid, x: Txn, h: History)
    requires Commits(db, claims, x) && BornOk(h) && SpentOk(h)
    requires StatusOk(db.rows, h.spentAt) && h.bornAt.Keys == db.rows.Keys
    ensures BornOk(Logged(h, EventOf(t, x))) && SpentOk(Logged(h, EventOf(t, x)))
  {
    var e := EventOf(t, x);
    match e
    case Kill(_, _, _) => AppendKill(h, e);
    case Born(_, _, _) => AppendBirth(h, e);
    case Rotation(_, _, _) => AppendRotationBorn(h, e); AppendRotationSpent(h, e);
  }

  lemma CommitHistory(db: Db, claims: map<Jti, Claims>, t: Tid, x: Txn, h: History)
    requires Commits(db, claims, x) && HistoryOk(db, claims, h)
    ensures HistoryOk(Override(db, x.w), claims, Logged(h, EventOf(t, x)))
  {
    SpentWasBorn(h);
    CommitLineage(db, claims, t, x, h);
    CommitStatuses(db, claims, t, x, h);
    AppendEvent(db, claims, t, x, h);
  }

  lemma CommitLedger(db: Db, claims: map<Jti, Claims>, t: Tid, x: Txn, h: History)
    requires Commits(db, claims, x) && LedgerOk(db, claims, h)
    ensures LedgerOk(Override(db, x.w), claims, Logged(h, EventOf(t, x)))
  {
    CommitRows(db, claims, x);
    CommitVersions(db, claims, t, x, h);
    CommitHistory(db, claims, t, x, h);
  }

  lemma CommitEvents(s: State, t: Tid)
    requires t in s.txns && Commits(s.db, s.claims, s.txns[t]) && EventsOk(s.txns, s.h)
    ensures EventsOk(Commit(s, t).txns, Commit(s, t).h)
  {
    var s' := Commit(s, t);
    assert s'.h.log == s.h.log + [EventOf(t, s.txns[t])];
    assert EventFits(t, s'.txns[t], EventOf(t, s.txns[t]));
  }

  lemma CommitOwnTxn(db: Db, claims: map<Jti, Claims>, s: State, t: Tid)
    requires t in s.txns && s.db == db && s.claims == claims && Commits(db, claims, s.txns[t])
    ensures TxnOk(Commit(s, t).db, claims, Commit(s, t).txns[t])
  {
    CommitAdvances(db, claims, s.txns[t]);
  }

  lemma CommitOtherTxns(s: State, t: Tid)
    requires t in s.txns && Commits(s.db, s.claims, s.txns[t]) && TxnsOk(s.db, s.claims, s.txns) && Exclusive(s.txns)
    ensures TxnsOk(Commit(s, t).db, s.claims, Commit(s, t).txns)
  {
    var s', x := Commit(s, t), s.txns[t];
    CommitAdvances(s.db, s.claims, x);
    CommitOwnTxn(s.db, s.claims, s, t);
    forall u <- s.txns | u != t ensures TxnOk(s'.db, s.claims, s.txns[u]) {
      TxnStable(s.db, s'.db, s.claims, x.w, s.txns[u]);
    }
  }

  lemma CommitScan(db: Db, claims: map<Jti, Claims>, h: History, t: Tid, x: Txn, y: Txn, v: set<Jti>)
    requires Commits(db, claims, x) && Scanned(db, h, y, v) && h.bornAt.Keys == db.rows.Keys
    requires v <= db.rows.Keys && (x.pc.AtCommitKill? ==> SubjectOf(x.req) != SubjectOf(y.req))
    ensures Scanned(Override(db, x.w), Logged(h, EventOf(t, x)), y, v)
  {
    var db', h' := Override(db, x.w), Logged(h, EventOf(t, x));
    forall j <- db'.rows | db'.rows[j].subject == SubjectOf(y.req)
      ensures j in h'.bornAt && (j in v <==> h'.bornAt[j] < y.since) && (j !in v ==> !db'.rows[j].status.Revoked?)
    {
      if j in db.rows {
        CommitScansOld(db, claims, h, t, x, j);
      } else {
        CommitScansNew(db, claims, h, t, x, j);
      }
    }
  }

  lemma CommitScansOld(db: Db, claims: map<Jti, Claims>, h: History, t: Tid, x: Txn, j: Jti)
    requires Commits(db, claims, x) && h.bornAt.Keys == db.rows.Keys && j in db.rows
    ensures var row, h' := Override(db, x.w).rows[j], Logged(h, EventOf(t, x));
            && row.subject == db.rows[j].subject && j in h'.bornAt && h'.bornAt[j] == h.bornAt[j]
            && (row.status.Revoked? ==>
                  db.rows[j].status.Revoked? || (x.pc.AtCommitKill? && row.subject == SubjectOf(x.req)))
  {}

  lemma CommitScansNew(db: Db, claims: map<Jti, Claims>, h: History, t: Tid, x: Txn, j: Jti)
    requires Commits(db, claims, x) && h.bornAt.Keys == db.rows.Keys && j !in db.rows && j in Override(db, x.w).rows
    ensures var h' := Logged(h, EventOf(t, x)); j in h'.bornAt && h'.bornAt[j] == |h.log|
    ensures !Override(db, x.w).rows[j].status.Revoked?
  {}

  lemma ScanStable(db: Db, claims: map<Jti, Claims>, h: History, t: Tid, x: Txn, y: Txn)
    requires Commits(db, claims, x) && TxnOk(db, claims, y) && ScanOk(db, h, y) && h.bornAt.Keys == db.rows.Keys
    requires x.w.admins.Keys !! y.w.admins.Keys
    ensures ScanOk(Override(db, x.w), Logged(h, EventOf(t, x)), y)
  {
    if x.pc.AtCommitKill? && (y.pc.AtRevokeRows? || y.pc.AtCommitKill?) {
      assert SubjectOf(x.req) in x.w.admins && SubjectOf(y.req) in y.w.admins;
    }
    match y.pc
    case AtRevokeRows(pending) => CommitScan(db, claims, h, t, x, y, pending + y.w.rows.Keys);
    case AtCommitKill => CommitScan(db, claims, h, t, x, y, y.w.rows.Keys);
    case _ =>
  }

  /** A commit adds rows too late for a revoke statement under way, and cannot revoke what that
      statement has not seen: the admin row is locked. */
  lemma CommitScans(s: State, t: Tid)
    requires t in s.txns && Commits(s.db, s.claims, s.txns[t]) && TxnsOk(s.db, s.claims, s.txns) && Exclusive(s.txns)
    requires s.h.bornAt.Keys == s.db.rows.Keys && ScansOk(s.db, s.txns, s.h)
    ensures ScansOk(Commit(s, t).db, Commit(s, t).txns, Commit(s, t).h)
  {
    var s' := Commit(s, t);
    forall u <- s'.txns ensures ScanOk(s'.db, s'.h, s'.txns[u]) {
      if u != t {
        ScanStable(s.db, s.claims, s.h, t, s.txns[t], s.txns[u]);
      }
    }
  }

  lemma CommitKeepsInv(s: State, t: Tid)
    requires Inv(s) && t in s.txns && (s.txns[t].pc.AtCommitIssue? || s.txns[t].pc.AtCommitKill?)
    ensures Inv(Commit(s, t)) && Advances(s.db, Commit(s, t).db)
  {
    var x := s.txns[t];
    assert Commits(s.db, s.claims, x);
    CommitAdvances(s.db, s.claims, x);
    CommitLedger(s.db, s.claims, t, x, s.h);
    CommitReaders(s, t);
    DeliveredStable(s.db, Commit(s, t).db, s.claims, s.delivered);
    CommitEvents(s, t);
    CommitScans(s, t);
    CommitOtherTxns(s, t);
    ExclusiveReplace(s.txns, t, Commit(s, t).txns[t]);
  }

  // ----- The remaining actions -----

  lemma ExclusiveReplace(txns: map<Tid, Txn>, t: Tid, y: Txn)
    requires Exclusive(txns) && y.w == EMPTY
    ensures Exclusive(txns[t := y])
  {}

  lemma TxnsReplace(db: Db, claims: map<Jti, Claims>, claims': map<Jti, Claims>, txns: map<Tid, Txn>, t: Tid, y: Txn)
    requires TxnsOk(db, claims, txns) && ClaimsGrow(claims, claims') && TxnOk(db, claims', y)
    ensures TxnsOk(db, claims', txns[t := y])
  {
    forall u <- txns | u != t ensures TxnOk(db, claims', txns[u]) {
      TxnUnderGrowth(db, claims, claims', txns[u]);
    }
  }

  lemma EventsReplace(txns: map<Tid, Txn>, h: History, t: Tid, y: Txn)
    requires EventsOk(txns, h)
    requires if t in txns then y.event == txns[t].event else y.event == -1
    requires 0 <= y.event <==> Committed(y)
    requires 0 <= y.event < |h.log| ==> EventFits(t, y, h.log[y.event])
    ensures EventsOk(txns[t := y], h)
  {}

  lemma ScansReplace(db: Db, txns: map<Tid, Txn>, h: History, t: Tid, y: Txn)
    requires ScansOk(db, txns, h) && ScanOk(db, h, y)
    ensures ScansOk(db, txns[t := y], h)
  {}

  lemma ReadersReplace(db: Db, claims: map<Jti, Claims>, txns: map<Tid, Txn>, spentAt: map<Jti, nat>, t: Tid, y: Txn)
    requires ReadersOk(db, claims, txns, spentAt) && ReadOk(db, y) && !Replays(y)
    requires t in txns ==> y.req == txns[t].req && y.seen == txns[t].seen && (HasRead(txns[t]) ==> HasRead(y))
    ensures ReadersOk(db, claims, txns[t := y], spentAt)
  {}

  lemma LocalTransactions(s: State, t: Tid, c: Choice)
    requires Executes(s, t, c) && TxnsOk(s.db, s.claims, s.txns) && Exclusive(s.txns) && EventsOk(s.txns, s.h)
    requires ScansOk(s.db, s.txns, s.h) && BornOk(s.h) && s.h.bornAt.Keys == s.db.rows.Keys
    ensures ClaimsGrow(s.claims, Minted(s, t, c))
    ensures var txns' := s.txns[t := Local(s, t, c)];
            && TxnsOk(s.db, Minted(s, t, c), txns') && Exclusive(txns')
            && EventsOk(txns', s.h) && ScansOk(s.db, txns', s.h)
  {
    LocalScan(s, t, c);
    ScansReplace(s.db, s.txns, s.h, t, Local(s, t, c));
    LocalTxn(s, t, c);
    LocalExclusive(s, t, c);
    TxnsReplace(s.db, s.claims, Minted(s, t, c), s.txns, t, Local(s, t, c));
    LocalIsUncommitted(s, t, c);
    EventsReplace(s.txns, s.h, t, Local(s, t, c));
  }

  lemma LocalKeepsInv(s: State, t: Tid, c: Choice)
    requires Inv(s) && t in s.txns && CanExec(s, t, c) && IsLocal(s.txns[t].pc)
    ensures Inv(Execute(s, t, c))
  {
    assert TxnOk(s.db, s.claims, s.txns[t]);
    LocalReaders(s, t, c);
    LocalTransactions(s, t, c);
    LedgerUnderGrowth(s.db, s.claims, Minted(s, t, c), s.delivered, s.h);
  }

  lemma LocalIsUncommitted(s: State, t: Tid, c: Choice)
    requires t in s.txns && CanExec(s, t, c) && IsLocal(s.txns[t].pc)
    ensures !Committed(Local(s, t, c)) && Local(s, t, c).event == s.txns[t].event
  {}

  lemma RespondDelivers(s: State, t: Tid, c: Choice)
    requires t in s.txns && s.txns[t].pc.AtRespond? && TxnOk(s.db, s.claims, s.txns[t]) && c.jti !in s.claims
    requires DeliveredOk(s.db, s.claims, s.delivered)
    ensures DeliveredOk(s.db, Respond(s, t, c).claims, Respond(s, t, c).delivered)
  {}

  lemma RespondTxns(s: State, t: Tid, c: Choice)
    requires t in s.txns && s.txns[t].pc.AtRespond? && c.jti !in s.claims
    requires TxnsOk(s.db, s.claims, s.txns)
    ensures TxnsOk(s.db, Respond(s, t, c).claims, Respond(s, t, c).txns)
  {
    var s', x := Respond(s, t, c), s.txns[t];
    assert TxnOk(s.db, s.claims, x);
    TxnUnderGrowth(s.db, s.claims, s'.claims, x);
    TxnsReplace(s.db, s.claims, s'.claims, s.txns, t, s'.txns[t]);
  }

  lemma RespondExclusive(s: State, t: Tid, c: Choice)
    requires t in s.txns && s.txns[t].pc.AtRespond? && TxnOk(s.db, s.claims, s.txns[t]) && Exclusive(s.txns)
    ensures Exclusive(Respond(s, t, c).txns)
  {}

  lemma RespondEvents(s: State, t: Tid, c: Choice)
    requires t in s.txns && s.txns[t].pc.AtRespond? && EventsOk(s.txns, s.h)
    ensures EventsOk(Respond(s, t, c).txns, s.h)
  {
    var x := s.txns[t];
    assert EventFits(t, x, s.h.log[x.event]);
    EventsReplace(s.txns, s.h, t, x.(pc := Done(Succeeded)));
  }

  lemma RespondReaders(s: State, t: Tid, c: Choice)
    requires t in s.txns && s.txns[t].pc.AtRespond? && c.jti !in s.claims
    requires ReadersOk(s.db, s.claims, s.txns, s.h.spentAt)
    ensures ReadersOk(s.db, Respond(s, t, c).claims, Respond(s, t, c).txns, s.h.spentAt)
  {
    ReadersReplace(s.db, s.claims, s.txns, s.h.spentAt, t, Respond(s, t, c).txns[t]);
  }

  lemma RespondTransactions(s: State, t: Tid, c: Choice)
    requires t in s.txns && s.txns[t].pc.AtRespond? && c.jti !in s.claims
    requires TxnsOk(s.db, s.claims, s.txns) && Exclusive(s.txns) && EventsOk(s.txns, s.h) && ScansOk(s.db, s.txns, s.h)
    ensures TxnsOk(s.db, Respond(s, t, c).claims, Respond(s, t, c).txns)
    ensures Exclusive(Respond(s, t, c).txns) && EventsOk(Respond(s, t, c).txns, s.h)
    ensures ScansOk(s.db, Respond(s, t, c).txns, s.h)
  {
    ScansReplace(s.db, s.txns, s.h, t, Respond(s, t, c).txns[t]);
    assert TxnOk(s.db, s.claims, s.txns[t]);
    RespondTxns(s, t, c);
    RespondExclusive(s, t, c);
    RespondEvents(s, t, c);
  }

  lemma RespondTables(s: State, t: Tid, c: Choice)
    requires t in s.txns && s.txns[t].pc.AtRespond? && c.jti !in s.claims && TxnOk(s.db, s.claims, s.txns[t])
    requires LedgerOk(s.db, s.claims, s.h) && DeliveredOk(s.db, s.claims, s.delivered)
    ensures LedgerOk(s.db, Respond(s, t, c).claims, s.h)
    ensures DeliveredOk(s.db, Respond(s, t, c).claims, Respond(s, t, c).delivered)
  {
    LedgerUnderGrowth(s.db, s.claims, Respond(s, t, c).claims, s.delivered, s.h);
    RespondDelivers(s, t, c);
  }

  lemma RespondKeepsInv(s: State, t: Tid, c: Choice)
    requires Inv(s) && t in s.txns && s.txns[t].pc.AtRespond? && c.jti !in s.claims
    ensures Inv(Respond(s, t, c))
  {
    assert TxnOk(s.db, s.claims, s.txns[t]);
    RespondTables(s, t, c);
    RespondReaders(s, t, c);
    RespondTransactions(s, t, c);
  }

  /** A transaction that holds nothing takes the place of one, or arrives. */
  lemma ReplaceTxn(s: State, t: Tid, y: Txn)
    requires TxnsOk(s.db, s.claims, s.txns) && Exclusive(s.txns) && EventsOk(s.txns, s.h) && ScansOk(s.db, s.txns, s.h)
    requires ScanOk(s.db, s.h, y) && y.w == EMPTY && TxnOk(s.db, s.claims, y) && !Committed(y) && y.event == -1
    requires t in s.txns ==> !Committed(s.txns[t])
    ensures TxnsOk(s.db, s.claims, s.txns[t := y]) && Exclusive(s.txns[t := y]) && EventsOk(s.txns[t := y], s.h)
    ensures ScansOk(s.db, s.txns[t := y], s.h)
  {
    ScansReplace(s.db, s.txns, s.h, t, y);
    TxnsReplace(s.db, s.claims, s.claims, s.txns, t, y);
    EventsReplace(s.txns, s.h, t, y);
    ExclusiveReplace(s.txns, t, y);
  }

  lemma AbortedTxn(db: Db, claims: map<Jti, Claims>, x: Txn)
    requires TxnOk(db, claims, x)
    ensures TxnOk(db, claims, x.(pc := Done(Aborted), w := EMPTY))
  {}

  lemma AbortKeepsInv(s: State, t: Tid)
    requires Inv(s) && Enabled(s, Abort(t))
    ensures Inv(Next(s, Abort(t)))
  {
    var y := s.txns[t].(pc := Done(Aborted), w := EMPTY);
    assert TxnOk(s.db, s.claims, s.txns[t]);
    AbortedTxn(s.db, s.claims, s.txns[t]);
    ReplaceTxn(s, t, y);
    ReadersReplace(s.db, s.claims, s.txns, s.h.spentAt, t, y);
  }

  lemma BegunOk(db: Db, claims: map<Jti, Claims>, req: Request, now: int)
    requires !req.Login? ==> PresentedOk(db, claims, Begun(req, now))
    ensures TxnOk(db, claims, Begun(req, now)) && !Committed(Begun(req, now))
  {}

  lemma StartKeepsInv(s: State, t: Tid, req: Request, now: int)
    requires Inv(s) && t !in s.txns
    requires !req.Login? ==> PresentedOk(s.db, s.claims, Begun(req, now))
    ensures Inv(s.(txns := s.txns[t := Begun(req, now)]))
  {
    var y := Begun(req, now);
    BegunOk(s.db, s.claims, req, now);
    ReplaceTxn(s, t, y);
    StartReaders(s, t, req, now);
  }

  lemma StartReaders(s: State, t: Tid, req: Request, now: int)
    requires ReadersOk(s.db, s.claims, s.txns, s.h.spentAt) && VersionsOk(s.db, s.h) && t !in s.txns
    ensures ReadersOk(s.db, s.claims, s.txns[t := Begun(req, now)], s.h.spentAt)
  {
    ReadersReplace(s.db, s.claims, s.txns, s.h.spentAt, t, Begun(req, now));
  }

  lemma ExecKeepsInv(s: State, t: Tid, c: Choice)
    requires Inv(s) && t in s.txns && CanExec(s, t, c)
    ensures Inv(Execute(s, t, c)) && Advances(s.db, Execute(s, t, c).db)
  {
    if s.txns[t].pc.AtRespond? {
      RespondKeepsInv(s, t, c);
    } else if IsLocal(s.txns[t].pc) {
      LocalKeepsInv(s, t, c);
    } else {
      CommitKeepsInv(s, t);
    }
  }

  lemma StartPresents(s: State, admin: Username, j: Jti, kind: Kind, clock: int, now: int)
    requires LedgerOk(s.db, s.claims, s.h) && DeliveredOk(s.db, s.claims, s.delivered)
    requires ReadersOk(s.db, s.claims, s.txns, s.h.spentAt)
    requires VerifyClaims(s.claims, s.delivered, admin, j, kind, clock).Ok?
    ensures var id := VerifyClaims(s.claims, s.delivered, admin, j, kind, clock).value;
            && PresentedOk(s.db, s.claims, Begun(LogoutBy(id), now))
            && (kind == Refresh ==> PresentedOk(s.db, s.claims, Begun(RefreshWith(id), now)))
  {
    assert ReadOk(s.db, s.txns[s.claims[j].issuer]);
  }

  lemma NextKeepsInv(s: State, a: Action)
    requires Inv(s)
    ensures Inv(Next(s, a)) && Advances(s.db, Next(s, a).db)
  {
    if Enabled(s, a) {
      match a
      case StartLogin(t, admin, now) => StartKeepsInv(s, t, Login(admin), now);
      case StartRefresh(t, admin, j, clock, now) =>
        StartPresents(s, admin, j, Refresh, clock, now);
        StartKeepsInv(s, t, RefreshWith(VerifyClaims(s.claims, s.delivered, admin, j, Refresh, clock).value), now);
      case StartLogout(t, admin, j, clock, now) =>
        StartPresents(s, admin, j, Access, clock, now);
        StartKeepsInv(s, t, LogoutBy(VerifyClaims(s.claims, s.delivered, admin, j, Access, clock).value), now);
      case Exec(t, c) => ExecKeepsInv(s, t, c);
      case Abort(t) => AbortKeepsInv(s, t);
    }
  }

  lemma {:induction false} RunKeepsInv(s: State, acts: seq<Action>)
    requires Inv(s)
    ensures Inv(Run(s, acts)) && Advances(s.db, Run(s, acts).db)
  {
    if acts != [] {
      RunKeepsInv(s, acts[..|acts| - 1]);
      NextKeepsInv(Run(s, acts[..|acts| - 1]), acts[|acts| - 1]);
    }
  }

  lemma InitInv()
    ensures Inv(INIT)
  {}
}
