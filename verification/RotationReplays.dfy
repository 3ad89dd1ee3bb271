// What becomes of replayed tokens: when a replay kills, and when it kills again.

module RotationReplays {
  import opened RefreshTokens
  import opened RotationMachine
  import opened RotationInvariant
  import opened RotationPreserved
  import opened RotationSafety

  // ----- A token exchanged before -----

  /** `u` presents `j`, which can no longer be claimed, and has not claimed it. */
  ghost predicate Beaten(s: State, u: Tid, j: Jti) {
    && u in s.txns && s.txns[u].req.RefreshWith? && s.txns[u].req.id.jti == j
    && j in s.db.rows && !s.db.rows[j].status.Active?
    && var pc := s.txns[u].pc;
       && !pc.AtInsert? && !pc.AtCommitIssue? && !pc.AtRespond?
       && pc != Done(Succeeded) && pc != Done(Rejected(RowExpired))
  }

  lemma BeatenStep(s: State, u: Tid, j: Jti, c: Choice)
    requires Beaten(s, u, j) && TxnOk(s.db, s.claims, s.txns[u]) && CanExec(s, u, c)
    requires Advances(s.db, Execute(s, u, c).db)
    ensures Beaten(Execute(s, u, c), u, j)
  {
    ViewOfNothing(s.db);
  }

  lemma BeatenNext(s: State, u: Tid, j: Jti, a: Action)
    requires Beaten(s, u, j) && TxnOk(s.db, s.claims, s.txns[u]) && Advances(s.db, Next(s, a).db)
    ensures Beaten(Next(s, a), u, j)
  {
    if !Enabled(s, a) || a.tid != u {
      OthersStep(s, u, a);
    } else if a.Exec? {
      BeatenStep(s, u, j, a.c);
    }
  }

  lemma {:induction false} BeatenRun(s: State, u: Tid, j: Jti, acts: seq<Action>)
    requires Inv(s) && Beaten(s, u, j)
    ensures Beaten(Run(s, acts), u, j)
  {
    if acts != [] {
      BeatenRun(s, u, j, acts[..|acts| - 1]);
      RunKeepsInv(s, acts[..|acts| - 1]);
      var m := Run(s, acts[..|acts| - 1]);
      assert TxnOk(m.db, m.claims, m.txns[u]);
      NextKeepsInv(m, acts[|acts| - 1]);
      BeatenNext(m, u, j, acts[|acts| - 1]);
    }
  }

  lemma BeatenEnds(s: State, u: Tid, j: Jti)
    requires TxnsOk(s.db, s.claims, s.txns) && Beaten(s, u, j) && s.txns[u].pc.Done? && s.txns[u].pc.outcome != Aborted
    ensures var id := s.txns[u].req.id; id.subject in s.db.admins && s.db.admins[id.subject] > id.version
    ensures s.txns[u].pc.outcome in {ReuseDetected, Rejected(StaleVersion), Rejected(RowRevoked)}
  {
    assert TxnOk(s.db, s.claims, s.txns[u]);
    FailureOutcome(s.db, s.claims, s.txns[u]);
  }

  lemma SpentIsBeaten(s: State, u: Tid)
    requires TxnsOk(s.db, s.claims, s.txns) && StatusOk(s.db.rows, s.h.spentAt)
    requires u in s.txns && s.txns[u].req.RefreshWith? && s.txns[u].req.id.jti in s.h.spentAt && BeforeRow(s.txns[u].pc)
    ensures Beaten(s, u, s.txns[u].req.id.jti)
  {
    assert TxnOk(s.db, s.claims, s.txns[u]);
  }

  /** Whether a refresh has still to read the row of its token, should its claim fail. */
  predicate BeforeRow(pc: Pc) {
    pc.AtReadAdmin? || pc.AtClaim? || pc.AtClaimLock? || pc.AtReadRow?
  }

  /** A refresh of a token that was exchanged before the refresh reads the token's row leaves the subject
      at a later version, be the row expired or not: it kills, or someone else has. */
  lemma SpentTokenMovesOn(acts: seq<Action>, u: Tid, more: seq<Action>)
    requires var s := Reach(acts);
             && u in s.txns && s.txns[u].req.RefreshWith? && s.txns[u].req.id.jti in s.h.spentAt
             && var pc := s.txns[u].pc; pc.AtReadAdmin? || pc.AtClaim? || pc.AtClaimLock? || pc.AtReadRow?
    requires var x := Run(Reach(acts), more).txns;
             u in x && x[u].pc.Done? && x[u].pc.outcome != Aborted
    ensures var s' := Run(Reach(acts), more); var id := Reach(acts).txns[u].req.id;
            && id.subject in s'.db.admins && s'.db.admins[id.subject] > id.version
            && s'.txns[u].pc.outcome in {ReuseDetected, Rejected(StaleVersion), Rejected(RowRevoked)}
  {
    ReachInv(acts);
    SpentIsBeaten(Reach(acts), u);
    BeatenRun(Reach(acts), u, Reach(acts).txns[u].req.id.jti, more);
    ReadsStayInRun(Reach(acts), more, u);
    RunKeepsInv(Reach(acts), more);
    BeatenEnds(Run(Reach(acts), more), u, Reach(acts).txns[u].req.id.jti);
  }

  /** After a lost claim the row read decides: a kill begins exactly if the token has been exchanged and
      not revoked since, and a claim lost to expiry alone, before any exchange, kills nothing. */
  lemma LostClaimDecides(acts: seq<Action>, u: Tid, c: Choice)
    requires u in Reach(acts).txns && Reach(acts).txns[u].pc.AtReadRow?
    ensures var s := Reach(acts); Decided(s.db, s.h, s.txns[u], Next(s, Exec(u, c)).txns[u].pc)
  {
    var s := Reach(acts);
    ReachInv(acts);
    assert TxnOk(s.db, s.claims, s.txns[u]);
    RowDecides(s.db, s.claims, s.h, s.txns[u]);
    ReadRowIsNext(s, u, c);
  }

  lemma ReadRowIsNext(s: State, u: Tid, c: Choice)
    requires u in s.txns && s.txns[u].pc.AtReadRow? && s.txns[u].req.RefreshWith?
    ensures Next(s, Exec(u, c)).txns[u] == ReadRow(s.db, s.txns[u])
  {}

  ghost predicate Decided(db: Db, h: History, x: Txn, pc: Pc) {
    && x.req.RefreshWith? && x.req.id.jti in db.rows
    && var j, row := x.req.id.jti, db.rows[x.req.id.jti];
    && (pc == AtBump <==> j in h.spentAt && !row.status.Revoked?)
    && (pc == Done(Rejected(RowRevoked)) <==> row.status.Revoked?)
    && (pc == Done(Rejected(RowExpired)) <==> j !in h.spentAt && !row.status.Revoked?)
    && (pc == Done(Rejected(RowExpired)) ==> row.expiresAt <= x.now)
  }

  lemma RowDecides(db: Db, claims: map<Jti, Claims>, h: History, x: Txn)
    requires TxnOk(db, claims, x) && StatusOk(db.rows, h.spentAt) && x.pc.AtReadRow?
    ensures Decided(db, h, x, ReadRow(db, x).pc)
  {
    ViewOfNothing(db);
  }

  // ----- Two kills over one token -----

  /** `j` is revoked, and `u`, if it presents `j`, has not set out to kill. */
  ghost predicate Spared(s: State, u: Tid, j: Jti) {
    && j in s.db.rows && s.db.rows[j].status.Revoked?
    && (u in s.txns && s.txns[u].req.RefreshWith? && s.txns[u].req.id.jti == j ==> !Replays(s.txns[u]))
  }

  lemma SparedNext(s: State, u: Tid, j: Jti, a: Action)
    requires Spared(s, u, j) && (u in s.txns ==> TxnOk(s.db, s.claims, s.txns[u])) && Advances(s.db, Next(s, a).db)
    ensures Spared(Next(s, a), u, j)
  {
    ViewOfNothing(s.db);
  }

  lemma {:induction false} SparedRun(s: State, u: Tid, j: Jti, acts: seq<Action>)
    requires Inv(s) && Spared(s, u, j)
    ensures Spared(Run(s, acts), u, j)
  {
    if acts != [] {
      SparedRun(s, u, j, acts[..|acts| - 1]);
      RunKeepsInv(s, acts[..|acts| - 1]);
      var m := Run(s, acts[..|acts| - 1]);
      assert u in m.txns ==> TxnOk(m.db, m.claims, m.txns[u]);
      NextKeepsInv(m, acts[|acts| - 1]);
      SparedNext(m, u, j, acts[|acts| - 1]);
    }
  }

  /** `u` has read a rotated row and is bound to kill, unless it is aborted. */
  predicate Killing(x: Txn) {
    Replays(x) || (x.req.RefreshWith? && x.pc == Done(Aborted))
  }

  lemma KillingNext(s: State, u: Tid, a: Action)
    requires u in s.txns && Killing(s.txns[u])
    ensures u in Next(s, a).txns && Killing(Next(s, a).txns[u])
  {}

  lemma {:induction false} KillingRun(s: State, u: Tid, acts: seq<Action>)
    requires u in s.txns && Killing(s.txns[u])
    ensures u in Run(s, acts).txns && Killing(Run(s, acts).txns[u])
  {
    if acts != [] {
      KillingRun(s, u, acts[..|acts| - 1]);
      KillingNext(Run(s, acts[..|acts| - 1]), u, acts[|acts| - 1]);
    }
  }

  /** When a reuse kill commits, its token is revoked, and whoever else is on the way to kill for it
      still waits for the admin row. */
  lemma KillRevokesPresented(s: State, t: Tid, u: Tid)
    requires TxnsOk(s.db, s.claims, s.txns) && Exclusive(s.txns) && ScansOk(s.db, s.txns, s.h)
    requires t in s.txns && s.txns[t].req.RefreshWith? && s.txns[t].pc.AtCommitKill? && u != t
    requires u in s.txns ==> !s.txns[u].pc.Done? && !s.txns[u].pc.AtBump?
    ensures Spared(Commit(s, t), u, s.txns[t].req.id.jti)
  {
    var x := s.txns[t];
    assert TxnOk(s.db, s.claims, x) && ScanOk(s.db, s.h, x);
    if u in s.txns && s.txns[u].req.RefreshWith? && s.txns[u].req.id.jti == x.req.id.jti {
      PresentedOnce(s, t, u);
      assert TxnOk(s.db, s.claims, s.txns[u]);
      assert x.req.id.subject in x.w.admins;
    }
  }

  /** When a reuse kill commits, another refresh of the same token that is under way or yet to come will
      end in a second kill if and only if it has read the row already and waits to bump the version. */
  lemma SecondKillExactly(acts: seq<Action>, t: Tid, u: Tid, c: Choice, more: seq<Action>)
    requires var s := Reach(acts);
             && t in s.txns && s.txns[t].req.RefreshWith? && s.txns[t].pc.AtCommitKill? && u != t
             && (u in s.txns ==> !s.txns[u].pc.Done?)
    requires var s, s' := Reach(acts), Run(Next(Reach(acts), Exec(t, c)), more);
             && u in s'.txns && s'.txns[u].req.RefreshWith? && s'.txns[u].req.id.jti == s.txns[t].req.id.jti
             && s'.txns[u].pc.Done? && s'.txns[u].pc.outcome != Aborted
    ensures var s, s' := Reach(acts), Run(Next(Reach(acts), Exec(t, c)), more);
            s'.txns[u].pc == Done(ReuseDetected) <==> u in s.txns && s.txns[u].pc.AtBump?
  {
    ReachInv(acts);
    NextKeepsInv(Reach(acts), Exec(t, c));
    AfterKill(Reach(acts), t, u, c, more);
  }

  lemma AfterKill(s: State, t: Tid, u: Tid, c: Choice, more: seq<Action>)
    requires TxnsOk(s.db, s.claims, s.txns) && Exclusive(s.txns) && ScansOk(s.db, s.txns, s.h)
    requires t in s.txns && s.txns[t].req.RefreshWith? && s.txns[t].pc.AtCommitKill? && u != t
    requires u in s.txns ==> !s.txns[u].pc.Done?
    requires Inv(Next(s, Exec(t, c)))
    requires Ends(Run(Next(s, Exec(t, c)), more), u, s.txns[t].req.id.jti)
    ensures Run(Next(s, Exec(t, c)), more).txns[u].pc == Done(ReuseDetected) <==> u in s.txns && s.txns[u].pc.AtBump?
  {
    var s1 := Next(s, Exec(t, c));
    KillIsNext(s, t, u, c);
    if u in s.txns && s.txns[u].pc.AtBump? {
      BumpingEnds(s1, u, s.txns[t].req.id.jti, more);
    } else {
      KillRevokesPresented(s, t, u);
      SparedEnds(s1, u, s.txns[t].req.id.jti, more);
    }
  }

  ghost predicate Ends(s: State, u: Tid, j: Jti) {
    && u in s.txns && s.txns[u].req.RefreshWith? && s.txns[u].req.id.jti == j
    && s.txns[u].pc.Done? && s.txns[u].pc.outcome != Aborted
  }

  lemma KillIsNext(s: State, t: Tid, u: Tid, c: Choice)
    requires t in s.txns && s.txns[t].pc.AtCommitKill? && u != t
    ensures Next(s, Exec(t, c)) == Commit(s, t) && (u in s.txns ==> Commit(s, t).txns[u] == s.txns[u])
  {}

  lemma BumpingEnds(s: State, u: Tid, j: Jti, more: seq<Action>)
    requires u in s.txns && s.txns[u].pc.AtBump? && Ends(Run(s, more), u, j)
    ensures Run(s, more).txns[u].pc == Done(ReuseDetected)
  {
    ReadsStayInRun(s, more, u);
    KillingRun(s, u, more);
  }

  lemma SparedEnds(s: State, u: Tid, j: Jti, more: seq<Action>)
    requires Inv(s) && Spared(s, u, j) && Ends(Run(s, more), u, j)
    ensures Run(s, more).txns[u].pc != Done(ReuseDetected)
  {
    SparedRun(s, u, j, more);
  }
}
