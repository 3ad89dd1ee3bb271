// What each statement waits for, how the claim comes out, and that nothing but an abort aborts.

module RotationProgress {
  import opened RefreshTokens
  import opened RotationMachine
  import opened RotationInvariant
  import opened RotationPreserved
  import opened RotationSafety

  // ----- Aborts -----

  /** No statement gives up: the INSERT of the admin row is there for the SELECT after it, and a lost
      claim goes on to read the row. */
  lemma ExecNeverAborts(s: State, t: Tid, c: Choice)
    requires t in s.txns && TxnOk(s.db, s.claims, s.txns[t]) && s.txns[t].pc != Done(Aborted)
    ensures Next(s, Exec(t, c)).txns[t].pc != Done(Aborted)
  {}

  lemma AbortedNow(s: State, a: Action, t: Tid)
    requires t in s.txns ==> TxnOk(s.db, s.claims, s.txns[t]) && s.txns[t].pc != Done(Aborted)
    requires t in Next(s, a).txns && Next(s, a).txns[t].pc == Done(Aborted)
    ensures a == Abort(t)
  {
    if t !in s.txns || !Enabled(s, a) || a.tid != t {
      if t in s.txns {
        OthersStep(s, t, a);
      }
    } else if a.Exec? {
      ExecNeverAborts(s, t, a.c);
    }
  }

  /** In every run, a transaction that ended aborted was aborted from outside. */
  lemma {:induction false} AbortedMeansAbort(acts: seq<Action>, t: Tid)
    requires t in Reach(acts).txns && Reach(acts).txns[t].pc == Done(Aborted)
    ensures Abort(t) in acts
  {
    if acts != [] {
      var init, a := acts[..|acts| - 1], acts[|acts| - 1];
      if t in Reach(init).txns && Reach(init).txns[t].pc == Done(Aborted) {
        AbortedMeansAbort(init, t);
      } else {
        ReachInv(init);
        assert t in Reach(init).txns ==> TxnOk(Reach(init).db, Reach(init).claims, Reach(init).txns[t]);
        AbortedNow(Reach(init), a, t);
      }
    }
  }

  /** Whether `x` has come to the end of what it does to the tables. */
  predicate Over(x: Txn) {
    x.pc.Done? || x.pc.AtRespond?
  }

  /** A replay that nobody aborts always kills: two refreshes of a token, unexpired when they began, that
      are over leave the token's version behind. */
  lemma ReplayKillsUnlessAborted(acts: seq<Action>, t: Tid, u: Tid)
    requires t != u && Abort(t) !in acts && Abort(u) !in acts
    requires var s := Reach(acts);
             && t in s.txns && u in s.txns && s.txns[t].req.RefreshWith? && s.txns[u].req.RefreshWith?
             && s.txns[t].req.id.jti == s.txns[u].req.id.jti && Over(s.txns[t]) && Over(s.txns[u])
             && (s.txns[t].req.id.jti in s.db.rows ==>
                   && s.txns[t].now < s.db.rows[s.txns[t].req.id.jti].expiresAt
                   && s.txns[u].now < s.db.rows[s.txns[t].req.id.jti].expiresAt)
    ensures var s := Reach(acts); var id := s.txns[t].req.id;
            id.subject in s.db.admins && s.db.admins[id.subject] > id.version
  {
    if Reach(acts).txns[t].pc == Done(Aborted) {
      AbortedMeansAbort(acts, t);
    }
    if Reach(acts).txns[u].pc == Done(Aborted) {
      AbortedMeansAbort(acts, u);
    }
    ReplayAlwaysKills(acts, t, u, [], 0);
  }

  /** Any transaction may be aborted until it commits; that changes no table and frees what it held. */
  lemma AbortUndoes(s: State, t: Tid)
    requires t in s.txns && !Over(s.txns[t])
    ensures var s' := Next(s, Abort(t));
            && s'.db == s.db && s'.claims == s.claims && s'.delivered == s.delivered && s'.h == s.h
            && s'.txns == s.txns[t := s'.txns[t]]
            && s'.txns[t].pc == Done(Aborted) && s'.txns[t].w.admins == map[] && s'.txns[t].w.rows == map[]
  {}

  // ----- The claim -----

  ghost predicate CanClaim(s: State, u: Tid)
    requires u in s.txns && s.txns[u].req.RefreshWith?
  {
    var x := s.txns[u];
    x.req.id.jti in s.db.rows && s.db.rows[x.req.id.jti].status == Active && s.db.rows[x.req.id.jti].expiresAt > x.now
  }

  /** The claim chooses the row if it is active and unexpired as committed. It then waits as long as some
      other transaction holds the row, looks at it again as committed by then, and either rotates it or
      goes on to read it. */
  lemma ClaimDecides(acts: seq<Action>, u: Tid, c: Choice)
    requires u in Reach(acts).txns && (Reach(acts).txns[u].pc.AtClaim? || Reach(acts).txns[u].pc.AtClaimLock?)
    ensures var s := Reach(acts); s.txns[u].req.RefreshWith? && Claimed(s, u, Next(s, Exec(u, c)))
  {
    ReachInv(acts);
    assert TxnOk(Reach(acts).db, Reach(acts).claims, Reach(acts).txns[u]);
    ClaimComesOut(Reach(acts), u, c);
  }

  ghost predicate Claimed(s: State, u: Tid, s': State)
    requires u in s.txns && s.txns[u].req.RefreshWith?
  {
    var j := s.txns[u].req.id.jti;
    && s'.db == s.db && u in s'.txns
    && if s.txns[u].pc.AtClaim? then
         s'.txns[u].w == EMPTY && s'.txns[u].pc == if CanClaim(s, u) then AtClaimLock else AtReadRow
       else if exists v <- s.txns :: v != u && j in s.txns[v].w.rows then s' == s
       else if CanClaim(s, u) then
         s'.txns[u].pc == AtInsert && s'.txns[u].w == Db(map[], map[j := s.db.rows[j].(status := Rotated)])
       else s'.txns[u].pc == AtReadRow && s'.txns[u].w == EMPTY
  }

  lemma ClaimComesOut(s: State, u: Tid, c: Choice)
    requires u in s.txns && s.txns[u].req.RefreshWith? && s.txns[u].w == EMPTY
    requires s.txns[u].pc.AtClaim? || s.txns[u].pc.AtClaimLock?
    ensures Claimed(s, u, Next(s, Exec(u, c)))
  {
    if s.txns[u].pc.AtClaimLock? {
      var j := s.txns[u].req.id.jti;
      assert RowFree(s, u, j) <==> !exists v <- s.txns :: v != u && j in s.txns[v].w.rows;
    }
  }

  // ----- Waiting -----

  ghost predicate AdminHeld(s: State, t: Tid, a: Username) {
    exists u <- s.txns :: u != t && a in s.txns[u].w.admins
  }

  ghost predicate RowHeld(s: State, t: Tid, j: Jti) {
    exists u <- s.txns :: u != t && j in s.txns[u].w.rows
  }

  /** The statements that wait for a row another transaction holds. */
  ghost predicate Waits(s: State, t: Tid)
    requires t in s.txns
  {
    var x := s.txns[t];
    match x.pc
    case AtUpsert => SubjectOf(x.req) !in s.db.admins && AdminHeld(s, t, SubjectOf(x.req))
    case AtClaimLock => x.req.RefreshWith? && RowHeld(s, t, x.req.id.jti)
    case AtBump => AdminHeld(s, t, SubjectOf(x.req))
    case AtRevokeRows(pending) => pending != {} && forall j <- pending :: RowHeld(s, t, j)
    case _ => false
  }

  /** The bump that the column's 32 bits cannot hold fails. */
  ghost predicate Overflows(s: State, t: Tid)
    requires t in s.txns
  {
    var a := SubjectOf(s.txns[t].req);
    s.txns[t].pc.AtBump? && a in s.db.admins && s.db.admins[a] == 2147483647
  }

  lemma {:induction false} FreshJti(js: set<Jti>) returns (j: Jti)
    ensures forall k <- js :: k < j
    decreases |js|
  {
    j := 0;
    if js != {} {
      var k :| k in js;
      var m := FreshJti(js - {k});
      j := if k < m then m else k + 1;
      forall i <- js ensures i < j {
        assert i == k || i in js - {k};
      }
    }
  }

  /** Versions fit the column, committed or not. */
  ghost predicate Fits(s: State) {
    && (forall a <- s.db.admins :: s.db.admins[a] <= MAX_VERSION)
    && (forall t, a | t in s.txns && a in s.txns[t].w.admins :: s.txns[t].w.admins[a] <= MAX_VERSION)
  }

  lemma FitsNext(s: State, a: Action)
    requires Fits(s)
    ensures Fits(Next(s, a))
  {}

  lemma {:induction false} VersionsFit(acts: seq<Action>)
    ensures Fits(Reach(acts))
  {
    if acts != [] {
      VersionsFit(acts[..|acts| - 1]);
      FitsNext(Reach(acts[..|acts| - 1]), acts[|acts| - 1]);
    }
  }

  /** In every reachable state a transaction that is not done can execute its next statement, with some
      choice of what the environment supplies, unless it waits for another one or the version is used up. */
  lemma WaitsExactly(acts: seq<Action>, t: Tid)
    requires t in Reach(acts).txns && !Reach(acts).txns[t].pc.Done?
    ensures var s := Reach(acts); (exists c :: CanExec(s, t, c)) <==> !Waits(s, t) && !Overflows(s, t)
  {
    var s := Reach(acts);
    ReachInv(acts);
    VersionsFit(acts);
    assert TxnOk(s.db, s.claims, s.txns[t]);
    WaitsIn(s, t);
  }

  lemma WaitsIn(s: State, t: Tid)
    requires t in s.txns && TxnOk(s.db, s.claims, s.txns[t]) && Fits(s) && !s.txns[t].pc.Done?
    ensures (exists c :: CanExec(s, t, c)) <==> !Waits(s, t) && !Overflows(s, t)
  {
    var x := s.txns[t];
    if c :| CanExec(s, t, c) {
      CanExecWaitsNot(s, t, c);
    }
    if !Waits(s, t) && !Overflows(s, t) {
      var j := FreshJti(s.claims.Keys);
      if x.pc.AtRevokeRows? && x.pc.pending != {} {
        j :| j in x.pc.pending && !RowHeld(s, t, j);
      }
      assert CanExec(s, t, Choice(j, 0, 0));
    }
  }

  lemma CanExecWaitsNot(s: State, t: Tid, c: Choice)
    requires t in s.txns && CanExec(s, t, c)
    ensures !Waits(s, t) && !Overflows(s, t)
  {}
}
