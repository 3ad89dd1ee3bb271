// When a token is good for something: access tokens for admin reads, refresh tokens for a refresh.

module TokenUse {
  import opened RefreshTokens
  import opened RotationMachine
  import opened RotationInvariant
  import opened RotationPreserved
  import opened RotationSafety
  import opened RotationProgress
  import opened AuthHandlers
  import opened SerialRuns

  /** An admin read accepts exactly the access tokens handed out, unexpired, of the configured subject,
      that carry its committed version. */
  lemma AcceptedExactly(s: State, a: Username, j: Jti, clock: int)
    ensures AcceptedByAdminRead(s, a, j, clock)
            <==> && j in s.delivered && j in s.claims && clock < s.claims[j].exp
                 && s.claims[j].kind == Access && s.claims[j].subject == a
                 && a in s.db.admins && s.db.admins[a] == s.claims[j].version
  {}

  /** A refresh that runs alone succeeds if and only if its token is usable and its row unexpired. */
  lemma LoneRefreshSucceedsExactly(acts: seq<Action>, t: Tid, admin: Username, j: Jti, clock: int, now: int,
                                   newJti: Jti, expiresAt: int, access: Jti)
    returns (more: seq<Action>)
    requires var s := Reach(acts);
             && Quiet(s) && t !in s.txns && VerifyClaims(s.claims, s.delivered, admin, j, Refresh, clock).Ok?
             && newJti !in s.claims && access !in s.claims && newJti != access
    ensures var s, s' := Reach(acts), Run(Reach(acts), more);
            && j in s.db.rows && t in s'.txns && s'.txns[t].pc.Done?
            && (s'.txns[t].pc.outcome == Succeeded <==> Usable(s, j) && s.db.rows[j].expiresAt > now)
            && (s'.txns[t].pc.outcome == Succeeded ==>
                  && j in s'.db.rows && s'.db.rows[j].status == Rotated
                  && Usable(s', newJti) && s'.db.rows[newJti].expiresAt == expiresAt
                  && access in s'.claims && AcceptedByAdminRead(s', admin, access, s'.claims[access].exp - 1))
  {
    var s := Reach(acts);
    ReachInv(acts);
    VersionsFit(acts);
    more := RefreshIsRun(s, t, admin, j, clock, now, newJti, expiresAt, access);
    assert j in s.claims && s.claims[j].kind == Refresh && j in s.db.rows;
    RefreshGives(s, Run(s, more), t, Identity(admin, s.claims[j].version, j), now, newJti, expiresAt, access);
  }

  lemma RefreshGives(s: State, s': State, t: Tid, id: Identity, now: int, newJti: Jti, expiresAt: int, access: Jti)
    requires RowsOk(s.db, s.claims) && id.jti in s.db.rows && id.jti in s.claims
    requires s.claims[id.jti].subject == id.subject && s.claims[id.jti].version == id.version
    requires newJti !in s.claims && Ended(s, s', t, RefreshCall(s.db, id, now, newJti, expiresAt), access)
    ensures s'.txns[t].pc == Done(Succeeded) <==> Usable(s, id.jti) && s.db.rows[id.jti].expiresAt > now
    ensures s'.txns[t].pc == Done(Succeeded) ==>
              && id.jti in s'.db.rows && s'.db.rows[id.jti].status == Rotated
              && Usable(s', newJti) && s'.db.rows[newJti].expiresAt == expiresAt
              && access in s'.claims && AcceptedByAdminRead(s', id.subject, access, s'.claims[access].exp - 1)
  {}

  /** A login that runs alone hands out a usable refresh token and an access token that is accepted. */
  lemma LoginGivesUsablePair(s: State, t: Tid, a: Username, now: int, newJti: Jti, expiresAt: int, access: Jti)
    returns (acts: seq<Action>)
    requires Quiet(s) && t !in s.txns && newJti !in s.claims && access !in s.claims && newJti != access
    ensures var s' := Run(s, acts);
            && Usable(s', newJti) && s'.db.rows[newJti].expiresAt == expiresAt
            && access in s'.claims && AcceptedByAdminRead(s', a, access, s'.claims[access].exp - 1)
  {
    acts := LoginIsRun(s, t, a, now, newJti, expiresAt, access);
  }
}
