// The interleaved machine: one action is one SQL statement (or the part of an UPDATE that runs
// between two lock waits), a commit, a rollback, or the arrival of a request.
// Isolation is READ COMMITTED: each statement sees the rows committed when it starts plus the
// transaction's own writes.

module RotationMachine {
  import opened RefreshTokens

  type Tid = nat

  datatype Request =
    | Login(subject: Username)
    | RefreshWith(id: Identity)
    | LogoutBy(id: Identity)

  /** Why a refresh or logout was answered 401 without writing. The response is the same. */
  datatype Cause = StaleVersion | RowUnknown | RowRevoked | RowExpired

  datatype Outcome = Succeeded | ReuseDetected | Rejected(cause: Cause) | Aborted

  /** The statement a transaction is about to execute. */
  datatype Pc =
    | AtUpsert                           // INSERT INTO admins .. ON CONFLICT DO NOTHING
    | AtReadAdmin                        // SELECT from admins
    | AtClaim                            // UPDATE .. SET status = 'rotated': choose the visible row
    | AtClaimLock                        // the same UPDATE: wait for the row, check it again, write
    | AtReadRow                          // SELECT from refresh_tokens after a lost claim
    | AtInsert                           // INSERT the new refresh token
    | AtBump                             // UPDATE admins SET token_version = token_version + 1
    | AtRevoke                           // UPDATE .. SET status = 'revoked': choose the visible rows
    | AtRevokeRows(pending: set<Jti>)    // the same UPDATE: wait for and write one row after another
    | AtCommitIssue(child: Jti)
    | AtCommitKill
    | AtRespond(child: Jti)              // committed; the answer with the token pair is not sent yet
    | Done(outcome: Outcome)

  /** `w` holds the uncommitted row versions; a transaction holds the lock of exactly those rows.
      History only: `event` is the index of the log entry it committed, or -1, and `since` the length of
      the log when its revoke statement began. */
  datatype Txn = Txn(req: Request, pc: Pc, now: int, seen: int, w: Db, event: int, since: nat)

  /** What each committed transaction did. */
  datatype Event =
    | Born(tid: Tid, jti: Jti, subject: Username)
    | Rotation(tid: Tid, parent: Jti, child: Jti)
    | Kill(tid: Tid, subject: Username, since: nat)

  /** History only: `bornAt` and `spentAt` index the log entry that created, or rotated, a jti. */
  datatype History = History(log: seq<Event>, bornAt: map<Jti, nat>, spentAt: map<Jti, nat>)

  datatype State = State(db: Db, txns: map<Tid, Txn>, claims: map<Jti, Claims>, delivered: set<Jti>, h: History)

  const INIT: State := State(EMPTY, map[], map[], {}, History([], map[], map[]))

  /** Values the environment supplies: a fresh jti (or the next row to lock) and expiry times. */
  datatype Choice = Choice(jti: Jti, expiresAt: int, exp: int)

  datatype Action =
    | StartLogin(tid: Tid, adminUsername: Username, now: int)
    | StartRefresh(tid: Tid, adminUsername: Username, jti: Jti, clock: int, now: int)
    | StartLogout(tid: Tid, adminUsername: Username, jti: Jti, clock: int, now: int)
    | Exec(tid: Tid, c: Choice)
    | Abort(tid: Tid)

  function SubjectOf(req: Request): Username {
    match req
    case Login(subject) => subject
    case RefreshWith(id) => id.subject
    case LogoutBy(id) => id.subject
  }

  predicate AdminFree(s: State, t: Tid, a: Username) {
    forall u <- s.txns :: u != t ==> a !in s.txns[u].w.admins
  }

  predicate RowFree(s: State, t: Tid, j: Jti) {
    forall u <- s.txns :: u != t ==> j !in s.txns[u].w.rows
  }

  predicate Finished(x: Txn) {
    x.pc.Done? || x.pc.AtRespond?
  }

  /** Whether transaction `t` can execute its next statement now, that is, need not wait. */
  predicate CanExec(s: State, t: Tid, c: Choice)
    requires t in s.txns
  {
    var x := s.txns[t];
    var subject := SubjectOf(x.req);
    match x.pc
    case AtUpsert => subject in s.db.admins || AdminFree(s, t, subject)
    case AtClaimLock => x.req.RefreshWith? && RowFree(s, t, x.req.id.jti)
    case AtClaim => x.req.RefreshWith?
    case AtReadRow => x.req.RefreshWith?
    case AtInsert => !x.req.LogoutBy? && c.jti !in s.claims
    case AtBump => AdminFree(s, t, subject) && subject in s.db.admins && s.db.admins[subject] < MAX_VERSION
    case AtRevokeRows(pending) => pending == {} || (c.jti in pending && c.jti in s.db.rows && RowFree(s, t, c.jti))
    case AtRespond(child) => !x.req.LogoutBy? && c.jti !in s.claims
    case Done(_) => false
    case _ => true
  }

  predicate Enabled(s: State, a: Action) {
    match a
    case StartLogin(t, _, _) => t !in s.txns
    case StartRefresh(t, admin, j, clock, _) =>
      t !in s.txns && VerifyClaims(s.claims, s.delivered, admin, j, Refresh, clock).Ok?
    case StartLogout(t, admin, j, clock, _) =>
      t !in s.txns && VerifyClaims(s.claims, s.delivered, admin, j, Access, clock).Ok?
    case Exec(t, c) => t in s.txns && CanExec(s, t, c)
    case Abort(t) => t in s.txns && !Finished(s.txns[t])
  }

  /** The SELECT of the admin row and the version check of each handler. */
  function ReadAdmin(db: Db, x: Txn): Txn {
    var view := Override(db, x.w).admins;
    var subject := SubjectOf(x.req);
    if subject !in view then x.(pc := Done(if x.req.Login? then Aborted else Rejected(StaleVersion)), w := EMPTY)
    else match x.req
      case Login(_) => x.(pc := AtInsert, seen := view[subject])
      case RefreshWith(id) =>
        if view[subject] != id.version then x.(pc := Done(Rejected(StaleVersion)), w := EMPTY)
        else x.(pc := AtClaim, seen := id.version)
      case LogoutBy(id) =>
        if view[subject] != id.version then x.(pc := Done(Rejected(StaleVersion)), w := EMPTY)
        else x.(pc := AtBump, seen := id.version)
  }

  /** The claim, once no other transaction holds the row: check the WHERE clause on the latest version. */
  function ClaimLocked(db: Db, x: Txn): Txn
    requires x.req.RefreshWith?
  {
    var j := x.req.id.jti;
    if j in db.rows && Claimable(db.rows[j], x.now)
    then x.(pc := AtInsert, w := x.w.(rows := x.w.rows[j := db.rows[j].(status := Rotated)]))
    else x.(pc := AtReadRow)
  }

  /** The branch after a lost claim. */
  function ReadRow(db: Db, x: Txn): Txn
    requires x.req.RefreshWith?
  {
    var j := x.req.id.jti;
    var view := Override(db, x.w).rows;
    if j !in view then x.(pc := Done(Rejected(RowUnknown)), w := EMPTY)
    else match view[j].status
      case Rotated => x.(pc := AtBump)
      case Revoked => x.(pc := Done(Rejected(RowRevoked)), w := EMPTY)
      case Active => x.(pc := Done(Rejected(RowExpired)), w := EMPTY)
  }

  function VisibleRowsOf(db: Db, w: Db, subject: Username): set<Jti> {
    var view := Override(db, w).rows;
    set j <- view | view[j].subject == subject
  }

  predicate IsLocal(pc: Pc) {
    !pc.AtCommitIssue? && !pc.AtCommitKill? && !pc.AtRespond? && !pc.Done?
  }

  /** The effect of a statement on the transaction that executes it. */
  function Local(s: State, t: Tid, c: Choice): Txn
    requires t in s.txns && CanExec(s, t, c) && IsLocal(s.txns[t].pc)
  {
    var x := s.txns[t];
    var subject := SubjectOf(x.req);
    match x.pc
    case AtUpsert =>
      if subject in s.db.admins then x.(pc := AtReadAdmin)
      else x.(pc := AtReadAdmin, w := x.w.(admins := x.w.admins[subject := 1]))
    case AtReadAdmin => ReadAdmin(s.db, x)
    case AtClaim =>
      if x.req.id.jti in s.db.rows && Claimable(s.db.rows[x.req.id.jti], x.now)
      then x.(pc := AtClaimLock) else x.(pc := AtReadRow)
    case AtClaimLock => ClaimLocked(s.db, x)
    case AtReadRow => ReadRow(s.db, x)
    case AtInsert =>
      x.(pc := AtCommitIssue(c.jti), w := x.w.(rows := x.w.rows[c.jti := Row(subject, Active, c.expiresAt)]))
    case AtBump => x.(pc := AtRevoke, w := x.w.(admins := x.w.admins[subject := s.db.admins[subject] + 1]))
    case AtRevoke => x.(pc := AtRevokeRows(VisibleRowsOf(s.db, x.w, subject)), since := |s.h.log|)
    case AtRevokeRows(pending) =>
      if pending == {} then x.(pc := AtCommitKill)
      else x.(pc := AtRevokeRows(pending - {c.jti}),
              w := x.w.(rows := x.w.rows[c.jti := s.db.rows[c.jti].(status := Revoked)]))
  }

  /** Only the INSERT of a refresh token mints one inside a transaction. */
  function Minted(s: State, t: Tid, c: Choice): map<Jti, Claims>
    requires t in s.txns
  {
    var x := s.txns[t];
    if x.pc.AtInsert? then s.claims[c.jti := Claims(Refresh, SubjectOf(x.req), x.seen, c.exp, t)] else s.claims
  }

  function Logged(h: History, e: Event): History {
    match e
    case Born(_, j, _) => History(h.log + [e], h.bornAt[j := |h.log|], h.spentAt)
    case Rotation(_, p, j) => History(h.log + [e], h.bornAt[j := |h.log|], h.spentAt[p := |h.log|])
    case Kill(_, _, _) => History(h.log + [e], h.bornAt, h.spentAt)
  }

  function EventOf(t: Tid, x: Txn): Event
    requires x.pc.AtCommitIssue? || x.pc.AtCommitKill?
  {
    if x.pc.AtCommitKill? then Kill(t, SubjectOf(x.req), x.since)
    else if x.req.RefreshWith? then Rotation(t, x.req.id.jti, x.pc.child)
    else Born(t, x.pc.child, SubjectOf(x.req))
  }

  function Commit(s: State, t: Tid): State
    requires t in s.txns && (s.txns[t].pc.AtCommitIssue? || s.txns[t].pc.AtCommitKill?)
  {
    var x := s.txns[t];
    var after := if x.pc.AtCommitIssue? then AtRespond(x.pc.child)
                 else Done(if x.req.RefreshWith? then ReuseDetected else Succeeded);
    s.(db := Override(s.db, x.w),
       txns := s.txns[t := x.(pc := after, w := EMPTY, event := |s.h.log|)],
       h := Logged(s.h, EventOf(t, x)))
  }

  /** The answer carries the refresh token recorded and an access token of the version read. */
  function Respond(s: State, t: Tid, c: Choice): State
    requires t in s.txns && s.txns[t].pc.AtRespond?
  {
    var x := s.txns[t];
    s.(txns := s.txns[t := x.(pc := Done(Succeeded))],
       claims := s.claims[c.jti := Claims(Access, SubjectOf(x.req), x.seen, c.exp, t)],
       delivered := s.delivered + {x.pc.child, c.jti})
  }

  function Execute(s: State, t: Tid, c: Choice): State
    requires t in s.txns && CanExec(s, t, c)
  {
    if s.txns[t].pc.AtRespond? then Respond(s, t, c)
    else if IsLocal(s.txns[t].pc) then s.(txns := s.txns[t := Local(s, t, c)], claims := Minted(s, t, c))
    else Commit(s, t)
  }

  function Begun(req: Request, now: int): Txn {
    Txn(req, if req.Login? then AtUpsert else AtReadAdmin, now, 0, EMPTY, -1, 0)
  }

  /** One action; an action that is not enabled (a statement that has to wait) changes nothing. */
  function Next(s: State, a: Action): State {
    if !Enabled(s, a) then s else
    match a
    case StartLogin(t, admin, now) => s.(txns := s.txns[t := Begun(Login(admin), now)])
    case StartRefresh(t, admin, j, clock, now) =>
      var id := VerifyClaims(s.claims, s.delivered, admin, j, Refresh, clock).value;
      s.(txns := s.txns[t := Begun(RefreshWith(id), now)])
    case StartLogout(t, admin, j, clock, now) =>
      var id := VerifyClaims(s.claims, s.delivered, admin, j, Access, clock).value;
      s.(txns := s.txns[t := Begun(LogoutBy(id), now)])
    case Exec(t, c) => Execute(s, t, c)
    case Abort(t) => s.(txns := s.txns[t := s.txns[t].(pc := Done(Aborted), w := EMPTY)])
  }

  function Run(s: State, acts: seq<Action>): State {
    if acts == [] then s else Next(Run(s, acts[..|acts| - 1]), acts[|acts| - 1])
  }
}
