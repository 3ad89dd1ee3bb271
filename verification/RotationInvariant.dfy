// The invariant of the interleaved machine.

module RotationInvariant {
  import opened RefreshTokens
  import opened RotationMachine

  /** Every committed row belongs to a minted refresh token whose version was committed at some time;
      a revoked row carries a version that the committed one has already left behind. */
  ghost predicate RowsOk(db: Db, claims: map<Jti, Claims>) {
    forall j <- db.rows ::
      && j in claims && claims[j].kind == Refresh && claims[j].subject == db.rows[j].subject
      && db.rows[j].subject in db.admins
      && claims[j].version <= db.admins[db.rows[j].subject]
      && (db.rows[j].status.Revoked? ==> claims[j].version < db.admins[db.rows[j].subject])
  }

  /** Whether the transaction is past its SELECT of the admin row, or has ended. */
  predicate HasRead(x: Txn) {
    !x.pc.AtUpsert? && !x.pc.AtReadAdmin?
  }

  /** Every token, handed out or not, carries the version its transaction read. */
  ghost predicate IssuersOk(claims: map<Jti, Claims>, txns: map<Tid, Txn>) {
    forall j <- claims ::
      && claims[j].issuer in txns && HasRead(txns[claims[j].issuer])
      && claims[j].subject == SubjectOf(txns[claims[j].issuer].req)
      && claims[j].version == txns[claims[j].issuer].seen
  }

  /** No transaction has read a version beyond the committed one. (The insert of the admin row may
      still be uncommitted; it writes version 1.) */
  ghost predicate ReadsOk(db: Db, txns: map<Tid, Txn>) {
    forall t <- txns :: ReadOk(db, txns[t])
  }

  ghost predicate ReadOk(db: Db, x: Txn) {
    x.seen <= if SubjectOf(x.req) in db.admins then db.admins[SubjectOf(x.req)] else 1
  }

  /** Refreshes kill only over tokens that have been rotated before. */
  ghost predicate ReplaysOk(txns: map<Tid, Txn>, spentAt: map<Jti, nat>) {
    forall t <- txns :: Replays(txns[t]) ==> txns[t].req.id.jti in spentAt
  }

  ghost predicate ReadersOk(db: Db, claims: map<Jti, Claims>, txns: map<Tid, Txn>, spentAt: map<Jti, nat>) {
    IssuersOk(claims, txns) && ReadsOk(db, txns) && ReplaysOk(txns, spentAt)
  }

  predicate Replays(x: Txn) {
    x.req.RefreshWith?
    && (x.pc.AtBump? || x.pc.AtRevoke? || x.pc.AtRevokeRows? || x.pc.AtCommitKill? || x.pc == Done(ReuseDetected))
  }

  ghost predicate DeliveredOk(db: Db, claims: map<Jti, Claims>, delivered: set<Jti>) {
    forall j <- delivered ::
      && j in claims && claims[j].subject in db.admins
      && (claims[j].kind == Refresh ==> j in db.rows)
  }

  function Child(e: Event): Jti
    requires !e.Kill?
  {
    if e.Born? then e.jti else e.child
  }

  /** Each jti is born in exactly one log entry. */
  ghost predicate BornOk(h: History) {
    && (forall j <- h.bornAt :: h.bornAt[j] < |h.log| && !h.log[h.bornAt[j]].Kill? && Child(h.log[h.bornAt[j]]) == j)
    && (forall i | 0 <= i < |h.log| && !h.log[i].Kill? ::
          Child(h.log[i]) in h.bornAt && h.bornAt[Child(h.log[i])] == i)
  }

  /** Each jti is rotated in at most one log entry, which comes after its birth. */
  ghost predicate SpentOk(h: History) {
    && (forall j <- h.spentAt :: h.spentAt[j] < |h.log| && h.log[h.spentAt[j]].Rotation?
                                 && h.log[h.spentAt[j]].parent == j)
    && (forall i | 0 <= i < |h.log| && h.log[i].Rotation? ::
          && h.log[i].parent in h.spentAt && h.spentAt[h.log[i].parent] == i
          && h.log[i].parent in h.bornAt && h.bornAt[h.log[i].parent] < i)
  }

  /** A login gives its token its subject; a rotation passes subject and version on. */
  ghost predicate LineageOk(claims: map<Jti, Claims>, log: seq<Event>) {
    && (forall i | 0 <= i < |log| && log[i].Born? ::
          log[i].jti in claims && claims[log[i].jti].subject == log[i].subject)
    && (forall i | 0 <= i < |log| && log[i].Rotation? ::
          && log[i].parent in claims && log[i].child in claims
          && claims[log[i].child].subject == claims[log[i].parent].subject
          && claims[log[i].child].version == claims[log[i].parent].version)
  }

  ghost predicate StatusOk(rows: map<Jti, Row>, spentAt: map<Jti, nat>) {
    forall j <- rows :: (rows[j].status.Active? ==> j !in spentAt) && (rows[j].status.Rotated? ==> j in spentAt)
  }

  ghost predicate HistoryOk(db: Db, claims: map<Jti, Claims>, h: History) {
    h.bornAt.Keys == db.rows.Keys && BornOk(h) && SpentOk(h) && LineageOk(claims, h.log) && StatusOk(db.rows, h.spentAt)
  }

  /** Committed logouts and reuse kills of a subject. */
  function Kills(log: seq<Event>, a: Username): nat {
    if log == [] then 0
    else Kills(log[..|log| - 1], a)
         + (if log[|log| - 1].Kill? && log[|log| - 1].subject == a then 1 else 0)
  }

  ghost predicate VersionsOk(db: Db, h: History) {
    && (forall a <- db.admins :: db.admins[a] == 1 + Kills(h.log, a))
    && (forall a | a !in db.admins :: Kills(h.log, a) == 0)
  }

  /** Uncommitted versions of one row are held by one transaction at a time. */
  ghost predicate Exclusive(txns: map<Tid, Txn>) {
    && (forall t, u, a | t in txns && u in txns && t != u && a in txns[t].w.admins :: a !in txns[u].w.admins)
    && (forall t, u, j | t in txns && u in txns && t != u && j in txns[t].w.rows :: j !in txns[u].w.rows)
  }

  /** The admin row as the transaction sees it after its upsert: committed, or its own insert. */
  ghost predicate UpsertDone(db: Db, x: Txn) {
    var a := SubjectOf(x.req);
    if a in db.admins then x.w.admins == map[] else x.w.admins == map[a := 1]
  }

  /** The version read is one that is, or will be once this transaction commits, in the past of the subject. */
  ghost predicate SeenOk(db: Db, x: Txn) {
    var a := SubjectOf(x.req);
    if a in db.admins then x.seen <= db.admins[a] else x.seen == 1
  }

  ghost predicate PresentedOk(db: Db, claims: map<Jti, Claims>, x: Txn)
    requires !x.req.Login?
  {
    var id := x.req.id;
    && id.subject in db.admins && id.version <= db.admins[id.subject]
    && id.jti in claims && claims[id.jti].subject == id.subject && claims[id.jti].version == id.version
    && (x.req.RefreshWith? ==> id.jti in db.rows && db.rows[id.jti].subject == id.subject)
  }

  ghost predicate KillWrites(db: Db, x: Txn) {
    var a := SubjectOf(x.req);
    && a in db.admins && x.w.admins == map[a := db.admins[a] + 1]
    && (forall j <- x.w.rows :: j in db.rows && db.rows[j].subject == a
                                && x.w.rows[j] == db.rows[j].(status := Revoked))
  }

  ghost predicate RotatesPresented(db: Db, x: Txn)
    requires x.req.RefreshWith?
  {
    var j := x.req.id.jti;
    && j in db.rows && db.rows[j].status.Active?
    && j in x.w.rows && x.w.rows[j] == db.rows[j].(status := Rotated)
    && db.rows[j].expiresAt > x.now
  }

  ghost predicate IssueReady(db: Db, claims: map<Jti, Claims>, x: Txn, child: Jti) {
    && child in claims && claims[child].kind == Refresh
    && claims[child].subject == SubjectOf(x.req) && claims[child].version == x.seen
    && child !in db.rows && child in x.w.rows
    && x.w.rows[child].subject == SubjectOf(x.req) && x.w.rows[child].status.Active?
    && (x.req.Login? ==> x.w.rows.Keys == {child})
    && (x.req.RefreshWith? ==> x.w.rows.Keys == {x.req.id.jti, child} && x.req.id.jti != child)
  }

  /** What is known about one transaction, given the committed database. */
  ghost predicate TxnOk(db: Db, claims: map<Jti, Claims>, x: Txn) {
    && (forall j <- x.w.rows :: j in claims)
    && (!x.req.Login? ==> PresentedOk(db, claims, x))
    && (match x.pc
        case AtUpsert => x.req.Login? && x.w == EMPTY
        case AtReadAdmin => if x.req.Login? then x.w.rows == map[] && UpsertDone(db, x) else x.w == EMPTY
        case AtClaim => x.req.RefreshWith? && x.w == EMPTY && x.seen == x.req.id.version
        case AtClaimLock => x.req.RefreshWith? && x.w == EMPTY && x.seen == x.req.id.version
        case AtReadRow =>
          && x.req.RefreshWith? && x.w == EMPTY
          && !Claimable(db.rows[x.req.id.jti], x.now)
        case AtInsert =>
          && SeenOk(db, x)
          && (match x.req
              case Login(_) => x.w.rows == map[] && UpsertDone(db, x)
              case RefreshWith(id) => && x.w.admins == map[] && x.w.rows.Keys == {id.jti}
                                      && x.seen == id.version && RotatesPresented(db, x)
              case LogoutBy(_) => false)
        case AtCommitIssue(child) =>
          && SeenOk(db, x) && IssueReady(db, claims, x, child)
          && (match x.req
              case Login(_) => UpsertDone(db, x)
              case RefreshWith(id) => x.w.admins == map[] && x.seen == id.version && RotatesPresented(db, x)
              case LogoutBy(_) => false)
        case AtRespond(child) =>
          && !x.req.LogoutBy? && x.w == EMPTY
          && SubjectOf(x.req) in db.admins && x.seen <= db.admins[SubjectOf(x.req)]
          && child in db.rows && child in claims && claims[child].kind == Refresh
          && claims[child].subject == SubjectOf(x.req) && claims[child].version == x.seen
          && (x.req.RefreshWith? ==> db.rows[x.req.id.jti].expiresAt > x.now)
        case AtBump => !x.req.Login? && x.w == EMPTY
        case AtRevoke => !x.req.Login? && KillWrites(db, x) && x.w.rows == map[]
        case AtRevokeRows(pending) =>
          && !x.req.Login? && KillWrites(db, x)
          && (forall j <- pending :: j in db.rows && db.rows[j].subject == SubjectOf(x.req))
        case AtCommitKill => !x.req.Login? && KillWrites(db, x)
        case Done(outcome) => x.w == EMPTY && OutcomeOk(db, claims, x, outcome))
  }

  /** A refresh that succeeded found its row unexpired; one that ran to its end without success left its
      version behind, or found the row expired. */
  ghost predicate OutcomeOk(db: Db, claims: map<Jti, Claims>, x: Txn, outcome: Outcome)
    requires !x.req.Login? ==> PresentedOk(db, claims, x)
  {
    match outcome
    case Succeeded => x.req.RefreshWith? ==> db.rows[x.req.id.jti].expiresAt > x.now
    case Aborted => true
    case ReuseDetected => x.req.RefreshWith? && db.admins[x.req.id.subject] > x.req.id.version
    case Rejected(StaleVersion) => !x.req.Login? && db.admins[x.req.id.subject] > x.req.id.version
    case Rejected(RowRevoked) => x.req.RefreshWith? && db.admins[x.req.id.subject] > x.req.id.version
    case Rejected(RowExpired) => x.req.RefreshWith? && db.rows[x.req.id.jti].expiresAt <= x.now
    case Rejected(RowUnknown) => false
  }

  /** Whether `x` is past its commit. */
  predicate Committed(x: Txn) {
    x.pc.AtRespond? || x.pc == Done(Succeeded) || x.pc == Done(ReuseDetected)
  }

  ghost predicate EventFits(t: Tid, x: Txn, e: Event) {
    && e.tid == t
    && (match e
        case Born(_, j, a) => x.req.Login? && a == SubjectOf(x.req) && (x.pc == AtRespond(j) || x.pc == Done(Succeeded))
        case Rotation(_, p, j) => x.req.RefreshWith? && p == x.req.id.jti
                                  && (x.pc == AtRespond(j) || x.pc == Done(Succeeded))
        case Kill(_, a, since) => !x.req.Login? && a == SubjectOf(x.req) && since == x.since
                                  && x.pc == Done(if x.req.RefreshWith? then ReuseDetected else Succeeded))
  }

  /** Log entries and committed transactions correspond one to one. */
  ghost predicate EventsOk(txns: map<Tid, Txn>, h: History) {
    && (forall t <- txns :: -1 <= txns[t].event < |h.log| && (0 <= txns[t].event <==> Committed(txns[t])))
    && (forall t <- txns :: 0 <= txns[t].event ==> EventFits(t, txns[t], h.log[txns[t].event]))
    && (forall i | 0 <= i < |h.log| :: h.log[i].tid in txns && txns[h.log[i].tid].event == i)
  }

  /** The rows `v` of a revoke statement are exactly those of its subject that were committed when it
      began, the presented one among them; none of the later ones has been revoked. */
  ghost predicate Scanned(db: Db, h: History, x: Txn, v: set<Jti>) {
    && x.since <= |h.log|
    && (x.req.RefreshWith? ==> x.req.id.jti in v)
    && (forall j <- db.rows | db.rows[j].subject == SubjectOf(x.req) ::
          j in h.bornAt && (j in v <==> h.bornAt[j] < x.since) && (j !in v ==> !db.rows[j].status.Revoked?))
  }

  ghost predicate ScanOk(db: Db, h: History, x: Txn) {
    match x.pc
    case AtRevokeRows(pending) => Scanned(db, h, x, pending + x.w.rows.Keys)
    case AtCommitKill => Scanned(db, h, x, x.w.rows.Keys)
    case _ => true
  }

  ghost predicate ScansOk(db: Db, txns: map<Tid, Txn>, h: History) {
    forall t <- txns :: ScanOk(db, h, txns[t])
  }

  ghost predicate LedgerOk(db: Db, claims: map<Jti, Claims>, h: History) {
    RowsOk(db, claims) && HistoryOk(db, claims, h) && VersionsOk(db, h)
  }

  ghost predicate TxnsOk(db: Db, claims: map<Jti, Claims>, txns: map<Tid, Txn>) {
    forall t <- txns :: TxnOk(db, claims, txns[t])
  }

  ghost predicate Inv(s: State) {
    && LedgerOk(s.db, s.claims, s.h)
    && ReadersOk(s.db, s.claims, s.txns, s.h.spentAt)
    && DeliveredOk(s.db, s.claims, s.delivered)
    && Exclusive(s.txns)
    && TxnsOk(s.db, s.claims, s.txns)
    && EventsOk(s.txns, s.h)
    && ScansOk(s.db, s.txns, s.h)
  }
}
