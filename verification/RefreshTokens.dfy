// Tables, token claims and the concurrent machine of the refresh-token rotation protocol
// (api/v1/auth.py, app/admin/infrastructure/repository.py, app/core/security/auth.py).

module RefreshTokens {
  type Username = string

  /** A uuid4, read as the number its hex digits denote. */
  type Jti = nat

  datatype Status = Active | Rotated | Revoked

  /** A row of `refresh_tokens` (the primary key `jti` is the key of the map holding it). */
  datatype Row = Row(subject: Username, status: Status, expiresAt: int)

  /** The two tables. `admins` maps each username to its `token_version`. */
  datatype Db = Db(admins: map<Username, int>, rows: map<Jti, Row>)

  const EMPTY: Db := Db(map[], map[])

  /** `token_version` is a 32-bit INTEGER column: the statement that would exceed this fails. */
  const MAX_VERSION: int := 0x7fff_ffff

  datatype Kind = Access | Refresh

  /** What a signed token says; a token is identified by its jti. `issuer` is history, not a claim: the
      transaction that minted the token. */
  datatype Claims = Claims(kind: Kind, subject: Username, version: int, exp: int, issuer: nat)

  datatype Error = Unauthorized | Forbidden

  datatype Result<+T> = Ok(value: T) | Err(error: Error)

  datatype Identity = Identity(subject: Username, version: int, jti: Jti)

  /** The UPDATE of the claim matches a row that is active and unexpired at the transaction's `now()`. */
  predicate Claimable(row: Row, now: int) {
    row.status.Active? && row.expiresAt > now
  }

  function Override(db: Db, w: Db): Db {
    Db(db.admins + w.admins, db.rows + w.rows)
  }

  /** Ideal signatures: exactly the tokens handed out decode, until they expire. The claims checks
      are those a token must pass before any statement is executed. */
  function VerifyClaims(claims: map<Jti, Claims>, delivered: set<Jti>, adminUsername: Username,
                        jti: Jti, kind: Kind, clock: int): (r: Result<Identity>)
    ensures r.Ok? <==> jti in delivered && jti in claims && clock < claims[jti].exp
                       && claims[jti].kind == kind && claims[jti].subject == adminUsername
    ensures r.Ok? ==> r.value == Identity(adminUsername, claims[jti].version, jti)
    ensures r == Err(Forbidden) <==> jti in delivered && jti in claims && clock < claims[jti].exp
                                     && claims[jti].subject != adminUsername
  {
    if jti !in delivered || jti !in claims || claims[jti].exp <= clock then Err(Unauthorized)
    else if claims[jti].subject != adminUsername then Err(Forbidden)
    else if claims[jti].kind != kind then Err(Unauthorized)
    else Ok(Identity(claims[jti].subject, claims[jti].version, jti))
  }

  /** Statuses only climb: active, then rotated, then revoked. */
  function Rank(status: Status): nat {
    match status
    case Active => 0
    case Rotated => 1
    case Revoked => 2
  }

  /** The database has only moved forward: versions grew, rows kept their identity and climbed. */
  ghost predicate Advances(before: Db, after: Db) {
    && (forall a <- before.admins :: a in after.admins && before.admins[a] <= after.admins[a])
    && (forall j <- before.rows :: j in after.rows
                                   && after.rows[j].subject == before.rows[j].subject
                                   && after.rows[j].expiresAt == before.rows[j].expiresAt
                                   && Rank(before.rows[j].status) <= Rank(after.rows[j].status))
  }
}
