// The handlers of api/v1/auth.py over the statements of app/admin/infrastructure/repository.py, run
// one call at a time: the tables change in place and a raise inside the transaction restores them.

module AuthHandlers {
  import opened RefreshTokens
  import opened RotationMachine

  /** What a call answers; only `Issued` and `LoggedOut` are status 200. */
  datatype Answer =
    | Issued(subject: Username, version: int, jti: Jti)
    | LoggedOut
    | BadCredentials
    | Refused(outcome: Outcome)

  // ----- What the handlers do to the tables -----

  function Upserted(db: Db, a: Username): Db {
    if a in db.admins then db else db.(admins := db.admins[a := 1])
  }

  function Recorded(db: Db, j: Jti, a: Username, expiresAt: int): Db {
    db.(rows := db.rows[j := Row(a, Active, expiresAt)])
  }

  function Revoke(rows: map<Jti, Row>, a: Username): map<Jti, Row> {
    map j <- rows :: if rows[j].subject == a then rows[j].(status := Revoked) else rows[j]
  }

  function Killed(db: Db, a: Username): Db
    requires a in db.admins
  {
    Db(db.admins[a := db.admins[a] + 1], Revoke(db.rows, a))
  }

  function LoginCall(db: Db, a: Username, newJti: Jti, expiresAt: int): (Db, Answer) {
    var db' := Upserted(db, a);
    (Recorded(db', newJti, a, expiresAt), Issued(a, db'.admins[a], newJti))
  }

  predicate Outdated(db: Db, id: Identity) {
    id.subject !in db.admins || db.admins[id.subject] != id.version
  }

  function RefreshCall(db: Db, id: Identity, now: int, newJti: Jti, expiresAt: int): (Db, Answer) {
    if Outdated(db, id) then (db, Refused(Rejected(StaleVersion)))
    else if id.jti !in db.rows then (db, Refused(Rejected(RowUnknown)))
    else if Claimable(db.rows[id.jti], now) then
      (Recorded(db.(rows := db.rows[id.jti := db.rows[id.jti].(status := Rotated)]), newJti, id.subject, expiresAt),
       Issued(id.subject, id.version, newJti))
    else match db.rows[id.jti].status
      case Active => (db, Refused(Rejected(RowExpired)))
      case Revoked => (db, Refused(Rejected(RowRevoked)))
      case Rotated => if db.admins[id.subject] == MAX_VERSION then (db, Refused(Aborted))
                      else (Killed(db, id.subject), Refused(ReuseDetected))
  }

  function LogoutCall(db: Db, id: Identity): (Db, Answer) {
    if Outdated(db, id) then (db, Refused(Rejected(StaleVersion)))
    else if db.admins[id.subject] == MAX_VERSION then (db, Refused(Aborted))
    else (Killed(db, id.subject), LoggedOut)
  }

  class AuthStore {
    var admins: map<Username, int>
    var rows: map<Jti, Row>

    ghost function Tables(): Db
      reads this
    {
      Db(admins, rows)
    }

    ghost predicate Valid()
      reads this
    {
      forall a <- admins :: admins[a] <= MAX_VERSION
    }

    constructor ()
      ensures Valid() && Tables() == EMPTY
    {
      admins, rows := map[], map[];
    }

    // ----- Statements -----

    method UpsertAdmin(username: Username) returns (version: int)
      requires Valid()
      modifies this`admins
      ensures Valid() && Tables() == Upserted(old(Tables()), username)
      ensures username in admins && version == admins[username]
    {
      if username !in admins {
        admins := admins[username := 1];
      }
      version := admins[username];
    }

    method RecordRefreshToken(jti: Jti, subject: Username, expiresAt: int)
      requires jti !in rows
      modifies this`rows
      ensures Tables() == Recorded(old(Tables()), jti, subject, expiresAt)
    {
      rows := rows[jti := Row(subject, Active, expiresAt)];
    }

    method ClaimRefreshTokenRotation(jti: Jti, now: int) returns (won: bool)
      modifies this`rows
      ensures won <==> jti in old(rows) && Claimable(old(rows[jti]), now)
      ensures rows == if won then old(rows)[jti := old(rows[jti]).(status := Rotated)] else old(rows)
    {
      won := jti in rows && rows[jti].status == Active && rows[jti].expiresAt > now;
      if won {
        rows := rows[jti := rows[jti].(status := Rotated)];
      }
    }

    /** Fails, leaving the column as it is, where the increment would overflow it. */
    method IncrementTokenVersion(username: Username) returns (ok: bool)
      requires Valid() && username in admins
      modifies this`admins
      ensures Valid() && ok == (old(admins[username]) < MAX_VERSION)
      ensures admins == if ok then old(admins)[username := old(admins[username]) + 1] else old(admins)
    {
      ok := admins[username] < MAX_VERSION;
      if ok {
        admins := admins[username := admins[username] + 1];
      }
    }

    method RevokeRefreshTokens(subject: Username)
      modifies this`rows
      ensures rows.Keys == old(rows).Keys
      ensures forall j <- rows :: rows[j] == if old(rows)[j].subject == subject then old(rows)[j].(status := Revoked)
                                             else old(rows)[j]
      ensures rows == Revoke(old(rows), subject)
    {
      rows := Revoke(rows, subject);
    }

    // ----- Handlers -----

    method Login(username: Username, credentialsOk: bool, newJti: Jti, expiresAt: int) returns (answer: Answer)
      requires Valid() && newJti !in rows
      modifies this
      ensures Valid()
      ensures if credentialsOk then (Tables(), answer) == LoginCall(old(Tables()), username, newJti, expiresAt)
              else Tables() == old(Tables()) && answer == BadCredentials
    {
      if !credentialsOk {
        return BadCredentials;
      }
      var version := UpsertAdmin(username);
      RecordRefreshToken(newJti, username, expiresAt);
      answer := Issued(username, version, newJti);
    }

    method Refresh(id: Identity, now: int, newJti: Jti, expiresAt: int) returns (answer: Answer)
      requires Valid() && newJti !in rows
      modifies this
      ensures Valid() && (Tables(), answer) == RefreshCall(old(Tables()), id, now, newJti, expiresAt)
    {
      var reuseDetected := false;
      if id.subject !in admins || admins[id.subject] != id.version {
        return Refused(Rejected(StaleVersion));
      }
      var won := ClaimRefreshTokenRotation(id.jti, now);
      if won {
        RecordRefreshToken(newJti, id.subject, expiresAt);
      } else if id.jti in rows && rows[id.jti].status == Rotated {
        var ok := IncrementTokenVersion(id.subject);
        if !ok {
          return Refused(Aborted);
        }
        RevokeRefreshTokens(id.subject);
        reuseDetected := true;
      } else {
        return Refused(Rejected(if id.jti !in rows then RowUnknown
                                else if rows[id.jti].status == Revoked then RowRevoked else RowExpired));
      }
      // the transaction has committed here; a detected reuse is answered only now
      if reuseDetected {
        return Refused(ReuseDetected);
      }
      answer := Issued(id.subject, id.version, newJti);
    }

    method Logout(id: Identity) returns (answer: Answer)
      requires Valid()
      modifies this
      ensures Valid() && (Tables(), answer) == LogoutCall(old(Tables()), id)
    {
      if id.subject !in admins || admins[id.subject] != id.version {
        return Refused(Rejected(StaleVersion));
      }
      var ok := IncrementTokenVersion(id.subject);
      if !ok {
        return Refused(Aborted);
      }
      RevokeRefreshTokens(id.subject);
      answer := LoggedOut;
    }
  }
}
