// Every run of the serial model is a run of the interleaved machine.

module SerialRefinement {
  import opened RefreshTokens
  import opened RotationMachine
  import opened AuthHandlers
  import opened SerialRuns

  /** `ids` are the identities borne by tokens of the given kind. */
  ghost predicate Borne(s: State, kind: Kind, ids: map<Jti, Identity>) {
    forall j <- ids :: ids[j].jti == j && Bears(s, j, kind, ids[j].subject, ids[j].version)
  }

  /** The machine, with no transaction under way, holds the tables and tokens of the serial model; `n` and
      the numbers after it are free for transactions to come. */
  ghost predicate Simulates(s: State, z: Serial, n: nat) {
    && s.db == z.db && Quiet(s) && (forall t <- s.txns :: t < n)
    && s.claims.Keys == z.issued.Keys + z.access.Keys
    && Borne(s, Refresh, z.issued) && Borne(s, Access, z.access)
  }

  lemma {:induction false} RunAppend(s: State, acts: seq<Action>, more: seq<Action>)
    ensures Run(s, acts + more) == Run(Run(s, acts), more)
  {
    if more == [] {
      assert acts + more == acts;
    } else {
      var a := more[|more| - 1];
      RunAppend(s, acts, more[..|more| - 1]);
      RunSnoc(s, acts + more[..|more| - 1], a);
      assert acts + more[..|more| - 1] + [a] == acts + more;
    }
  }

  /** A token handed out passes the claims checks until it expires. */
  lemma Presents(s: State, j: Jti, kind: Kind, id: Identity)
    requires Bears(s, j, kind, id.subject, id.version) && id.jti == j
    ensures VerifyClaims(s.claims, s.delivered, id.subject, j, kind, s.claims[j].exp - 1) == Ok(id)
  {}

  lemma BorneStays(s: State, s': State, t: Tid, r: (Db, Answer), access: Jti, kind: Kind, ids: map<Jti, Identity>)
    requires Borne(s, kind, ids) && Ended(s, s', t, r, access)
    ensures Borne(s', kind, ids)
  {}

  lemma BorneGrows(s: State, kind: Kind, ids: map<Jti, Identity>, id: Identity)
    requires Borne(s, kind, ids) && Bears(s, id.jti, kind, id.subject, id.version)
    ensures Borne(s, kind, ids[id.jti := id])
  {}

  lemma EndSimulates(s: State, s': State, z: Serial, n: nat, r: (Db, Answer), access: Jti)
    requires Simulates(s, z, n) && Ended(s, s', n, r, access)
    ensures Simulates(s', Issue(z, r, access), n + 1)
  {
    BorneStays(s, s', n, r, access, Refresh, z.issued);
    BorneStays(s, s', n, r, access, Access, z.access);
    if r.1.Issued? {
      BorneGrows(s', Refresh, z.issued, Identity(r.1.subject, r.1.version, r.1.jti));
      BorneGrows(s', Access, z.access, Identity(r.1.subject, r.1.version, access));
    }
  }

  lemma LoginRefines(s: State, z: Serial, n: nat, a: Username, newJti: Jti, access: Jti, expiresAt: int)
    returns (acts: seq<Action>)
    requires Simulates(s, z, n)
    ensures Simulates(Run(s, acts), SerialNext(z, CallLogin(a, newJti, access, expiresAt)), n + 1)
  {
    acts := [];
    if Fresh(z, newJti, access) {
      acts := LoginIsRun(s, n, a, 0, newJti, expiresAt, access);
      EndSimulates(s, Run(s, acts), z, n, LoginCall(z.db, a, newJti, expiresAt), access);
    }
  }

  lemma RefreshRefines(s: State, z: Serial, n: nat, j: Jti, now: int, newJti: Jti, access: Jti, expiresAt: int)
    returns (acts: seq<Action>)
    requires Simulates(s, z, n) && SerialOk(z)
    ensures Simulates(Run(s, acts), SerialNext(z, CallRefresh(j, now, newJti, access, expiresAt)), n + 1)
  {
    acts := [];
    if Fresh(z, newJti, access) && j in z.issued {
      var id := z.issued[j];
      Presents(s, j, Refresh, id);
      acts := RefreshIsRun(s, n, id.subject, j, s.claims[j].exp - 1, now, newJti, expiresAt, access);
      EndSimulates(s, Run(s, acts), z, n, RefreshCall(z.db, id, now, newJti, expiresAt), access);
    }
  }

  lemma LogoutRefines(s: State, z: Serial, n: nat, j: Jti) returns (acts: seq<Action>)
    requires Simulates(s, z, n) && SerialOk(z)
    ensures Simulates(Run(s, acts), SerialNext(z, CallLogout(j)), n + 1)
  {
    acts := [];
    if j in z.access {
      var id := z.access[j];
      Presents(s, j, Access, id);
      acts := LogoutIsRun(s, n, id.subject, j, s.claims[j].exp - 1, 0);
      EndSimulates(s, Run(s, acts), z, n, LogoutCall(z.db, id), 0);
    }
  }

  lemma CallRefines(s: State, z: Serial, n: nat, call: Call) returns (acts: seq<Action>)
    requires Simulates(s, z, n) && SerialOk(z)
    ensures Simulates(Run(s, acts), SerialNext(z, call), n + 1)
  {
    match call
    case CallLogin(a, newJti, access, expiresAt) =>
      acts := LoginRefines(s, z, n, a, newJti, access, expiresAt);
    case CallRefresh(j, now, newJti, access, expiresAt) =>
      acts := RefreshRefines(s, z, n, j, now, newJti, access, expiresAt);
    case CallLogout(j) =>
      acts := LogoutRefines(s, z, n, j);
  }

  /** Any sequence of serial calls is a run of the machine that ends with the same tables and the same
      tokens handed out. */
  lemma {:induction false} SerialRunIsRun(calls: seq<Call>) returns (acts: seq<Action>)
    ensures Simulates(Run(INIT, acts), SerialRun(calls), |calls|)
  {
    acts := [];
    if calls != [] {
      var init := calls[..|calls| - 1];
      acts := SerialRunIsRun(init);
      SerialFamilies(init);
      var more := CallRefines(Run(INIT, acts), SerialRun(init), |init|, calls[|calls| - 1]);
      RunAppend(INIT, acts, more);
      acts := acts + more;
    }
  }
}
