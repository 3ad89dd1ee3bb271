// The shape of the token family: disjoint chains rooted at logins, of which only the tail can be active.

module RotationChains {
  import opened RefreshTokens
  import opened RotationMachine
  import opened RotationInvariant
  import opened RotationSafety

  ghost predicate Chained(h: History) {
    BornOk(h) && SpentOk(h)
  }

  predicate IsRoot(h: History, j: Jti)
    requires j in h.bornAt && h.bornAt[j] < |h.log|
  {
    !h.log[h.bornAt[j]].Rotation?
  }

  /** The jti that `j` was rotated out of. */
  ghost function Parent(h: History, j: Jti): (p: Jti)
    requires Chained(h) && j in h.bornAt && !IsRoot(h, j)
    ensures p in h.bornAt && h.bornAt[p] < h.bornAt[j] && p in h.spentAt && h.spentAt[p] == h.bornAt[j]
  {
    h.log[h.bornAt[j]].parent
  }

  /** The login token a token descends from, and how many rotations lie between. */
  ghost function Root(h: History, j: Jti): Jti
    requires Chained(h) && j in h.bornAt
    decreases h.bornAt[j]
  {
    if IsRoot(h, j) then j else Root(h, Parent(h, j))
  }

  ghost function Depth(h: History, j: Jti): nat
    requires Chained(h) && j in h.bornAt
    decreases h.bornAt[j]
  {
    if IsRoot(h, j) then 0 else 1 + Depth(h, Parent(h, j))
  }

  /** A family holds one token for each number of rotations. */
  lemma {:induction false} DepthIdentifies(h: History, j: Jti, k: Jti)
    requires Chained(h) && j in h.bornAt && k in h.bornAt
    requires Root(h, j) == Root(h, k) && Depth(h, j) == Depth(h, k)
    ensures j == k
    decreases Depth(h, j)
  {
    if !IsRoot(h, j) {
      DepthIdentifies(h, Parent(h, j), Parent(h, k));
      assert Child(h.log[h.bornAt[j]]) == j && Child(h.log[h.bornAt[k]]) == k;
    }
  }

  /** Every token with a descendant has been rotated. */
  lemma {:induction false} AncestorIsSpent(h: History, k: Jti, d: nat) returns (a: Jti)
    requires Chained(h) && k in h.bornAt && d < Depth(h, k)
    ensures a in h.bornAt && Root(h, a) == Root(h, k) && Depth(h, a) == d && a in h.spentAt
    decreases Depth(h, k)
  {
    a := Parent(h, k);
    if d < Depth(h, a) {
      a := AncestorIsSpent(h, a, d);
    }
  }

  lemma UnspentIsTail(h: History, j: Jti, k: Jti)
    requires Chained(h) && j in h.bornAt && k in h.bornAt && Root(h, j) == Root(h, k)
    requires j !in h.spentAt && k !in h.spentAt
    ensures j == k
  {
    if Depth(h, j) < Depth(h, k) {
      var a := AncestorIsSpent(h, k, Depth(h, j));
      DepthIdentifies(h, a, j);
    } else if Depth(h, k) < Depth(h, j) {
      var a := AncestorIsSpent(h, j, Depth(h, k));
      DepthIdentifies(h, a, k);
    } else {
      DepthIdentifies(h, j, k);
    }
  }

  /** In every reachable state a family of tokens, all those that descend from one login, has at most
      one active row. */
  lemma OneActivePerFamily(acts: seq<Action>, j: Jti, k: Jti)
    requires var s := Reach(acts);
             && Chained(s.h) && j in s.db.rows && k in s.db.rows && j in s.h.bornAt && k in s.h.bornAt
             && s.db.rows[j].status.Active? && s.db.rows[k].status.Active? && Root(s.h, j) == Root(s.h, k)
    ensures j == k
  {
    ReachInv(acts);
    UnspentIsTail(Reach(acts).h, j, k);
  }

  predicate RotatesAt(log: seq<Event>, i: int, j: Jti) {
    0 <= i < |log| && log[i].Rotation? && log[i].parent == j
  }

  /** Each jti has been rotated by at most one committed refresh, a rotated row by exactly one and an
      active row by none; every row descends from a login, and so carries its subject and version. */
  lemma ChainShape(acts: seq<Action>, j: Jti)
    requires j in Reach(acts).db.rows
    ensures var s := Reach(acts);
            && Chained(s.h) && j in s.h.bornAt
            && (forall i, k :: RotatesAt(s.h.log, i, j) && RotatesAt(s.h.log, k, j) ==> i == k)
            && (s.db.rows[j].status.Rotated? ==> exists i :: RotatesAt(s.h.log, i, j))
            && (s.db.rows[j].status.Active? ==> !exists i :: RotatesAt(s.h.log, i, j))
            && var r := Root(s.h, j);
               r in s.h.bornAt && s.h.log[s.h.bornAt[r]].Born? && r in s.claims && j in s.claims
               && s.claims[r].subject == s.claims[j].subject && s.claims[r].version == s.claims[j].version
  {
    ReachInv(acts);
    var s := Reach(acts);
    RotationsOf(s.db, s.claims, s.h, j);
    RootKeepsClaims(s.db, s.claims, s.h, j);
  }

  lemma RotationsOf(db: Db, claims: map<Jti, Claims>, h: History, j: Jti)
    requires HistoryOk(db, claims, h) && j in db.rows
    ensures forall i, k :: RotatesAt(h.log, i, j) && RotatesAt(h.log, k, j) ==> i == k
    ensures db.rows[j].status.Rotated? ==> exists i :: RotatesAt(h.log, i, j)
    ensures db.rows[j].status.Active? ==> !exists i :: RotatesAt(h.log, i, j)
  {
    if db.rows[j].status.Rotated? {
      assert RotatesAt(h.log, h.spentAt[j], j);
    }
  }

  lemma {:induction false} RootKeepsClaims(db: Db, claims: map<Jti, Claims>, h: History, j: Jti)
    requires HistoryOk(db, claims, h) && RowsOk(db, claims) && j in h.bornAt
    ensures var r := Root(h, j);
            r in h.bornAt && h.log[h.bornAt[r]].Born? && r in claims && j in claims
            && claims[r].subject == claims[j].subject && claims[r].version == claims[j].version
    decreases h.bornAt[j]
  {
    assert j in db.rows;
    if !IsRoot(h, j) {
      RootKeepsClaims(db, claims, h, Parent(h, j));
    }
  }
}
