// Join-or-begin transactions on a request's session (app/core/db/transactional.py) and the session
// release of `_verify_subject` (app/core/security/auth.py).

module Transactions {
  type Write = nat

  /** A request's code, as far as the session sees it. `Call` is a coroutine decorated with
      @Transactional(); `Try` catches what its body raises. */
  datatype Code =
    | Read
    | Write(w: Write)
    | Raise
    | Call(body: seq<Code>)
    | Try(body: seq<Code>)

  /** The session: what the database holds, what the open transaction has written, whether one is open. */
  datatype Session = Session(committed: seq<Write>, pending: seq<Write>, open: bool)

  /** `raised` tells whether an exception leaves the code. */
  datatype Exit = Exit(s: Session, raised: bool)

  /** Statements begin a transaction where none is open. */
  function Touch(s: Session): Session {
    s.(open := true)
  }

  function Begin(s: Session): Session {
    Session(s.committed, [], true)
  }

  function CommitOf(s: Session): Session {
    Session(s.committed + s.pending, [], false)
  }

  function RollbackOf(s: Session): Session {
    Session(s.committed, [], false)
  }

  function Step(c: Code, s: Session): Exit
    decreases c, 1
  {
    match c
    case Read => Exit(Touch(s), false)
    case Write(w) => Exit(Touch(s).(pending := s.pending + [w]), false)
    case Raise => Exit(s, true)
    case Try(body) => Exit(Steps(body, s).s, false)
    case Call(body) =>
      if s.open then Steps(body, s)
      else
        var e := Steps(body, Begin(s));
        Exit(if e.raised then RollbackOf(e.s) else CommitOf(e.s), e.raised)
  }

  function Steps(code: seq<Code>, s: Session): Exit
    decreases code, 0
  {
    if code == [] then Exit(s, false)
    else
      var e := Step(code[0], s);
      if e.raised then e else Steps(code[1..], e.s)
  }

  // ----- The flat reading: decorators inside a transaction do nothing -----

  /** The writes executed before the code ends or an exception leaves it, and whether one does. */
  datatype Flat = Flat(writes: seq<Write>, raised: bool)

  function FlatOf(c: Code): Flat
    decreases c, 1
  {
    match c
    case Read => Flat([], false)
    case Write(w) => Flat([w], false)
    case Raise => Flat([], true)
    case Try(body) => Flat(FlatAll(body).writes, false)
    case Call(body) => FlatAll(body)
  }

  function FlatAll(code: seq<Code>): Flat
    decreases code, 0
  {
    if code == [] then Flat([], false)
    else
      var f := FlatOf(code[0]);
      if f.raised then f else Flat(f.writes + FlatAll(code[1..]).writes, FlatAll(code[1..]).raised)
  }

  lemma {:induction false} OpenStepIsFlat(c: Code, s: Session)
    requires s.open
    ensures Step(c, s) == Exit(s.(pending := s.pending + FlatOf(c).writes), FlatOf(c).raised)
    decreases c, 1
  {
    match c
    case Try(body) => OpenStepsAreFlat(body, s);
    case Call(body) => OpenStepsAreFlat(body, s);
    case _ => assert s.pending + [] == s.pending;
  }

  lemma {:induction false} OpenStepsAreFlat(code: seq<Code>, s: Session)
    requires s.open
    ensures Steps(code, s) == Exit(s.(pending := s.pending + FlatAll(code).writes), FlatAll(code).raised)
    decreases code, 0
  {
    if code == [] {
      assert s.pending + [] == s.pending;
    } else {
      OpenStepIsFlat(code[0], s);
      var e := Step(code[0], s);
      if !e.raised {
        OpenStepsAreFlat(code[1..], e.s);
        assert s.pending + FlatOf(code[0]).writes + FlatAll(code[1..]).writes
               == s.pending + (FlatOf(code[0]).writes + FlatAll(code[1..]).writes);
      }
    }
  }

  /** Nesting is flat: the outermost call commits all surviving writes when it returns and none when
      an exception escapes, however the calls inside are nested, fail and are caught; either way it
      leaves the session idle. */
  lemma OutermostCallDecides(body: seq<Code>, s: Session)
    requires !s.open
    ensures var e, f := Step(Call(body), s), FlatAll(body);
            && e.raised == f.raised
            && e.s == Session(if f.raised then s.committed else s.committed + f.writes, [], false)
  {
    OpenStepsAreFlat(body, Begin(s));
    assert [] + FlatAll(body).writes == FlatAll(body).writes;
  }

  // ----- An admin request -----

  /** How the claims of the token compare with the request and the database. */
  datatype Check = BadClaims | Outdated | Valid

  /** `_verify_subject`: the claims checks come before the read; whatever happens after it, an open
      transaction is rolled back on the way out. */
  function VerifySubject(check: Check, s: Session): Exit {
    if check.BadClaims? then Exit(s, true)
    else
      var read := Touch(s);
      Exit(if read.open then RollbackOf(read) else read, check.Outdated?)
  }

  /** An admin endpoint: `require_admin`, then a decorated service call; the middleware then discards
      what the session has left uncommitted. */
  function AdminRequest(check: Check, body: seq<Code>, committed: seq<Write>): (seq<Write>, bool) {
    var v := VerifySubject(check, Session(committed, [], false));
    if v.raised then (v.s.committed, true)
    else
      var e := Step(Call(body), v.s);
      (RollbackOf(e.s).committed, e.raised)
  }

  /** An admin write endpoint that returns normally has committed; one that raises has written nothing. */
  lemma AdminRequestCommits(check: Check, body: seq<Code>, committed: seq<Write>)
    ensures var (after, raised) := AdminRequest(check, body, committed);
            && (raised <==> check != Valid || FlatAll(body).raised)
            && after == if raised then committed else committed + FlatAll(body).writes
  {
    OutermostCallDecides(body, Session(committed, [], false));
  }

  /** The release is what makes the endpoint commit: over a session left open, the decorated call
      joins and commits nothing, so the same request keeps its writes only if the session was idle
      (or there was nothing to write). */
  lemma CommitsExactlyWhenIdle(body: seq<Code>, s: Session)
    requires s.pending == [] && !FlatAll(body).raised && FlatAll(body).writes != []
    ensures RollbackOf(Step(Call(body), s).s).committed == s.committed + FlatAll(body).writes <==> !s.open
  {
    if s.open {
      OpenStepIsFlat(Call(body), s);
      assert |s.committed| < |s.committed + FlatAll(body).writes|;
    } else {
      OutermostCallDecides(body, s);
    }
  }

  /** Why the release is needed: a read over an idle session opens a transaction, so that a decorated
      call after it joins and commits nothing. */
  lemma ReadMakesCallJoin(body: seq<Code>, s: Session)
    requires !s.open && s.pending == []
    ensures var e := Steps([Read, Call(body)], s);
            e.s == Session(s.committed, FlatAll(body).writes, true) && e.raised == FlatAll(body).raised
  {
    var begun := Session(s.committed, [], true);
    assert [Read, Call(body)][1..] == [Call(body)] && [Call(body)][1..] == [];
    OpenStepIsFlat(Call(body), begun);
    assert [] + FlatAll(body).writes == FlatAll(body).writes;
    assert Step(Read, s) == Exit(begun, false);
    var e := Step(Call(body), begun);
    assert Steps([], e.s) == Exit(e.s, false);
    assert Steps([Call(body)], begun).s == e.s && Steps([Call(body)], begun).raised == e.raised;
    assert Steps([Read, Call(body)], s) == Steps([Read, Call(body)][1..], begun);
  }

  // ----- The session as an object -----

  class AsyncSession {
    var committed: seq<Write>
    var pending: seq<Write>
    var open: bool

    ghost function State(): Session
      reads this
    {
      Session(committed, pending, open)
    }

    constructor (committed: seq<Write>)
      ensures State() == Session(committed, [], false)
    {
      this.committed, pending, open := committed, [], false;
    }

    method Commit()
      modifies this
      ensures State() == CommitOf(old(State()))
    {
      committed, pending, open := committed + pending, [], false;
    }

    method Rollback()
      modifies this
      ensures State() == RollbackOf(old(State()))
    {
      pending, open := [], false;
    }

    /** The wrapper of @Transactional(): join an open transaction, or begin one and end it. */
    method Transactional(body: seq<Code>) returns (raised: bool)
      modifies this
      ensures Exit(State(), raised) == Step(Call(body), old(State()))
      decreases body, 1
    {
      if open {
        raised := ExecuteAll(body);
        return;
      }
      pending, open := [], true;
      raised := ExecuteAll(body);
      if raised {
        Rollback();
      } else {
        Commit();
      }
    }

    method Execute(c: Code) returns (raised: bool)
      modifies this
      ensures Exit(State(), raised) == Step(c, old(State()))
      decreases c, 0
    {
      raised := false;
      match c {
        case Read => open := true;
        case Write(w) => open, pending := true, pending + [w];
        case Raise => raised := true;
        case Try(body) => var caught := ExecuteAll(body);
        case Call(body) => raised := Transactional(body);
      }
    }

    method ExecuteAll(code: seq<Code>) returns (raised: bool)
      modifies this
      ensures Exit(State(), raised) == Steps(code, old(State()))
      decreases code, 0
    {
      raised := false;
      if code != [] {
        raised := Execute(code[0]);
        if !raised {
          raised := ExecuteAll(code[1..]);
        }
      }
    }

    /** `_verify_subject`, whose read is released however it ends. */
    method Verify(check: Check) returns (raised: bool)
      modifies this
      ensures Exit(State(), raised) == VerifySubject(check, old(State()))
      ensures !check.BadClaims? ==> !open
    {
      if check.BadClaims? {
        return true;
      }
      open := true;
      raised := check.Outdated?;
      if open {
        Rollback();
      }
    }

    /** A whole admin request over an idle session: it commits exactly the surviving writes of the
        service call, and only if it returns normally. */
    method AdminEndpoint(check: Check, body: seq<Code>) returns (raised: bool)
      requires !open && pending == []
      modifies this
      ensures raised <==> check != Valid || FlatAll(body).raised
      ensures State() == Session(if raised then old(committed) else old(committed) + FlatAll(body).writes, [], false)
    {
      AdminRequestCommits(check, body, committed);
      raised := Verify(check);
      if !raised {
        raised := Transactional(body);
      }
      Rollback();
    }
  }
}
