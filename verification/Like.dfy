// The LIKE predicate (section 8.5 of ISO/IEC 9075-2) with escape character `\`, and the escaping
// that `search` applies to what the user typed (app/post/infrastructure/repository.py).

module Like {
  predicate IsMeta(c: char) {
    c == '%' || c == '_' || c == '\\'
  }

  /** Whether text `t` matches pattern `p`. A pattern that ends in a lone escape character is an
      error in SQL; see `WellFormed`. */
  predicate Matches(t: string, p: string)
    decreases |p|, |t|
  {
    if p == "" then t == ""
    else if p[0] == '\\' then |p| > 1 && t != "" && t[0] == p[1] && Matches(t[1..], p[2..])
    else if p[0] == '%' then Matches(t, p[1..]) || (t != "" && Matches(t[1..], p))
    else t != "" && (p[0] == '_' || t[0] == p[0]) && Matches(t[1..], p[1..])
  }

  /** Every escape character stands before a metacharacter, as the standard demands. */
  predicate WellFormed(p: string) {
    if p == "" then true
    else if p[0] == '\\' then |p| > 1 && IsMeta(p[1]) && WellFormed(p[2..])
    else WellFormed(p[1..])
  }

  /** `s.replace(c, r)` for a one-character `c`. */
  function Replace(s: string, c: char, r: string): string {
    if s == "" then "" else (if s[0] == c then r else [s[0]]) + Replace(s[1..], c, r)
  }

  /** The three replacements, one after another: the escape character first. */
  function Escape(q: string): string {
    Replace(Replace(Replace(q, '\\', "\\\\"), '%', "\\%"), '_', "\\_")
  }

  function Pattern(q: string): string {
    "%" + Escape(q) + "%"
  }

  // ----- The replacements amount to one pass -----

  function EscapeChar(c: char): string {
    if IsMeta(c) then ['\\', c] else [c]
  }

  function OnePass(q: string): string {
    if q == "" then "" else EscapeChar(q[0]) + OnePass(q[1..])
  }

  lemma {:induction false} ReplaceAppend(s: string, t: string, c: char, r: string)
    ensures Replace(s + t, c, r) == Replace(s, c, r) + Replace(t, c, r)
  {
    if s == "" {
      assert s + t == t;
    } else {
      assert (s + t)[1..] == s[1..] + t;
      ReplaceAppend(s[1..], t, c, r);
    }
  }

  lemma ReplaceOne(a: char, c: char, r: string)
    ensures Replace([a], c, r) == if a == c then r else [a]
  {
    assert [a][1..] == "";
  }

  lemma EscapeOne(a: char)
    ensures Escape([a]) == EscapeChar(a)
  {
    ReplaceOne(a, '\\', "\\\\");
    ReplaceOne(a, '%', "\\%");
    ReplaceOne(a, '_', "\\_");
    assert "\\\\" == ['\\'] + ['\\'] && "\\%" == ['\\'] + ['%'];
    ReplaceAppend(['\\'], ['\\'], '%', "\\%");
    ReplaceAppend(['\\'], ['\\'], '_', "\\_");
    ReplaceAppend(['\\'], ['%'], '_', "\\_");
    ReplaceOne('\\', '%', "\\%");
    ReplaceOne('\\', '_', "\\_");
    ReplaceOne('%', '_', "\\_");
  }

  lemma {:induction false} EscapeIsOnePass(q: string)
    ensures Escape(q) == OnePass(q)
  {
    if q != "" {
      var a, rest := [q[0]], q[1..];
      assert q == a + rest;
      ReplaceAppend(a, rest, '\\', "\\\\");
      ReplaceAppend(Replace(a, '\\', "\\\\"), Replace(rest, '\\', "\\\\"), '%', "\\%");
      ReplaceAppend(Replace(Replace(a, '\\', "\\\\"), '%', "\\%"),
                    Replace(Replace(rest, '\\', "\\\\"), '%', "\\%"), '_', "\\_");
      EscapeOne(q[0]);
      EscapeIsOnePass(rest);
    }
  }

  // ----- The pattern means "contains" -----

  predicate Contains(t: string, q: string) {
    exists i :: 0 <= i <= |t| && q <= t[i..]
  }

  lemma {:induction false} MatchesEverything(t: string)
    ensures Matches(t, "%")
  {
    if t != "" {
      MatchesEverything(t[1..]);
    }
  }

  /** An underscore that is not escaped matches any one character, and any other character, other than a
      percent sign or the escape character, itself. */
  lemma SingleChar(t: string, c: char, p: string)
    requires c != '%' && c != '\\'
    ensures Matches(t, [c] + p) <==> t != "" && (c == '_' || t[0] == c) && Matches(t[1..], p)
  {
    assert ([c] + p)[1..] == p;
  }

  /** What the escaping is for: the pattern of a query put in as it is matches texts without the query
      if the query is a lone metacharacter. */
  lemma UnescapedMatchesTooMuch()
    ensures Matches("a", "%" + "_" + "%") && !Contains("a", "_")
    ensures Matches("a", "%" + "%" + "%") && !Contains("a", "%")
  {
    MatchesEverything("");
    MatchesEverything("a");
    SingleChar("a", '_', "%");
    PercentSkips("a", "_%");
    PercentSkips("a", "%%");
    PercentSkips("a", "%");
    assert "a"[0..] == "a" && "a"[1..] == "";
    assert "%" + "_" + "%" == "%" + "_%" && ['_'] + "%" == "_%" && "%" + "%" + "%" == "%" + "%%" && "%" + "%" == "%%";
    assert !("_" <= "a") && !("_" <= "") && !("%" <= "a") && !("%" <= "");
  }

  /** The escape character makes whatever follows it literal. */
  lemma EscapeIsLiteral(t: string, c: char, p: string)
    ensures Matches(t, ['\\', c] + p) <==> t != "" && t[0] == c && Matches(t[1..], p)
  {
    assert (['\\', c] + p)[2..] == p;
  }

  /** An escaped character matches exactly itself. */
  lemma EscapedChar(t: string, c: char, p: string)
    ensures Matches(t, EscapeChar(c) + p) <==> t != "" && t[0] == c && Matches(t[1..], p)
  {
    var q := EscapeChar(c) + p;
    assert q[|EscapeChar(c)|..] == p;
  }

  lemma {:induction false} EscapedPrefix(t: string, q: string)
    ensures Matches(t, OnePass(q) + "%") <==> q <= t
  {
    if q == "" {
      assert OnePass(q) + "%" == "%";
      MatchesEverything(t);
    } else {
      assert OnePass(q) + "%" == EscapeChar(q[0]) + (OnePass(q[1..]) + "%");
      EscapedChar(t, q[0], OnePass(q[1..]) + "%");
      if t != "" {
        EscapedPrefix(t[1..], q[1..]);
        assert q == [q[0]] + q[1..] && t == [t[0]] + t[1..];
      }
    }
  }

  lemma {:induction false} PercentSkips(t: string, p: string)
    ensures Matches(t, "%" + p) <==> exists i :: 0 <= i <= |t| && Matches(t[i..], p)
  {
    var q := "%" + p;
    assert q[1..] == p && t[0..] == t;
    if t != "" {
      PercentSkips(t[1..], p);
      if i :| 0 <= i <= |t| && Matches(t[i..], p) && i > 0 {
        assert t[1..][i - 1..] == t[i..];
      }
      if i :| 0 <= i <= |t[1..]| && Matches(t[1..][i..], p) {
        assert t[1..][i..] == t[i + 1..];
      }
    }
  }

  /** Escaping is exact: the pattern built from `q` matches exactly the texts that contain `q`. */
  lemma EscapingIsExact(t: string, q: string)
    ensures Matches(t, Pattern(q)) <==> Contains(t, q)
  {
    EscapeIsOnePass(q);
    assert Pattern(q) == "%" + (OnePass(q) + "%");
    PercentSkips(t, OnePass(q) + "%");
    forall i | 0 <= i <= |t| ensures Matches(t[i..], OnePass(q) + "%") <==> q <= t[i..] {
      EscapedPrefix(t[i..], q);
    }
  }

  /** A pattern may not end in a lone escape character, nor escape anything but a metacharacter. */
  lemma IllFormed(p: string, c: char, rest: string)
    requires WellFormed(p + ['\\'] + rest) && WellFormed(p) && (rest == "" || rest[0] == c)
    ensures rest != "" && IsMeta(c) && WellFormed(rest[1..])
    decreases |p|
  {
    var r := p + ['\\'] + rest;
    if p == "" {
      assert r[1..] == rest && r[2..] == if rest == "" then "" else rest[1..];
    } else {
      var n := if p[0] == '\\' then 2 else 1;
      assert r[n..] == p[n..] + ['\\'] + rest;
      IllFormed(p[n..], c, rest);
    }
  }

  lemma WellFormedEscape(c: char, p: string)
    requires WellFormed(p)
    ensures WellFormed(EscapeChar(c) + p)
  {
    var r := EscapeChar(c) + p;
    assert r[|EscapeChar(c)|..] == p;
    assert r[0] == EscapeChar(c)[0] && (IsMeta(c) ==> r[1] == c);
  }

  lemma {:induction false} WellFormedBeforePercent(q: string)
    ensures WellFormed(OnePass(q) + "%")
  {
    if q != "" {
      var rest := OnePass(q[1..]) + "%";
      WellFormedBeforePercent(q[1..]);
      assert OnePass(q) + "%" == EscapeChar(q[0]) + rest;
      WellFormedEscape(q[0], rest);
    }
  }

  /** No query makes the LIKE predicate fail. */
  lemma PatternIsWellFormed(q: string)
    ensures WellFormed(Pattern(q))
  {
    EscapeIsOnePass(q);
    WellFormedBeforePercent(q);
    assert Pattern(q)[1..] == OnePass(q) + "%";
  }

  // ----- ILIKE: the same up to case -----

  function Fold(f: char -> char, s: string): (r: string)
    ensures |r| == |s| && forall i | 0 <= i < |s| :: r[i] == f(s[i])
  {
    if s == "" then "" else [f(s[0])] + Fold(f, s[1..])
  }

  /** A case fold leaves the metacharacters alone and turns nothing else into one. */
  ghost predicate IsCaseFold(f: char -> char) {
    forall c :: (IsMeta(c) ==> f(c) == c) && (IsMeta(f(c)) ==> IsMeta(c))
  }

  function ILike(f: char -> char, t: string, p: string): bool {
    Matches(Fold(f, t), Fold(f, p))
  }

  lemma {:induction false} FoldAppend(f: char -> char, s: string, t: string)
    ensures Fold(f, s + t) == Fold(f, s) + Fold(f, t)
  {
    if s == "" {
      assert s + t == t;
    } else {
      assert (s + t)[1..] == s[1..] + t;
      FoldAppend(f, s[1..], t);
    }
  }

  lemma {:induction false} FoldEscapes(f: char -> char, q: string)
    requires IsCaseFold(f)
    ensures Fold(f, OnePass(q)) == OnePass(Fold(f, q))
  {
    if q != "" {
      FoldAppend(f, EscapeChar(q[0]), OnePass(q[1..]));
      FoldEscapes(f, q[1..]);
      assert ['\\', q[0]][1..] == [q[0]] && [q[0]][1..] == "";
      assert Fold(f, EscapeChar(q[0])) == EscapeChar(f(q[0]));
    }
  }

  /** ILIKE with the escaped pattern matches exactly the texts that contain the query up to case. */
  lemma EscapingIsExactUpToCase(f: char -> char, t: string, q: string)
    requires IsCaseFold(f)
    ensures ILike(f, t, Pattern(q)) <==> Contains(Fold(f, t), Fold(f, q))
  {
    EscapeIsOnePass(q);
    EscapeIsOnePass(Fold(f, q));
    FoldEscapes(f, q);
    FoldAppend(f, "%" + OnePass(q), "%");
    FoldAppend(f, "%", OnePass(q));
    assert Fold(f, "%") == "%";
    assert Fold(f, Pattern(q)) == Pattern(Fold(f, q));
    EscapingIsExact(Fold(f, t), Fold(f, q));
  }
}
