// Full-text search over posts (app/post/infrastructure/repository.py, `search`).

module Search {
  import opened Queries
  import opened Blog
  import opened Like

  /** SQL's three truth values. */
  datatype Sql = True | False | Unknown

  function Or3(a: Sql, b: Sql): Sql {
    if a.True? || b.True? then True else if a.Unknown? || b.Unknown? then Unknown else False
  }

  function And3(a: Sql, b: Sql): Sql {
    if a.False? || b.False? then False else if a.Unknown? || b.Unknown? then Unknown else True
  }

  /** ILIKE on a column that may be NULL. */
  function ColumnILike(f: char -> char, column: Option<string>, pattern: string): Sql {
    if column.None? then Unknown else if ILike(f, column.value, pattern) then True else False
  }

  /** CASE WHEN cond THEN weight ELSE 0 END */
  function CaseWhen(cond: Sql, weight: int): int {
    if cond.True? then weight else 0
  }

  function Score(f: char -> char, pattern: string, p: Post): int {
    CaseWhen(ColumnILike(f, Some(p.title), pattern), 3)
    + CaseWhen(ColumnILike(f, Some(p.excerpt), pattern), 2)
    + CaseWhen(ColumnILike(f, p.content, pattern), 1)
  }

  function WhereClause(f: char -> char, pattern: string, p: Post): Sql {
    And3(if p.status == Published then True else False,
         Or3(Or3(ColumnILike(f, Some(p.title), pattern), ColumnILike(f, Some(p.excerpt), pattern)),
             ColumnILike(f, p.content, pattern)))
  }

  function SearchOrder(f: char -> char, rank: string -> real, pattern: string): Order<Post> {
    Order((p: Post) => Score(f, pattern, p), (p: Post) => p.date, (p: Post) => rank(p.id))
  }

  function SearchPosts(t: Tables, f: char -> char, rank: string -> real, q: string, page: nat, size: nat): Paginated
    requires page >= 1 && size >= 1
  {
    var pattern := Pattern(q);
    Listing(SearchOrder(f, rank, pattern), Filter((p: Post) => WhereClause(f, pattern, p).True?, t.posts), page, size)
  }

  /** AND takes the least and OR the greatest of two truth values in this order. */
  function Truth(a: Sql): int {
    match a
    case False => 0
    case Unknown => 1
    case True => 2
  }

  lemma AndIsLeastOrIsGreatest(a: Sql, b: Sql)
    ensures Truth(And3(a, b)) == Min(Truth(a), Truth(b))
    ensures Truth(Or3(a, b)) == -Min(-Truth(a), -Truth(b))
  {}

  /** On a published post with no content that matches nowhere else the WHERE clause is unknown, which
      selects nothing, not false. */
  lemma NullContentIsUnknown(f: char -> char, pattern: string, p: Post)
    requires p.status == Published && p.content == None
    requires !ILike(f, p.title, pattern) && !ILike(f, p.excerpt, pattern)
    ensures WhereClause(f, pattern, p) == Unknown
  {}

  /** Title, excerpt and content containing the query, up to case, count 3, 2 and 1. */
  ghost function Relevance(f: char -> char, q: string, p: Post): nat {
    (if Contains(Fold(f, p.title), Fold(f, q)) then 3 else 0)
    + (if Contains(Fold(f, p.excerpt), Fold(f, q)) then 2 else 0)
    + (if p.content.Some? && Contains(Fold(f, p.content.value), Fold(f, q)) then 1 else 0)
  }

  lemma ScoreIsRelevance(f: char -> char, q: string, p: Post)
    requires IsCaseFold(f)
    ensures Score(f, Pattern(q), p) == Relevance(f, q, p)
  {
    EscapingIsExactUpToCase(f, p.title, q);
    EscapingIsExactUpToCase(f, p.excerpt, q);
    if p.content.Some? {
      EscapingIsExactUpToCase(f, p.content.value, q);
    }
  }

  /** Selection agrees with scoring, NULL content included: the WHERE clause holds of a row if and only
      if the post is published and scores at least 1, that is, contains the query somewhere. */
  lemma SelectionAgreesWithScore(f: char -> char, q: string, p: Post)
    requires IsCaseFold(f)
    ensures WhereClause(f, Pattern(q), p).True? <==> p.status == Published && Score(f, Pattern(q), p) >= 1
    ensures Score(f, Pattern(q), p) >= 1 <==> Relevance(f, q, p) >= 1
  {
    ScoreIsRelevance(f, q, p);
    WhereMeansScore(f, Pattern(q), p);
  }

  lemma WhereMeansScore(f: char -> char, pattern: string, p: Post)
    ensures WhereClause(f, pattern, p).True? <==> p.status == Published && Score(f, pattern, p) >= 1
  {
    var title, excerpt := ColumnILike(f, Some(p.title), pattern), ColumnILike(f, Some(p.excerpt), pattern);
    var content := ColumnILike(f, p.content, pattern);
    assert Score(f, pattern, p) >= 1 <==> title.True? || excerpt.True? || content.True?;
    assert Or3(Or3(title, excerpt), content).True? <==> title.True? || excerpt.True? || content.True?;
  }

  /** The search pages through the published posts that contain the query, the most relevant first,
      then by date descending and id: a strict order, in which no two posts tie. */
  lemma SearchPaginates(t: Tables, f: char -> char, rank: string -> real, q: string, size: nat,
                        listing: nat -> Paginated, o: Order<Post>, relevant: Post -> bool)
    requires KeysOk(t) && IsCollation(rank) && IsCaseFold(f) && size >= 1
    requires forall page: nat | page >= 1 :: listing(page) == SearchPosts(t, f, rank, q, page, size)
    requires forall p :: o.k1(p) == Relevance(f, q, p) && o.k2(p) == p.date && o.k3(p) == rank(p.id)
    requires forall p :: relevant(p) <==> p.status == Published && Relevance(f, q, p) >= 1
    ensures exists xs :: Sorted(o, xs) && multiset(xs) == multiset(Filter(relevant, t.posts))
                         && Paginates(xs, size, listing)
  {
    var pattern := Pattern(q);
    var where := (p: Post) => WhereClause(f, pattern, p).True?;
    forall p ensures where(p) == relevant(p) && Score(f, pattern, p) == Relevance(f, q, p) {
      SelectionAgreesWithScore(f, q, p);
      ScoreIsRelevance(f, q, p);
    }
    FilterAgree(where, relevant, t.posts);
    var base := Filter(where, t.posts);
    FilterUniqueIds(where, t.posts);
    var mine := SearchOrder(f, rank, pattern);
    ListingPaginates(mine, rank, base, size, listing);
    var xs := OrderBy(mine, base);
    forall i, j | 0 <= i < j < |xs| ensures Before(o, xs[i], xs[j]) {
      assert Before(mine, xs[i], xs[j]);
    }
    assert Sorted(o, xs);
  }
}
