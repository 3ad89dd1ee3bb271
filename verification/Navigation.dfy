// Neighbours of a post, and the walk along them (app/post/infrastructure/repository.py, `get_nav`
// and `list_by_tag`).

module Navigation {
  import opened Queries
  import opened Blog

  datatype Nav = NotFound | Found(prev: Option<Post>, next: Option<Post>)

  predicate IsPublished(p: Post) {
    p.status == Published
  }

  /** The WHERE clause of the query for the older neighbour of `post`. */
  predicate Older(rank: string -> real, post: Post, p: Post) {
    && IsPublished(p) && p.id != post.id
    && (p.date < post.date || (p.date == post.date && rank(p.id) > rank(post.id)))
  }

  predicate Newer(rank: string -> real, post: Post, p: Post) {
    && IsPublished(p) && p.id != post.id
    && (p.date > post.date || (p.date == post.date && rank(p.id) < rank(post.id)))
  }

  /** Date ascending, id descending. */
  function AntiChronoOrder(rank: string -> real): Order<Post> {
    Order((p: Post) => -p.date, (p: Post) => 0, (p: Post) => -rank(p.id))
  }

  function OlderThan(posts: seq<Post>, rank: string -> real, post: Post): seq<Post> {
    Filter((p: Post) => Older(rank, post, p), posts)
  }

  function NewerThan(posts: seq<Post>, rank: string -> real, post: Post): seq<Post> {
    Filter((p: Post) => Newer(rank, post, p), posts)
  }

  function Prev(posts: seq<Post>, rank: string -> real, post: Post): Option<Post> {
    First(OrderBy(ChronoOrder(rank), OlderThan(posts, rank, post)))
  }

  function Next(posts: seq<Post>, rank: string -> real, post: Post): Option<Post> {
    First(OrderBy(AntiChronoOrder(rank), NewerThan(posts, rank, post)))
  }

  /** The published post of that id is looked up first. */
  function GetNav(posts: seq<Post>, rank: string -> real, id: string): Nav {
    match First(Filter((p: Post) => p.id == id && IsPublished(p), posts))
    case None => NotFound
    case Some(post) => Found(Prev(posts, rank, post), Next(posts, rank, post))
  }

  /** The list that the neighbours are to agree with: published posts, date descending, id ascending. */
  function PublishedList(posts: seq<Post>, rank: string -> real): seq<Post> {
    OrderBy(ChronoOrder(rank), Filter(IsPublished, posts))
  }

  ghost predicate GoodTable(posts: seq<Post>, rank: string -> real) {
    UniqueIds(posts) && IsCollation(rank)
  }

  lemma PublishedListOk(posts: seq<Post>, rank: string -> real)
    requires GoodTable(posts, rank)
    ensures Sorted(ChronoOrder(rank), PublishedList(posts, rank))
    ensures forall p :: p in PublishedList(posts, rank) <==> p in posts && p.status == Published
  {
    var chosen := Filter(IsPublished, posts);
    FilterUniqueIds(IsPublished, posts);
    PostsAreKeyed(ChronoOrder(rank), rank, chosen);
    OrderBySorts(ChronoOrder(rank), chosen);
    SameMembers(PublishedList(posts, rank), chosen);
  }

  /** In the list, exactly the posts after `xs[i]` are older and exactly those before it are newer. */
  lemma SidesOfList(posts: seq<Post>, rank: string -> real, i: nat, j: nat)
    requires GoodTable(posts, rank) && i < |PublishedList(posts, rank)| && j < |PublishedList(posts, rank)|
    ensures var xs := PublishedList(posts, rank);
            (Older(rank, xs[i], xs[j]) <==> i < j) && (Newer(rank, xs[i], xs[j]) <==> j < i)
  {
    PublishedListOk(posts, rank);
    var xs := PublishedList(posts, rank);
    assert xs[i] in xs && xs[j] in xs;
    assert i < j ==> Before(ChronoOrder(rank), xs[i], xs[j]);
    assert j < i ==> Before(ChronoOrder(rank), xs[j], xs[i]);
  }

  lemma OlderAreAfter(posts: seq<Post>, rank: string -> real, i: nat)
    requires GoodTable(posts, rank) && i < |PublishedList(posts, rank)|
    ensures var xs := PublishedList(posts, rank);
            forall p :: p in OlderThan(posts, rank, xs[i]) <==> p in xs[i + 1..]
  {
    PublishedListOk(posts, rank);
    var xs := PublishedList(posts, rank);
    forall p ensures p in OlderThan(posts, rank, xs[i]) <==> p in xs[i + 1..] {
      assert p in OlderThan(posts, rank, xs[i]) <==> p in xs && Older(rank, xs[i], p);
      if p in xs {
        var j :| 0 <= j < |xs| && xs[j] == p;
        SidesOfList(posts, rank, i, j);
        assert i < j ==> p == xs[i + 1..][j - i - 1];
        if p in xs[i + 1..] {
          var k :| 0 <= k < |xs[i + 1..]| && xs[i + 1..][k] == p;
          SidesOfList(posts, rank, i, i + 1 + k);
        }
      }
    }
  }

  lemma NewerAreBefore(posts: seq<Post>, rank: string -> real, i: nat)
    requires GoodTable(posts, rank) && i < |PublishedList(posts, rank)|
    ensures var xs := PublishedList(posts, rank);
            forall p :: p in NewerThan(posts, rank, xs[i]) <==> p in xs[..i]
  {
    PublishedListOk(posts, rank);
    var xs := PublishedList(posts, rank);
    forall p ensures p in NewerThan(posts, rank, xs[i]) <==> p in xs[..i] {
      assert p in NewerThan(posts, rank, xs[i]) <==> p in xs && Newer(rank, xs[i], p);
      if p in xs {
        var j :| 0 <= j < |xs| && xs[j] == p;
        SidesOfList(posts, rank, i, j);
        assert j < i ==> p == xs[..i][j];
        if p in xs[..i] {
          var k :| 0 <= k < i && xs[..i][k] == p;
          SidesOfList(posts, rank, i, k);
        }
      }
    }
  }

  lemma FilteredKeys(posts: seq<Post>, rank: string -> real, p: Post -> bool)
    requires GoodTable(posts, rank)
    ensures Keyed(ChronoOrder(rank), Filter(p, posts)) && Keyed(AntiChronoOrder(rank), Filter(p, posts))
  {
    var found := Filter(p, posts);
    FilterUniqueIds(p, posts);
    forall a, b | 0 <= a < b < |found| ensures rank(found[a].id) != rank(found[b].id) {
      assert found[a].id != found[b].id;
    }
  }

  /** The two extremum queries find exactly the neighbours in the list. */
  lemma NavRefinesAdjacency(posts: seq<Post>, rank: string -> real, i: nat)
    requires GoodTable(posts, rank) && i < |PublishedList(posts, rank)|
    ensures var xs := PublishedList(posts, rank);
            && Prev(posts, rank, xs[i]) == (if i + 1 < |xs| then Some(xs[i + 1]) else None)
            && Next(posts, rank, xs[i]) == (if i > 0 then Some(xs[i - 1]) else None)
  {
    PublishedListOk(posts, rank);
    var xs := PublishedList(posts, rank);
    FilteredKeys(posts, rank, (p: Post) => Older(rank, xs[i], p));
    FilteredKeys(posts, rank, (p: Post) => Newer(rank, xs[i], p));
    OlderAreAfter(posts, rank, i);
    NewerAreBefore(posts, rank, i);
    LeastAfter(ChronoOrder(rank), xs, i, OlderThan(posts, rank, xs[i]));
    GreatestBefore(ChronoOrder(rank), AntiChronoOrder(rank), xs, i, NewerThan(posts, rank, xs[i]));
  }

  lemma LookupFinds(posts: seq<Post>, p: Post, matching: seq<Post>)
    requires UniqueIds(posts) && p in posts && p in matching && forall q <- matching :: q in posts && q.id == p.id
    ensures First(matching) == Some(p)
  {
    assert matching[0] in matching;
    var i, j :| 0 <= i < |posts| && posts[i] == p && 0 <= j < |posts| && posts[j] == matching[0];
  }

  /** The endpoint answers for a published post with its neighbours in the list. */
  lemma NavEndpoint(posts: seq<Post>, rank: string -> real, i: nat)
    requires GoodTable(posts, rank) && i < |PublishedList(posts, rank)|
    ensures var xs := PublishedList(posts, rank);
            GetNav(posts, rank, xs[i].id) == Found(if i + 1 < |xs| then Some(xs[i + 1]) else None,
                                                   if i > 0 then Some(xs[i - 1]) else None)
  {
    PublishedListOk(posts, rank);
    var p := PublishedList(posts, rank)[i];
    assert p in PublishedList(posts, rank);
    var isIt := (q: Post) => q.id == p.id && IsPublished(q);
    FilterAgree(isIt, (q: Post) => q.id == p.id && IsPublished(q), posts);
    LookupFinds(posts, p, Filter(isIt, posts));
    NavRefinesAdjacency(posts, rank, i);
  }

  /** It answers 404 exactly for the ids of no published post. */
  lemma NavNotFound(posts: seq<Post>, rank: string -> real, id: string)
    ensures GetNav(posts, rank, id).NotFound? <==> forall p <- posts :: p.status == Published ==> p.id != id
  {
    var matching := Filter((p: Post) => p.id == id && IsPublished(p), posts);
    if matching != [] {
      assert matching[0] in posts;
    }
  }

  lemma InverseOnList(xs: seq<Post>, i: nat, j: nat, prev: Option<Post>, next: Option<Post>)
    requires NoDup(xs) && i < |xs| && j < |xs|
    requires prev == At(xs, i + 1) && next == if j > 0 then Some(xs[j - 1]) else None
    ensures prev == Some(xs[j]) <==> next == Some(xs[i])
  {}

  /** Older and newer neighbour are inverse to each other. */
  lemma PrevAndNextAreInverse(posts: seq<Post>, rank: string -> real, i: nat, j: nat)
    requires GoodTable(posts, rank) && i < |PublishedList(posts, rank)| && j < |PublishedList(posts, rank)|
    ensures var xs := PublishedList(posts, rank);
            Prev(posts, rank, xs[i]) == Some(xs[j]) <==> Next(posts, rank, xs[j]) == Some(xs[i])
  {
    PublishedListOk(posts, rank);
    var xs := PublishedList(posts, rank);
    SortedNoDup(ChronoOrder(rank), xs);
    NavRefinesAdjacency(posts, rank, i);
    NavRefinesAdjacency(posts, rank, j);
    InverseOnList(xs, i, j, Prev(posts, rank, xs[i]), Next(posts, rank, xs[j]));
  }

  // ----- Walking from the newest post -----

  function At(xs: seq<Post>, i: nat): Option<Post> {
    if i < |xs| then Some(xs[i]) else None
  }

  /** The posts met in at most `n` steps along `step`. */
  function Walk(step: Post -> Option<Post>, at: Option<Post>, n: nat): seq<Post>
    decreases n
  {
    if at.None? || n == 0 then [] else [at.value] + Walk(step, step(at.value), n - 1)
  }

  lemma {:induction false} WalkFrom(step: Post -> Option<Post>, xs: seq<Post>, i: nat, n: nat)
    requires forall j | 0 <= j < |xs| :: step(xs[j]) == At(xs, j + 1)
    ensures Walk(step, At(xs, i), n) == xs[Min(i, |xs|)..Min(i + n, |xs|)]
    decreases n
  {
    if i < |xs| && n > 0 {
      WalkFrom(step, xs, i + 1, n - 1);
      assert xs[i..Min(i + n, |xs|)] == [xs[i]] + xs[i + 1..Min(i + n, |xs|)];
    }
  }

  function Newest(posts: seq<Post>, rank: string -> real): Option<Post> {
    First(PublishedList(posts, rank))
  }

  function WalkBack(posts: seq<Post>, rank: string -> real, n: nat): seq<Post> {
    Walk((p: Post) => Prev(posts, rank, p), Newest(posts, rank), n)
  }

  /** From the newest published post the older neighbours lead through every published post exactly
      once, by date descending and id ascending; after that many steps the walk has ended. */
  lemma WalkVisitsAll(posts: seq<Post>, rank: string -> real, n: nat)
    requires GoodTable(posts, rank) && n >= |PublishedList(posts, rank)|
    ensures WalkBack(posts, rank, n) == PublishedList(posts, rank)
    ensures NoDup(PublishedList(posts, rank))
    ensures forall p :: p in PublishedList(posts, rank) <==> p in posts && p.status == Published
    ensures var xs := PublishedList(posts, rank);
            forall i, j | 0 <= i < j < |xs| ::
              xs[i].date > xs[j].date || (xs[i].date == xs[j].date && rank(xs[i].id) < rank(xs[j].id))
  {
    PublishedListOk(posts, rank);
    var xs := PublishedList(posts, rank);
    SortedMeans(ChronoOrder(rank), xs);
    SortedNoDup(ChronoOrder(rank), xs);
    forall j | 0 <= j < |xs| ensures Prev(posts, rank, xs[j]) == At(xs, j + 1) {
      NavRefinesAdjacency(posts, rank, j);
    }
    WalkFrom((p: Post) => Prev(posts, rank, p), xs, 0, n);
  }

  // ----- The posts of a tag -----

  function ListByTag(t: Tables, rank: string -> real, tag: string): seq<Post> {
    Unique(OrderBy(ChronoOrder(rank), Filter(IsPublished, TagJoin(t.posts, t.taggings, tag))))
  }

  /** The posts of a tag are its published posts, once each, by date descending and id ascending. */
  lemma ListByTagIsExact(t: Tables, rank: string -> real, tag: string)
    requires KeysOk(t) && IsCollation(rank)
    ensures var ps := ListByTag(t, rank, tag);
            && NoDup(ps)
            && (forall p :: p in ps <==> p in t.posts && p.status == Published && Tagging(p.id, tag) in t.taggings)
            && forall i, j | 0 <= i < j < |ps| ::
                 ps[i].date > ps[j].date || (ps[i].date == ps[j].date && rank(ps[i].id) < rank(ps[j].id))
  {
    var o, has := ChronoOrder(rank), (p: Post) => Tagging(p.id, tag) in t.taggings;
    var base := Filter(IsPublished, TagJoin(t.posts, t.taggings, tag));
    TagJoinSelects(t.posts, t.taggings, tag, has);
    FilterUniqueIds(has, t.posts);
    FilterUniqueIds(IsPublished, Filter(has, t.posts));
    PostsAreKeyed(o, rank, base);
    OrderBySorts(o, base);
    SortedNoDup(o, OrderBy(o, base));
    UniqueOfDistinct(OrderBy(o, base));
    SortedMeans(o, OrderBy(o, base));
    SameMembers(OrderBy(o, base), base);
  }

  /** The posts of a tag are the walk's posts that have the tag, in the order of the walk. */
  lemma ListByTagFollowsWalk(t: Tables, rank: string -> real, tag: string)
    requires KeysOk(t) && IsCollation(rank)
    ensures ListByTag(t, rank, tag)
            == Filter((p: Post) => HasTag(t.taggings, tag, p), WalkBack(t.posts, rank, |t.posts|))
  {
    var o, has := ChronoOrder(rank), (p: Post) => HasTag(t.taggings, tag, p);
    var chosen := Filter(IsPublished, t.posts);
    TagJoinSelects(t.posts, t.taggings, tag, has);
    var both := (p: Post) => IsPublished(p) && has(p);
    FilterTwice(has, IsPublished, both, t.posts);
    FilterTwice(IsPublished, has, both, t.posts);
    FilteredKeys(t.posts, rank, IsPublished);
    FilterOrderBy(o, has, chosen);
    FilteredKeys(t.posts, rank, both);
    OrderBySorts(o, Filter(both, t.posts));
    SortedNoDup(o, OrderBy(o, Filter(both, t.posts)));
    UniqueOfDistinct(OrderBy(o, Filter(both, t.posts)));
    WalkVisitsAll(t.posts, rank, |t.posts|);
  }
}
