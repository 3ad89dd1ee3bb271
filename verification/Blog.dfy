// The tables of posts, tags and post_tags, and the listings over them
// (app/post/domain/entity.py, app/post/infrastructure/repository.py, app/core/pagination.py).

module Blog {
  import opened Queries

  datatype Kind = Essay | Note | Guide | Compare

  datatype PostStatus = Published | Draft | Scheduled

  datatype Post = Post(id: string, title: string, excerpt: string, content: Option<string>, date: int,
                       readTime: string, kind: Kind, status: PostStatus, featured: bool, updatedAt: int)

  /** A row of `post_tags`. */
  datatype Tagging = Tagging(postId: string, tag: string)

  /** Rows in the order the tables happen to store them. */
  datatype Tables = Tables(posts: seq<Post>, tags: seq<string>, taggings: seq<Tagging>)

  ghost predicate UniqueIds(posts: seq<Post>) {
    forall i, j | 0 <= i < j < |posts| :: posts[i].id != posts[j].id
  }

  /** The primary keys. */
  ghost predicate KeysOk(t: Tables) {
    UniqueIds(t.posts) && NoDup(t.tags) && NoDup(t.taggings)
  }

  /** The place of a text in the collation order of the database. */
  ghost predicate IsCollation(rank: string -> real) {
    forall a, b :: rank(a) == rank(b) ==> a == b
  }

  /** There is such an order: texts read as numbers in a base greater than any character. */
  function Number(text: string): nat {
    if text == "" then 0 else text[0] as int + 1 + 0x110001 * Number(text[1..])
  }

  lemma {:induction false} NumberTellsApart(a: string, b: string)
    requires Number(a) == Number(b)
    ensures a == b
  {
    if a != "" && b != "" {
      assert a[0] == b[0] && Number(a[1..]) == Number(b[1..]);
      NumberTellsApart(a[1..], b[1..]);
      assert a == [a[0]] + a[1..] && b == [b[0]] + b[1..];
    }
  }

  lemma CollationExists()
    ensures IsCollation((text: string) => Number(text) as real)
  {
    forall a, b | Number(a) as real == Number(b) as real ensures a == b {
      NumberTellsApart(a, b);
    }
  }

  lemma PostsAreKeyed(o: Order<Post>, rank: string -> real, posts: seq<Post>)
    requires UniqueIds(posts) && IsCollation(rank) && forall p <- posts :: o.k3(p) == rank(p.id)
    ensures Keyed(o, posts)
  {}

  // ----- The join with post_tags -----

  function Copies<T>(x: T, n: nat): seq<T> {
    if n == 0 then [] else [x] + Copies(x, n - 1)
  }

  /** posts JOIN post_tags ON post_id = id WHERE tag_name = tag: a post once for each matching pair. */
  function TagJoin(posts: seq<Post>, taggings: seq<Tagging>, tag: string): seq<Post> {
    if posts == [] then []
    else Copies(posts[0], |Filter((g: Tagging) => g.postId == posts[0].id && g.tag == tag, taggings)|)
         + TagJoin(posts[1..], taggings, tag)
  }

  predicate HasTag(taggings: seq<Tagging>, tag: string, p: Post) {
    Tagging(p.id, tag) in taggings
  }

  lemma {:induction false} CountOfKey(taggings: seq<Tagging>, p: Tagging -> bool, g: Tagging)
    requires NoDup(taggings) && forall h <- taggings :: p(h) <==> h == g
    ensures |Filter(p, taggings)| == if g in taggings then 1 else 0
  {
    if taggings != [] {
      CountOfKey(taggings[1..], p, g);
      assert taggings == [taggings[0]] + taggings[1..];
    }
  }

  /** The primary key of `post_tags` makes the join a selection: no post comes twice. */
  lemma {:induction false} TagJoinSelects(posts: seq<Post>, taggings: seq<Tagging>, tag: string, has: Post -> bool)
    requires NoDup(taggings) && forall p <- posts :: has(p) == HasTag(taggings, tag, p)
    ensures TagJoin(posts, taggings, tag) == Filter(has, posts)
  {
    if posts != [] {
      TagJoinSelects(posts[1..], taggings, tag, has);
      CountOfKey(taggings, (g: Tagging) => g.postId == posts[0].id && g.tag == tag, Tagging(posts[0].id, tag));
      assert Copies(posts[0], 1) == [posts[0]] + Copies(posts[0], 0);
      assert Copies(posts[0], 0) + TagJoin(posts[1..], taggings, tag) == TagJoin(posts[1..], taggings, tag);
    }
  }

  // ----- One page of a listing -----

  datatype Paginated = Paginated(items: seq<Post>, total: nat, page: nat, pageSize: nat, hasNext: bool)

  function Build(items: seq<Post>, total: nat, page: nat, pageSize: nat): Paginated {
    Paginated(items, total, page, pageSize, HasNext(total, page, pageSize))
  }

  /** count(*) over the selection, and its slice in the order asked for. */
  function Listing(o: Order<Post>, base: seq<Post>, page: nat, size: nat): Paginated
    requires page >= 1 && size >= 1
  {
    Build(Unique(Page(OrderBy(o, base), page, size)), |base|, page, size)
  }

  /** What the client of a paginated listing relies on: pages 1, 2, .. cut the sorted selection `xs`
      into consecutive pieces, `total` is its length, and `has_next` tells whether more follows. */
  ghost predicate Paginates(xs: seq<Post>, size: nat, listing: nat -> Paginated)
    requires size >= 1
  {
    forall page: nat | page >= 1 :: PageAt(xs, size, listing, page)
  }

  ghost predicate PageAt(xs: seq<Post>, size: nat, listing: nat -> Paginated, page: nat)
    requires size >= 1
  {
    && listing(page).page == page && listing(page).pageSize == size
    && PageOk(xs, size, listing(page), listing(page + 1))
    && Pages(xs, page, size) == xs[..Min(page * size, |xs|)]
  }

  ghost predicate PageOk(xs: seq<Post>, size: nat, current: Paginated, following: Paginated)
    requires size >= 1
  {
    && current.page >= 1 && current.items == Page(xs, current.page, size) && current.total == |xs|
    && (current.hasNext <==> following.items != [])
  }

  lemma PagesOf(xs: seq<Post>, size: nat, listing: nat -> Paginated)
    requires size >= 1
    requires forall page: nat | page >= 1 :: listing(page) == Build(Page(xs, page, size), |xs|, page, size)
    ensures Paginates(xs, size, listing)
  {
    forall page: nat | page >= 1 ensures PageAt(xs, size, listing, page) {
      HasNextIsExact(xs, page, size);
      PagesPartition(xs, page, size);
    }
  }

  lemma PaginatesMeans(xs: seq<Post>, size: nat, listing: nat -> Paginated, page: nat)
    requires size >= 1 && page >= 1 && Paginates(xs, size, listing)
    ensures var p := listing(page);
            && p.page == page && p.pageSize == size && p.total == |xs| && |p.items| <= size
            && p.items == xs[Min((page - 1) * size, |xs|)..Min(page * size, |xs|)]
            && (p.hasNext <==> page * size < |xs|)
  {
    assert PageAt(xs, size, listing, page) && PageAt(xs, size, listing, page + 1);
    assert (page - 1) * size + size == page * size;
    HasNextIsExact(xs, page, size);
  }

  lemma ListingPaginates(o: Order<Post>, rank: string -> real, base: seq<Post>, size: nat, listing: nat -> Paginated)
    requires size >= 1 && UniqueIds(base) && IsCollation(rank) && forall p <- base :: o.k3(p) == rank(p.id)
    requires forall page: nat | page >= 1 :: listing(page) == Listing(o, base, page, size)
    ensures Paginates(OrderBy(o, base), size, listing) && Sorted(o, OrderBy(o, base))
  {
    var xs := OrderBy(o, base);
    PostsAreKeyed(o, rank, base);
    OrderBySorts(o, base);
    SortedNoDup(o, xs);
    forall page: nat | page >= 1 ensures listing(page) == Build(Page(xs, page, size), |xs|, page, size) {
      UniquePage(xs, page, size);
    }
    PagesOf(xs, size, listing);
  }

  // ----- The listings of posts -----

  function AdminOrder(rank: string -> real): Order<Post> {
    Order((p: Post) => p.updatedAt, (p: Post) => 0, (p: Post) => rank(p.id))
  }

  function PublicOrder(rank: string -> real): Order<Post> {
    Order((p: Post) => if p.featured then 1 else 0, (p: Post) => p.date, (p: Post) => rank(p.id))
  }

  /** Date descending, id ascending. */
  function ChronoOrder(rank: string -> real): Order<Post> {
    Order((p: Post) => p.date, (p: Post) => 0, (p: Post) => rank(p.id))
  }

  function Base(t: Tables, tag: Option<string>): seq<Post> {
    match tag
    case None => t.posts
    case Some(name) => TagJoin(t.posts, t.taggings, name)
  }

  /** The conditions a listing was asked for, on one post. */
  predicate Selected(t: Tables, tag: Option<string>, kind: Option<Kind>, status: Option<PostStatus>, p: Post) {
    && (tag.Some? ==> HasTag(t.taggings, tag.value, p))
    && (kind.Some? ==> p.kind == kind.value)
    && (status.Some? ==> p.status == status.value)
  }

  function Selection(t: Tables, tag: Option<string>, kind: Option<Kind>, status: Option<PostStatus>): seq<Post> {
    Filter((p: Post) => status.Some? ==> p.status == status.value,
           Filter((p: Post) => kind.Some? ==> p.kind == kind.value, Base(t, tag)))
  }

  function ListAll(t: Tables, rank: string -> real, tag: Option<string>, kind: Option<Kind>, status: Option<PostStatus>,
                   page: nat, size: nat): Paginated
    requires page >= 1 && size >= 1
  {
    Listing(AdminOrder(rank), Selection(t, tag, kind, status), page, size)
  }

  function ListPublished(t: Tables, rank: string -> real, tag: Option<string>, kind: Option<Kind>,
                         page: nat, size: nat): Paginated
    requires page >= 1 && size >= 1
  {
    Listing(PublicOrder(rank), Selection(t, tag, kind, Some(Published)), page, size)
  }

  lemma {:induction false} FilterUniqueIds(p: Post -> bool, posts: seq<Post>)
    requires UniqueIds(posts)
    ensures UniqueIds(Filter(p, posts))
  {
    if posts != [] {
      FilterUniqueIds(p, posts[1..]);
      forall x <- Filter(p, posts[1..]) ensures x.id != posts[0].id {
        var k :| 0 <= k < |posts[1..]| && posts[1..][k] == x;
        assert x == posts[k + 1];
      }
    }
  }

  lemma {:induction false} FilterAll<T>(p: T -> bool, xs: seq<T>)
    requires forall x <- xs :: p(x)
    ensures Filter(p, xs) == xs
  {
    if xs != [] {
      FilterAll(p, xs[1..]);
    }
  }

  /** The query with its join selects from the table of posts, each matching post once. */
  lemma SelectionSelects(t: Tables, tag: Option<string>, kind: Option<Kind>, status: Option<PostStatus>)
    requires KeysOk(t)
    ensures Selection(t, tag, kind, status) == Filter((p: Post) => Selected(t, tag, kind, status, p), t.posts)
    ensures UniqueIds(Selection(t, tag, kind, status))
  {
    var byTag := (p: Post) => tag.Some? ==> HasTag(t.taggings, tag.value, p);
    var byKind := (p: Post) => kind.Some? ==> p.kind == kind.value;
    var byStatus := (p: Post) => status.Some? ==> p.status == status.value;
    var byTagKind := (p: Post) => byTag(p) && byKind(p);
    var all := (p: Post) => Selected(t, tag, kind, status, p);
    if tag.None? {
      FilterAll(byTag, t.posts);
    } else {
      TagJoinSelects(t.posts, t.taggings, tag.value, byTag);
    }
    FilterTwice(byTag, byKind, byTagKind, t.posts);
    FilterTwice(byTagKind, byStatus, all, t.posts);
    FilterUniqueIds(all, t.posts);
  }

  /** The admin listing pages through the selected posts by `updated_at` descending, then id. */
  lemma ListAllPaginates(t: Tables, rank: string -> real, tag: Option<string>, kind: Option<Kind>,
                         status: Option<PostStatus>, size: nat, listing: nat -> Paginated)
    requires KeysOk(t) && IsCollation(rank) && size >= 1
    requires forall page: nat | page >= 1 :: listing(page) == ListAll(t, rank, tag, kind, status, page, size)
    ensures var xs := OrderBy(AdminOrder(rank), Filter((p: Post) => Selected(t, tag, kind, status, p), t.posts));
            && Paginates(xs, size, listing)
            && multiset(xs) == multiset(Filter((p: Post) => Selected(t, tag, kind, status, p), t.posts))
            && forall i, j | 0 <= i < j < |xs| ::
                 xs[i].updatedAt > xs[j].updatedAt
                 || (xs[i].updatedAt == xs[j].updatedAt && rank(xs[i].id) < rank(xs[j].id))
  {
    SelectionSelects(t, tag, kind, status);
    ListingPaginates(AdminOrder(rank), rank, Selection(t, tag, kind, status), size, listing);
    SortedMeans(AdminOrder(rank), OrderBy(AdminOrder(rank), Selection(t, tag, kind, status)));
  }

  /** The public listing pages through the published posts, pinned ones first, then by date descending
      and id. */
  lemma ListPublishedPaginates(t: Tables, rank: string -> real, tag: Option<string>, kind: Option<Kind>,
                               size: nat, listing: nat -> Paginated)
    requires KeysOk(t) && IsCollation(rank) && size >= 1
    requires forall page: nat | page >= 1 :: listing(page) == ListPublished(t, rank, tag, kind, page, size)
    ensures var xs := OrderBy(PublicOrder(rank),
                              Filter((p: Post) => Selected(t, tag, kind, Some(Published), p), t.posts));
            && Paginates(xs, size, listing)
            && multiset(xs) == multiset(Filter((p: Post) => Selected(t, tag, kind, Some(Published), p), t.posts))
            && forall i, j | 0 <= i < j < |xs| ::
                 (xs[i].featured && !xs[j].featured)
                 || (xs[i].featured == xs[j].featured
                     && (xs[i].date > xs[j].date || (xs[i].date == xs[j].date && rank(xs[i].id) < rank(xs[j].id))))
  {
    SelectionSelects(t, tag, kind, Some(Published));
    ListingPaginates(PublicOrder(rank), rank, Selection(t, tag, kind, Some(Published)), size, listing);
    SortedMeans(PublicOrder(rank), OrderBy(PublicOrder(rank), Selection(t, tag, kind, Some(Published))));
  }
}
