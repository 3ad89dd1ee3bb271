// Tags with their numbers of published posts (app/tag/infrastructure/repository.py,
// app/tag/application/service.py).

module TagCounts {
  import opened Queries
  import opened Blog
  import opened Navigation
  import opened PostService

  // ----- list_with_counts: two outer joins, grouped by tag -----

  /** The published posts a pair leads to. */
  function PublishedOf(posts: seq<Post>, g: Tagging): seq<Post> {
    Filter((p: Post) => p.id == g.postId && IsPublished(p), posts)
  }

  function AsRows(ps: seq<Post>): seq<Option<Post>> {
    if ps == [] then [] else [Some(ps[0])] + AsRows(ps[1..])
  }

  /** LEFT JOIN posts: a pair without a published post still gives a row, of NULLs. */
  function JoinPosts(posts: seq<Post>, gs: seq<Tagging>): seq<Option<Post>> {
    if gs == [] then []
    else
      var ps := PublishedOf(posts, gs[0]);
      (if ps == [] then [None] else AsRows(ps)) + JoinPosts(posts, gs[1..])
  }

  function PairsOf(t: Tables, name: string): seq<Tagging> {
    Filter((g: Tagging) => g.tag == name, t.taggings)
  }

  /** The rows of one group: a tag without pairs has one row of NULLs. */
  function GroupOf(t: Tables, name: string): seq<Option<Post>> {
    if PairsOf(t, name) == [] then [None] else JoinPosts(t.posts, PairsOf(t, name))
  }

  /** GROUP BY: a tag makes a group if the joins give it a row. */
  function Groups(t: Tables): seq<string> {
    Filter((name: string) => GroupOf(t, name) != [], t.tags)
  }

  /** count(posts.id): NULLs do not count. */
  function CountIds(rows: seq<Option<Post>>): nat {
    if rows == [] then 0 else (if rows[0].Some? then 1 else 0) + CountIds(rows[1..])
  }

  datatype TagRead = TagRead(name: string, count: nat)

  function Counted(t: Tables, names: seq<string>): (r: seq<TagRead>)
    ensures |r| == |names|
    ensures forall i | 0 <= i < |r| :: r[i].name == names[i] && r[i].count == CountIds(GroupOf(t, names[i]))
  {
    seq(|names|, i requires 0 <= i < |names| => TagRead(names[i], CountIds(GroupOf(t, names[i]))))
  }

  /** Count descending, name ascending. */
  function CountOrder(rank: string -> real): Order<TagRead> {
    Order((r: TagRead) => r.count, (r: TagRead) => 0, (r: TagRead) => rank(r.name))
  }

  function ListWithCounts(t: Tables, rank: string -> real): seq<TagRead> {
    OrderBy(CountOrder(rank), Counted(t, Groups(t)))
  }

  // ----- get_count and the detail of a tag -----

  function GetCount(t: Tables, name: string): nat {
    |Filter(IsPublished, TagJoin(t.posts, t.taggings, name))|
  }

  datatype TagDetail = TagNotFound | TagDetail(tag: TagRead, posts: seq<Post>)

  function GetDetail(t: Tables, rank: string -> real, name: string): TagDetail {
    if name !in t.tags then TagNotFound
    else TagDetail(TagRead(name, GetCount(t, name)), ListByTag(t, rank, name))
  }

  // ----- Both count pairs -----

  function SumPublished(posts: seq<Post>, gs: seq<Tagging>): nat {
    if gs == [] then 0 else |PublishedOf(posts, gs[0])| + SumPublished(posts, gs[1..])
  }

  lemma {:induction false} CountAppend(a: seq<Option<Post>>, b: seq<Option<Post>>)
    ensures CountIds(a + b) == CountIds(a) + CountIds(b)
  {
    if a == [] {
      assert a + b == b;
    } else {
      assert (a + b)[1..] == a[1..] + b;
      CountAppend(a[1..], b);
    }
  }

  lemma {:induction false} CountRows(ps: seq<Post>)
    ensures CountIds(AsRows(ps)) == |ps|
  {
    if ps != [] {
      CountRows(ps[1..]);
      assert ([Some(ps[0])] + AsRows(ps[1..]))[1..] == AsRows(ps[1..]);
    }
  }

  lemma {:induction false} CountJoined(posts: seq<Post>, gs: seq<Tagging>)
    ensures CountIds(JoinPosts(posts, gs)) == SumPublished(posts, gs)
  {
    if gs != [] {
      var ps := PublishedOf(posts, gs[0]);
      CountJoined(posts, gs[1..]);
      CountRows(ps);
      var nulls: seq<Option<Post>> := [None];
      assert nulls[1..] == [];
      CountAppend(if ps == [] then nulls else AsRows(ps), JoinPosts(posts, gs[1..]));
    }
  }

  lemma GroupCount(t: Tables, name: string)
    ensures CountIds(GroupOf(t, name)) == SumPublished(t.posts, PairsOf(t, name))
  {
    CountJoined(t.posts, PairsOf(t, name));
  }

  /** The outer joins lose no tag. */
  lemma EveryTagIsGroup(t: Tables)
    ensures Groups(t) == t.tags
  {
    FilterAll((name: string) => GroupOf(t, name) != [], t.tags);
  }

  lemma {:induction false} FilterCopies(p: Post, n: nat)
    ensures Filter(IsPublished, Copies(p, n)) == if IsPublished(p) then Copies(p, n) else []
    ensures |Copies(p, n)| == n
  {
    if n > 0 {
      FilterCopies(p, n - 1);
      assert ([p] + Copies(p, n - 1))[1..] == Copies(p, n - 1);
    }
  }

  /** Taking the first post out of the table takes its pairs out of the sum. */
  lemma {:induction false} SumByFirstPost(posts: seq<Post>, gs: seq<Tagging>, name: string)
    requires posts != []
    ensures SumPublished(posts, Filter((g: Tagging) => g.tag == name, gs))
            == SumPublished(posts[1..], Filter((g: Tagging) => g.tag == name, gs))
               + (if IsPublished(posts[0])
                  then |Filter((g: Tagging) => g.postId == posts[0].id && g.tag == name, gs)| else 0)
  {
    if gs != [] {
      SumByFirstPost(posts, gs[1..], name);
    }
  }

  lemma {:induction false} JoinCount(posts: seq<Post>, gs: seq<Tagging>, name: string)
    ensures |Filter(IsPublished, TagJoin(posts, gs, name))|
            == SumPublished(posts, Filter((g: Tagging) => g.tag == name, gs))
  {
    if posts == [] {
      NoPosts(Filter((g: Tagging) => g.tag == name, gs));
    } else {
      var n := |Filter((g: Tagging) => g.postId == posts[0].id && g.tag == name, gs)|;
      JoinCount(posts[1..], gs, name);
      SumByFirstPost(posts, gs, name);
      FilterCopies(posts[0], n);
      FilterAppend(IsPublished, Copies(posts[0], n), TagJoin(posts[1..], gs, name));
    }
  }

  lemma {:induction false} NoPosts(gs: seq<Tagging>)
    ensures SumPublished([], gs) == 0
  {
    if gs != [] {
      NoPosts(gs[1..]);
    }
  }

  /** The three ways of counting a tag's published posts agree. */
  lemma CountsAgree(t: Tables, rank: string -> real, name: string)
    requires KeysOk(t) && IsCollation(rank)
    ensures CountIds(GroupOf(t, name)) == GetCount(t, name) == |ListByTag(t, rank, name)|
  {
    GroupCount(t, name);
    JoinCount(t.posts, t.taggings, name);
    var has := (p: Post) => HasTag(t.taggings, name, p);
    TagJoinSelects(t.posts, t.taggings, name, has);
    var both := (p: Post) => has(p) && IsPublished(p);
    FilterTwice(has, IsPublished, both, t.posts);
    FilteredKeys(t.posts, rank, both);
    var xs := OrderBy(ChronoOrder(rank), Filter(both, t.posts));
    OrderBySorts(ChronoOrder(rank), Filter(both, t.posts));
    SortedNoDup(ChronoOrder(rank), xs);
    UniqueOfDistinct(xs);
  }

  /** The number of published posts that have the tag, each counted once. */
  lemma GetCountIsExact(t: Tables, name: string, tagged: Post -> bool)
    requires KeysOk(t)
    requires forall p :: tagged(p) <==> p.status == Published && Tagging(p.id, name) in t.taggings
    ensures GetCount(t, name) == |Filter(tagged, t.posts)|
  {
    var has := (p: Post) => HasTag(t.taggings, name, p);
    TagJoinSelects(t.posts, t.taggings, name, has);
    FilterTwice(has, IsPublished, tagged, t.posts);
  }

  /** The detail of a tag shows its published posts, once each, by date descending and id ascending, and
      their number; 404 exactly for names that are no tag. */
  lemma DetailIsConsistent(t: Tables, rank: string -> real, name: string)
    requires KeysOk(t) && IsCollation(rank)
    ensures var d := GetDetail(t, rank, name);
            && (d.TagNotFound? <==> name !in t.tags)
            && (d.TagDetail? ==>
                  && d.tag.name == name && d.tag.count == |d.posts| && NoDup(d.posts)
                  && (forall p :: p in d.posts <==>
                                    p in t.posts && p.status == Published && Tagging(p.id, name) in t.taggings)
                  && forall i, j | 0 <= i < j < |d.posts| ::
                       d.posts[i].date > d.posts[j].date
                       || (d.posts[i].date == d.posts[j].date && rank(d.posts[i].id) < rank(d.posts[j].id)))
  {
    ListByTagIsExact(t, rank, name);
    CountsAgree(t, rank, name);
  }

  /** The tags are listed by count descending and name ascending. */
  lemma TagListIsSorted(t: Tables, rank: string -> real)
    requires NoDup(t.tags) && IsCollation(rank)
    ensures var rs := ListWithCounts(t, rank);
            forall i, j | 0 <= i < j < |rs| ::
              rs[i].count > rs[j].count || (rs[i].count == rs[j].count && rank(rs[i].name) < rank(rs[j].name))
  {
    EveryTagIsGroup(t);
    assert Keyed(CountOrder(rank), Counted(t, t.tags));
    OrderBySorts(CountOrder(rank), Counted(t, t.tags));
    SortedMeans(CountOrder(rank), ListWithCounts(t, rank));
  }

  /** Every tag is listed exactly once, those without posts included, with the count its detail shows. */
  lemma TagListIsComplete(t: Tables, rank: string -> real)
    requires KeysOk(t) && IsCollation(rank)
    ensures var rs := ListWithCounts(t, rank);
            && |rs| == |t.tags|
            && (forall r <- rs :: r.name in t.tags && r.count == GetCount(t, r.name))
            && (forall n <- t.tags :: TagRead(n, GetCount(t, n)) in rs)
  {
    EveryTagIsGroup(t);
    var base := Counted(t, t.tags);
    SameMembers(ListWithCounts(t, rank), base);
    forall n <- t.tags ensures TagRead(n, GetCount(t, n)) in base {
      CountsAgree(t, rank, n);
      var i :| 0 <= i < |t.tags| && t.tags[i] == n;
      assert base[i] == TagRead(n, GetCount(t, n));
    }
    forall r <- base ensures r.name in t.tags && r.count == GetCount(t, r.name) {
      CountsAgree(t, rank, r.name);
    }
  }

  // ----- The counts add up -----

  function Total(rs: seq<TagRead>): nat {
    if rs == [] then 0 else rs[0].count + Total(rs[1..])
  }

  lemma PublishedMeans(posts: seq<Post>, g: Tagging)
    ensures PublishedOf(posts, g) != [] <==> exists p <- posts :: p.id == g.postId && p.status == Published
  {
    if PublishedOf(posts, g) != [] {
      assert PublishedOf(posts, g)[0] in posts;
    }
  }

  function SumOver(posts: seq<Post>, names: seq<string>, gs: seq<Tagging>): nat {
    if names == [] then 0
    else SumPublished(posts, Filter((g: Tagging) => g.tag == names[0], gs)) + SumOver(posts, names[1..], gs)
  }

  lemma {:induction false} SumOverCons(posts: seq<Post>, names: seq<string>, g: Tagging, gs: seq<Tagging>)
    requires NoDup(names)
    ensures SumOver(posts, names, [g] + gs)
            == SumOver(posts, names, gs) + (if g.tag in names then |PublishedOf(posts, g)| else 0)
  {
    if names != [] {
      SumOverCons(posts, names[1..], g, gs);
      FilterCons((h: Tagging) => h.tag == names[0], g, gs);
      assert g.tag in names <==> g.tag == names[0] || g.tag in names[1..];
    }
  }

  lemma {:induction false} SumOverAll(posts: seq<Post>, names: seq<string>, gs: seq<Tagging>)
    requires NoDup(names) && UniqueIds(posts) && forall g <- gs :: g.tag in names
    ensures SumOver(posts, names, gs) == |Filter((g: Tagging) => PublishedOf(posts, g) != [], gs)|
  {
    if gs == [] {
      NothingToSum(posts, names);
    } else {
      assert gs == [gs[0]] + gs[1..];
      SumOverAll(posts, names, gs[1..]);
      SumOverCons(posts, names, gs[0], gs[1..]);
      AtMostOne(posts, gs[0]);
    }
  }

  lemma {:induction false} NothingToSum(posts: seq<Post>, names: seq<string>)
    ensures SumOver(posts, names, []) == 0
  {
    if names != [] {
      NothingToSum(posts, names[1..]);
    }
  }

  lemma {:induction false} AtMostOne(posts: seq<Post>, g: Tagging)
    requires UniqueIds(posts)
    ensures |PublishedOf(posts, g)| <= 1
  {
    if posts != [] {
      AtMostOne(posts[1..], g);
      if posts[0].id == g.postId {
        forall q <- posts[1..] ensures q.id != g.postId {
          var k :| 0 <= k < |posts[1..]| && posts[1..][k] == q;
          assert q == posts[k + 1];
        }
        FilterNone((p: Post) => p.id == g.postId && IsPublished(p), posts[1..]);
      }
    }
  }

  lemma {:induction false} TotalOfCounted(t: Tables, names: seq<string>)
    ensures Total(Counted(t, names)) == SumOver(t.posts, names, t.taggings)
  {
    if names != [] {
      TotalOfCounted(t, names[1..]);
      GroupCount(t, names[0]);
      assert Counted(t, names)[1..] == Counted(t, names[1..]);
    }
  }

  lemma {:induction false} TotalOfInsert(o: Order<TagRead>, r: TagRead, rs: seq<TagRead>)
    ensures Total(Insert(o, r, rs)) == r.count + Total(rs)
  {
    if rs == [] {
      assert [r][1..] == [];
    } else if Before(o, rs[0], r) {
      TotalOfInsert(o, r, rs[1..]);
      assert ([rs[0]] + Insert(o, r, rs[1..]))[1..] == Insert(o, r, rs[1..]);
    } else {
      assert ([r] + rs)[1..] == rs;
    }
  }

  lemma {:induction false} TotalOfOrderBy(o: Order<TagRead>, rs: seq<TagRead>)
    ensures Total(OrderBy(o, rs)) == Total(rs)
  {
    if rs != [] {
      TotalOfOrderBy(o, rs[1..]);
      TotalOfInsert(o, rs[0], OrderBy(o, rs[1..]));
    }
  }

  /** The listed counts sum to the number of pairs whose post is published. */
  lemma CountsSumToPublishedPairs(t: Tables, rank: string -> real, published: Tagging -> bool)
    requires Integrity(t)
    requires forall g :: published(g) <==> exists p <- t.posts :: p.id == g.postId && p.status == Published
    ensures Total(ListWithCounts(t, rank)) == |Filter(published, t.taggings)|
  {
    forall g <- t.taggings ensures published(g) == (PublishedOf(t.posts, g) != []) {
      PublishedMeans(t.posts, g);
    }
    FilterAgree(published, (g: Tagging) => PublishedOf(t.posts, g) != [], t.taggings);
    EveryTagIsGroup(t);
    TotalOfOrderBy(CountOrder(rank), Counted(t, t.tags));
    TotalOfCounted(t, t.tags);
    SumOverAll(t.posts, t.tags, t.taggings);
  }
}
