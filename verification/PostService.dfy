// Creating, updating, publishing and deleting posts, and the tags they need
// (app/post/application/service.py, `TagRepository.ensure` of app/tag/infrastructure/repository.py).

module PostService {
  import opened Queries
  import opened Blog

  datatype Result = Done | PostNotFound | SlugConflict

  // ----- Tags -----

  /** What `ensure` returns, and the table of tags it leaves. */
  datatype Ensured = Ensured(found: seq<string>, tags: seq<string>)

  function Ensure(tags: seq<string>, names: seq<string>): Ensured {
    var distinct := Unique(names);
    var existing := Filter((n: string) => n in distinct, tags);
    var missing := Filter((n: string) => n !in existing, distinct);
    Ensured(existing + missing, tags + missing)
  }

  lemma {:induction false} UniqueKeeps(xs: seq<string>)
    ensures NoDup(Unique(xs)) && forall x :: x in Unique(xs) <==> x in xs
  {
    if xs != [] {
      UniqueKeeps(xs[..|xs| - 1]);
      assert xs == xs[..|xs| - 1] + [xs[|xs| - 1]];
    }
  }

  lemma {:induction false} FilterNoDup<T>(p: T -> bool, xs: seq<T>)
    requires NoDup(xs)
    ensures NoDup(Filter(p, xs))
  {
    if xs != [] {
      FilterNoDup(p, xs[1..]);
      forall x <- Filter(p, xs[1..]) ensures x != xs[0] {
        var k :| 0 <= k < |xs[1..]| && xs[1..][k] == x;
        assert x == xs[k + 1];
      }
    }
  }

  lemma {:induction false} FilterNone<T>(p: T -> bool, xs: seq<T>)
    requires forall x <- xs :: !p(x)
    ensures Filter(p, xs) == []
  {
    if xs != [] {
      FilterNone(p, xs[1..]);
    }
  }

  lemma NoDupAppend<T>(xs: seq<T>, ys: seq<T>)
    requires NoDup(xs) && NoDup(ys) && forall x <- xs :: x !in ys
    ensures NoDup(xs + ys)
  {
    forall i, j | 0 <= i < j < |xs + ys| ensures (xs + ys)[i] != (xs + ys)[j] {
      if i < |xs| <= j {
        assert xs[i] in xs && ys[j - |xs|] in ys;
      }
    }
  }

  /** One row for each distinct name asked for; the table grows by exactly the missing names and keeps
      its key; asking again changes nothing. */
  lemma EnsureIsExact(tags: seq<string>, names: seq<string>)
    requires NoDup(tags)
    ensures var e := Ensure(tags, names);
            && NoDup(e.found) && (forall n :: n in e.found <==> n in names)
            && NoDup(e.tags) && tags <= e.tags && (forall n :: n in e.tags <==> n in tags || n in names)
            && Ensure(e.tags, names).tags == e.tags
  {
    var e := Ensure(tags, names);
    var distinct := Unique(names);
    var existing := Filter((n: string) => n in distinct, tags);
    var missing := Filter((n: string) => n !in existing, distinct);
    UniqueKeeps(names);
    FilterNoDup((n: string) => n in distinct, tags);
    FilterNoDup((n: string) => n !in existing, distinct);
    assert forall n <- missing :: n in distinct && n !in existing && n !in tags;
    NoDupAppend(existing, missing);
    NoDupAppend(tags, missing);
    var again := Filter((n: string) => n in distinct, e.tags);
    assert forall n <- distinct :: n in e.tags && n in again;
    FilterNone((n: string) => n !in again, distinct);
  }

  // ----- Partial updates of the columns -----

  datatype Key = TitleKey | ExcerptKey | ContentKey | DateKey | ReadTimeKey | KindKey | FeaturedKey | StatusKey

  /** One column with a value, as an entry of the payload or as read off a post. */
  datatype Field =
    | Title(title: string)
    | Excerpt(excerpt: string)
    | Content(content: Option<string>)
    | Date(date: int)
    | ReadTime(readTime: string)
    | OfKind(kind: Kind)
    | Featured(featured: bool)
    | Status(status: PostStatus)

  function KeyOf(f: Field): Key {
    match f
    case Title(_) => TitleKey
    case Excerpt(_) => ExcerptKey
    case Content(_) => ContentKey
    case Date(_) => DateKey
    case ReadTime(_) => ReadTimeKey
    case OfKind(_) => KindKey
    case Featured(_) => FeaturedKey
    case Status(_) => StatusKey
  }

  function FieldOf(p: Post, k: Key): Field {
    match k
    case TitleKey => Title(p.title)
    case ExcerptKey => Excerpt(p.excerpt)
    case ContentKey => Content(p.content)
    case DateKey => Date(p.date)
    case ReadTimeKey => ReadTime(p.readTime)
    case KindKey => OfKind(p.kind)
    case FeaturedKey => Featured(p.featured)
    case StatusKey => Status(p.status)
  }

  /** setattr */
  function Set(p: Post, f: Field): Post {
    match f
    case Title(v) => p.(title := v)
    case Excerpt(v) => p.(excerpt := v)
    case Content(v) => p.(content := v)
    case Date(v) => p.(date := v)
    case ReadTime(v) => p.(readTime := v)
    case OfKind(v) => p.(kind := v)
    case Featured(v) => p.(featured := v)
    case Status(v) => p.(status := v)
  }

  function SetAll(p: Post, fields: seq<Field>): Post {
    if fields == [] then p else Set(SetAll(p, fields[..|fields| - 1]), fields[|fields| - 1])
  }

  lemma SetOne(p: Post, f: Field, k: Key)
    ensures FieldOf(Set(p, f), k) == if KeyOf(f) == k then f else FieldOf(p, k)
    ensures Set(p, f).id == p.id && Set(p, f).updatedAt == p.updatedAt
  {}

  /** A partial update gives the columns sent the values sent, and keeps all others. */
  lemma {:induction false} PartialUpdate(p: Post, fields: seq<Field>, k: Key)
    requires forall i, j | 0 <= i < j < |fields| :: KeyOf(fields[i]) != KeyOf(fields[j])
    ensures forall f <- fields :: KeyOf(f) == k ==> FieldOf(SetAll(p, fields), k) == f
    ensures (forall f <- fields :: KeyOf(f) != k) ==> FieldOf(SetAll(p, fields), k) == FieldOf(p, k)
    ensures SetAll(p, fields).id == p.id && SetAll(p, fields).updatedAt == p.updatedAt
  {
    if fields != [] {
      PartialUpdate(p, fields[..|fields| - 1], k);
      SetOne(SetAll(p, fields[..|fields| - 1]), fields[|fields| - 1], k);
      assert fields == fields[..|fields| - 1] + [fields[|fields| - 1]];
    }
  }

  // ----- The operations on the tables -----

  datatype PostCreate = PostCreate(id: Option<string>, tags: seq<string>, title: string, excerpt: string,
                                   content: Option<string>, date: int, readTime: string, kind: Kind,
                                   featured: bool, status: PostStatus)

  /** `id` and `tags` are absent where the payload leaves them out or sends null; `fields` are the other
      entries sent, at most one for each column. */
  datatype PostUpdate = PostUpdate(id: Option<string>, tags: Option<seq<string>>, fields: seq<Field>)

  /** The database's and the application's time. */
  datatype Clocks = Clocks(db: int, app: int, today: int)

  function IndexOf(posts: seq<Post>, id: string): (i: nat)
    ensures i <= |posts|
    ensures i < |posts| ==> posts[i].id == id
    ensures forall j | 0 <= j < i :: posts[j].id != id
  {
    if posts == [] || posts[0].id == id then 0 else 1 + IndexOf(posts[1..], id)
  }

  predicate Exists(posts: seq<Post>, id: string) {
    IndexOf(posts, id) < |posts|
  }

  function Names(slugify: string -> string, tags: seq<string>): (names: seq<string>)
    ensures |names| == |tags| && forall i | 0 <= i < |tags| :: names[i] == slugify(tags[i])
  {
    seq(|tags|, i requires 0 <= i < |tags| => slugify(tags[i]))
  }

  function Pairs(id: string, names: seq<string>): (pairs: seq<Tagging>)
    ensures |pairs| == |names| && forall i | 0 <= i < |names| :: pairs[i] == Tagging(id, names[i])
  {
    seq(|names|, i requires 0 <= i < |names| => Tagging(id, names[i]))
  }

  function Others(taggings: seq<Tagging>, id: string): seq<Tagging> {
    Filter((g: Tagging) => g.postId != id, taggings)
  }

  /** ON UPDATE CASCADE */
  function Cascade(taggings: seq<Tagging>, id: string, newId: string): (r: seq<Tagging>)
    ensures |r| == |taggings|
    ensures forall i | 0 <= i < |r| ::
              r[i] == if taggings[i].postId == id then Tagging(newId, taggings[i].tag) else taggings[i]
  {
    seq(|taggings|, i requires 0 <= i < |taggings| =>
          if taggings[i].postId == id then Tagging(newId, taggings[i].tag) else taggings[i])
  }

  function SlugOf(slugify: string -> string, c: PostCreate): string {
    if c.id.Some? && c.id.value != "" then c.id.value else slugify(c.title)
  }

  function Create(t: Tables, slugify: string -> string, c: PostCreate, now: Clocks): (Tables, Result) {
    var slug := SlugOf(slugify, c);
    if Exists(t.posts, slug) then (t, SlugConflict)
    else
      var e := Ensure(t.tags, Names(slugify, c.tags));
      var post := Post(slug, c.title, c.excerpt, c.content, c.date, c.readTime, c.kind, c.status, c.featured, now.db);
      (Tables(t.posts + [post], e.tags, t.taggings + Pairs(slug, e.found)), Done)
  }

  /** `updated_at`: set by the application when tags are sent, by the database whenever its UPDATE of
      the row comes last. */
  function Touched(before: Post, after: Post, u: PostUpdate, now: Clocks): int {
    if u.id.Some? && u.id.value != before.id then now.db
    else if u.tags.Some? then now.app
    else if after != before then now.db
    else before.updatedAt
  }

  function WithTags(t: Tables, slugify: string -> string, id: string, tags: Option<seq<string>>): Tables {
    if tags.None? then t
    else
      var e := Ensure(t.tags, Names(slugify, tags.value));
      Tables(t.posts, e.tags, Others(t.taggings, id) + Pairs(id, e.found))
  }

  function Update(t: Tables, slugify: string -> string, id: string, u: PostUpdate, now: Clocks): (Tables, Result) {
    var i := IndexOf(t.posts, id);
    if i == |t.posts| then (t, PostNotFound)
    else
      var post := SetAll(t.posts[i], u.fields);
      var t' := WithTags(t, slugify, id, u.tags);
      var at := Touched(t.posts[i], post, u, now);
      if u.id.None? || u.id.value == id then (t'.(posts := t.posts[i := post.(updatedAt := at)]), Done)
      else if Exists(t.posts, u.id.value) then (t, SlugConflict)
      else (t'.(posts := t.posts[i := post.(updatedAt := at, id := u.id.value)],
                taggings := Cascade(t'.taggings, id, u.id.value)), Done)
  }

  function Delete(t: Tables, id: string): (Tables, Result) {
    var i := IndexOf(t.posts, id);
    if i == |t.posts| then (t, PostNotFound)
    else (t.(posts := t.posts[..i] + t.posts[i + 1..], taggings := Others(t.taggings, id)), Done)
  }

  function Publish(t: Tables, id: string, now: Clocks): (Tables, Result) {
    var i := IndexOf(t.posts, id);
    if i == |t.posts| then (t, PostNotFound)
    else
      var post := t.posts[i].(status := Published, date := now.today);
      (t.(posts := t.posts[i := post.(updatedAt := if post != t.posts[i] then now.db else post.updatedAt)]), Done)
  }

  // ----- Relational integrity -----

  ghost predicate HasPost(posts: seq<Post>, id: string) {
    exists p <- posts :: p.id == id
  }

  /** The primary keys, and the foreign keys of `post_tags`. */
  ghost predicate Integrity(t: Tables) {
    && KeysOk(t)
    && forall g <- t.taggings :: HasPost(t.posts, g.postId) && g.tag in t.tags
  }

  ghost function TagsOf(t: Tables, id: string): set<string> {
    set g <- t.taggings | g.postId == id :: g.tag
  }

  lemma PairsOk(id: string, names: seq<string>)
    requires NoDup(names)
    ensures NoDup(Pairs(id, names))
    ensures forall g :: g in Pairs(id, names) <==> g.postId == id && g.tag in names
  {
    forall g ensures g in Pairs(id, names) <==> g.postId == id && g.tag in names {
      if g.postId == id && g.tag in names {
        var i :| 0 <= i < |names| && names[i] == g.tag;
        assert Pairs(id, names)[i] == g;
      }
    }
  }

  /** The row at `i` replaced by one of another, or the same, id. */
  lemma ReplaceRow(posts: seq<Post>, i: nat, p: Post)
    requires UniqueIds(posts) && i < |posts|
    requires p.id == posts[i].id || forall q <- posts :: q.id != p.id
    ensures UniqueIds(posts[i := p])
    ensures forall id :: HasPost(posts[i := p], id) <==> id == p.id || (id != posts[i].id && HasPost(posts, id))
  {
    var posts' := posts[i := p];
    forall id ensures HasPost(posts', id) <==> id == p.id || (id != posts[i].id && HasPost(posts, id)) {
      assert posts'[i] == p && p in posts';
      if id != posts[i].id && HasPost(posts, id) {
        var q :| q in posts && q.id == id;
        var k :| 0 <= k < |posts| && posts[k] == q;
        assert posts'[k] == q && q in posts';
      }
      if HasPost(posts', id) {
        var q :| q in posts' && q.id == id;
        var k :| 0 <= k < |posts'| && posts'[k] == q;
        assert k != i ==> posts[k] == q && q in posts;
      }
    }
  }

  lemma AppendRow(posts: seq<Post>, p: Post)
    requires UniqueIds(posts) && !Exists(posts, p.id)
    ensures UniqueIds(posts + [p])
    ensures forall id :: HasPost(posts + [p], id) <==> id == p.id || HasPost(posts, id)
  {
    forall id ensures HasPost(posts + [p], id) <==> id == p.id || HasPost(posts, id) {
      assert p in posts + [p];
      assert forall q :: q in posts + [p] <==> q in posts || q == p;
    }
  }

  lemma DropRow(posts: seq<Post>, i: nat)
    requires UniqueIds(posts) && i < |posts|
    ensures UniqueIds(posts[..i] + posts[i + 1..])
    ensures forall id :: HasPost(posts[..i] + posts[i + 1..], id) <==> id != posts[i].id && HasPost(posts, id)
  {
    var rest := posts[..i] + posts[i + 1..];
    assert forall k | 0 <= k < |rest| :: rest[k] == if k < i then posts[k] else posts[k + 1];
    forall id ensures HasPost(rest, id) <==> id != posts[i].id && HasPost(posts, id) {
      if id != posts[i].id && HasPost(posts, id) {
        var q :| q in posts && q.id == id;
        var k :| 0 <= k < |posts| && posts[k] == q;
        assert rest[if k < i then k else k - 1] == q;
      }
      if HasPost(rest, id) {
        var q :| q in rest && q.id == id;
        var k :| 0 <= k < |rest| && rest[k] == q;
        assert q in posts;
      }
    }
  }

  lemma {:induction false} DropIsFilter(posts: seq<Post>, i: nat, keep: Post -> bool)
    requires i < |posts| && !keep(posts[i]) && forall k | 0 <= k < |posts| && k != i :: keep(posts[k])
    ensures posts[..i] + posts[i + 1..] == Filter(keep, posts)
  {
    if i == 0 {
      FilterAll(keep, posts[1..]);
    } else {
      DropIsFilter(posts[1..], i - 1, keep);
      assert posts[..i] + posts[i + 1..] == [posts[0]] + (posts[1..][..i - 1] + posts[1..][i..]);
    }
  }

  lemma CreateKeeps(t: Tables, slugify: string -> string, c: PostCreate, now: Clocks)
    requires Integrity(t)
    ensures Integrity(Create(t, slugify, c, now).0)
  {
    var slug, e := SlugOf(slugify, c), Ensure(t.tags, Names(slugify, c.tags));
    if !Exists(t.posts, slug) {
      var t' := Create(t, slugify, c, now).0;
      EnsureIsExact(t.tags, Names(slugify, c.tags));
      PairsOk(slug, e.found);
      AppendRow(t.posts, t'.posts[|t.posts|]);
      forall g <- t.taggings ensures g !in Pairs(slug, e.found) {
        assert HasPost(t.posts, g.postId);
      }
      NoDupAppend(t.taggings, Pairs(slug, e.found));
    }
  }

  lemma WithTagsKeeps(t: Tables, slugify: string -> string, id: string, tags: Option<seq<string>>)
    requires Integrity(t) && HasPost(t.posts, id)
    ensures Integrity(WithTags(t, slugify, id, tags))
  {
    if tags.Some? {
      var e := Ensure(t.tags, Names(slugify, tags.value));
      EnsureIsExact(t.tags, Names(slugify, tags.value));
      PairsOk(id, e.found);
      FilterNoDup((g: Tagging) => g.postId != id, t.taggings);
      NoDupAppend(Others(t.taggings, id), Pairs(id, e.found));
    }
  }

  lemma CascadeOk(taggings: seq<Tagging>, id: string, newId: string)
    requires NoDup(taggings) && forall g <- taggings :: g.postId != newId
    ensures NoDup(Cascade(taggings, id, newId))
    ensures forall g :: g in Cascade(taggings, id, newId) <==>
                        if g.postId == newId then Tagging(id, g.tag) in taggings else g in taggings && g.postId != id
  {
    var r := Cascade(taggings, id, newId);
    forall g
      ensures g in r <==> if g.postId == newId then Tagging(id, g.tag) in taggings else g in taggings && g.postId != id
    {
      var h := if g.postId == newId then Tagging(id, g.tag) else g;
      if h in taggings && (g.postId == newId || g.postId != id) {
        var k :| 0 <= k < |taggings| && taggings[k] == h;
        assert r[k] == g;
      }
      if g in r {
        var k :| 0 <= k < |r| && r[k] == g;
        assert taggings[k] in taggings;
      }
    }
  }

  lemma RenameKeeps(t: Tables, id: string, newId: string, i: nat, p: Post)
    requires Integrity(t) && i < |t.posts| && t.posts[i].id == id && p.id == newId != id && !Exists(t.posts, newId)
    ensures Integrity(t.(posts := t.posts[i := p], taggings := Cascade(t.taggings, id, newId)))
  {
    ReplaceRow(t.posts, i, p);
    assert !HasPost(t.posts, newId);
    CascadeOk(t.taggings, id, newId);
    assert t.posts[i] in t.posts;
  }

  lemma UpdateKeeps(t: Tables, slugify: string -> string, id: string, u: PostUpdate, now: Clocks)
    requires Integrity(t)
    ensures Integrity(Update(t, slugify, id, u, now).0)
  {
    var i := IndexOf(t.posts, id);
    if i < |t.posts| && Update(t, slugify, id, u, now).1 == Done {
      assert t.posts[i] in t.posts;
      SetAllKeepsId(t.posts[i], u.fields);
      var t' := WithTags(t, slugify, id, u.tags);
      WithTagsKeeps(t, slugify, id, u.tags);
      var p := Update(t, slugify, id, u, now).0.posts[i];
      if u.id.Some? && u.id.value != id {
        RenameKeeps(t', id, u.id.value, i, p);
      } else {
        ReplaceRow(t'.posts, i, p);
      }
    }
  }

  lemma {:induction false} SetAllKeepsId(p: Post, fields: seq<Field>)
    ensures SetAll(p, fields).id == p.id
  {
    if fields != [] {
      SetAllKeepsId(p, fields[..|fields| - 1]);
    }
  }

  lemma DeleteKeeps(t: Tables, id: string)
    requires Integrity(t)
    ensures Integrity(Delete(t, id).0)
  {
    var i := IndexOf(t.posts, id);
    if i < |t.posts| {
      DropRow(t.posts, i);
      FilterNoDup((g: Tagging) => g.postId != id, t.taggings);
    }
  }

  lemma PublishKeeps(t: Tables, id: string, now: Clocks)
    requires Integrity(t)
    ensures Integrity(Publish(t, id, now).0)
  {
    var i := IndexOf(t.posts, id);
    if i < |t.posts| {
      ReplaceRow(t.posts, i, Publish(t, id, now).0.posts[i]);
    }
  }

  datatype Op =
    | CreateOp(c: PostCreate)
    | UpdateOp(id: string, u: PostUpdate)
    | DeleteOp(id: string)
    | PublishOp(id: string)

  function Apply(t: Tables, slugify: string -> string, op: Op, now: Clocks): Tables {
    match op
    case CreateOp(c) => Create(t, slugify, c, now).0
    case UpdateOp(id, u) => Update(t, slugify, id, u, now).0
    case DeleteOp(id) => Delete(t, id).0
    case PublishOp(id) => Publish(t, id, now).0
  }

  function Run(slugify: string -> string, ops: seq<(Op, Clocks)>): Tables {
    if ops == [] then Tables([], [], [])
    else Apply(Run(slugify, ops[..|ops| - 1]), slugify, ops[|ops| - 1].0, ops[|ops| - 1].1)
  }

  /** A run does one operation after another, starting from empty tables. */
  lemma RunContinues(slugify: string -> string, ops: seq<(Op, Clocks)>, op: Op, now: Clocks)
    ensures Run(slugify, []) == Tables([], [], [])
    ensures var t, t' := Run(slugify, ops), Run(slugify, ops + [(op, now)]);
            && (op.CreateOp? ==> t' == Create(t, slugify, op.c, now).0)
            && (op.UpdateOp? ==> t' == Update(t, slugify, op.id, op.u, now).0)
            && (op.DeleteOp? ==> t' == Delete(t, op.id).0)
            && (op.PublishOp? ==> t' == Publish(t, op.id, now).0)
  {
    assert (ops + [(op, now)])[..|ops|] == ops;
  }

  /** Over all runs, post ids stay unique and every pair names an existing post and tag. */
  lemma {:induction false} RunsKeepIntegrity(slugify: string -> string, ops: seq<(Op, Clocks)>)
    ensures Integrity(Run(slugify, ops))
  {
    if ops != [] {
      RunsKeepIntegrity(slugify, ops[..|ops| - 1]);
      var t, now := Run(slugify, ops[..|ops| - 1]), ops[|ops| - 1].1;
      match ops[|ops| - 1].0
      case CreateOp(c) => CreateKeeps(t, slugify, c, now);
      case UpdateOp(id, u) => UpdateKeeps(t, slugify, id, u, now);
      case DeleteOp(id) => DeleteKeeps(t, id);
      case PublishOp(id) => PublishKeeps(t, id, now);
    }
  }

  // ----- What each operation does to the tags of posts -----

  ghost function Normalized(slugify: string -> string, tags: seq<string>): set<string> {
    set n <- tags :: slugify(n)
  }

  lemma NamesAreNormalized(slugify: string -> string, tags: seq<string>)
    ensures forall n :: n in Names(slugify, tags) <==> n in Normalized(slugify, tags)
  {
    forall n ensures n in Names(slugify, tags) <==> n in Normalized(slugify, tags) {
      if n in Normalized(slugify, tags) {
        var x :| x in tags && slugify(x) == n;
        var i :| 0 <= i < |tags| && tags[i] == x;
        assert Names(slugify, tags)[i] == n;
      }
    }
  }

  /** Every column sent ends up in the column of its name. */
  ghost predicate StoredAs(p: Post, slug: string, c: PostCreate, now: Clocks) {
    && p.id == slug && p.title == c.title && p.excerpt == c.excerpt && p.content == c.content && p.date == c.date
    && p.readTime == c.readTime && p.kind == c.kind && p.featured == c.featured && p.status == c.status
    && p.updatedAt == now.db
  }

  /** A post created stores the payload and gets the set of its normalized tag names; a slug conflict
      changes nothing. */
  lemma CreateGivesTags(t: Tables, slugify: string -> string, c: PostCreate, now: Clocks, other: string)
    requires Integrity(t)
    ensures var (t', r) := Create(t, slugify, c, now);
            var slug := if c.id == None || c.id == Some("") then slugify(c.title) else c.id.value;
            && (r == SlugConflict <==> HasPost(t.posts, slug))
            && (r == SlugConflict ==> t' == t)
            && (r == Done ==> TagsOf(t', slug) == Normalized(slugify, c.tags)
                              && (forall n :: n in t'.tags <==> n in t.tags || n in Normalized(slugify, c.tags))
                              && |t'.posts| == |t.posts| + 1 && t'.posts[..|t.posts|] == t.posts
                              && StoredAs(t'.posts[|t.posts|], slug, c, now)
                              && (other != slug ==> TagsOf(t', other) == TagsOf(t, other)))
  {
    var (t', r) := Create(t, slugify, c, now);
    var slug, e := SlugOf(slugify, c), Ensure(t.tags, Names(slugify, c.tags));
    if r == Done {
      EnsureIsExact(t.tags, Names(slugify, c.tags));
      NamesAreNormalized(slugify, c.tags);
      PairsOk(slug, e.found);
      assert forall g <- t.taggings :: HasPost(t.posts, g.postId) && g.postId != slug;
      assert forall g :: g in t'.taggings <==> g in t.taggings || g in Pairs(slug, e.found);
      forall n | n in Normalized(slugify, c.tags) ensures n in TagsOf(t', slug) {
        assert Tagging(slug, n) in t'.taggings;
      }
      forall n | n in TagsOf(t, other) ensures n in TagsOf(t', other) {
        assert Tagging(other, n) in t'.taggings;
      }
    } else {
      assert t.posts[IndexOf(t.posts, slug)] in t.posts;
    }
  }

  lemma WithTagsSets(t: Tables, slugify: string -> string, id: string, tags: Option<seq<string>>, other: string)
    requires Integrity(t)
    ensures var t' := WithTags(t, slugify, id, tags);
            && TagsOf(t', id) == (if tags.Some? then Normalized(slugify, tags.value) else TagsOf(t, id))
            && (forall n :: n in t'.tags <==> n in t.tags || (tags.Some? && n in Normalized(slugify, tags.value)))
            && (other != id ==> TagsOf(t', other) == TagsOf(t, other))
  {
    var t' := WithTags(t, slugify, id, tags);
    if tags.Some? {
      var e := Ensure(t.tags, Names(slugify, tags.value));
      EnsureIsExact(t.tags, Names(slugify, tags.value));
      NamesAreNormalized(slugify, tags.value);
      PairsOk(id, e.found);
      assert forall g :: g in t'.taggings <==> g in Others(t.taggings, id) || g in Pairs(id, e.found);
      forall n | n in Normalized(slugify, tags.value) ensures n in TagsOf(t', id) {
        assert Tagging(id, n) in t'.taggings;
      }
      forall n | other != id && n in TagsOf(t, other) ensures n in TagsOf(t', other) {
        assert Tagging(other, n) in t'.taggings;
      }
    }
  }

  lemma CascadeMoves(t: Tables, id: string, newId: string, other: string)
    requires NoDup(t.taggings) && id != newId && forall g <- t.taggings :: g.postId != newId
    ensures var t' := t.(taggings := Cascade(t.taggings, id, newId));
            && TagsOf(t', newId) == TagsOf(t, id) && TagsOf(t', id) == {}
            && (other != id && other != newId ==> TagsOf(t', other) == TagsOf(t, other))
  {
    var t' := t.(taggings := Cascade(t.taggings, id, newId));
    CascadeOk(t.taggings, id, newId);
    forall n | n in TagsOf(t, id) ensures n in TagsOf(t', newId) {
      assert Tagging(newId, n) in t'.taggings;
    }
    forall n | n in TagsOf(t', newId) ensures n in TagsOf(t, id) {
      assert Tagging(id, n) in t.taggings;
    }
    forall n | other != id && n in TagsOf(t, other) ensures n in TagsOf(t', other) || other == newId {
      assert other != newId ==> Tagging(other, n) in t'.taggings;
    }
  }

  function TargetOf(id: string, u: PostUpdate): string {
    if u.id.Some? then u.id.value else id
  }

  /** An update replaces one row, which keeps its place; a rename carries exactly the post's tags, as
      just replaced if the payload has tags, to the new id. Other posts keep their rows and tags. A slug
      conflict, or a missing post, changes nothing. */
  lemma UpdateMovesTags(t: Tables, slugify: string -> string, id: string, u: PostUpdate, now: Clocks, other: string)
    requires Integrity(t)
    ensures var (t', r) := Update(t, slugify, id, u, now); var target := TargetOf(id, u);
            && (r == PostNotFound <==> !HasPost(t.posts, id))
            && (r == SlugConflict <==> HasPost(t.posts, id) && target != id && HasPost(t.posts, target))
            && (r != Done ==> t' == t)
            && (r == Done ==>
                  && (forall n :: n in t'.tags
                                  <==> n in t.tags || (u.tags.Some? && n in Normalized(slugify, u.tags.value)))
                  && TagsOf(t', target) == (if u.tags.Some? then Normalized(slugify, u.tags.value) else TagsOf(t, id))
                  && (target != id ==> TagsOf(t', id) == {})
                  && (other != id && other != target ==> TagsOf(t', other) == TagsOf(t, other))
                  && IndexOf(t.posts, id) < |t.posts| == |t'.posts|
                  && t'.posts[IndexOf(t.posts, id)].id == target
                  && forall j | 0 <= j < |t.posts| && j != IndexOf(t.posts, id) :: t'.posts[j] == t.posts[j])
  {
    var i, target := IndexOf(t.posts, id), TargetOf(id, u);
    Lookup(t.posts, id);
    Lookup(t.posts, target);
    if i < |t.posts| {
      SetAllKeepsId(t.posts[i], u.fields);
      var m := WithTags(t, slugify, id, u.tags);
      WithTagsSets(t, slugify, id, u.tags, other);
      if target != id && !Exists(t.posts, target) {
        WithTagsKeeps(t, slugify, id, u.tags);
        assert forall g <- m.taggings :: HasPost(t.posts, g.postId);
        CascadeMoves(m, id, target, other);
      }
    }
  }

  lemma Lookup(posts: seq<Post>, id: string)
    ensures Exists(posts, id) <==> HasPost(posts, id)
  {
    if Exists(posts, id) {
      assert posts[IndexOf(posts, id)] in posts;
    }
  }

  /** A post deleted is gone with its pairs; the others keep rows and tags, and no tag is deleted. */
  lemma DeleteRemoves(t: Tables, id: string, other: string)
    requires Integrity(t)
    ensures var (t', r) := Delete(t, id);
            && (r == PostNotFound <==> !HasPost(t.posts, id)) && (r != Done ==> t' == t)
            && !HasPost(t'.posts, id) && TagsOf(t', id) == {} && t'.tags == t.tags
            && t'.posts == Filter((p: Post) => p.id != id, t.posts)
            && (other != id ==> (HasPost(t'.posts, other) <==> HasPost(t.posts, other))
                                && TagsOf(t', other) == TagsOf(t, other))
  {
    var t', i := Delete(t, id).0, IndexOf(t.posts, id);
    Lookup(t.posts, id);
    if i == |t.posts| {
      FilterAll((p: Post) => p.id != id, t.posts);
    } else {
      DropRow(t.posts, i);
      DropIsFilter(t.posts, i, (p: Post) => p.id != id);
      forall n | other != id && n in TagsOf(t, other) ensures n in TagsOf(t', other) {
        assert Tagging(other, n) in t'.taggings;
      }
    }
  }

  /** The row updated has the values sent and otherwise its old ones; `updated_at` stays exactly when
      nothing was changed, no tags were sent and the id was kept. */
  lemma UpdateSetsColumns(t: Tables, slugify: string -> string, id: string, u: PostUpdate, now: Clocks, k: Key)
    requires forall i, j | 0 <= i < j < |u.fields| :: KeyOf(u.fields[i]) != KeyOf(u.fields[j])
    requires Update(t, slugify, id, u, now).1 == Done
    ensures var i, t' := IndexOf(t.posts, id), Update(t, slugify, id, u, now).0;
            && i < |t.posts| == |t'.posts|
            && (forall f <- u.fields :: KeyOf(f) == k ==> FieldOf(t'.posts[i], k) == f)
            && ((forall f <- u.fields :: KeyOf(f) != k) ==> FieldOf(t'.posts[i], k) == FieldOf(t.posts[i], k))
            && t'.posts[i].updatedAt == (if TargetOf(id, u) != id then now.db
                                         else if u.tags.Some? then now.app
                                         else if t'.posts[i].(updatedAt := t.posts[i].updatedAt) != t.posts[i]
                                         then now.db
                                         else t.posts[i].updatedAt)
  {
    var i := IndexOf(t.posts, id);
    PartialUpdate(t.posts[i], u.fields, k);
    FieldOfIgnoresTime(SetAll(t.posts[i], u.fields), k);
  }

  lemma FieldOfIgnoresTime(p: Post, k: Key)
    ensures forall at: int, id: string :: FieldOf(p.(updatedAt := at, id := id), k) == FieldOf(p, k)
    ensures forall at: int :: FieldOf(p.(updatedAt := at), k) == FieldOf(p, k)
  {}

  /** Publishing sets status and date of one row and touches nothing else; doing it twice on one day
      is doing it once. */
  lemma PublishSetsStatus(t: Tables, id: string, now: Clocks, later: Clocks)
    requires later.today == now.today
    ensures var (t', r) := Publish(t, id, now); var i := IndexOf(t.posts, id);
            && (r == PostNotFound <==> !HasPost(t.posts, id)) && (r != Done ==> t' == t)
            && (r == Done ==>
                  && |t'.posts| == |t.posts| && t'.posts[i].status == Published && t'.posts[i].date == now.today
                  && t'.posts[i].(status := t.posts[i].status, date := t.posts[i].date,
                                  updatedAt := t.posts[i].updatedAt) == t.posts[i]
                  && t'.posts[i].updatedAt == (if t.posts[i].status == Published && t.posts[i].date == now.today
                                               then t.posts[i].updatedAt else now.db)
                  && t' == t.(posts := t.posts[i := t'.posts[i]])
                  && Publish(t', id, later) == (t', Done))
  {
    var (t', r) := Publish(t, id, now);
    var i := IndexOf(t.posts, id);
    Lookup(t.posts, id);
    if r == Done {
      IndexIsFirst(t'.posts, id, i);
      assert t'.posts[i := t'.posts[i]] == t'.posts;
    }
  }

  lemma {:induction false} IndexIsFirst(posts: seq<Post>, id: string, i: nat)
    requires i < |posts| && posts[i].id == id && forall j | 0 <= j < i :: posts[j].id != id
    ensures IndexOf(posts, id) == i
  {
    if i > 0 {
      IndexIsFirst(posts[1..], id, i - 1);
    }
  }
}
