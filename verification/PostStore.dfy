// The services as they work: rows changed in place inside a transaction, which a raise rolls back.

module PostStore {
  import opened Queries
  import opened Blog
  import opened PostService

  class Store {
    var posts: seq<Post>
    var tags: seq<string>
    var taggings: seq<Tagging>

    ghost function State(): Tables
      reads this
    {
      Tables(posts, tags, taggings)
    }

    constructor ()
      ensures State() == Tables([], [], []) && Integrity(State())
    {
      posts, tags, taggings := [], [], [];
    }

    method RollbackTo(posts: seq<Post>, tags: seq<string>, taggings: seq<Tagging>)
      modifies this
      ensures State() == Tables(posts, tags, taggings)
    {
      this.posts, this.tags, this.taggings := posts, tags, taggings;
    }

    /** One tag row for every name, adding the missing ones one by one. */
    method EnsureTags(names: seq<string>) returns (found: seq<string>)
      modifies this`tags
      ensures Ensured(found, tags) == Ensure(old(tags), names)
    {
      var distinct := Unique(names);
      var existing := Filter((n: string) => n in distinct, tags);
      var missing := Filter((n: string) => n !in existing, distinct);
      for i := 0 to |missing|
        invariant tags == old(tags) + missing[..i]
      {
        tags := tags + [missing[i]];
      }
      assert missing[..|missing|] == missing;
      found := existing + missing;
    }

    method CreatePost(slugify: string -> string, c: PostCreate, now: Clocks) returns (r: Result)
      requires Integrity(State())
      modifies this
      ensures (State(), r) == Create(old(State()), slugify, c, now) && Integrity(State())
    {
      CreateKeeps(State(), slugify, c, now);
      var slug := SlugOf(slugify, c);
      if IndexOf(posts, slug) < |posts| {
        return SlugConflict;
      }
      var found := EnsureTags(Names(slugify, c.tags));
      posts := posts + [Post(slug, c.title, c.excerpt, c.content, c.date, c.readTime, c.kind, c.status, c.featured,
                             now.db)];
      taggings := taggings + Pairs(slug, found);
      r := Done;
    }

    /** The columns sent are set one after another, then the tags replaced, then the id checked: a
        conflict found last undoes everything. */
    method UpdatePost(slugify: string -> string, id: string, u: PostUpdate, now: Clocks) returns (r: Result)
      requires Integrity(State())
      modifies this
      ensures (State(), r) == Update(old(State()), slugify, id, u, now) && Integrity(State())
    {
      UpdateKeeps(State(), slugify, id, u, now);
      var posts0, tags0, taggings0 := posts, tags, taggings;
      var at := IndexOf(posts, id);
      if at == |posts| {
        return PostNotFound;
      }
      var post := posts[at];
      for i := 0 to |u.fields|
        invariant post == SetAll(posts0[at], u.fields[..i])
      {
        assert u.fields[..i + 1][..i] == u.fields[..i];
        post := Set(post, u.fields[i]);
      }
      assert u.fields[..|u.fields|] == u.fields;
      var touched := post != posts0[at];
      if u.tags.Some? {
        var found := EnsureTags(Names(slugify, u.tags.value));
        taggings := Others(taggings, id) + Pairs(id, found);
      }
      post := post.(updatedAt := if u.tags.Some? then now.app else if touched then now.db else post.updatedAt);
      SetAllKeepsId(posts0[at], u.fields);
      SetAllKeepsTime(posts0[at], u.fields);
      if u.id.Some? && u.id.value != id {
        if IndexOf(posts0, u.id.value) < |posts0| {
          RollbackTo(posts0, tags0, taggings0);
          return SlugConflict;
        }
        post := post.(id := u.id.value, updatedAt := now.db);
        taggings := Cascade(taggings, id, u.id.value);
      }
      posts := posts[at := post];
      r := Done;
    }

    method DeletePost(id: string) returns (r: Result)
      requires Integrity(State())
      modifies this
      ensures (State(), r) == Delete(old(State()), id) && Integrity(State())
    {
      DeleteKeeps(State(), id);
      var at := IndexOf(posts, id);
      if at == |posts| {
        return PostNotFound;
      }
      taggings := Others(taggings, id);
      posts := posts[..at] + posts[at + 1..];
      r := Done;
    }

    method PublishPost(id: string, now: Clocks) returns (r: Result)
      requires Integrity(State())
      modifies this
      ensures (State(), r) == Publish(old(State()), id, now) && Integrity(State())
    {
      PublishKeeps(State(), id, now);
      var at := IndexOf(posts, id);
      if at == |posts| {
        return PostNotFound;
      }
      var post := posts[at].(status := Published, date := now.today);
      if post != posts[at] {
        post := post.(updatedAt := now.db);
      }
      posts := posts[at := post];
      r := Done;
    }
  }

  lemma {:induction false} SetAllKeepsTime(p: Post, fields: seq<Field>)
    ensures SetAll(p, fields).updatedAt == p.updatedAt
  {
    if fields != [] {
      SetAllKeepsTime(p, fields[..|fields| - 1]);
    }
  }
}
