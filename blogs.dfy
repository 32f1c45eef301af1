/** The blog catalogue: two posts in a module-level array and the four
    queries over it.  `getAllBlogs` sorts that shared array in place, so it
    is a store object whose `posts` field the sorting queries reassign.  A
    date is the number yyyymmdd of its ISO text, which orders like the date. */
module Blogs {
  import opened Common
  import opened Sorting

  datatype Post = Post(id: string, title: string, category: string, date: int)

  const BlogPosts: seq<Post> := [
    Post("space-news-2024", "Latest Space Discoveries: What 2024 Has Revealed", "Space News", 20241215),
    Post("climate-change-2024", "Earth's Climate Crisis: Understanding Our Changing Planet", "Climate Science", 20241210)]

  predicate UniqueIds(posts: seq<Post>)
  {
    forall i, j :: 0 <= i < j < |posts| ==> posts[i].id != posts[j].id
  }

  /** No two catalogue posts share an id. */
  lemma BlogIdsUnique()
    ensures UniqueIds(BlogPosts)
  {
  }

  /** `(a, b) => new Date(b.date) - new Date(a.date)` as an ascending key. */
  function NewestFirst(p: Post): real { -(p.date as real) }

  /** Sorting newest first: the result is ordered by non-increasing date,
      holds the same posts, and sorting again changes nothing. */
  lemma NewestFirstOrder(posts: seq<Post>)
    ensures var r := SortBy(posts, NewestFirst);
            && (forall i, j :: 0 <= i < j < |r| ==> r[i].date >= r[j].date)
            && multiset(r) == multiset(posts)
            && SortBy(r, NewestFirst) == r
  {
    var r := SortBy(posts, NewestFirst);
    assert forall i, j :: 0 <= i < j < |r| ==> NewestFirst(r[i]) <= NewestFirst(r[j]);
    SortByIdempotent(posts, NewestFirst);
  }

  /** `find` by id. */
  function ById(posts: seq<Post>, id: string): Option<Post>
  {
    Find(posts, (p: Post) => p.id == id)
  }

  /** With unique ids, the post found for an id does not depend on the order
      of the array: sorting it never changes what `getBlogById` returns. */
  lemma ByIdIgnoresOrder(s: seq<Post>, t: seq<Post>, id: string)
    requires multiset(s) == multiset(t)
    requires UniqueIds(s)
    ensures ById(s, id) == ById(t, id)
  {
    var a, b := ById(s, id), ById(t, id);
    if a.Some? {
      assert a.value in multiset(t);
      assert b.Some?;
    }
    if b.Some? {
      assert b.value in multiset(s);
      assert a.Some?;
      var i :| 0 <= i < |s| && s[i] == a.value;
      var j :| 0 <= j < |s| && s[j] == b.value;
      assert i == j;
    }
  }

  function InCategory(category: string): Post -> bool
  {
    (p: Post) => p.category == category
  }

  /** Each post of the category occurs in the filtered list as often as in
      the array, and no other post occurs. */
  lemma {:induction false} CategoryCounts(posts: seq<Post>, category: string)
    ensures forall p :: multiset(Filter(posts, InCategory(category)))[p]
                        == if p.category == category then multiset(posts)[p] else 0
  {
    if posts != [] {
      CategoryCounts(posts[1..], category);
      assert posts == [posts[0]] + posts[1..];
    }
  }

  /** The category filter keeps array order: filtering a concatenation is
      concatenating the filtered parts. */
  lemma CategoryKeepsOrder(a: seq<Post>, b: seq<Post>, category: string)
    ensures Filter(a + b, InCategory(category)) == Filter(a, InCategory(category)) + Filter(b, InCategory(category))
  {
    FilterAppend(a, b, InCategory(category));
  }

  class BlogStore {
    var posts: seq<Post>

    /** The catalogue holds the module's posts, in any order. */
    ghost predicate Valid()
      reads this
    {
      multiset(posts) == multiset(BlogPosts)
    }

    constructor ()
      ensures posts == BlogPosts && Valid()
    {
      posts := BlogPosts;
    }

    /** `getAllBlogs`: sort the shared array newest first and return it. */
    method GetAllBlogs() returns (r: seq<Post>)
      requires Valid()
      modifies this
      ensures posts == SortBy(old(posts), NewestFirst)
      ensures r == posts
      ensures Valid()
    {
      posts := SortBy(posts, NewestFirst);
      r := posts;
    }

    /** `getBlogById`: the first post with the id, `None` for `undefined`. */
    function GetBlogById(id: string): (r: Option<Post>)
      reads this
      ensures r.Some? ==> r.value in posts && r.value.id == id
      ensures r.None? <==> forall i :: 0 <= i < |posts| ==> posts[i].id != id
    {
      ById(posts, id)
    }

    /** `getBlogsByCategory`: the posts of the category, in array order. */
    function GetBlogsByCategory(category: string): (r: seq<Post>)
      reads this
      ensures forall p :: p in r <==> p in posts && p.category == category
      ensures forall p :: multiset(r)[p] == if p.category == category then multiset(posts)[p] else 0
    {
      CategoryCounts(posts, category);
      Filter(posts, InCategory(category))
    }

    /** `getRecentBlogs(limit)`: sorts the shared array as `getAllBlogs` does
        and returns its first `limit` posts (the caller's default is 2). */
    method GetRecentBlogs(limit: nat) returns (r: seq<Post>)
      requires Valid()
      modifies this
      ensures posts == SortBy(old(posts), NewestFirst)
      ensures r == Take(posts, limit)
      ensures Valid()
    {
      var all := GetAllBlogs();
      r := Take(all, limit);
    }
  }

  /** The recent posts are the newest ones: at most `limit`, and none of the
      posts left out is newer than one returned. */
  lemma RecentAreNewest(posts: seq<Post>, limit: nat)
    ensures var sorted := SortBy(posts, NewestFirst);
            var r := Take(sorted, limit);
            && |r| == Min(limit, |posts|)
            && forall i, j :: 0 <= i < |r| <= j < |sorted| ==> r[i].date >= sorted[j].date
  {
    NewestFirstOrder(posts);
  }
}
