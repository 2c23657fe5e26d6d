/**
 * `GET /api/posts` (app2-blog/src/app/api/posts/route.ts): normalise `page`
 * and `limit`, build a sparse filter from `published` and `categoryId`, read
 * the matching posts newest first through a skip/take window, count the
 * matching posts in a second read of the same tables, and report the
 * pagination envelope. The handler only reads the tables: it is a function of
 * them.
 */
module PostListing {
  import opened Wrappers
  import opened Blog
  import opened Ordering

  /** The query string, with `page` and `limit` already read as integers. */
  datatype Query = Query(
    page: Option<int>,
    limit: Option<int>,
    published: Option<string>,
    categoryId: Option<string>)

  /** The `where` object: a constraint only for each parameter that was given. */
  datatype Where = Where(published: Option<bool>, categoryId: Option<Id>)

  /** A post with its category joined in (`include: { category: true }`). */
  datatype PostWithCategory = PostWithCategory(post: Post, category: Category)

  /** The pagination envelope. */
  datatype PageInfo = PageInfo(page: int, limit: int, totalCount: nat, totalPages: nat)

  /** The success body: `{ posts, pagination }`. */
  datatype PostPage = PostPage(posts: seq<PostWithCategory>, pagination: PageInfo)

  const DefaultPage: int := 1
  const DefaultLimit: int := 10
  const MaxLimit: int := 100

  /** `Math.max(1, page ?? 1)`. */
  function EffectivePage(requested: Option<int>): (page: int)
    ensures page >= 1
    ensures requested.None? ==> page == DefaultPage
    ensures requested.Some? && requested.value >= 1 ==> page == requested.value
    ensures requested.Some? && requested.value < 1 ==> page == 1
  {
    match requested
    case None => DefaultPage
    case Some(p) => if p < 1 then 1 else p
  }

  /** The requested limit is one the listing can divide by. */
  predicate LimitUsable(requested: Option<int>) {
    requested.None? || requested.value >= 1
  }

  /** `Math.min(100, limit ?? 10)`: capped above, but not raised from below. */
  function EffectiveLimit(requested: Option<int>): (limit: int)
    ensures limit <= MaxLimit
    ensures requested.None? ==> limit == DefaultLimit
    ensures requested.Some? ==> limit == if requested.value > MaxLimit then MaxLimit else requested.value
    ensures LimitUsable(requested) <==> limit >= 1
  {
    match requested
    case None => DefaultLimit
    case Some(l) => if l > MaxLimit then MaxLimit else l
  }

  predicate Matches(w: Where, p: Post) {
    && (w.published.None? || p.published == w.published.value)
    && (w.categoryId.None? || p.categoryId == w.categoryId.value)
  }

  /**
   * The sparse filter: an absent parameter constrains nothing; a present
   * `published` selects published posts only for the exact text "true" and
   * drafts for any other text; a present `categoryId` is an exact match.
   */
  function BuildWhere(q: Query): (w: Where)
    ensures forall p :: Matches(w, p) <==>
      && (q.published.None? || p.published == (q.published.value == "true"))
      && (q.categoryId.None? || p.categoryId == q.categoryId.value)
  {
    Where(if q.published.Some? then Some(q.published.value == "true") else None, q.categoryId)
  }

  /** The posts `findMany({ where })` considers, in table order. */
  function FilterPosts(posts: seq<Post>, w: Where): (r: seq<Post>)
    ensures |r| <= |posts|
    ensures forall k :: 0 <= k < |r| ==> r[k] in posts && Matches(w, r[k])
    ensures forall k :: 0 <= k < |posts| && Matches(w, posts[k]) ==> posts[k] in r
  {
    if posts == [] then []
    else
      var rest := FilterPosts(posts[1..], w);
      assert forall k :: 1 <= k < |posts| ==> posts[k] == posts[1..][k - 1];
      if Matches(w, posts[0]) then [posts[0]] + rest else rest
  }

  /** `count({ where })`: the number of matching posts. */
  function CountMatching(posts: seq<Post>, w: Where): nat {
    if posts == [] then 0
    else (if Matches(w, posts[0]) then 1 else 0) + CountMatching(posts[1..], w)
  }

  /** The count query and the list query see the same posts. */
  lemma {:induction false} CountIsFilterLength(posts: seq<Post>, w: Where)
    ensures |FilterPosts(posts, w)| == CountMatching(posts, w)
  {
    if posts != [] {
      CountIsFilterLength(posts[1..], w);
    }
  }

  function CreatedAt(p: Post): int {
    p.createdAt
  }

  /** `skip` / `take`: the part of `s` from position `skip` holding at most `take` items. */
  function Window<T>(s: seq<T>, skip: nat, take: nat): (r: seq<T>)
    ensures |r| <= take
    ensures skip >= |s| ==> r == []
    ensures skip < |s| ==> |r| == if |s| - skip < take then |s| - skip else take
    ensures forall k :: 0 <= k < |r| ==> skip + k < |s| && r[k] == s[skip + k]
  {
    if skip >= |s| then []
    else if |s| - skip < take then s[skip..]
    else s[skip..skip + take]
  }

  /** `Math.ceil(totalCount / limit)`: the fewest pages of `limit` posts that hold them all. */
  function TotalPages(count: nat, limit: int): (pages: nat)
    requires limit >= 1
    ensures pages * limit >= count
    ensures pages == 0 || (pages - 1) * limit < count
    ensures pages == 0 <==> count == 0
  {
    var q := (count + limit - 1) / limit;
    assert q * limit == count + limit - 1 - (count + limit - 1) % limit;
    assert (q - 1) * limit == q * limit - limit;
    q
  }

  lemma TotalPagesExamples()
    ensures TotalPages(0, 10) == 0
    ensures TotalPages(25, 10) == 3
    ensures TotalPages(30, 10) == 3
    ensures TotalPages(8, 100) == 1
  {
  }

  /** The category a stored post belongs to. */
  function CategoryOf(cats: seq<Category>, id: Id): (c: Category)
    requires HasCategory(cats, id)
    ensures c in cats && c.id == id
  {
    if cats[0].id == id then cats[0]
    else
      assert HasCategory(cats[1..], id) by {
        var k :| 0 <= k < |cats| && cats[k].id == id;
        assert cats[1..][k - 1] == cats[k];
      }
      CategoryOf(cats[1..], id)
  }

  /** `include: { category: true }`. */
  function Join(cats: seq<Category>, s: seq<Post>): (r: seq<PostWithCategory>)
    requires forall k :: 0 <= k < |s| ==> HasCategory(cats, s[k].categoryId)
    ensures |r| == |s|
    ensures forall k :: 0 <= k < |r| ==>
      r[k].post == s[k] && r[k].category in cats && r[k].category.id == s[k].categoryId
  {
    seq(|s|, k requires 0 <= k < |s| => PostWithCategory(s[k], CategoryOf(cats, s[k].categoryId)))
  }

  function PostsOf(r: seq<PostWithCategory>): (s: seq<Post>)
    ensures |s| == |r| && forall k :: 0 <= k < |r| ==> s[k] == r[k].post
  {
    seq(|r|, k requires 0 <= k < |r| => r[k].post)
  }

  function Skip(q: Query): nat
    requires LimitUsable(q.limit)
  {
    var skip := (EffectivePage(q.page) - 1) * EffectiveLimit(q.limit);
    assert skip >= 0 by {
      NonNegativeProduct(EffectivePage(q.page) - 1, EffectiveLimit(q.limit));
    }
    skip
  }

  lemma NonNegativeProduct(a: nat, b: nat)
    ensures a * b >= 0
  {
  }

  /**
   * The successful listing. The window is a slice of SOME newest-first order of
   * the matching posts: the storage may break ties between equal timestamps
   * either way.
   */
  function ListPosts(cats: seq<Category>, posts: seq<Post>, q: Query): (r: PostPage)
    requires Consistent(cats, posts)
    requires LimitUsable(q.limit)
    ensures r.pagination.page == EffectivePage(q.page)
    ensures r.pagination.limit == EffectiveLimit(q.limit)
    ensures r.pagination.totalCount == CountMatching(posts, BuildWhere(q))
    ensures r.pagination.totalPages == TotalPages(r.pagination.totalCount, r.pagination.limit)
    ensures |r.posts| <= r.pagination.limit
    ensures forall k :: 0 <= k < |r.posts| ==>
      && r.posts[k].post in posts
      && Matches(BuildWhere(q), r.posts[k].post)
      && r.posts[k].category in cats
      && r.posts[k].category.id == r.posts[k].post.categoryId
    ensures NewestFirst(PostsOf(r.posts), CreatedAt)
    ensures exists order ::
      && IsNewestFirstOrder(order, FilterPosts(posts, BuildWhere(q)), CreatedAt)
      && PostsOf(r.posts) == Window(order, Skip(q), r.pagination.limit)
  {
    var w := BuildWhere(q);
    var limit := EffectiveLimit(q.limit);
    var order := SortNewestFirst(FilterPosts(posts, w), CreatedAt);
    var window := Window(order, Skip(q), limit);
    var totalCount := CountMatching(posts, w);
    WindowOfMatches(cats, posts, w, order, Skip(q), limit);
    var r := PostPage(Join(cats, window), PageInfo(EffectivePage(q.page), limit, totalCount, TotalPages(totalCount, limit)));
    assert PostsOf(r.posts) == window;
    WindowKeepsOrder(order, Skip(q), limit, CreatedAt);
    r
  }

  /** Every post in a window of the ordered matches is a stored, matching post with a category. */
  lemma WindowOfMatches(cats: seq<Category>, posts: seq<Post>, w: Where, order: seq<Post>, skip: nat, take: nat)
    requires Consistent(cats, posts)
    requires IsNewestFirstOrder(order, FilterPosts(posts, w), CreatedAt)
    ensures forall k :: 0 <= k < |Window(order, skip, take)| ==>
      && Window(order, skip, take)[k] in posts
      && Matches(w, Window(order, skip, take)[k])
      && HasCategory(cats, Window(order, skip, take)[k].categoryId)
  {
    var window := Window(order, skip, take);
    forall k | 0 <= k < |window|
      ensures window[k] in posts && Matches(w, window[k]) && HasCategory(cats, window[k].categoryId)
    {
      InOrderedFilter(posts, w, order, skip + k);
      var j :| 0 <= j < |posts| && posts[j] == window[k];
      assert HasCategory(cats, posts[j].categoryId);
    }
  }

  lemma InOrderedFilter(posts: seq<Post>, w: Where, order: seq<Post>, k: nat)
    requires IsNewestFirstOrder(order, FilterPosts(posts, w), CreatedAt)
    requires k < |order|
    ensures order[k] in posts && Matches(w, order[k])
  {
    assert order[k] in multiset(order);
    assert order[k] in FilterPosts(posts, w);
  }

  lemma WindowKeepsOrder<T>(s: seq<T>, skip: nat, take: nat, key: T -> int)
    requires NewestFirst(s, key)
    ensures NewestFirst(Window(s, skip, take), key)
  {
  }

  /** `GET /api/posts`: the listing, or 500 with only a generic message if storage fails. */
  function GetPosts(cats: seq<Category>, posts: seq<Post>, q: Query, storageFails: bool): (r: Reply<PostPage>)
    requires Consistent(cats, posts)
    requires LimitUsable(q.limit)
    ensures r.status == 200 <==> !storageFails
    ensures r.status == 200 ==> r.body == Ok(ListPosts(cats, posts, q))
    ensures r.status != 200 ==> r == Reply(500, Err(ErrorBody(FetchPostsFailed, None)))
  {
    if storageFails then Reply(500, Err(ErrorBody(FetchPostsFailed, None)))
    else Reply(200, Ok(ListPosts(cats, posts, q)))
  }

  /** A page past the end is empty, and the count is still reported. */
  lemma PagePastEndIsEmpty(cats: seq<Category>, posts: seq<Post>, q: Query)
    requires Consistent(cats, posts)
    requires LimitUsable(q.limit)
    requires Skip(q) >= CountMatching(posts, BuildWhere(q))
    ensures ListPosts(cats, posts, q).posts == []
    ensures ListPosts(cats, posts, q).pagination.totalCount == CountMatching(posts, BuildWhere(q))
  {
    var r := ListPosts(cats, posts, q);
    var order :| IsNewestFirstOrder(order, FilterPosts(posts, BuildWhere(q)), CreatedAt)
              && PostsOf(r.posts) == Window(order, Skip(q), r.pagination.limit);
    CountIsFilterLength(posts, BuildWhere(q));
    NewestFirstOrderLength(order, FilterPosts(posts, BuildWhere(q)), CreatedAt);
  }

  /** The query for page `page` with everything else as in `q`. */
  function AtPage(q: Query, page: int): Query {
    q.(page := Some(page))
  }

  /** The count does not depend on which page, or how large a page, is asked for. */
  lemma TotalCountIgnoresWindow(cats: seq<Category>, posts: seq<Post>, q: Query, q': Query)
    requires Consistent(cats, posts)
    requires LimitUsable(q.limit) && LimitUsable(q'.limit)
    requires q.published == q'.published && q.categoryId == q'.categoryId
    ensures ListPosts(cats, posts, q).pagination.totalCount == ListPosts(cats, posts, q').pagination.totalCount
  {
  }

  /**
   * Fix one newest-first order of the matching posts. When every page is cut
   * from that order, every match lies on some page numbered 1 through
   * totalPages, the count that `ListPosts` reports.
   */
  lemma EveryMatchOnSomePage(posts: seq<Post>, q: Query, order: seq<Post>, x: Post)
    requires LimitUsable(q.limit)
    requires IsNewestFirstOrder(order, FilterPosts(posts, BuildWhere(q)), CreatedAt)
    requires x in posts && Matches(BuildWhere(q), x)
    ensures exists page ::
      && 1 <= page <= TotalPages(CountMatching(posts, BuildWhere(q)), EffectiveLimit(q.limit))
      && x in Window(order, Skip(AtPage(q, page)), EffectiveLimit(q.limit))
  {
    var w := BuildWhere(q);
    var limit := EffectiveLimit(q.limit);
    var filtered := FilterPosts(posts, w);
    assert x in multiset(order) by {
      assert x in filtered;
    }
    var k :| 0 <= k < |order| && order[k] == x;
    var page := PageHolding(k, limit);
    SkipAtPage(q, page);
    InWindow(order, Skip(AtPage(q, page)), limit, k);
    CountIsFilterLength(posts, w);
    NewestFirstOrderLength(order, filtered, CreatedAt);
    PageWithinTotal(k, limit, page, |filtered|, TotalPages(|filtered|, limit));
  }

  lemma SkipAtPage(q: Query, page: int)
    requires LimitUsable(q.limit) && page >= 1
    ensures Skip(AtPage(q, page)) == (page - 1) * EffectiveLimit(q.limit)
  {
  }

  lemma InWindow<T>(s: seq<T>, skip: nat, take: nat, k: nat)
    requires skip <= k < skip + take && k < |s|
    ensures s[k] in Window(s, skip, take)
  {
    assert Window(s, skip, take)[k - skip] == s[k];
  }

  /** The page whose window holds position `k`. */
  lemma PageHolding(k: nat, limit: int) returns (page: int)
    requires limit >= 1
    ensures page >= 1
    ensures (page - 1) * limit <= k < (page - 1) * limit + limit
  {
    page := k / limit + 1;
  }

  lemma PageWithinTotal(k: nat, limit: int, page: int, count: nat, total: nat)
    requires limit >= 1 && k < count
    requires (page - 1) * limit <= k
    requires total * limit >= count
    ensures page <= total
  {
    if page > total {
      MonotoneProduct(total, page - 1, limit);
    }
  }

  lemma MonotoneProduct(a: int, b: int, c: int)
    requires a <= b && c >= 1
    ensures a * c <= b * c
  {
  }
}
