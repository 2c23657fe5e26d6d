/**
 * `GET /api/categories` (app2-blog/src/app/api/categories/route.ts): every
 * stored category, unfiltered and unpaginated, each with `_count.posts`, the
 * number of posts that reference it. The handler only reads the tables.
 */
module CategoryListing {
  import opened Wrappers
  import opened Blog
  import PostListing

  /** `CategoryWithCount`. */
  datatype CategoryWithCount = CategoryWithCount(category: Category, postCount: nat)

  /** `_count: { select: { posts: true } }` for the category with id `id`. */
  function PostsIn(posts: seq<Post>, id: Id): nat {
    if posts == [] then 0
    else (if posts[0].categoryId == id then 1 else 0) + PostsIn(posts[1..], id)
  }

  /** The body of a successful listing: the categories in storage order, each with its count. */
  function WithCounts(cats: seq<Category>, posts: seq<Post>): (r: seq<CategoryWithCount>)
    ensures |r| == |cats|
    ensures forall k :: 0 <= k < |r| ==> r[k].category == cats[k] && r[k].postCount == PostsIn(posts, cats[k].id)
  {
    if cats == [] then []
    else [CategoryWithCount(cats[0], PostsIn(posts, cats[0].id))] + WithCounts(cats[1..], posts)
  }

  /** `GET /api/categories`: the listing, or 500 with only a generic message if storage fails. */
  function GetCategories(cats: seq<Category>, posts: seq<Post>, storageFails: bool): (r: Reply<seq<CategoryWithCount>>)
    ensures r.status == 200 <==> !storageFails
    ensures r.status == 200 ==> r.body == Ok(WithCounts(cats, posts))
    ensures r.status != 200 ==> r == Reply(500, Err(ErrorBody(FetchCategoriesFailed, None)))
  {
    if storageFails then Reply(500, Err(ErrorBody(FetchCategoriesFailed, None)))
    else Reply(200, Ok(WithCounts(cats, posts)))
  }

  /** Each stored category appears exactly once in the listing. */
  lemma EachCategoryOnce(cats: seq<Category>, posts: seq<Post>, k: nat)
    requires CategoryIdsDistinct(cats) && k < |cats|
    ensures forall j :: 0 <= j < |cats| && WithCounts(cats, posts)[j].category.id == cats[k].id ==> j == k
  {
  }

  function SumCounts(r: seq<CategoryWithCount>): nat {
    if r == [] then 0 else r[0].postCount + SumCounts(r[1..])
  }

  /** How many categories carry the id `id`. */
  function Holders(cats: seq<Category>, id: Id): nat {
    if cats == [] then 0 else (if cats[0].id == id then 1 else 0) + Holders(cats[1..], id)
  }

  lemma {:induction false} NoHolders(cats: seq<Category>, id: Id)
    requires !HasCategory(cats, id)
    ensures Holders(cats, id) == 0
  {
    if cats != [] {
      assert !HasCategory(cats[1..], id) by {
        forall k | 0 <= k < |cats[1..]| ensures cats[1..][k].id != id {
          assert cats[1..][k] == cats[k + 1];
        }
      }
      NoHolders(cats[1..], id);
    }
  }

  lemma {:induction false} OneHolder(cats: seq<Category>, id: Id)
    requires CategoryIdsDistinct(cats) && HasCategory(cats, id)
    ensures Holders(cats, id) == 1
  {
    var tail := cats[1..];
    assert CategoryIdsDistinct(tail) by {
      forall i, j | 0 <= i < j < |tail| ensures tail[i].id != tail[j].id {
        assert tail[i] == cats[i + 1] && tail[j] == cats[j + 1];
      }
    }
    if cats[0].id == id {
      assert !HasCategory(tail, id) by {
        forall k | 0 <= k < |tail| ensures tail[k].id != id {
          assert tail[k] == cats[k + 1];
        }
      }
      NoHolders(tail, id);
    } else {
      assert HasCategory(tail, id) by {
        var k :| 0 <= k < |cats| && cats[k].id == id;
        assert tail[k - 1] == cats[k];
      }
      OneHolder(tail, id);
    }
  }

  /** Adding one post in front adds, to the sum of counts, one per category carrying its id. */
  lemma {:induction false} SumCountsCons(cats: seq<Category>, p: Post, rest: seq<Post>)
    ensures SumCounts(WithCounts(cats, [p] + rest)) == Holders(cats, p.categoryId) + SumCounts(WithCounts(cats, rest))
  {
    if cats != [] {
      assert ([p] + rest)[1..] == rest;
      SumCountsCons(cats[1..], p, rest);
    }
  }

  /**
   * Because every post references exactly one existing category, the counts
   * add up to the number of posts.
   */
  lemma {:induction false} CountsSumToPostTotal(cats: seq<Category>, posts: seq<Post>)
    requires Consistent(cats, posts)
    ensures SumCounts(WithCounts(cats, posts)) == |posts|
  {
    if posts == [] {
      ZeroCounts(cats, posts);
    } else {
      var rest := posts[1..];
      assert Consistent(cats, rest) by {
        forall i, j | 0 <= i < j < |rest|
          ensures rest[i].id != rest[j].id && rest[i].slug != rest[j].slug
        {
          assert rest[i] == posts[i + 1] && rest[j] == posts[j + 1];
        }
        forall k | 0 <= k < |rest| ensures HasCategory(cats, rest[k].categoryId) {
          assert rest[k] == posts[k + 1];
        }
      }
      CountsSumToPostTotal(cats, rest);
      assert posts == [posts[0]] + rest;
      SumCountsCons(cats, posts[0], rest);
      OneHolder(cats, posts[0].categoryId);
    }
  }

  lemma {:induction false} ZeroCounts(cats: seq<Category>, posts: seq<Post>)
    requires posts == []
    ensures SumCounts(WithCounts(cats, posts)) == 0
  {
    if cats != [] {
      ZeroCounts(cats[1..], posts);
    }
  }

  /**
   * A category's count equals the `totalCount` the post listing reports when
   * filtered by that category alone.
   */
  lemma {:induction false} CountAgreesWithListing(posts: seq<Post>, id: Id)
    ensures PostsIn(posts, id) == PostListing.CountMatching(posts, PostListing.Where(None, Some(id)))
  {
    if posts != [] {
      CountAgreesWithListing(posts[1..], id);
    }
  }
}
