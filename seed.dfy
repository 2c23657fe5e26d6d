/**
 * The seeded blog (app2-blog/prisma/seed.ts) as concrete tables, used as
 * witnesses for the listing properties. Category names, post titles and
 * bodies are placeholders; ids stand for the generated ones. All posts are
 * inserted by one statement, so they share one `createdAt`.
 */
module Seed {
  import opened Wrappers
  import opened Blog
  import PostListing
  import CategoryListing

  const Now: Time := 1_000_000_000
  const Day: Time := 86_400_000

  const Categories: seq<Category> := [
    Category("c-tech", "Tech", "tech", Some("programming")),
    Category("c-design", "Design", "design", Some("ui and ux")),
    Category("c-business", "Business", "business", Some("strategy")),
    Category("c-lifestyle", "Lifestyle", "lifestyle", Some("daily life"))
  ]

  function Seeded(id: Id, slug: string, published: bool, daysAgo: nat, categoryId: Id): Post {
    Post(id, slug, slug, Some("excerpt"), "content", published,
         if published then Some(Now - daysAgo * Day) else None, categoryId, Now)
  }

  const Posts: seq<Post> := [
    Seeded("p01", "nextjs-15-new-features", true, 0, "c-tech"),
    Seeded("p02", "prisma-one-to-many-relation", true, 1, "c-tech"),
    Seeded("p03", "typescript-type-guards", false, 0, "c-tech"),
    Seeded("p04", "shadcn-ui-setup", true, 2, "c-design"),
    Seeded("p05", "tailwind-responsive-design", true, 3, "c-design"),
    Seeded("p06", "how-to-choose-color-palette", false, 0, "c-design"),
    Seeded("p07", "startup-first-steps", true, 4, "c-business"),
    Seeded("p08", "engineer-career-design", true, 5, "c-business"),
    Seeded("p09", "engineer-study-habits", true, 6, "c-lifestyle"),
    Seeded("p10", "remote-work-productivity", true, 7, "c-lifestyle"),
    Seeded("p11", "how-to-read-tech-books", false, 0, "c-lifestyle")
  ]


  lemma SeedCategoryIdsDistinct()
    ensures CategoryIdsDistinct(Categories)
  {
  }

  lemma SeedPostKeysDistinct()
    ensures PostKeysDistinct(Posts)
  {
  }

  lemma SeedReferencesValid()
    ensures forall k :: 0 <= k < |Posts| ==> HasCategory(Categories, Posts[k].categoryId)
  {
    assert HasCategory(Categories, "c-tech") by { assert Categories[0].id == "c-tech"; }
    assert HasCategory(Categories, "c-design") by { assert Categories[1].id == "c-design"; }
    assert HasCategory(Categories, "c-business") by { assert Categories[2].id == "c-business"; }
    assert HasCategory(Categories, "c-lifestyle") by { assert Categories[3].id == "c-lifestyle"; }
    assert forall k :: 0 <= k < |Posts| ==> Posts[k].categoryId in {"c-tech", "c-design", "c-business", "c-lifestyle"};
  }

  lemma SeedIsConsistent()
    ensures Consistent(Categories, Posts)
  {
    SeedCategoryIdsDistinct();
    SeedPostKeysDistinct();
    SeedReferencesValid();
  }

  lemma TechCount() ensures CategoryListing.PostsIn(Posts, "c-tech") == 3 {}
  lemma DesignCount() ensures CategoryListing.PostsIn(Posts, "c-design") == 3 {}
  lemma BusinessCount() ensures CategoryListing.PostsIn(Posts, "c-business") == 2 {}
  lemma LifestyleCount() ensures CategoryListing.PostsIn(Posts, "c-lifestyle") == 3 {}

  /** tech 3, design 3, business 2, lifestyle 3; the counts add up to the eleven posts. */
  lemma SeededCategoryCounts()
    ensures var r := CategoryListing.WithCounts(Categories, Posts);
      [r[0].postCount, r[1].postCount, r[2].postCount, r[3].postCount] == [3, 3, 2, 3]
    ensures CategoryListing.SumCounts(CategoryListing.WithCounts(Categories, Posts)) == |Posts| == 11
  {
    TechCount();
    DesignCount();
    BusinessCount();
    LifestyleCount();
    SeedIsConsistent();
    CategoryListing.CountsSumToPostTotal(Categories, Posts);
  }

  /** Eight of the eleven posts are published. */
  lemma SeededPublishedCount()
    ensures PostListing.CountMatching(Posts, PostListing.Where(Some(true), None)) == 8
  {
  }

  /** The public listing (`published=true`) reports eight posts, all on one page of ten. */
  lemma SeededPublicListing()
    ensures Consistent(Categories, Posts)
    ensures PostListing.ListPosts(Categories, Posts, PostListing.Query(None, None, Some("true"), None)).pagination
         == PostListing.PageInfo(1, 10, 8, 1)
  {
    SeedIsConsistent();
    SeededPublishedCount();
    var q := PostListing.Query(None, None, Some("true"), None);
    assert PostListing.BuildWhere(q) == PostListing.Where(Some(true), None);
    assert PostListing.TotalPages(8, 10) == 1;
  }

  /** With three per page the eight published posts fill three pages; page 5 is past the end (see `PostListing.PagePastEndIsEmpty`). */
  lemma SeededThreePerPage()
    ensures Consistent(Categories, Posts)
    ensures PostListing.ListPosts(Categories, Posts, PostListing.Query(Some(5), Some(3), Some("true"), None)).pagination
         == PostListing.PageInfo(5, 3, 8, 3)
  {
    SeedIsConsistent();
    SeededPublishedCount();
    var q := PostListing.Query(Some(5), Some(3), Some("true"), None);
    assert PostListing.BuildWhere(q) == PostListing.Where(Some(true), None);
    assert PostListing.TotalPages(8, 3) == 3;
  }
}
