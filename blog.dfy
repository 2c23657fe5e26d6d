/**
 * The blog's two tables, the constraints the database enforces on them, and
 * post creation (`POST` in app2-blog/src/app/api/posts/route.ts).
 *
 * The tables live in `BlogStore`. Ids, the clock and storage outages come from
 * outside the handler and are parameters. `postSchema` is not part of this
 * model: the handler receives the outcome of reading and validating the body
 * as a `PostRequest`.
 */
module Blog {
  import opened Wrappers
  import opened Schema

  type Id = string

  /** Milliseconds since the epoch. */
  type Time = int

  datatype Category = Category(id: Id, name: string, slug: string, description: Option<string>)

  datatype Post = Post(
    id: Id,
    title: string,
    slug: string,
    excerpt: Option<string>,
    content: string,
    published: bool,
    publishedAt: Option<Time>,
    categoryId: Id,
    createdAt: Time)

  /** The payload `postSchema.parse` returns. */
  datatype PostInput = PostInput(
    title: string,
    slug: string,
    excerpt: Option<string>,
    content: string,
    published: bool,
    categoryId: Id)

  /** What `request.json()` followed by `postSchema.parse` produced. */
  datatype PostRequest =
    | Unreadable                    // the body is not JSON: `request.json()` throws
    | Rejected(details: seq<Issue>) // the schema threw a validation error
    | Accepted(input: PostInput)

  predicate HasCategory(cats: seq<Category>, id: Id) {
    exists k :: 0 <= k < |cats| && cats[k].id == id
  }

  predicate IdTaken(posts: seq<Post>, id: Id) {
    exists k :: 0 <= k < |posts| && posts[k].id == id
  }

  predicate SlugTaken(posts: seq<Post>, slug: string) {
    exists k :: 0 <= k < |posts| && posts[k].slug == slug
  }

  predicate CategoryIdsDistinct(cats: seq<Category>) {
    forall i, j :: 0 <= i < j < |cats| ==> cats[i].id != cats[j].id
  }

  predicate PostKeysDistinct(posts: seq<Post>) {
    forall i, j :: 0 <= i < j < |posts| ==> posts[i].id != posts[j].id && posts[i].slug != posts[j].slug
  }

  /**
   * What the database guarantees of every state: primary keys are unique,
   * post slugs are unique, and every post references an existing category.
   */
  predicate Consistent(cats: seq<Category>, posts: seq<Post>) {
    && CategoryIdsDistinct(cats)
    && PostKeysDistinct(posts)
    && forall k :: 0 <= k < |posts| ==> HasCategory(cats, posts[k].categoryId)
  }

  /** The Prisma error codes the create handler inspects. */
  const UniqueViolation: string := "P2002"
  const ForeignKeyViolation: string := "P2003"

  /** What the create handler can catch. */
  datatype CreateError =
    | ValidationError(details: seq<Issue>)
    | KnownRequestError(code: string)
    | OtherError

  /** The response messages, as tags. */
  datatype Message =
    | ValidationFailed
    | SlugExists
    | CategoryNotFound
    | CreatePostFailed
    | FetchPostsFailed
    | FetchCategoriesFailed

  /** `{ message, details? }`; details only accompany validation failures. */
  datatype ErrorBody = ErrorBody(message: Message, details: Option<seq<Issue>>)

  /** An HTTP response: a status and either the payload or the error body. */
  datatype Reply<+T> = Reply(status: int, body: Result<T, ErrorBody>)

  /** The `catch` block of the create handler. */
  function CreateErrorReply(e: CreateError): (r: Reply<Post>)
    ensures r.body.Err?
    ensures r.status == 400 <==> e.ValidationError? || e == KnownRequestError(ForeignKeyViolation)
    ensures r.status == 409 <==> e == KnownRequestError(UniqueViolation)
    ensures r.status == 500 <==> !e.ValidationError? && e != KnownRequestError(UniqueViolation)
                                  && e != KnownRequestError(ForeignKeyViolation)
    ensures r.body.error.details.Some? <==> e.ValidationError?
    ensures e.ValidationError? ==> r.body.error.details == Some(e.details)
    ensures r.status == 500 ==> r.body.error == ErrorBody(CreatePostFailed, None)
  {
    match e
    case ValidationError(details) => Reply(400, Err(ErrorBody(ValidationFailed, Some(details))))
    case KnownRequestError(code) =>
      if code == UniqueViolation then Reply(409, Err(ErrorBody(SlugExists, None)))
      else if code == ForeignKeyViolation then Reply(400, Err(ErrorBody(CategoryNotFound, None)))
      else Reply(500, Err(ErrorBody(CreatePostFailed, None)))
    case OtherError => Reply(500, Err(ErrorBody(CreatePostFailed, None)))
  }

  /** The row the handler asks the database to insert. */
  function NewPost(input: PostInput, id: Id, now: Time): (p: Post)
    ensures p.id == id && p.createdAt == now
    ensures p.title == input.title && p.slug == input.slug && p.excerpt == input.excerpt
    ensures p.content == input.content && p.categoryId == input.categoryId
    ensures p.published == input.published
    ensures p.publishedAt.Some? <==> input.published
    ensures p.publishedAt.Some? ==> p.publishedAt.value == now
  {
    Post(id, input.title, input.slug, input.excerpt, input.content, input.published,
         if input.published then Some(now) else None, input.categoryId, now)
  }

  /**
   * How the database answers an insert of `data`: an outage, a unique-key
   * violation (id or slug), a missing category, or success (None). The model
   * checks the unique keys before the foreign key.
   */
  function InsertViolation(cats: seq<Category>, posts: seq<Post>, data: Post, storageFails: bool): (r: Option<CreateError>)
    ensures r.None? <==> !storageFails && !IdTaken(posts, data.id) && !SlugTaken(posts, data.slug)
                         && HasCategory(cats, data.categoryId)
    ensures storageFails ==> r == Some(OtherError)
    ensures !storageFails && (IdTaken(posts, data.id) || SlugTaken(posts, data.slug)) ==>
      r == Some(KnownRequestError(UniqueViolation))
    ensures (!storageFails && !IdTaken(posts, data.id) && !SlugTaken(posts, data.slug)
             && !HasCategory(cats, data.categoryId)) ==> r == Some(KnownRequestError(ForeignKeyViolation))
  {
    if storageFails then Some(OtherError)
    else if IdTaken(posts, data.id) || SlugTaken(posts, data.slug) then Some(KnownRequestError(UniqueViolation))
    else if !HasCategory(cats, data.categoryId) then Some(KnownRequestError(ForeignKeyViolation))
    else None
  }

  /** An insert the database accepts leaves the tables consistent. */
  lemma InsertKeepsConsistent(cats: seq<Category>, posts: seq<Post>, data: Post)
    requires Consistent(cats, posts)
    requires InsertViolation(cats, posts, data, false).None?
    ensures Consistent(cats, posts + [data])
  {
    var after := posts + [data];
    forall i, j | 0 <= i < j < |after|
      ensures after[i].id != after[j].id && after[i].slug != after[j].slug
    {
      if j == |posts| {
        assert after[i] == posts[i];
      }
    }
  }

  class BlogStore {
    var categories: seq<Category>
    var posts: seq<Post>

    ghost predicate Valid()
      reads this
    {
      Consistent(categories, posts)
    }

    constructor (cats: seq<Category>, seeded: seq<Post>)
      requires Consistent(cats, seeded)
      ensures Valid()
      ensures categories == cats && posts == seeded
    {
      categories := cats;
      posts := seeded;
    }

    /**
     * `POST /api/posts`. Validation happens before the insert, so a rejected
     * body writes nothing; any failure leaves both tables as they were.
     */
    method CreatePost(request: PostRequest, id: Id, now: Time, storageFails: bool) returns (reply: Reply<Post>)
      requires Valid()
      modifies this
      ensures Valid()
      ensures categories == old(categories)
      ensures reply.status == 201 <==>
        && request.Accepted?
        && InsertViolation(old(categories), old(posts), NewPost(request.input, id, now), storageFails).None?
      ensures reply.status == 201 ==>
        var p := NewPost(request.input, id, now);
        posts == old(posts) + [p] && reply.body == Ok(p)
      ensures reply.status != 201 ==> posts == old(posts)
      ensures request.Unreadable? ==> reply == CreateErrorReply(OtherError)
      ensures request.Rejected? ==> reply == CreateErrorReply(ValidationError(request.details))
      ensures request.Accepted? && reply.status != 201 ==>
        reply == CreateErrorReply(InsertViolation(old(categories), old(posts),
                                                  NewPost(request.input, id, now), storageFails).value)
    {
      match request
      case Unreadable =>
        reply := CreateErrorReply(OtherError);
      case Rejected(details) =>
        reply := CreateErrorReply(ValidationError(details));
      case Accepted(input) =>
        var data := NewPost(input, id, now);
        var violation := InsertViolation(categories, posts, data, storageFails);
        if violation.None? {
          InsertKeepsConsistent(categories, posts, data);
          posts := posts + [data];
          reply := Reply(201, Ok(data));
        } else {
          reply := CreateErrorReply(violation.value);
        }
    }
  }
}
