/**
 * `categorySchema` of the blog (app2-blog/src/lib/validation.ts): a name of at
 * least one character, a slug of one or more characters from [a-z0-9-], and
 * an optional description. Like the schema library, validation reports every
 * failed check, not only the first, and keeps only the three known fields.
 */
module CategorySchema {
  import opened Wrappers
  import opened Schema

  /** The validated payload (`CategoryInput`). */
  datatype CategoryInput = CategoryInput(name: string, slug: string, description: Option<string>)

  /** A character of the class `[a-z0-9-]`. */
  predicate SlugChar(c: char) {
    ('a' <= c <= 'z') || ('0' <= c <= '9') || c == '-'
  }

  /** What the slug rule admits: non-empty, and every character from the class. */
  predicate ValidSlug(s: string) {
    |s| >= 1 && forall k :: 0 <= k < |s| ==> SlugChar(s[k])
  }

  /** Scans `s` against `[a-z0-9-]*` character by character. */
  function SlugClassStar(s: string): bool {
    s == [] || (SlugChar(s[0]) && SlugClassStar(s[1..]))
  }

  /** The anchored pattern `^[a-z0-9-]+$` (`$` without the multiline flag: end of input only). */
  function MatchesSlugPattern(s: string): bool {
    |s| >= 1 && SlugChar(s[0]) && SlugClassStar(s[1..])
  }

  lemma {:induction false} SlugClassStarMeaning(s: string)
    ensures SlugClassStar(s) <==> forall k :: 0 <= k < |s| ==> SlugChar(s[k])
  {
    if s != [] {
      SlugClassStarMeaning(s[1..]);
      assert forall k :: 1 <= k < |s| ==> s[k] == s[1..][k - 1];
    }
  }

  /** The pattern accepts exactly the slugs `ValidSlug` describes. */
  lemma SlugPatternMeaning(s: string)
    ensures MatchesSlugPattern(s) <==> ValidSlug(s)
  {
    if |s| >= 1 {
      SlugClassStarMeaning(s[1..]);
      assert forall k :: 1 <= k < |s| ==> s[k] == s[1..][k - 1];
    }
  }

  predicate NameOk(f: map<string, Value>) {
    IsNonEmptyText(f, "name")
  }

  predicate SlugOk(f: map<string, Value>) {
    "slug" in f && f["slug"].Text? && ValidSlug(f["slug"].s)
  }

  /** `z.string().optional()`: absent, or any string (the empty one too); `null` is not a string. */
  predicate DescriptionOk(f: map<string, Value>) {
    "description" !in f || f["description"].Text?
  }

  /** The issues of `z.string().min(1).regex(/^[a-z0-9-]+$/)` on the slug field. */
  function SlugIssues(f: map<string, Value>): (issues: seq<Issue>)
    ensures issues == [] <==> SlugOk(f)
    ensures Paths(issues) == if SlugOk(f) then {} else {"slug"}
  {
    if "slug" !in f || !f["slug"].Text? then [Issue("slug", InvalidType)]
    else
      var s := f["slug"].s;
      SlugPatternMeaning(s);
      var tooSmall := if |s| < 1 then [Issue("slug", TooSmall)] else [];
      var noMatch := if MatchesSlugPattern(s) then [] else [Issue("slug", InvalidString)];
      PathsOfConcat(tooSmall, noMatch);
      tooSmall + noMatch
  }

  function DescriptionIssues(f: map<string, Value>): (issues: seq<Issue>)
    ensures issues == [] <==> DescriptionOk(f)
    ensures Paths(issues) == if DescriptionOk(f) then {} else {"description"}
  {
    if DescriptionOk(f) then [] else [Issue("description", InvalidType)]
  }

  /** The set of fields that fail their rule. */
  function FailingFields(f: map<string, Value>): set<string> {
    (if NameOk(f) then {} else {"name"})
    + (if SlugOk(f) then {} else {"slug"})
    + (if DescriptionOk(f) then {} else {"description"})
  }

  /** `categorySchema.parse(body)`. */
  function ValidateCategory(body: Value): (r: Result<CategoryInput, seq<Issue>>)
    ensures r.Ok? <==> body.Object? && NameOk(body.fields) && SlugOk(body.fields) && DescriptionOk(body.fields)
    ensures r.Ok? ==> var f := body.fields;
      r.value == CategoryInput(f["name"].s, f["slug"].s,
                               if "description" in f then Some(f["description"].s) else None)
    ensures r.Err? ==> |r.error| >= 1
    ensures r.Err? && body.Object? ==> Paths(r.error) == FailingFields(body.fields)
    ensures r.Err? && !body.Object? ==> r.error == NotAnObject
  {
    if !body.Object? then Err(NotAnObject)
    else
      var f := body.fields;
      var nameIssues := NonEmptyTextIssues(f, "name");
      var issues := nameIssues + SlugIssues(f) + DescriptionIssues(f);
      PathsOfConcat(nameIssues, SlugIssues(f));
      PathsOfConcat(nameIssues + SlugIssues(f), DescriptionIssues(f));
      if issues == [] then
        Ok(CategoryInput(f["name"].s, f["slug"].s,
                         if "description" in f then Some(f["description"].s) else None))
      else
        Err(issues)
  }

  /** A body holding exactly the given name and slug and no description. */
  function NameSlugBody(name: string, slug: string): Value {
    Object(map["name" := Text(name), "slug" := Text(slug)])
  }

  /** The name is accepted exactly when it has at least one character. */
  lemma NameRule(name: string, slug: string)
    requires ValidSlug(slug)
    ensures ValidateCategory(NameSlugBody(name, slug)).Ok? <==> |name| >= 1
  {
  }

  /** The slug is accepted exactly when `ValidSlug` holds. */
  lemma SlugRule(name: string, slug: string)
    requires |name| >= 1
    ensures ValidateCategory(NameSlugBody(name, slug)).Ok? <==> ValidSlug(slug)
  {
  }

  /**
   * One character outside a-z, 0-9 and '-' makes a slug invalid: upper case,
   * space, underscore and non-ASCII among them.
   */
  lemma ForbiddenCharacterRejected(s: string, k: nat)
    requires k < |s|
    requires !SlugChar(s[k])
    ensures !ValidSlug(s)
    ensures !MatchesSlugPattern(s)
  {
    SlugPatternMeaning(s);
  }

  /** Hyphens may lead, trail or repeat: the rule is a character class, not a token grammar. */
  lemma HyphensUnrestricted(s: string)
    requires ValidSlug(s)
    ensures ValidSlug("-")
    ensures ValidSlug(s + "-") && ValidSlug("-" + s) && ValidSlug(s + "--" + s)
  {
    assert forall k :: 0 <= k < |s| ==> (s + "-")[k] == s[k];
    assert forall k :: 0 <= k < |s| ==> ("-" + s)[k + 1] == s[k];
    assert forall k :: 0 <= k < |s| ==> (s + "--" + s)[k] == s[k] && (s + "--" + s)[|s| + 2 + k] == s[k];
  }

  /** An empty slug fails both checks, and both are reported. */
  lemma EmptySlugReportsBoth(name: string)
    requires |name| >= 1
    ensures ValidateCategory(NameSlugBody(name, "")) ==
            Err([Issue("slug", TooSmall), Issue("slug", InvalidString)])
  {
    var f := NameSlugBody(name, "").fields;
    assert f["name"] == Text(name) && f["slug"] == Text("") && "description" !in f;
    assert NonEmptyTextIssues(f, "name") == [];
    assert SlugIssues(f) == [Issue("slug", TooSmall), Issue("slug", InvalidString)];
    assert DescriptionIssues(f) == [];
    assert [] + [Issue("slug", TooSmall), Issue("slug", InvalidString)] + []
        == [Issue("slug", TooSmall), Issue("slug", InvalidString)];
  }

  /** The description may be absent, empty or any text; `null` is rejected. */
  lemma DescriptionRule(d: string)
    ensures ValidateCategory(Object(map["name" := Text("Tech"), "slug" := Text("tech")])).Ok?
    ensures ValidateCategory(Object(map["name" := Text("Tech"), "slug" := Text("tech"), "description" := Text(d)]))
            == Ok(CategoryInput("Tech", "tech", Some(d)))
    ensures ValidateCategory(Object(map["name" := Text("Tech"), "slug" := Text("tech"), "description" := Null]))
            == Err([Issue("description", InvalidType)])
  {
    assert ValidSlug("tech");
    var f := map["name" := Text("Tech"), "slug" := Text("tech"), "description" := Null];
    assert f["name"] == Text("Tech") && f["slug"] == Text("tech") && f["description"] == Null;
    assert NonEmptyTextIssues(f, "name") == [];
    assert SlugIssues(f) == [];
    assert DescriptionIssues(f) == [Issue("description", InvalidType)];
    assert [] + [] + [Issue("description", InvalidType)] == [Issue("description", InvalidType)];
  }

  /** The slugs of the seeded categories and of the first seeded post pass the rule. */
  lemma SeededSlugsValid()
    ensures ValidSlug("tech") && ValidSlug("design") && ValidSlug("business") && ValidSlug("lifestyle")
    ensures ValidSlug("nextjs-15-new-features")
  {
  }
}
