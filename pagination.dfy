/**
 * The `Pagination` component (app2-blog/src/components/pagination.tsx): which
 * arrows are enabled, which page numbers are linked, and the href of each
 * link. `ParseHref` reads an href back into its page number and category, so
 * the contracts can say where each link leads.
 */
module Pagination {
  import opened Wrappers
  import opened Decimal
  import PostListing

  /** An arrow button: disabled, or a link to `href`. */
  datatype Arrow = Disabled | Enabled(href: string)

  /** A numbered page button. */
  datatype PageLink = PageLink(page: int, href: string)

  /** What the component renders, left to right. */
  datatype View = View(previous: Arrow, links: seq<PageLink>, next: Arrow)

  const PagePrefix: string := "/?page="
  const CategoryPrefix: string := "&categoryId="

  /** `categoryId ? … : …`: an absent or empty category id is falsy. */
  predicate CategoryGiven(categoryId: Option<string>) {
    categoryId.Some? && categoryId.value != ""
  }

  /** The category an href carries, if any. */
  function CategoryParam(categoryId: Option<string>): Option<string> {
    if CategoryGiven(categoryId) then categoryId else None
  }

  /** `/?page=${page}`, followed by `&categoryId=${categoryId}` when a category is given. */
  function PageHref(page: int, categoryId: Option<string>): string {
    if CategoryGiven(categoryId) then PagePrefix + IntToString(page) + CategoryPrefix + categoryId.value
    else PagePrefix + IntToString(page)
  }

  /** The position of the first '&' in `s`, or `|s|` if there is none. */
  function FirstAmpersand(s: string): (n: nat)
    ensures n <= |s|
    ensures forall k :: 0 <= k < n ==> s[k] != '&'
    ensures n < |s| ==> s[n] == '&'
  {
    if s == [] || s[0] == '&' then 0 else 1 + FirstAmpersand(s[1..])
  }

  /** Reads an href of the shape `PageHref` builds; None for anything else. */
  function ParseHref(h: string): Option<(int, Option<string>)> {
    if |h| < |PagePrefix| || h[..|PagePrefix|] != PagePrefix then None
    else
      var rest := h[|PagePrefix|..];
      var n := FirstAmpersand(rest);
      match ParseInt(rest[..n])
      case None => None
      case Some(page) =>
        if n == |rest| then Some((page, None))
        else
          var tail := rest[n..];
          if |tail| > |CategoryPrefix| && tail[..|CategoryPrefix|] == CategoryPrefix then
            Some((page, Some(tail[|CategoryPrefix|..])))
          else None
  }

  lemma FirstAmpersandAfter(d: string, suffix: string)
    requires forall k :: 0 <= k < |d| ==> d[k] != '&'
    requires suffix == [] || suffix[0] == '&'
    ensures FirstAmpersand(d + suffix) == |d|
  {
    var s := d + suffix;
    assert forall k :: 0 <= k < |d| ==> s[k] == d[k];
    assert |d| < |s| ==> s[|d|] == suffix[0];
  }

  /** An href leads back to the page number and the category it was built from. */
  lemma HrefRoundTrip(page: int, categoryId: Option<string>)
    ensures ParseHref(PageHref(page, categoryId)) == Some((page, CategoryParam(categoryId)))
  {
    var d := IntToString(page);
    var suffix := if CategoryGiven(categoryId) then CategoryPrefix + categoryId.value else "";
    var h := PageHref(page, categoryId);
    assert h == PagePrefix + (d + suffix);
    assert h[..|PagePrefix|] == PagePrefix;
    var rest := h[|PagePrefix|..];
    assert rest == d + suffix;
    FirstAmpersandAfter(d, suffix);
    assert rest[..|d|] == d;
    IntRoundTrip(page);
    if CategoryGiven(categoryId) {
      assert rest[|d|..] == suffix;
      assert suffix[..|CategoryPrefix|] == CategoryPrefix;
      assert suffix[|CategoryPrefix|..] == categoryId.value;
    } else {
      assert |rest| == |d|;
    }
  }

  /** Different pages, or different categories, give different hrefs. */
  lemma HrefInjective(p: int, c: Option<string>, p': int, c': Option<string>)
    requires p != p' || CategoryParam(c) != CategoryParam(c')
    ensures PageHref(p, c) != PageHref(p', c')
  {
    HrefRoundTrip(p, c);
    HrefRoundTrip(p', c');
  }

  /** The left arrow: disabled on the first page, else a link one page back. */
  function PreviousArrow(page: int, categoryId: Option<string>): Arrow {
    if page <= 1 then Disabled else Enabled(PageHref(page - 1, categoryId))
  }

  /**
   * The right arrow as line 32 writes it: with a category it links to
   * `page - 1`, the page before, while without one it links to `page + 1`.
   */
  function NextArrowAsWritten(page: int, totalPages: int, categoryId: Option<string>): Arrow {
    if page >= totalPages then Disabled
    else if CategoryGiven(categoryId) then Enabled(PageHref(page - 1, categoryId))
    else Enabled(PagePrefix + IntToString(page + 1))
  }

  /** The right arrow as intended: disabled on the last page, else a link one page on. */
  function NextArrow(page: int, totalPages: int, categoryId: Option<string>): Arrow {
    if page >= totalPages then Disabled else Enabled(PageHref(page + 1, categoryId))
  }

  /** `Array.from({ length: totalPages }, (_, i) => i + 1).map(...)`. */
  function PageLinks(totalPages: nat, categoryId: Option<string>): (links: seq<PageLink>)
    ensures |links| == totalPages
    ensures forall k :: 0 <= k < totalPages ==>
      links[k].page == k + 1 && ParseHref(links[k].href) == Some((k + 1, CategoryParam(categoryId)))
  {
    HrefRoundTripAll(categoryId);
    seq(totalPages, k requires 0 <= k < totalPages => PageLink(k + 1, PageHref(k + 1, categoryId)))
  }

  lemma HrefRoundTripAll(categoryId: Option<string>)
    ensures forall p :: ParseHref(PageHref(p, categoryId)) == Some((p, CategoryParam(categoryId)))
  {
    forall p ensures ParseHref(PageHref(p, categoryId)) == Some((p, CategoryParam(categoryId))) {
      HrefRoundTrip(p, categoryId);
    }
  }

  lemma PreviousArrowTarget(page: int, categoryId: Option<string>)
    ensures PreviousArrow(page, categoryId).Disabled? <==> page <= 1
    ensures PreviousArrow(page, categoryId).Enabled? ==>
      ParseHref(PreviousArrow(page, categoryId).href) == Some((page - 1, CategoryParam(categoryId)))
  {
    HrefRoundTrip(page - 1, categoryId);
  }

  lemma NextArrowTarget(page: int, totalPages: int, categoryId: Option<string>)
    ensures NextArrow(page, totalPages, categoryId).Disabled? <==> page >= totalPages
    ensures NextArrow(page, totalPages, categoryId).Enabled? ==>
      ParseHref(NextArrow(page, totalPages, categoryId).href) == Some((page + 1, CategoryParam(categoryId)))
  {
    HrefRoundTrip(page + 1, categoryId);
  }

  /** The whole component, with the right arrow corrected. */
  function Render(info: PostListing.PageInfo, categoryId: Option<string>): (v: View)
    ensures v.previous.Disabled? <==> info.page <= 1
    ensures v.previous.Enabled? ==> ParseHref(v.previous.href) == Some((info.page - 1, CategoryParam(categoryId)))
    ensures v.next.Disabled? <==> info.page >= info.totalPages
    ensures v.next.Enabled? ==> ParseHref(v.next.href) == Some((info.page + 1, CategoryParam(categoryId)))
    ensures |v.links| == info.totalPages
    ensures forall k :: 0 <= k < |v.links| ==>
      v.links[k].page == k + 1 && ParseHref(v.links[k].href) == Some((k + 1, CategoryParam(categoryId)))
  {
    PreviousArrowTarget(info.page, categoryId);
    NextArrowTarget(info.page, info.totalPages, categoryId);
    View(PreviousArrow(info.page, categoryId),
         PageLinks(info.totalPages, categoryId),
         NextArrow(info.page, info.totalPages, categoryId))
  }

  /** The numbered links all lead to different places. */
  lemma LinksDistinct(totalPages: nat, categoryId: Option<string>, i: nat, j: nat)
    requires i < j < totalPages
    ensures PageLinks(totalPages, categoryId)[i].href != PageLinks(totalPages, categoryId)[j].href
  {
    HrefInjective(i + 1, categoryId, j + 1, categoryId);
  }

  /** On a page inside the listing, every enabled arrow leads to a page of the listing. */
  lemma EnabledArrowsStayInRange(info: PostListing.PageInfo, categoryId: Option<string>)
    requires 1 <= info.page <= info.totalPages
    ensures var v := Render(info, categoryId);
      && (v.previous.Enabled? ==> 1 <= ParseHref(v.previous.href).value.0 <= info.totalPages)
      && (v.next.Enabled? ==> 1 <= ParseHref(v.next.href).value.0 <= info.totalPages)
  {
  }

  /** With nothing to list, the first page shows no numbers and two disabled arrows. */
  lemma EmptyListingHasNoNavigation(info: PostListing.PageInfo, categoryId: Option<string>)
    requires info.totalPages == 0 && info.page == 1
    ensures Render(info, categoryId) == View(Disabled, [], Disabled)
  {
    assert PageLinks(info.totalPages, categoryId) == [];
    assert PreviousArrow(info.page, categoryId) == Disabled;
    assert NextArrow(info.page, info.totalPages, categoryId) == Disabled;
  }

  /** Without a category the line as written and the corrected arrow agree. */
  lemma NextArrowAgreesWithoutCategory(page: int, totalPages: int, categoryId: Option<string>)
    requires !CategoryGiven(categoryId)
    ensures NextArrowAsWritten(page, totalPages, categoryId) == NextArrow(page, totalPages, categoryId)
  {
  }

  /** With a category, the arrow as written leads back one page instead of forward. */
  lemma NextArrowAsWrittenGoesBack(page: int, totalPages: int, categoryId: Option<string>)
    requires CategoryGiven(categoryId) && page < totalPages
    ensures ParseHref(NextArrowAsWritten(page, totalPages, categoryId).href) == Some((page - 1, categoryId))
    ensures ParseHref(NextArrow(page, totalPages, categoryId).href) == Some((page + 1, categoryId))
  {
    HrefRoundTrip(page - 1, categoryId);
    HrefRoundTrip(page + 1, categoryId);
  }

  /** The concrete case: on page 1 of 2 in category "tech" the right arrow leads to page 0. */
  lemma NextArrowAsWrittenExample()
    ensures NextArrowAsWritten(1, 2, Some("tech")) == Enabled("/?page=0&categoryId=tech")
    ensures NextArrow(1, 2, Some("tech")) == Enabled("/?page=2&categoryId=tech")
  {
    assert IntToString(0) == "0";
    assert IntToString(2) == "2";
    assert PageHref(0, Some("tech")) == "/?page=0&categoryId=tech";
    assert PageHref(2, Some("tech")) == "/?page=2&categoryId=tech";
  }
}
