/**
 * The pagination links of the browse view, and the query-string merge they are
 * built with.
 *
 * Django's `Page` answers `has_next()` as `number < num_pages` and
 * `has_previous()` as `number > 1`, and numbers the neighbouring pages
 * `number + 1` and `number - 1`; that framework behaviour is written out here.
 * URL encoding is left abstract: a URL is its path and its parameter map.
 */
module Pagination {

  import opened Wrappers

  /**
   * A query parameter: the list of values `dict(request.GET)` holds for a key,
   * or a page number passed to `_get_new_url`.
   */
  datatype Param = Values(values: seq<string>) | Number(n: int)

  /** `path + "?" + urlencode(params, doseq=True)`, before encoding. */
  datatype Url = Url(path: string, query: map<string, Param>)

  /**
   * The parameters of the new URL: the request's own, each replaced by the
   * given value when `parms` names it, and the keys of `parms` added, as
   * `MergedOverrides` states.
   */
  function Merged(get: map<string, seq<string>>, parms: map<string, int>): (m: map<string, Param>)
  {
    map k | k in get.Keys + parms.Keys :: if k in parms then Number(parms[k]) else Values(get[k])
  }

  /** `Merged` keeps every request parameter that `parms` does not name and overrides the rest. */
  lemma MergedOverrides(get: map<string, seq<string>>, parms: map<string, int>)
    ensures Merged(get, parms).Keys == get.Keys + parms.Keys
    ensures forall k :: k in parms ==> Merged(get, parms)[k] == Number(parms[k])
    ensures forall k :: k in get && k !in parms ==> Merged(get, parms)[k] == Values(get[k])
  {
  }

  /**
   * `_get_new_url(**parms)`: copy the request's query parameters, update the
   * copy with `parms`, and attach it to the request's path.
   */
  method NewUrl(path: string, get: map<string, seq<string>>, parms: map<string, int>) returns (u: Url)
    ensures u == Url(path, Merged(get, parms))
  {
    var requestKwargs: map<string, Param> := map k | k in get :: Values(get[k]);
    requestKwargs := requestKwargs + map k | k in parms :: Number(parms[k]);
    u := Url(path, requestKwargs);
    assert requestKwargs == Merged(get, parms);
  }

  /** The URL of page `n` of the current request; `PageUrlKeepsQuery` states what it holds. */
  function PageUrl(path: string, get: map<string, seq<string>>, n: int): (u: Url)
  {
    Url(path, Merged(get, map["page" := n]))
  }

  /** The page object of the browse view's context. */
  datatype Page = Page(number: int, numPages: int) {
    predicate HasNext() { number < numPages }
    predicate HasPrevious() { number > 1 }
    function NextPageNumber(): (n: int) { number + 1 }
    function PreviousPageNumber(): (n: int) { number - 1 }
  }

  /** The pagination links, each stored in the context under its `Key()`. */
  datatype Link = NextUrl | LastUrl | FirstUrl | PreviousUrl {
    function Key(): (key: string)
    {
      match this
      case NextUrl => "next_url"
      case LastUrl => "last_url"
      case FirstUrl => "first_url"
      case PreviousUrl => "previous_url"
    }
  }

  /**
   * Whether the page shows `link`, and the page it leads to: last and first
   * whenever there is a page beyond, next and previous only when they would not
   * duplicate last or first.
   */
  function Target(page: Page, link: Link): (t: Option<int>)
    ensures link == LastUrl ==> (t.Some? <==> page.HasNext())
    ensures link == NextUrl ==> (t.Some? <==> page.HasNext() && page.NextPageNumber() != page.numPages)
    ensures link == FirstUrl ==> (t.Some? <==> page.HasPrevious())
    ensures link == PreviousUrl ==> (t.Some? <==> page.HasPrevious() && page.PreviousPageNumber() != 1)
    ensures t.Some? ==> t.value == match link
                                   case NextUrl => page.NextPageNumber()
                                   case LastUrl => page.numPages
                                   case FirstUrl => 1
                                   case PreviousUrl => page.PreviousPageNumber()
  {
    match link
    case LastUrl => if page.number < page.numPages then Some(page.numPages) else None
    case NextUrl => if page.number + 1 < page.numPages then Some(page.number + 1) else None
    case FirstUrl => if 1 < page.number then Some(1) else None
    case PreviousUrl => if 2 < page.number then Some(page.number - 1) else None
  }

  /**
   * The pagination branch of `BrowseView.get_context_data`: the link entries it
   * writes into the context, one key after another. No link is written unless
   * the context says `is_paginated`.
   */
  method PaginationLinks(isPaginated: bool, page: Page, path: string, get: map<string, seq<string>>)
    returns (links: map<Link, Url>)
    ensures forall link: Link :: link in links <==> isPaginated && Target(page, link).Some?
    ensures forall link :: link in links ==> links[link] == PageUrl(path, get, Target(page, link).value)
  {
    links := map[];
    if isPaginated {
      var numPages := page.numPages;
      if page.HasNext() {
        if page.NextPageNumber() != numPages {
          assert Target(page, NextUrl).value == page.NextPageNumber();
          var u := NewUrl(path, get, map["page" := page.NextPageNumber()]);
          links := links[NextUrl := u];
        }
        assert Target(page, LastUrl).value == numPages;
        var u := NewUrl(path, get, map["page" := numPages]);
        links := links[LastUrl := u];
      }
      if page.HasPrevious() {
        assert Target(page, FirstUrl).value == 1;
        var u := NewUrl(path, get, map["page" := 1]);
        links := links[FirstUrl := u];
        if page.PreviousPageNumber() != 1 {
          assert Target(page, PreviousUrl).value == page.PreviousPageNumber();
          u := NewUrl(path, get, map["page" := page.PreviousPageNumber()]);
          links := links[PreviousUrl := u];
        }
      }
    }
    forall link: Link
      ensures link in links <==> isPaginated && Target(page, link).Some?
    {
      match link
      case NextUrl =>
      case LastUrl =>
      case FirstUrl =>
      case PreviousUrl =>
    }
  }

  /**
   * On a page the paginator can produce, every link leads to an existing page
   * other than the current one; next comes before last and previous after first.
   */
  lemma TargetsInRange(page: Page, link: Link)
    requires 1 <= page.number <= page.numPages
    ensures Target(page, link).Some? ==>
              1 <= Target(page, link).value <= page.numPages && Target(page, link).value != page.number
    ensures Target(page, NextUrl).Some? ==> Target(page, NextUrl).value < Target(page, LastUrl).value
    ensures Target(page, PreviousUrl).Some? ==> Target(page, FirstUrl).value < Target(page, PreviousUrl).value
  {
  }

  /** A page URL keeps every other parameter of the request and sets only `page`. */
  lemma PageUrlKeepsQuery(path: string, get: map<string, seq<string>>, n: int)
    ensures PageUrl(path, get, n).path == path
    ensures PageUrl(path, get, n).query.Keys == get.Keys + {"page"}
    ensures PageUrl(path, get, n).query["page"] == Number(n)
    ensures forall k :: k in get && k != "page" ==> PageUrl(path, get, n).query[k] == Values(get[k])
  {
    MergedOverrides(get, map["page" := n]);
  }
}
