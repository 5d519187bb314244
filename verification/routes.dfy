/**
 * The router of src/mocks/routes.js: three routes on "/mocks", then a catch-all.
 * Express matches a route path against the URL's path (the query string removed),
 * ignoring letter case and one trailing slash, and lets a GET route answer HEAD.
 */
module Routes {
  import Text

  datatype Handler = List | Add | Clear | Find

  const MocksPath: string := "/mocks"

  /** The URL up to its first '?'. */
  function PathOf(url: string): (p: string)
    ensures |p| <= |url| && p == url[..|p|]
    ensures '?' !in p
    ensures |p| < |url| ==> url[|p|] == '?'
  {
    if url == [] || url[0] == '?' then [] else [url[0]] + PathOf(url[1..])
  }

  /** Whether Express's non-strict, case-insensitive "/mocks" route matches the URL. */
  predicate MatchesMocks(url: string) {
    var p := Text.Lower(PathOf(url));
    p == MocksPath || p == MocksPath + "/"
  }

  /** The first registered route that matches; the catch-all `router.all("*")` is last. */
  function Dispatch(verb: string, url: string): (h: Handler)
    ensures h != Find <==> MatchesMocks(url) && Text.Lower(verb) in {"get", "head", "post", "delete"}
  {
    var v := Text.Lower(verb);
    if MatchesMocks(url) && (v == "get" || v == "head") then List
    else if MatchesMocks(url) && v == "post" then Add
    else if MatchesMocks(url) && v == "delete" then Clear
    else Find
  }

  lemma LowerOfUpperVerbs()
    ensures Text.Lower("GET") == "get" && Text.Lower("HEAD") == "head"
    ensures Text.Lower("POST") == "post" && Text.Lower("DELETE") == "delete"
  {
  }

  /** GET, POST and DELETE on "/mocks" reach list, add and clear, never find. */
  lemma MocksRoutes(url: string)
    requires MatchesMocks(url)
    ensures Dispatch("GET", url) == List
    ensures Dispatch("POST", url) == Add
    ensures Dispatch("DELETE", url) == Clear
  {
    LowerOfUpperVerbs();
  }

  /** Any URL whose path is not "/mocks" reaches find, whatever the method. */
  lemma OtherPathsReachFind(verb: string, url: string)
    requires !MatchesMocks(url)
    ensures Dispatch(verb, url) == Find
  {
  }

  /** The query string plays no part in routing. */
  lemma QueryIgnored(url: string, query: string)
    requires '?' !in url
    ensures PathOf(url + "?" + query) == url
    ensures MatchesMocks(url + "?" + query) == MatchesMocks(url)
  {
    var p := PathOf(url + "?" + query);
    assert (url + "?" + query)[|url|] == '?';
    assert |p| >= |url|;
    assert p == (url + "?" + query)[..|url|] == url;
  }
}
