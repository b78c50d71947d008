/**
 * The test that both src/code/_background.js and src/code/contentScriptInjector.js apply to a tab's URL
 * before touching it: a web or file scheme, and no special page of the browser.
 */
module UrlGuard {
  import opened Wrappers
  import opened Text
  import opened Browsers
  import opened SpecialPages

  /** `/^(https?|file):\/\//.test(url)`. */
  predicate AllowedScheme(url: string)
  {
    StartsWith(url, "http://") || StartsWith(url, "https://") || StartsWith(url, "file://")
  }

  /** `RegExp.prototype.test` converts an undefined URL to the text "undefined". */
  function UrlText(url: Option<string>): (r: string)
    ensures url.Some? ==> r == url.value
    ensures url.None? ==> !AllowedScheme(r)
  {
    if url.Some? then url.value
    else
      assert "undefined"[0] == 'u';
      "undefined"
  }

  /** Some pattern of `pages` matches `url`. */
  predicate MatchesAny(pages: seq<Pattern>, url: string)
  {
    exists i :: 0 <= i < |pages| && Matches(pages[i], url)
  }

  /** The browser action is enabled, and the content script injected, exactly for these URLs. */
  predicate ActionEnabled(b: Browser, url: Option<string>)
  {
    AllowedScheme(UrlText(url)) && !MatchesAny(SpecialPagesFor(b), UrlText(url))
  }

  /** http and file pages are never special: the guard lets every one of them through. */
  lemma PlainPagesEnabled(b: Browser, url: string)
    requires StartsWith(url, "http://") || StartsWith(url, "file://")
    ensures ActionEnabled(b, Some(url))
  {
    SpecialPagesNeedHttps(b, url);
    assert url[4] == ':';
    assert !StartsWith(url, Scheme) by {
      assert Scheme[4] == 's';
    }
    assert SpecialPagesFor(b) == [SpecialPagesFor(b)[0]];
  }

  /** A URL without an allowed scheme, or an undefined one, is always refused. */
  lemma NoSchemeRefused(b: Browser, url: Option<string>)
    requires url.None? || !AllowedScheme(url.value)
    ensures !ActionEnabled(b, url)
  {
  }
}
