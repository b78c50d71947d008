/** The fixed set of browsers the extension is built for (`validBrowsers` in scripts/build.js). */
module Browsers {
  import opened Wrappers

  datatype Browser = Firefox | Chrome | Opera | Edge

  /** The name used on the command line, in paths and as the `BROWSER` constant. */
  function Name(b: Browser): string
  {
    match b
    case Firefox => "firefox"
    case Chrome => "chrome"
    case Opera => "opera"
    case Edge => "edge"
  }

  /** `validBrowsers`, in its declared order. */
  const AllBrowsers: seq<Browser> := [Firefox, Chrome, Opera, Edge]

  /** `validBrowsers.includes(name)`, giving back the browser it names. */
  function ParseBrowser(name: string): (r: Option<Browser>)
    ensures r.Some? ==> Name(r.value) == name
    ensures r.None? ==> forall b :: Name(b) != name
  {
    if name == "firefox" then Some(Firefox)
    else if name == "chrome" then Some(Chrome)
    else if name == "opera" then Some(Opera)
    else if name == "edge" then Some(Edge)
    else None
  }

  lemma ParseName(b: Browser)
    ensures ParseBrowser(Name(b)) == Some(b)
  {
  }

  /** The browsers that have a sidebar interface (the `'firefox' || 'opera'` tests). */
  predicate HasSidebar(b: Browser)
  {
    b == Firefox || b == Opera
  }

  /** The browsers that get DevTools pages (the `'firefox' || 'chrome' || 'opera'` test). */
  predicate HasDevtools(b: Browser)
  {
    b != Edge
  }
}
