/**
 * src/code/contentScriptInjector.js: outside Firefox, the function that injects `content.js` into the
 * open tabs on install and update.
 */
module ContentScriptInjector {
  import opened Wrappers
  import opened Browsers
  import opened SpecialPages
  import opened WebExtension
  import opened UrlGuard

  /** The module exports `null` on Firefox and the injector elsewhere. */
  predicate HasInjector(b: Browser)
  {
    b != Firefox
  }

  /** The `executeScript` calls made for `tabs`, in tab order. */
  function Injections(b: Browser, tabs: seq<Tab>): (r: seq<Call>)
    ensures |r| <= |tabs|
    ensures forall c :: c in r ==> c.ExecuteScript? && c.file == "content.js"
  {
    if tabs == [] then []
    else
      var last := tabs[|tabs| - 1];
      Injections(b, tabs[..|tabs| - 1]) + (if ActionEnabled(b, last.url) then [ExecuteScript(last.id, "content.js")] else [])
  }

  /** A tab that passes the guard */
  ghost predicate InjectedTab(b: Browser, tabs: seq<Tab>, id: int)
  {
    exists i :: 0 <= i < |tabs| && tabs[i].id == id && ActionEnabled(b, tabs[i].url)
  }

  /** The calls made are exactly one `content.js` injection for each tab that passes the guard. */
  lemma {:induction false} InjectionsAreGuardedTabs(b: Browser, tabs: seq<Tab>, c: Call)
    ensures c in Injections(b, tabs) <==> c.ExecuteScript? && c.file == "content.js" && InjectedTab(b, tabs, c.tabId)
  {
    if tabs != [] {
      var front, last := tabs[..|tabs| - 1], tabs[|tabs| - 1];
      InjectionsAreGuardedTabs(b, front, c);
      if c.ExecuteScript? && InjectedTab(b, tabs, c.tabId) {
        var i :| 0 <= i < |tabs| && tabs[i].id == c.tabId && ActionEnabled(b, tabs[i].url);
        if i < |tabs| - 1 {
          assert front[i] == tabs[i];
        }
      }
      if c.ExecuteScript? && InjectedTab(b, front, c.tabId) {
        var i :| 0 <= i < |front| && front[i].id == c.tabId && ActionEnabled(b, front[i].url);
        assert tabs[i] == front[i];
      }
    }
  }

  /** With distinct tab ids, a tab is injected exactly when the guard lets it through. */
  lemma InjectionsOf(b: Browser, tabs: seq<Tab>, i: int)
    requires 0 <= i < |tabs|
    requires forall j, k :: 0 <= j < k < |tabs| ==> tabs[j].id != tabs[k].id
    ensures ExecuteScript(tabs[i].id, "content.js") in Injections(b, tabs) <==> ActionEnabled(b, tabs[i].url)
  {
    var c := ExecuteScript(tabs[i].id, "content.js");
    InjectionsAreGuardedTabs(b, tabs, c);
    if InjectedTab(b, tabs, c.tabId) {
      var j :| 0 <= j < |tabs| && tabs[j].id == c.tabId && ActionEnabled(b, tabs[j].url);
      assert j == i;
    }
  }

  /** No injection names a tab id that none of `tabs` has. */
  lemma NoInjectionForOtherIds(b: Browser, tabs: seq<Tab>, id: int)
    requires forall j :: 0 <= j < |tabs| ==> tabs[j].id != id
    ensures multiset(Injections(b, tabs))[ExecuteScript(id, "content.js")] == 0
  {
    InjectionsAreGuardedTabs(b, tabs, ExecuteScript(id, "content.js"));
  }

  /** The injections of a non-empty tab list, counted: those of all but the last tab, plus the last tab's. */
  lemma InjectionsCountStep(b: Browser, tabs: seq<Tab>, c: Call)
    requires tabs != []
    ensures multiset(Injections(b, tabs))[c] ==
      multiset(Injections(b, tabs[..|tabs| - 1]))[c] + (if ActionEnabled(b, tabs[|tabs| - 1].url) && c == ExecuteScript(tabs[|tabs| - 1].id, "content.js") then 1 else 0)
  {
  }

  /** With distinct tab ids, each tab gets one `content.js` injection if it passes the guard and none otherwise. */
  lemma {:induction false} InjectionsPerTab(b: Browser, tabs: seq<Tab>, i: int)
    requires 0 <= i < |tabs|
    requires forall j, k :: 0 <= j < k < |tabs| ==> tabs[j].id != tabs[k].id
    ensures multiset(Injections(b, tabs))[ExecuteScript(tabs[i].id, "content.js")] == if ActionEnabled(b, tabs[i].url) then 1 else 0
  {
    var n := |tabs|;
    var front := tabs[..n - 1];
    InjectionsCountStep(b, tabs, ExecuteScript(tabs[i].id, "content.js"));
    if i == n - 1 {
      NoInjectionForOtherIds(b, front, tabs[i].id);
    } else {
      assert front[i] == tabs[i];
      InjectionsPerTab(b, front, i);
    }
  }

  /** Extending the tab list by one tab adds that tab's injection, if any, at the end. */
  lemma InjectionsStep(b: Browser, tabs: seq<Tab>, i: int)
    requires 0 <= i < |tabs|
    ensures Injections(b, tabs[..i + 1]) == Injections(b, tabs[..i]) + (if ActionEnabled(b, tabs[i].url) then [ExecuteScript(tabs[i].id, "content.js")] else [])
  {
    assert tabs[..i + 1][..i] == tabs[..i];
  }

  /** The inner loop: whether some special page matches `url`, stopping at the first that does. */
  method SkipTab(pages: seq<Pattern>, url: string) returns (skipThisTab: bool)
    ensures skipThisTab <==> MatchesAny(pages, url)
  {
    skipThisTab := false;
    for j := 0 to |pages|
      invariant !skipThisTab <==> forall k :: 0 <= k < j ==> !Matches(pages[k], url)
    {
      if Matches(pages[j], url) {
        skipThisTab := true;
        break;
      }
    }
  }

  /** The injector: one `executeScript` of `content.js` per tab that passes the guard, in tab order. */
  method InjectContentScripts(api: BrowserApi, b: Browser, tabs: seq<Tab>)
    requires HasInjector(b)
    modifies api
    ensures api.calls == old(api.calls) + Injections(b, tabs)
    ensures api.popup == old(api.popup) && api.clickListeners == old(api.clickListeners)
  {
    var pages := SpecialPagesFor(b);
    for i := 0 to |tabs|
      invariant api.calls == old(api.calls) + Injections(b, tabs[..i])
      invariant api.popup == old(api.popup) && api.clickListeners == old(api.clickListeners)
    {
      InjectionsStep(b, tabs, i);
      var url := UrlText(tabs[i].url);
      if AllowedScheme(url) {
        var skipThisTab := SkipTab(pages, url);
        if skipThisTab {
          continue;
        }
        api.Perform(ExecuteScript(tabs[i].id, "content.js"));
      }
    }
    assert tabs[..|tabs|] == tabs;
  }
}
