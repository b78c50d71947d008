/**
 * src/code/_background.js: the browser-action guard, the sidebar toggle and interface switch of the
 * sidebar browsers, and the install hook. `BROWSER` is the browser `b` the script was built for.
 */
module Background {
  import opened Wrappers
  import opened JsonValues
  import opened Browsers
  import opened SpecialPages
  import opened WebExtension
  import Defaults
  import opened UrlGuard
  import opened ContentScriptInjector

  /** Each click on the browser action opens, then closes, the sidebar. */
  method OpenSidebarOnClick(api: BrowserApi)
    modifies api
    ensures api.clickListeners == AfterClick(old(api.clickListeners), OpenSidebarWhenClicked)
    ensures api.calls == old(api.calls) + [OpenSidebar]
    ensures api.popup == old(api.popup)
  {
    api.RemoveClickListener(OpenSidebarWhenClicked);
    api.Perform(OpenSidebar);
    api.AddClickListener(CloseSidebarWhenClicked);
  }

  method CloseSidebarOnClick(api: BrowserApi)
    modifies api
    ensures api.clickListeners == AfterClick(old(api.clickListeners), CloseSidebarWhenClicked)
    ensures api.calls == old(api.calls) + [CloseSidebar]
    ensures api.popup == old(api.popup)
  {
    api.RemoveClickListener(CloseSidebarWhenClicked);
    api.Perform(CloseSidebar);
    api.AddClickListener(OpenSidebarWhenClicked);
  }

  /** The listener set after the click handler `l` has run. */
  function AfterClick(listeners: set<ClickListener>, l: ClickListener): (r: set<ClickListener>)
    ensures l !in r
    ensures l == OpenSidebarWhenClicked ==> CloseSidebarWhenClicked in r
    ensures l == CloseSidebarWhenClicked ==> OpenSidebarWhenClicked in r
  {
    if l == OpenSidebarWhenClicked then listeners - {l} + {CloseSidebarWhenClicked}
    else listeners - {l} + {OpenSidebarWhenClicked}
  }

  /** With one of the two registered, each handler hands over to the other: clicks alternate. */
  lemma ClicksAlternate(listeners: set<ClickListener>, l: ClickListener, other: ClickListener)
    requires l != other && l in listeners && other !in listeners
    ensures other in AfterClick(listeners, l)
    ensures AfterClick(AfterClick(listeners, l), other) == listeners
  {
    assert {l, other} == {OpenSidebarWhenClicked, CloseSidebarWhenClicked} by {
      if l == OpenSidebarWhenClicked { assert other == CloseSidebarWhenClicked; }
      else { assert other == OpenSidebarWhenClicked; }
    }
  }

  /** `switchInterface(mode)`, defined only in the sidebar browsers' build. */
  method SwitchInterface(api: BrowserApi, b: Browser, mode: Option<Json>) returns (r: Outcome<Option<Json>>)
    requires HasSidebar(b)
    modifies api
    ensures r.Pass? <==> mode == Some(Str("sidebar")) || mode == Some(Str("popup"))
    ensures r.Fail? ==> r.error == mode
    ensures mode == Some(Str("sidebar")) ==>
      && api.popup == ""
      && api.clickListeners == old(api.clickListeners) + (if b == Firefox then {OpenSidebarWhenClicked} else {})
    ensures mode == Some(Str("popup")) ==>
      && api.popup == "popup.html"
      && api.clickListeners == old(api.clickListeners) - (if b == Firefox then {OpenSidebarWhenClicked, CloseSidebarWhenClicked} else {})
    ensures r.Fail? ==> api.popup == old(api.popup) && api.clickListeners == old(api.clickListeners)
    ensures api.calls == old(api.calls)
  {
    if mode == Some(Str("sidebar")) {
      api.SetPopup("");
      if b == Firefox {
        api.AddClickListener(OpenSidebarWhenClicked);
      }
      r := Pass;
    } else if mode == Some(Str("popup")) {
      api.SetPopup("popup.html");
      if b == Firefox {
        api.RemoveClickListener(OpenSidebarWhenClicked);
        api.RemoveClickListener(CloseSidebarWhenClicked);
      }
      r := Pass;
    } else {
      r := Fail(mode);
    }
  }

  /** The `storage.sync.get(defaultInterfaceSettings, ...)` callback: the stored choice, or the default. */
  method InitInterface(api: BrowserApi, b: Browser, stored: Option<Json>) returns (r: Outcome<Option<Json>>)
    requires HasSidebar(b)
    modifies api
    ensures r.Pass? <==> stored.None? || stored == Some(Str("sidebar")) || stored == Some(Str("popup"))
    ensures r.Fail? ==> r.error == stored
    ensures stored == Some(Str("sidebar")) ==>
      && api.popup == ""
      && api.clickListeners == old(api.clickListeners) + (if b == Firefox then {OpenSidebarWhenClicked} else {})
    ensures stored.None? || stored == Some(Str("popup")) ==>
      && api.popup == "popup.html"
      && api.clickListeners == old(api.clickListeners) - (if b == Firefox then {OpenSidebarWhenClicked, CloseSidebarWhenClicked} else {})
    ensures r.Fail? ==> api.popup == old(api.popup) && api.clickListeners == old(api.clickListeners)
    ensures api.calls == old(api.calls)
  {
    var items := if stored.Some? then stored.value else Defaults.DefaultInterfaceSettings["interface"];
    r := SwitchInterface(api, b, Some(items));
  }

  /** The `storage.onChanged` listener: only a change of `interface` switches. */
  method OnStorageChanged(api: BrowserApi, b: Browser, changes: map<string, StorageChange>) returns (r: Outcome<Option<Json>>)
    requires HasSidebar(b)
    modifies api
    ensures "interface" !in changes ==> r.Pass? && api.popup == old(api.popup) && api.clickListeners == old(api.clickListeners)
    ensures "interface" in changes ==> (r.Pass? <==> changes["interface"].newValue in {Some(Str("sidebar")), Some(Str("popup"))})
    ensures r.Fail? ==> "interface" in changes && r.error == changes["interface"].newValue
    ensures "interface" in changes && changes["interface"].newValue == Some(Str("sidebar")) ==>
      && api.popup == ""
      && api.clickListeners == old(api.clickListeners) + (if b == Firefox then {OpenSidebarWhenClicked} else {})
    ensures "interface" in changes && changes["interface"].newValue == Some(Str("popup")) ==>
      && api.popup == "popup.html"
      && api.clickListeners == old(api.clickListeners) - (if b == Firefox then {OpenSidebarWhenClicked, CloseSidebarWhenClicked} else {})
    ensures r.Fail? ==> api.popup == old(api.popup) && api.clickListeners == old(api.clickListeners)
    ensures api.calls == old(api.calls)
  {
    if "interface" in changes {
      r := SwitchInterface(api, b, changes["interface"].newValue);
    } else {
      r := Pass;
    }
  }

  /** The `tabs.onActivated` listener: ask an open sidebar to update. */
  method OnTabActivated(api: BrowserApi, b: Browser)
    requires HasSidebar(b)
    modifies api
    ensures api.calls == old(api.calls) + [SendMessage("update-sidebar")]
    ensures api.popup == old(api.popup) && api.clickListeners == old(api.clickListeners)
  {
    api.Perform(SendMessage("update-sidebar"));
  }

  /** `runtime.onInstalled`: inject into open tabs on install and update, except on Firefox. */
  method OnInstalled(api: BrowserApi, b: Browser, reason: string, tabs: seq<Tab>)
    modifies api
    ensures api.calls == old(api.calls) + (if (reason == "install" || reason == "update") && b != Firefox then Injections(b, tabs) else [])
    ensures api.popup == old(api.popup) && api.clickListeners == old(api.clickListeners)
  {
    if reason == "install" || reason == "update" {
      if b != Firefox {
        InjectContentScripts(api, b, tabs);
      }
    }
  }

  /** `checkBrowserActionState(tabId, url)`: enable the action where it can work, disable it elsewhere. */
  method CheckBrowserActionState(api: BrowserApi, b: Browser, tabId: int, url: Option<string>)
    modifies api
    ensures api.calls == old(api.calls) + [if ActionEnabled(b, url) then Enable(tabId) else Disable(tabId)]
    ensures api.popup == old(api.popup) && api.clickListeners == old(api.clickListeners)
  {
    var text := UrlText(url);
    if AllowedScheme(text) {
      var pages := SpecialPagesFor(b);
      for i := 0 to |pages|
        invariant forall j :: 0 <= j < i ==> !Matches(pages[j], text)
        invariant api.calls == old(api.calls)
        invariant api.popup == old(api.popup) && api.clickListeners == old(api.clickListeners)
      {
        if Matches(pages[i], text) {
          api.Perform(Disable(tabId));
          return;
        }
      }
      api.Perform(Enable(tabId));
    } else {
      api.Perform(Disable(tabId));
    }
  }

  /** The calls the load-time `tabs.query` callback makes: one per tab, in tab order. */
  function ActionCalls(b: Browser, tabs: seq<Tab>): (r: seq<Call>)
    ensures |r| == |tabs|
    ensures forall i :: 0 <= i < |tabs| ==> (r[i].Enable? || r[i].Disable?) && r[i].tabId == tabs[i].id
    ensures forall i :: 0 <= i < |tabs| ==> (r[i].Enable? <==> ActionEnabled(b, tabs[i].url))
  {
    seq(|tabs|, i requires 0 <= i < |tabs| => if ActionEnabled(b, tabs[i].url) then Enable(tabs[i].id) else Disable(tabs[i].id))
  }

  /** The `tabs.query({}, ...)` callback at load: every tab is checked once. */
  method CheckAllTabs(api: BrowserApi, b: Browser, tabs: seq<Tab>)
    modifies api
    ensures api.calls == old(api.calls) + ActionCalls(b, tabs)
    ensures api.popup == old(api.popup) && api.clickListeners == old(api.clickListeners)
  {
    for i := 0 to |tabs|
      invariant api.calls == old(api.calls) + ActionCalls(b, tabs[..i])
      invariant api.popup == old(api.popup) && api.clickListeners == old(api.clickListeners)
    {
      CheckBrowserActionState(api, b, tabs[i].id, tabs[i].url);
      assert tabs[..i + 1] == tabs[..i] + [tabs[i]];
    }
    assert tabs[..|tabs|] == tabs;
  }

  /** The injector and the action guard agree: a tab gets the content script exactly when its action is enabled. */
  lemma InjectedExactlyWhenEnabled(b: Browser, tabs: seq<Tab>, i: int)
    requires 0 <= i < |tabs|
    requires forall j, k :: 0 <= j < k < |tabs| ==> tabs[j].id != tabs[k].id
    ensures ExecuteScript(tabs[i].id, "content.js") in Injections(b, tabs) <==> ActionCalls(b, tabs)[i] == Enable(tabs[i].id)
  {
    InjectionsOf(b, tabs, i);
  }
}
