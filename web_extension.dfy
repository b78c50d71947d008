/**
 * The part of the WebExtension API the runtime scripts use, as a record of what they did: the calls
 * made, the browser-action click listeners registered and the browser action's popup.
 */
module WebExtension {
  import opened Wrappers
  import opened JsonValues

  /** A call whose only effect is outside the extension. */
  datatype Call =
    | Enable(tabId: int)
    | Disable(tabId: int)
    | ExecuteScript(tabId: int, file: string)
    | OpenSidebar
    | CloseSidebar
    | SendMessage(request: string)

  /** The two functions the background script registers on `browserAction.onClicked`. */
  datatype ClickListener = OpenSidebarWhenClicked | CloseSidebarWhenClicked

  /** A tab as `tabs.query` reports it; the URL is undefined without the permission to see it. */
  datatype Tab = Tab(id: int, url: Option<string>)

  /** One entry of a `storage.onChanged` change object: `newValue` is undefined for a removed key. */
  datatype StorageChange = StorageChange(newValue: Option<Json>)

  class BrowserApi {
    var calls: seq<Call>
    var clickListeners: set<ClickListener>
    var popup: string

    constructor(popup0: string)
      ensures calls == [] && clickListeners == {} && popup == popup0
    {
      calls := [];
      clickListeners := {};
      popup := popup0;
    }

    /** A call that changes nothing the extension can observe. */
    method Perform(c: Call)
      modifies this
      ensures calls == old(calls) + [c]
      ensures clickListeners == old(clickListeners) && popup == old(popup)
    {
      calls := calls + [c];
    }

    /** `browserAction.onClicked.addListener`: adding a registered listener again has no effect. */
    method AddClickListener(l: ClickListener)
      modifies this
      ensures clickListeners == old(clickListeners) + {l}
      ensures calls == old(calls) && popup == old(popup)
    {
      clickListeners := clickListeners + {l};
    }

    /** `browserAction.onClicked.removeListener`: removing an absent listener has no effect. */
    method RemoveClickListener(l: ClickListener)
      modifies this
      ensures clickListeners == old(clickListeners) - {l}
      ensures calls == old(calls) && popup == old(popup)
    {
      clickListeners := clickListeners - {l};
    }

    /** `browserAction.setPopup({ popup: p })`. */
    method SetPopup(p: string)
      modifies this
      ensures popup == p
      ensures calls == old(calls) && clickListeners == old(clickListeners)
    {
      popup := p;
    }
  }
}
