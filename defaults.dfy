/**
 * src/code/defaults.js: the default user preferences and the dismissal states of interface notes.
 * The `BROWSER` constant is the browser name substituted in at build time.
 */
module Defaults {
  import opened Wrappers
  import opened JsonValues
  import opened Browsers

  type Settings = map<string, Json>

  const DefaultDebugSettings: Settings := map["debugInfo" := Bool(false)]

  const DefaultInterfaceSettings: Settings := map["interface" := Str("popup")]

  /** The message of the `Error` thrown for a `BROWSER` outside the four browsers. */
  function InvalidBrowserMessage(name: string): string
  {
    "EXTENSION_NAME: invalid browser " + name + " given."
  }

  /** `defaultSettings`: the interface choice is a preference only where a sidebar exists. */
  function DefaultSettings(name: string): (r: Result<Settings, string>)
    ensures r.Ok? <==> ParseBrowser(name).Some?
    ensures r.Err? ==> r.error == InvalidBrowserMessage(name)
    ensures r.Ok? ==> (forall k :: k in DefaultDebugSettings ==> k in r.value && r.value[k] == DefaultDebugSettings[k])
    ensures r.Ok? ==> r.value.Keys <= DefaultDebugSettings.Keys + DefaultInterfaceSettings.Keys
    ensures r.Ok? ==> ("interface" in r.value <==> HasSidebar(ParseBrowser(name).value))
    ensures r.Ok? && "interface" in r.value ==> r.value["interface"] == Str("popup")
  {
    if name == "firefox" || name == "opera" then Ok(DefaultDebugSettings + DefaultInterfaceSettings)
    else if name == "chrome" || name == "edge" then Ok(DefaultDebugSettings)
    else Err(InvalidBrowserMessage(name))
  }

  /**
   * `dismissalStates`: only the sidebar browsers have a note to dismiss; for Chrome and Edge it is undefined.
   * A name outside the four browsers never gets here: `DefaultSettings` has already thrown at module load.
   */
  function DismissalStates(name: string): (r: Option<Settings>)
    ensures r.Some? <==> name == "firefox" || name == "opera"
    ensures r.Some? ==> r.value == map["dismissedSidebarNotAlone" := Bool(false)]
  {
    if name == "firefox" || name == "opera" then Some(map["dismissedSidebarNotAlone" := Bool(false)])
    else None
  }

  /** A bundle built for any browser, whose `BROWSER` is that browser's name, loads its defaults. */
  lemma BuiltBrowsersHaveDefaults(b: Browser)
    ensures DefaultSettings(Name(b)).Ok?
    ensures DismissalStates(Name(b)).Some? <==> HasSidebar(b)
  {
  }
}
