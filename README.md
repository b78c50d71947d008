# blank-browser-extension-with-sidebar, modelled in Dafny

The repository is a template for a WebExtension that can be built for four browsers: Firefox, Chrome, Opera and Edge.
Its core has two halves.

- **The build driver** (`scripts/build.js`). It resolves which browsers to build and where, and flattens one script bundle per entry of a per-browser table. It copies the static files, cutting UI-only regions out of them for Chrome and Edge. It creates one GUI page per user-facing surface and checks that every translated message is used. Finally it merges the manifest with a positional array merge.
- **The runtime scripts** (`src/code`):
  - the per-browser defaults and special-page tables;
  - a logger that queues messages until the `debugInfo` preference is known;
  - the background script, which guards the browser action, toggles the sidebar and switches the interface;
  - the content-script injector run on install and update.

Each source file is a Dafny module:

| file | module | form |
|---|---|---|
| wrappers.dfy | `Wrappers` | `Option` (JavaScript `undefined`), `Result` and `Outcome` (throws and exit 42) |
| json.dfy | `JsonValues` | JSON values and deepmerge's notion of a mergeable value |
| text.dfy | `Text` | `indexOf`, the `\s` class, prefix and suffix tests |
| browsers.dfy | `Browsers` | the four browsers and their names |
| build_targets.dfy | `BuildTargets` | `checkBuildMode` as a class holding `testMode`; `pathToBuild`, `zipFileName` |
| bundles.dfy | `Bundles` | the `flattenCode` table and its loops |
| static_files.dfy | `StaticFiles` | the UI-marker stripping of `copyStaticFiles` |
| gui_files.dfy | `GuiFiles` | `copyGuiFiles` and its placeholder replacement |
| array_merge.dfy | `ArrayMerge` | `legacyArrayMerge` (a loop against a fold) and `mergeManifest` |
| messages.dfy | `MessageCheck` | `checkMessages` (nested loops against specification functions) |
| icons.dfy | `Icons` | `browserPngSizes` |
| defaults.dfy | `Defaults` | src/code/defaults.js |
| special_pages.dfy | `SpecialPages` | src/code/specialPages.js, with a matcher for the regular-expression constructs the patterns use |
| web_extension.dfy | `WebExtension` | the browser API as a record of calls, click listeners and the popup |
| url_guard.dfy | `UrlGuard` | the URL test shared by the background script and the injector |
| injector.dfy | `ContentScriptInjector` | src/code/contentScriptInjector.js |
| background.dfy | `Background` | src/code/_background.js |
| logger.dfy | `Logging` | src/code/logger.js: a `Logger` class proved against a transition function |

The build-time constant `BROWSER` is a `Browser` parameter of the runtime modules. Where a module throws for an unknown name, a function taking the name as a string models the throw.

## Model

| member | source | states |
|---|---|---|
| Browsers.ParseBrowser | scripts/build.js:27-32 | a name is accepted exactly when it is one of the four browser names, and gives back the browser so named |
| Browsers.ParseName | scripts/build.js:27-32 | every browser's name parses back to that browser |
| BuildTargets.ResolveTargets | scripts/build.js:115-128 | fails exactly for a missing or unknown target, or for test mode with any target but `chrome` (`all` included); the unknown-target error is reported first; `all` gives the four browsers, any other target a one-element list naming it |
| BuildTargets.BuildDriver.constructor | scripts/build.js:77 | test mode starts off |
| BuildTargets.BuildDriver.CheckBuildMode | scripts/build.js:115-128 | records test mode as "the second argument is literally `test`", then resolves the targets under it |
| BuildTargets.ResolveTargetsErrors | scripts/build.js:115-125 | the two exit conditions in terms of the raw arguments; `all` in test mode fails with the test-mode error |
| BuildTargets.AllExpandsToEveryBrowserOnce | scripts/build.js:27-33 | `all` (line 127) expands to firefox, chrome, opera, edge in that order, each exactly once |
| BuildTargets.PathToBuild | scripts/build.js:132-141 | a valid browser gets exactly `build/<name>`, followed by `-test` in test mode and by nothing otherwise (prefix, suffix and length pin it); any other name is the exit error naming it |
| BuildTargets.BuildPathInjective | scripts/build.js:132-138 | two builds share a directory only if browser and mode agree |
| BuildTargets.ZipFileName | scripts/build.js:417-420 | `<name>-<version>[-test]-<browser>.zip`: the prefix `<name>-<version>`, the suffix `-<browser>.zip`, `-test` right after the prefix in test mode, and a length that leaves nothing else |
| BuildTargets.ZipFileNameInjective | scripts/build.js:417-420 | for one package name and version, distinct browsers or modes give distinct archive names |
| Icons.PngSizes | scripts/build.js:35-71 | each table is repetition-free and holds 48, every size is between 16 and 150, 150 only for Edge, 128 exactly for Chrome and Opera |
| Bundles.BundleTable | scripts/build.js:147-184 | the bundle outputs, in order: background, content, options and popup, then sidebarPanel for the sidebar browsers, then devtools and devtoolsPanel where DevTools exist |
| Bundles.BundlePresence | scripts/build.js:147-184 | the first four are always present, sidebarPanel exactly for Firefox and Opera, both DevTools scripts exactly for every browser but Edge |
| Bundles.TableGlobalsFit | scripts/build.js:147-184 | every table entry's globals are `INTERFACE` alone, present exactly for `_gui.js` and `_devtools.js`, with the value of its surface |
| Bundles.BundleDefines | scripts/build.js:191-200 | every bundle's defines map `BROWSER` to the browser, add `INTERFACE` only for GUI and DevTools inputs, and hold nothing else |
| Bundles.CopyGlobals | scripts/build.js:194-200 | the key-by-key copy loop yields `{BROWSER}` overridden by the entry's globals |
| Bundles.BundleOptions | scripts/build.js:189-233 | one option per entry, in order, with its input, output path, format `iife` and defines |
| Bundles.FlattenCode | scripts/build.js:144-233 | the options handed to rollup correspond one to one, in order, to the browser's table |
| StaticFiles.StripRegions | scripts/build.js:254-264 | the global lazy replacement never lengthens a file |
| StaticFiles.NoOpenMarkerUnchanged | scripts/build.js:254-264 | text without a start marker is unchanged |
| StaticFiles.NoCloseMarkerUnchanged | scripts/build.js:254-264 | text whose first start marker has no end marker after it is unchanged |
| StaticFiles.StripOneRegion | scripts/build.js:254-264 | one match removes everything from the first start marker to the first end marker after it, plus the whitespace run that follows, and matching resumes after it |
| StaticFiles.StripUiMarkers | scripts/build.js:250-266 | keeps the path and never lengthens the content; a top-level HTML file of a Chrome or Edge build loses its HTML marker regions, a top-level CSS file its CSS marker regions; sidebar browsers, nested files and files that are neither HTML nor CSS are copied as they are |
| StaticFiles.CopyStaticFiles | scripts/build.js:250-266 | every copied file is the stripped version of its source, one to one and in order |
| StaticFiles.SidebarBrowsersCopyVerbatim | scripts/build.js:250-254 | Firefox and Opera builds get the static tree unchanged |
| GuiFiles.ReplaceFirst | scripts/build.js:277-281 | the string replacement rewrites the first occurrence only, keeps the text around it, and leaves text with no occurrence unchanged |
| GuiFiles.ReplaceFirstRemovesOnlyOccurrence | scripts/build.js:277-281 | a template with exactly one `GUIJS` keeps none of it once filled with a name sharing no character with it, and the name sits where the placeholder was |
| GuiFiles.CopyGuiFiles | scripts/build.js:269-293 | one page per surface (popup; sidebarPanel on Firefox and Opera; devtoolsPanel where DevTools exist), named `<surface>.html`, with `GUIJS` pointed at `<surface>.js` |
| GuiFiles.GuiBundleOutputs | scripts/build.js:157-183 | exactly the outputs of the table entries whose input is `_gui.js` |
| GuiFiles.GuiPagesMatchGuiBundles | scripts/build.js:269-293 | the pages created are exactly the `_gui.js` bundles of the same browser, one per bundle, in table order |
| GuiFiles.GuiPagesReferenceTheirScript | scripts/build.js:272-282 | with one placeholder in the template, each page loads its own script at the placeholder's position and holds no placeholder |
| JsonValues.EmptyTarget | scripts/build.js:363 | an empty array `[]` for an array, an empty object `{}` otherwise; always mergeable |
| ArrayMerge.Step | scripts/build.js:369-379 | one callback: an element past the end is appended (cloned when mergeable and cloning is not turned off); a mergeable element is merged with the original `target[i]`; a scalar within the destination leaves it as it was when `target` holds it and is appended otherwise; a mergeable element within the destination keeps its length; no other index changes |
| ArrayMerge.MergeUpTo | scripts/build.js:366-381 | after `n` callbacks the destination has between max(target length, n) and target length + n elements |
| ArrayMerge.LegacyArrayMerge | scripts/build.js:366-381 | the loop over a copy of `target` yields the fold of the callback, whose length lies between max of the two lengths and their sum |
| ArrayMerge.TargetIndexResult | scripts/build.js:369-379 | each index of `target` ends up with `target[k]`, or the merge of `target[k]` with a mergeable `source[k]` |
| ArrayMerge.TargetScalarsStay | scripts/build.js:369-379 | an element of `target` keeps its index unless a mergeable source element sits at that index |
| ArrayMerge.FreshScalarsAppended | scripts/build.js:376-378 | scalars absent from `target` are appended in source order |
| ArrayMerge.BrowserEntriesFirst | scripts/build.js:383-385 | the browser fragment `[Z]` merged with the common `[X, Y]` gives `[Z, X, Y]` |
| ArrayMerge.KnownScalarNotAppended | scripts/build.js:369-376 | one scalar source element that `target` holds, at an index the destination reaches, leaves the destination unchanged |
| ArrayMerge.KnownScalarsKept | scripts/build.js:376 | a source of scalars that `target` all holds, no longer than `target`, leaves `target` unchanged |
| ArrayMerge.ScalarSelfMerge | scripts/build.js:366-381 | an array of scalars merged with itself is unchanged |
| ArrayMerge.SelfMergeIdempotent | scripts/build.js:366-381 | any array merged with itself is unchanged whenever deepmerge leaves each mergeable value merged with itself unchanged; scalars need no condition |
| ArrayMerge.ScalarSourceCovered | scripts/build.js:366-381 | with a scalar source, `target` is a prefix of the result, every source scalar is in it, and nothing else is |
| ArrayMerge.PushedScalarOverwritten | scripts/build.js:374-378 | a scalar pushed past the target's end is overwritten by a later mergeable element at that index |
| ArrayMerge.RepeatedScalarPastTarget | scripts/build.js:370-376 | a repeated scalar past the target's end is written there again, because only the original target is searched |
| ArrayMerge.MergeManifest | scripts/build.js:385-386 | the merged manifest has `version` set to the package version and every other key as deepmerge produced it |
| ArrayMerge.ManifestBrowserEntriesFirst | scripts/build.js:383-386 | for a list key of both fragments that deepmerge hands to the array merge, the browser's `[Z]` and the common `[X, Y]` give `[Z, X, Y]` in the merged manifest, beside the package version |
| MessageCheck.CountFrom | scripts/build.js:336-338 | the non-overlapping match count from a position is zero exactly when the key occurs nowhere from there on |
| MessageCheck.CountMatches | scripts/build.js:336-338 | the match count of a file is zero exactly when the file does not mention the key |
| MessageCheck.EmptyKeyMatchesEverywhere | scripts/build.js:336-338 | an empty key matches at every position, the end included |
| MessageCheck.ScannedFiles | scripts/build.js:326-329 | exactly the files whose names do not end in `Messages.json` |
| MessageCheck.ScannedFilesCount | scripts/build.js:326-329 | each scanned file is kept as often as it occurs, each catalog never |
| MessageCheck.ScannedFilesAppend | scripts/build.js:326-329 | the filter keeps file order: it distributes over concatenation |
| MessageCheck.TotalUses | scripts/build.js:335-339 | the total is zero exactly when no file mentions the key |
| MessageCheck.CountUses | scripts/build.js:335-339 | the inner loop sums the match counts over the scanned files |
| MessageCheck.CheckMessages | scripts/build.js:321-351 | one summary entry per message (`(not checked)` for role names, else the count); fails, with the exit error, exactly when some non-role message is mentioned in no scanned file |
| MessageCheck.SummaryFlagsUnused | scripts/build.js:348-350 | a zero in the summary marks exactly the unused non-role messages |
| MessageCheck.RoleNamesNeverFail | scripts/build.js:341-345 | messages whose names start with `role` never fail the check |
| MessageCheck.CatalogMentionsIgnored | scripts/build.js:326-329 | a mention in a message catalog does not count as a use |
| Defaults.DefaultSettings | src/code/defaults.js:15-31 | defined exactly for the four browsers, else the thrown message; always holds `debugInfo: false`; holds `interface: 'popup'` exactly for Firefox and Opera, and nothing else |
| Defaults.DismissalStates | src/code/defaults.js:40-48 | `{dismissedSidebarNotAlone: false}` for Firefox and Opera, undefined otherwise |
| Defaults.BuiltBrowsersHaveDefaults | src/code/defaults.js:15-48 | every built browser has defaults, and dismissal states exactly when it has a sidebar |
| SpecialPages.SpecialPagesFor | src/code/specialPages.js:3-23 | each browser has exactly one pattern |
| SpecialPages.SpecialPages | src/code/specialPages.js:3-26 | defined exactly for the four browsers, with their one-pattern lists; any other name throws |
| SpecialPages.SpecialPagesNeedHttps | src/code/specialPages.js:6-21 | every pattern is anchored and matches only URLs that start with `https://` |
| SpecialPages.EdgeStoreRightAfterHost | src/code/specialPages.js:21 | every `https://www.microsoft.com/store...` URL is special on Edge |
| SpecialPages.EdgeLocaleStoreNotSpecial | src/code/specialPages.js:21 | `https://www.microsoft.com/en-us/store...` is not: the pattern needs `/store` right after the host |
| UrlGuard.UrlText | src/code/_background.js:121 | `RegExp.test` reads an undefined URL as the text `undefined`, which no allowed scheme matches |
| UrlGuard.PlainPagesEnabled | src/code/_background.js:120-132 | every `http://` and `file://` URL passes the guard on every browser |
| UrlGuard.NoSchemeRefused | src/code/_background.js:121-131 | a URL without an allowed scheme, or an undefined one, never passes |
| ContentScriptInjector.Injections | src/code/contentScriptInjector.js:9-28 | no more calls than tabs, each an `executeScript` of `content.js` |
| ContentScriptInjector.InjectionsStep | src/code/contentScriptInjector.js:9-28 | tab order: one more tab adds that tab's injection, if it passes the guard, after those of the tabs before it |
| ContentScriptInjector.InjectionsPerTab | src/code/contentScriptInjector.js:9-28 | with distinct tab ids, each tab is injected exactly once if its URL passes the guard and never otherwise |
| ContentScriptInjector.InjectionsAreGuardedTabs | src/code/contentScriptInjector.js:9-28 | a call is made exactly for a tab whose URL passes the guard |
| ContentScriptInjector.InjectionsOf | src/code/contentScriptInjector.js:9-28 | with distinct tab ids, a tab is injected exactly when its URL passes the guard |
| ContentScriptInjector.SkipTab | src/code/contentScriptInjector.js:15-22 | the flag loop with `break` sets the flag exactly when some special page matches |
| ContentScriptInjector.InjectContentScripts | src/code/contentScriptInjector.js:5-31 | the calls made are the injections of the guarded tabs in tab order; listeners and popup are untouched |
| Background.AfterClick | src/code/_background.js:24-35 | the firing listener is gone and the other one registered |
| Background.OpenSidebarOnClick | src/code/_background.js:24-28 | opens the sidebar and hands over to the close listener |
| Background.CloseSidebarOnClick | src/code/_background.js:31-35 | closes the sidebar and hands over to the open listener |
| Background.ClicksAlternate | src/code/_background.js:24-35 | with one of the two registered, a click registers the other, and the next click restores the listener set |
| Background.SwitchInterface | src/code/_background.js:38-67 | `sidebar` clears the popup and on Firefox adds the open listener; `popup` sets `popup.html` and on Firefox removes both listeners; any other value throws with the state unchanged |
| Background.InitInterface | src/code/_background.js:69-71 | a stored `sidebar` clears the popup (and on Firefox adds the open-sidebar click listener); a stored `popup`, or nothing stored, sets `popup.html` (and on Firefox removes both sidebar listeners); any other value throws with that value and changes nothing |
| Background.OnStorageChanged | src/code/_background.js:73-77 | a change without `interface` does nothing; a new value `sidebar` or `popup` gives the same popup and click listeners as `switchInterface`; any other new value throws with that value and changes nothing |
| Background.OnTabActivated | src/code/_background.js:85-89 | sends exactly one `update-sidebar` message |
| Background.OnInstalled | src/code/_background.js:97-104 | injects exactly on `install` and `update`, and never on Firefox |
| Background.CheckBrowserActionState | src/code/_background.js:120-132 | exactly one call per tab: enable exactly when the scheme is allowed and no special page matches, else disable |
| Background.ActionCalls | src/code/_background.js:114-118 | one enable or disable per tab, in order, for that tab's id, enable exactly when the guard passes |
| Background.CheckAllTabs | src/code/_background.js:114-118 | every tab the query returns is checked exactly once, in order |
| Background.InjectedExactlyWhenEnabled | src/code/_background.js:120-132 | with distinct tab ids, the injector injects a tab exactly when the action guard enables it |
| Logging.ModeFor | src/code/logger.js:27-44 | only `newValue === true` makes `log` print; every other value makes it a no-op |
| Logging.Apply | src/code/logger.js:7-46 | a `debugInfo` change empties the queue and picks the mode from its value; a change without `debugInfo` changes nothing; a `log` call keeps the mode; no step refills an emptied queue once decided |
| Logging.Run | src/code/logger.js:22-49 | a logger whose queue is empty once decided stays so through any run |
| Logging.QueueingLogsAppend | src/code/logger.js:7-10 | before the decision, each `log(...args)` queues exactly one `['Queued message:', ...args]` and prints nothing |
| Logging.QueuedMessagesFlushedInOrder | src/code/logger.js:27-36 | `debugInfo` turning out `true` prints every queued entry once, in order, and leaves `log` printing with an empty queue |
| Logging.QueuedMessagesDiscarded | src/code/logger.js:37-44 | any other value drops the queue unprinted and silences `log` |
| Logging.QueueStaysEmpty | src/code/logger.js:22-46 | after the first decision the queue stays empty whatever follows |
| Logging.SwitchesFreely | src/code/logger.js:22-49 | after a decision each later `debugInfo` change alone decides whether the next `log` prints |
| Logging.Logger.constructor | src/code/logger.js:3-5 | an empty queue, queueing, nothing printed |
| Logging.Logger.Log | src/code/logger.js:7-10 | the current `log` as one step of the transition function |
| Logging.Logger.HandleOptionsChange | src/code/logger.js:22-46 | the flush loop prints the queue front to back; the new state is one step of the transition function |
| Logging.DebugInfoOrDefault | src/code/logger.js:12-20 | the stored `debugInfo`, or the default `false` when none is stored |
| Logging.Logger.ReceiveStoredDebugInfo | src/code/logger.js:12-20 | the stored (or default) value is handled as a `debugInfo` change |
| Logging.NothingStoredMeansSilent | src/code/logger.js:12-20 | with nothing stored the logger goes silent and drops its queue |

Points where the code behaves differently from what one might expect; the model follows the code:

- **Placeholder with no occurrence.** `GuiFiles.ReplaceFirst` leaves the text unchanged and nothing fails. `doReplace` only exits on an exception, and a string `from` with no occurrence raises none.
- **Manifest merge direction.** `merge(extraJson, commonJson)` makes the common manifest deepmerge's source. So on an object key present in both, the common value is the one merged in, and the browser fragment does not simply take precedence.
- **Array merge.** A mergeable common element at an index the browser fragment occupies is merged into it; it does not leave the fragment's element as it was. `ArrayMerge.TargetScalarsStay` states the exact condition under which an element keeps its index.
- **Scalars reaching the result.** `ArrayMerge.PushedScalarOverwritten` shows that a source scalar need not reach the result when a mergeable element follows it. `ArrayMerge.ScalarSourceCovered` states the case where every one does.
- **Self-merge idempotence.** An array merged with itself comes back unchanged only if deepmerge returns each mergeable element merged with itself unchanged. `ArrayMerge.SelfMergeIdempotent` takes that as a hypothesis. Scalars never reach deepmerge here: one that `target` already holds leaves the destination as it was.

## Left out

- File system, packaging and console I/O are not modelled: copying and writing files, `glob`, `require` of JSON files, the zip archive, colours, `logStep` and `ok`. File contents and listings are parameters. `error()` is an error value carrying exit code 42.
- Bundling itself is not modelled: rollup, terser and esformatter are foreign tools. The model stops at the bundle options handed to them.
- deepmerge's object merge is an abstract function parameter of `ArrayMerge` and `MergeManifest`; its recursion into objects is not modelled.
- ArrayMerge.MergeManifest: says nothing about list-valued keys by itself, because deepmerge is a parameter. The link from deepmerge to `legacyArrayMerge` for a list key of both fragments is a hypothesis of `ArrayMerge.ManifestBrowserEntriesFirst`.
- `mergeMessages`, `getPngs`, `renameTestVersion`, `makeZip`, `lint`, `lintFirefox` and `main` are not modelled. They only sequence I/O and foreign tools around the modelled steps.
- The exception path of `doReplace` is not modelled. replace-in-file throws when a file is missing, and also when a glob matches no file: a Chrome or Edge build whose static tree has no top-level `.html` or `.css` file ends with exit code 42 there.
- src/code/compatibility.js, src/code/_gui.js, src/code/_options.js and src/code/_content.js are not part of this model.
- Paths use `/` as the separator that `path.join` inserts; other platforms are not modelled.
- JSON numbers are integers, and object key order is not modelled.
- The freezing of the special-page and defaults objects is implicit: Dafny values cannot be mutated.
- `SpecialPages.Matches` interprets only the constructs the patterns use: literal characters, `.`, and the lazy `c*?`. It is not a general regular-expression engine.
- MessageCheck.CountFrom: message keys are matched literally. `new RegExp(key, 'g')` would also interpret metacharacters in a key.
- Logging.Logger.Log: printing is recorded as the argument list handed to `console.log`; console formatting and line numbers are not modelled.
- Background: the registration of the storage, tab and install listeners is implicit; each listener is a method called with the event's data. The order in which a browser dispatches clicks to several listeners is not modelled.
- WebExtension.BrowserApi: click listeners form a set, so adding an already-registered function again has no effect, as in the WebExtension API. Every other API call is an entry in the call log.
