/**
 * The bundle table of `flattenCode` in scripts/build.js: which scripts are flattened for a browser,
 * where each one is written, and the compile-time constants substituted into it.
 * Running rollup, terser and esformatter on these entries is not part of this model.
 */
module Bundles {
  import opened Browsers
  import opened BuildTargets

  /** One element of `ioPairsAndGlobals`; an entry without `globals` has the empty map. */
  datatype IoPair = IoPair(input: string, outputDir: string, outputFile: string, globals: map<string, string>)

  /** The parts of one rollup bundle option that depend on the browser. */
  datatype BundleOption = BundleOption(input: string, outputFile: string, format: string, defines: map<string, string>)

  const SrcCodeDir: string := "src/code"

  function SourcePath(file: string): string
  {
    SrcCodeDir + "/" + file
  }

  function OutputPath(p: IoPair): string
  {
    p.outputDir + "/" + p.outputFile
  }

  /** The entry table: four entries always, then the sidebar panel, then the two DevTools scripts. */
  function IoPairs(b: Browser, testMode: bool): seq<IoPair>
  {
    var dir := BuildPath(b, testMode);
    CommonPairs(dir)
    + (if b == Firefox || b == Opera then SidebarPairs(dir) else [])
    + (if b == Firefox || b == Chrome || b == Opera then DevtoolsPairs(dir) else [])
  }

  /** The initial contents of `ioPairsAndGlobals`. */
  function CommonPairs(dir: string): seq<IoPair>
  {
    [ IoPair(SourcePath("_background.js"), dir, "background.js", map[]),
      IoPair(SourcePath("_content.js"), dir, "content.js", map[]),
      IoPair(SourcePath("_options.js"), dir, "options.js", map[]),
      IoPair(SourcePath("_gui.js"), dir, "popup.js", map["INTERFACE" := "popup"]) ]
  }

  /** The entry pushed for browsers with a sidebar. */
  function SidebarPairs(dir: string): seq<IoPair>
  {
    [IoPair(SourcePath("_gui.js"), dir, "sidebarPanel.js", map["INTERFACE" := "sidebar"])]
  }

  /** The two entries pushed for browsers with DevTools pages: the root page script and the panel. */
  function DevtoolsPairs(dir: string): seq<IoPair>
  {
    [ IoPair(SourcePath("_devtools.js"), dir, "devtools.js", map["INTERFACE" := "devtools"]),
      IoPair(SourcePath("_gui.js"), dir, "devtoolsPanel.js", map["INTERFACE" := "devtools"]) ]
  }

  /** The names of the files `flattenCode` writes for a browser, in table order. */
  function OutputFiles(pairs: seq<IoPair>): (r: seq<string>)
    ensures |r| == |pairs|
    ensures forall i :: 0 <= i < |pairs| ==> r[i] == pairs[i].outputFile
  {
    if pairs == [] then [] else [pairs[0].outputFile] + OutputFiles(pairs[1..])
  }

  /** The `defines` object: `{ BROWSER: browser }` with the entry's globals copied over it. */
  function Defines(b: Browser, globals: map<string, string>): map<string, string>
  {
    map["BROWSER" := Name(b)] + globals
  }

  /**
   * The loop of `flattenCode` that turns each table entry into a bundle option,
   * copying the entry's globals, key by key, over `{ BROWSER: browser }`.
   */
  method BundleOptions(b: Browser, pairs: seq<IoPair>) returns (options: seq<BundleOption>)
    ensures |options| == |pairs|
    ensures forall i :: 0 <= i < |options| ==>
      options[i] == BundleOption(pairs[i].input, OutputPath(pairs[i]), "iife", Defines(b, pairs[i].globals))
  {
    options := [];
    for i := 0 to |pairs|
      invariant |options| == i
      invariant forall k :: 0 <= k < i ==>
        options[k] == BundleOption(pairs[k].input, OutputPath(pairs[k]), "iife", Defines(b, pairs[k].globals))
    {
      var globals := pairs[i].globals;
      var defines := CopyGlobals(map["BROWSER" := Name(b)], globals);
      options := options + [BundleOption(pairs[i].input, OutputPath(pairs[i]), "iife", defines)];
    }
  }

  /** `for (const global in ioPair.globals) defines[global] = ioPair.globals[global]`. */
  method CopyGlobals(defines0: map<string, string>, globals: map<string, string>) returns (defines: map<string, string>)
    ensures defines == defines0 + globals
  {
    defines := defines0;
    var remaining := globals.Keys;
    while remaining != {}
      invariant remaining <= globals.Keys
      invariant forall k :: k in defines <==> k in defines0 || (k in globals && k !in remaining)
      invariant forall k :: k in defines ==> defines[k] == if k in globals && k !in remaining then globals[k] else defines0[k]
      decreases remaining
    {
      var key :| key in remaining;
      defines := defines[key := globals[key]];
      remaining := remaining - {key};
    }
  }

  /** `flattenCode` up to the hand-over to rollup: one bundle option per table entry. */
  method FlattenCode(b: Browser, testMode: bool) returns (options: seq<BundleOption>)
    ensures |options| == |IoPairs(b, testMode)|
    ensures forall i :: 0 <= i < |options| ==>
      var p := IoPairs(b, testMode)[i];
      options[i] == BundleOption(p.input, OutputPath(p), "iife", Defines(b, p.globals))
  {
    options := BundleOptions(b, IoPairs(b, testMode));
  }

  /** The bundle outputs of each browser, in table order. */
  lemma BundleTable(b: Browser, testMode: bool)
    ensures OutputFiles(IoPairs(b, testMode)) ==
      ["background.js", "content.js", "options.js", "popup.js"]
      + (if HasSidebar(b) then ["sidebarPanel.js"] else [])
      + (if HasDevtools(b) then ["devtools.js", "devtoolsPanel.js"] else [])
  {
    var dir := BuildPath(b, testMode);
    var common, sidebar, devtools := CommonPairs(dir), SidebarPairs(dir), DevtoolsPairs(dir);
    var sidebarIf := if HasSidebar(b) then sidebar else [];
    var devtoolsIf := if HasDevtools(b) then devtools else [];
    OutputFilesAppend(common, sidebarIf);
    OutputFilesAppend(common + sidebarIf, devtoolsIf);
    assert OutputFiles(common) == ["background.js", "content.js", "options.js", "popup.js"];
    assert OutputFiles(sidebarIf) == if HasSidebar(b) then ["sidebarPanel.js"] else [];
    assert OutputFiles(devtoolsIf) == if HasDevtools(b) then ["devtools.js", "devtoolsPanel.js"] else [];
  }

  lemma {:induction false} OutputFilesAppend(a: seq<IoPair>, c: seq<IoPair>)
    ensures OutputFiles(a + c) == OutputFiles(a) + OutputFiles(c)
  {
    if a == [] {
      assert a + c == c;
    } else {
      assert (a + c)[0] == a[0] && (a + c)[1..] == a[1..] + c;
      OutputFilesAppend(a[1..], c);
    }
  }

  /** Background, content, options and popup always; the sidebar panel and the DevTools pages only where supported. */
  lemma BundlePresence(b: Browser, testMode: bool)
    ensures var files := OutputFiles(IoPairs(b, testMode));
      && files[..4] == ["background.js", "content.js", "options.js", "popup.js"]
      && ("sidebarPanel.js" in files <==> b == Firefox || b == Opera)
      && ("devtools.js" in files <==> b != Edge)
      && ("devtoolsPanel.js" in files <==> b != Edge)
  {
    BundleTable(b, testMode);
    var files := OutputFiles(IoPairs(b, testMode));
    var fixed := ["background.js", "content.js", "options.js", "popup.js"];
    var sidebar := if HasSidebar(b) then ["sidebarPanel.js"] else [];
    var devtools := if HasDevtools(b) then ["devtools.js", "devtoolsPanel.js"] else [];
    assert files == fixed + sidebar + devtools;
    assert files[..4] == fixed;
    LiteralsDiffer();
  }

  lemma LiteralsDiffer()
    ensures "sidebarPanel.js" !in ["background.js", "content.js", "options.js", "popup.js"]
    ensures "devtools.js" !in ["background.js", "content.js", "options.js", "popup.js", "sidebarPanel.js"]
    ensures "devtoolsPanel.js" !in ["background.js", "content.js", "options.js", "popup.js", "sidebarPanel.js"]
  {
    assert |"background.js"| == 13 && |"content.js"| == 10 && |"options.js"| == 10 && |"popup.js"| == 8;
    assert |"devtools.js"| == 11 && |"sidebarPanel.js"| == 15 && |"devtoolsPanel.js"| == 16;
  }

  /** What an entry's `globals` hold: `INTERFACE` alone, for the GUI and DevTools scripts, and the right value. */
  predicate GlobalsFit(p: IoPair)
  {
    && p.globals.Keys <= {"INTERFACE"}
    && ("INTERFACE" in p.globals <==> p.input in {SourcePath("_gui.js"), SourcePath("_devtools.js")})
    && (p.outputFile == "popup.js" ==> p.globals == map["INTERFACE" := "popup"])
    && (p.outputFile == "sidebarPanel.js" ==> p.globals == map["INTERFACE" := "sidebar"])
    && (p.input == SourcePath("_devtools.js") || p.outputFile == "devtoolsPanel.js" ==> p.globals == map["INTERFACE" := "devtools"])
  }

  lemma SourcePathsDistinct()
    ensures SourcePath("_gui.js") != SourcePath("_devtools.js")
    ensures SourcePath("_background.js") !in {SourcePath("_gui.js"), SourcePath("_devtools.js")}
    ensures SourcePath("_content.js") !in {SourcePath("_gui.js"), SourcePath("_devtools.js")}
    ensures SourcePath("_options.js") !in {SourcePath("_gui.js"), SourcePath("_devtools.js")}
  {
    assert SourcePath("_gui.js")[10] != SourcePath("_devtools.js")[10];
    assert SourcePath("_background.js")[10] != SourcePath("_gui.js")[10];
    assert SourcePath("_background.js")[10] != SourcePath("_devtools.js")[10];
    assert SourcePath("_content.js")[10] != SourcePath("_gui.js")[10];
    assert SourcePath("_content.js")[11] != SourcePath("_devtools.js")[11];
    assert SourcePath("_options.js")[10] != SourcePath("_gui.js")[10];
    assert SourcePath("_options.js")[10] != SourcePath("_devtools.js")[10];
  }

  /** Every entry of the table has fitting globals. */
  lemma TableGlobalsFit(b: Browser, testMode: bool, p: IoPair)
    requires p in IoPairs(b, testMode)
    ensures GlobalsFit(p)
  {
    SourcePathsDistinct();
    var dir := BuildPath(b, testMode);
    if p in CommonPairs(dir) {
      assert p in CommonPairs(dir) ==> GlobalsFit(p);
    } else if p in SidebarPairs(dir) {
      assert p in SidebarPairs(dir) ==> GlobalsFit(p);
    } else {
      assert p in DevtoolsPairs(dir) ==> GlobalsFit(p);
    }
  }

  /** Every bundle is told its browser, and GUI and DevTools bundles also their interface. */
  lemma BundleDefines(b: Browser, testMode: bool, p: IoPair)
    requires p in IoPairs(b, testMode)
    ensures Defines(b, p.globals)["BROWSER"] == Name(b)
    ensures "INTERFACE" in Defines(b, p.globals) <==> p.input in {SourcePath("_gui.js"), SourcePath("_devtools.js")}
    ensures Defines(b, p.globals).Keys <= {"BROWSER", "INTERFACE"}
    ensures p.outputFile == "popup.js" ==> Defines(b, p.globals) == map["BROWSER" := Name(b), "INTERFACE" := "popup"]
    ensures p.outputFile == "sidebarPanel.js" ==> Defines(b, p.globals) == map["BROWSER" := Name(b), "INTERFACE" := "sidebar"]
    ensures p.input == SourcePath("_devtools.js") || p.outputFile == "devtoolsPanel.js" ==>
      Defines(b, p.globals) == map["BROWSER" := Name(b), "INTERFACE" := "devtools"]
  {
    TableGlobalsFit(b, testMode, p);
    assert "BROWSER" !in p.globals;
  }
}
