/**
 * `copyGuiFiles` of scripts/build.js: the GUI template is copied once per user-facing surface,
 * and its `GUIJS` placeholder is pointed at that surface's flattened script.
 */
module GuiFiles {
  import opened Wrappers
  import opened Text
  import opened Browsers
  import opened Bundles
  import BuildTargets

  datatype GuiFile = GuiFile(name: string, content: string)

  const Placeholder: string := "GUIJS"

  /** The surfaces `copyOneGuiFile` is called for: popup always, then sidebar panel, then DevTools panel. */
  function GuiSurfaces(b: Browser): seq<string>
  {
    ["popup"]
    + (if b == Firefox || b == Opera then ["sidebarPanel"] else [])
    + (if b == Firefox || b == Chrome || b == Opera then ["devtoolsPanel"] else [])
  }

  /** replace-in-file with a string `from`: only the first occurrence is replaced, and none is no error. */
  function ReplaceFirst(s: string, from: string, to: string): (r: string)
    ensures IndexOf(s, from, 0).None? ==> r == s
    ensures IndexOf(s, from, 0).Some? ==>
      var i := IndexOf(s, from, 0).value;
      |r| == |s| - |from| + |to| && r[..i] == s[..i] && OccursAt(r, to, i) && r[i + |to|..] == s[i + |from|..]
  {
    match IndexOf(s, from, 0)
    case None => s
    case Some(i) => s[..i] + to + s[i + |from|..]
  }

  /** A template with exactly one placeholder, filled with text that shares no character with it, keeps none. */
  lemma ReplaceFirstRemovesOnlyOccurrence(s: string, from: string, to: string, i: nat)
    requires |from| > 0
    requires OccursAt(s, from, i)
    requires forall p :: OccursAt(s, from, p) ==> p == i
    requires |to| > 0 && forall c :: c in to ==> c !in from
    ensures forall p :: !OccursAt(ReplaceFirst(s, from, to), from, p)
    ensures OccursAt(ReplaceFirst(s, from, to), to, i)
  {
    assert IndexOf(s, from, 0) == Some(i);
    forall p: nat | OccursAt(ReplaceFirst(s, from, to), from, p)
      ensures false
    {
      ReplacedOccurrenceComesFromSource(s, from, to, i, p);
    }
  }

  /** An occurrence of `from` after the replacement lies wholly before or after `to`, and so was one in `s`. */
  lemma ReplacedOccurrenceComesFromSource(s: string, from: string, to: string, i: nat, p: nat)
    requires |from| > 0 && OccursAt(s, from, i)
    requires forall j :: 0 <= j < i ==> !OccursAt(s, from, j)
    requires |to| > 0 && forall c :: c in to ==> c !in from
    requires OccursAt(s[..i] + to + s[i + |from|..], from, p)
    ensures p + |from| <= i ==> OccursAt(s, from, p)
    ensures p >= i + |to| ==> OccursAt(s, from, p - |to| + |from|)
    ensures p + |from| <= i || p >= i + |to|
  {
    var r := s[..i] + to + s[i + |from|..];
    if p + |from| <= i {
      assert s[p..p + |from|] == r[p..p + |from|];
    } else if p >= i + |to| {
      var q := p - |to| + |from|;
      assert s[q..q + |from|] == r[p..p + |from|];
    } else {
      OverlapSharesCharacter(r, from, to, i, p);
    }
  }

  /** Two occurrences that overlap share a character. */
  lemma OverlapSharesCharacter(r: string, from: string, to: string, i: nat, p: nat)
    requires OccursAt(r, to, i) && OccursAt(r, from, p) && |to| > 0 && |from| > 0
    requires i < p + |from| && p < i + |to|
    ensures exists c :: c in to && c in from
  {
    if p < i {
      assert r[i] == r[i..i + |to|][0] == to[0];
      assert r[i] == r[p..p + |from|][i - p] == from[i - p];
      assert to[0] in to && from[i - p] in from;
    } else {
      assert r[p] == r[i..i + |to|][p - i] == to[p - i];
      assert r[p] == r[p..p + |from|][0] == from[0];
      assert to[p - i] in to && from[0] in from;
    }
  }

  /** The GUI HTML files `copyGuiFiles` creates, in creation order. */
  function CopyGuiFiles(b: Browser, template: string): (files: seq<GuiFile>)
    ensures |files| == |GuiSurfaces(b)|
    ensures forall k :: 0 <= k < |files| ==>
      var d := GuiSurfaces(b)[k];
      files[k].name == d + ".html" && files[k].content == ReplaceFirst(template, Placeholder, d + ".js")
  {
    seq(|GuiSurfaces(b)|, k requires 0 <= k < |GuiSurfaces(b)| =>
      GuiFile(GuiSurfaces(b)[k] + ".html", ReplaceFirst(template, Placeholder, GuiSurfaces(b)[k] + ".js")))
  }

  /** The output files of the bundles flattened from `_gui.js`, in table order. */
  function GuiBundleOutputs(pairs: seq<IoPair>): (r: seq<string>)
    ensures forall f :: f in r <==> exists p :: p in pairs && p.input == SourcePath("_gui.js") && p.outputFile == f
  {
    if pairs == [] then []
    else (if pairs[0].input == SourcePath("_gui.js") then [pairs[0].outputFile] else []) + GuiBundleOutputs(pairs[1..])
  }

  /** The HTML pages created are exactly the GUI bundles of the same browser, one page per bundle, in order. */
  lemma GuiPagesMatchGuiBundles(b: Browser, testMode: bool)
    ensures var outputs := GuiBundleOutputs(IoPairs(b, testMode));
      && |outputs| == |GuiSurfaces(b)|
      && forall k :: 0 <= k < |outputs| ==> outputs[k] == GuiSurfaces(b)[k] + ".js"
  {
    var dir := BuildTargets.BuildPath(b, testMode);
    var common, sidebar, devtools := CommonPairs(dir), SidebarPairs(dir), DevtoolsPairs(dir);
    GuiOutputsOfParts(dir);
    var outputs := GuiBundleOutputs(IoPairs(b, testMode));
    assert "popup" + ".js" == "popup.js" && "sidebarPanel" + ".js" == "sidebarPanel.js";
    assert "devtoolsPanel" + ".js" == "devtoolsPanel.js";
    match b
    case Firefox =>
      GuiBundleOutputsAppend(common, sidebar);
      GuiBundleOutputsAppend(common + sidebar, devtools);
      assert outputs == ["popup.js", "sidebarPanel.js", "devtoolsPanel.js"];
    case Opera =>
      GuiBundleOutputsAppend(common, sidebar);
      GuiBundleOutputsAppend(common + sidebar, devtools);
      assert outputs == ["popup.js", "sidebarPanel.js", "devtoolsPanel.js"];
    case Chrome =>
      assert IoPairs(b, testMode) == common + devtools;
      GuiBundleOutputsAppend(common, devtools);
      assert outputs == ["popup.js", "devtoolsPanel.js"];
    case Edge =>
      assert IoPairs(b, testMode) == common;
  }

  /** The GUI bundles of each part of the table. */
  lemma GuiOutputsOfParts(dir: string)
    ensures GuiBundleOutputs(CommonPairs(dir)) == ["popup.js"]
    ensures GuiBundleOutputs(SidebarPairs(dir)) == ["sidebarPanel.js"]
    ensures GuiBundleOutputs(DevtoolsPairs(dir)) == ["devtoolsPanel.js"]
  {
    SourcePathsDistinct();
    var common, devtools := CommonPairs(dir), DevtoolsPairs(dir);
    GuiBundleOutputsCons(common[0], common[1..]);
    GuiBundleOutputsCons(common[1], common[2..]);
    GuiBundleOutputsCons(common[2], common[3..]);
    GuiBundleOutputsCons(common[3], common[4..]);
    assert [common[0]] + common[1..] == common && [common[1]] + common[2..] == common[1..];
    assert [common[2]] + common[3..] == common[2..] && [common[3]] + common[4..] == common[3..];
    assert common[4..] == [];
    GuiBundleOutputsCons(devtools[0], devtools[1..]);
    GuiBundleOutputsCons(devtools[1], devtools[2..]);
    assert [devtools[0]] + devtools[1..] == devtools && [devtools[1]] + devtools[2..] == devtools[1..];
    assert devtools[2..] == [];
    assert GuiBundleOutputs([]) == [];
  }

  lemma {:induction false} GuiBundleOutputsAppend(a: seq<IoPair>, c: seq<IoPair>)
    ensures GuiBundleOutputs(a + c) == GuiBundleOutputs(a) + GuiBundleOutputs(c)
  {
    if a == [] {
      assert a + c == c;
    } else {
      assert (a + c)[0] == a[0] && (a + c)[1..] == a[1..] + c;
      GuiBundleOutputsAppend(a[1..], c);
    }
  }

  lemma GuiBundleOutputsCons(p: IoPair, rest: seq<IoPair>)
    ensures GuiBundleOutputs([p] + rest) ==
      (if p.input == SourcePath("_gui.js") then [p.outputFile] else []) + GuiBundleOutputs(rest)
  {
    assert ([p] + rest)[1..] == rest;
  }

  /** With a template holding the placeholder once, every page loads its own script and keeps no placeholder. */
  lemma GuiPagesReferenceTheirScript(b: Browser, template: string, i: nat, k: nat)
    requires OccursAt(template, Placeholder, i)
    requires forall p :: OccursAt(template, Placeholder, p) ==> p == i
    requires k < |GuiSurfaces(b)|
    ensures var page := CopyGuiFiles(b, template)[k];
      && OccursAt(page.content, GuiSurfaces(b)[k] + ".js", i)
      && forall p :: !OccursAt(page.content, Placeholder, p)
  {
    var d := GuiSurfaces(b)[k];
    assert d in {"popup", "sidebarPanel", "devtoolsPanel"};
    assert forall c :: c in d + ".js" ==> c !in Placeholder;
    ReplaceFirstRemovesOnlyOccurrence(template, Placeholder, d + ".js", i);
  }
}
