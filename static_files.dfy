/**
 * `copyStaticFiles` of scripts/build.js: the static files are copied into the build directory and,
 * for browsers without the secondary user interfaces, marked regions are cut out of the top-level
 * HTML and CSS files by a global, non-greedy regular-expression replacement with the empty string.
 */
module StaticFiles {
  import opened Wrappers
  import opened Text
  import opened Browsers

  datatype StaticFile = StaticFile(path: string, content: string)

  const HtmlOpen: string := "<!-- ui -->"
  const HtmlClose: string := "<!-- /ui -->"
  const CssOpen: string := "/* ui */"
  const CssClose: string := "/* /ui */"

  /**
   * `text.replace(/OPEN[\s\S]*?CLOSE\s*\/g, '')`: from the first `open`, cut up to and including the
   * first `close` after it and the whitespace that follows, then carry on after the cut.
   * An `open` with no `close` after it ends the matching.
   */
  function StripRegions(text: string, open: string, close: string): (r: string)
    requires |open| > 0
    decreases |text|
    ensures |r| <= |text|
  {
    match IndexOf(text, open, 0)
    case None => text
    case Some(i) =>
      match IndexOf(text, close, i + |open|)
      case None => text
      case Some(j) =>
        var k := SkipSpaces(text, j + |close|);
        text[..i] + StripRegions(text[k..], open, close)
  }

  /** Text without a start marker is left as it is. */
  lemma NoOpenMarkerUnchanged(text: string, open: string, close: string)
    requires |open| > 0
    requires forall p: nat :: !OccursAt(text, open, p)
    ensures StripRegions(text, open, close) == text
  {
    assert IndexOf(text, open, 0).None?;
  }

  /** Nor is text whose start markers have no end marker after them. */
  lemma NoCloseMarkerUnchanged(text: string, open: string, close: string, i: nat)
    requires |open| > 0
    requires OccursAt(text, open, i) && forall p: nat :: p < i ==> !OccursAt(text, open, p)
    requires forall p: nat :: p >= i + |open| ==> !OccursAt(text, close, p)
    ensures StripRegions(text, open, close) == text
  {
    IndexOfFindsFirst(text, open, 0, i);
  }

  /**
   * One match of the pattern: a prefix `before` with no start marker in it, then the region from the
   * start marker to the first end marker after it, then whitespace; all of it up to `after` is removed.
   */
  lemma StripOneRegion(before: string, inner: string, spaces: string, after: string, open: string, close: string)
    requires |open| > 0
    requires forall p: nat :: p < |before| ==> !OccursAt(before + open, open, p)
    requires forall p: nat :: p < |inner| ==> !OccursAt(inner + close, close, p)
    requires forall c :: c in spaces ==> IsSpace(c)
    requires after == [] || !IsSpace(after[0])
    ensures StripRegions(before + open + inner + close + spaces + after, open, close)
         == before + StripRegions(after, open, close)
  {
    var text := before + open + inner + close + spaces + after;
    var i := |before|;
    var j := i + |open| + |inner|;
    var k := j + |close| + |spaces|;
    assert text[..i + |open|] == before + open;
    assert text[i + |open|..j + |close|] == inner + close;
    assert text[j + |close|..k] == spaces;
    assert text[..i] == before;
    assert text[k..] == after;
    FirstOccurrence(text, before, open);
    FirstOccurrenceFrom(text, i + |open|, inner, close);
    SkipSpaceRun(text, j + |close|, spaces, k);
  }

  /** `text` starts with `before + open` and `before` holds no start marker: the first one is after `before`. */
  lemma FirstOccurrence(text: string, before: string, open: string)
    requires |before| + |open| <= |text| && text[..|before| + |open|] == before + open
    requires forall p: nat :: p < |before| ==> !OccursAt(before + open, open, p)
    ensures IndexOf(text, open, 0) == Some(|before|)
  {
    var window := before + open;
    forall p: nat | p < |before|
      ensures !OccursAt(text, open, p)
    {
      assert text[p..p + |open|] == window[p..p + |open|];
      assert !OccursAt(window, open, p);
    }
    assert text[|before|..|before| + |open|] == window[|before|..];
    IndexOfFindsFirst(text, open, 0, |before|);
  }

  /** `inner + close` sits at `from` and `inner` starts no end marker: the first one from `from` is after `inner`. */
  lemma FirstOccurrenceFrom(text: string, from: nat, inner: string, close: string)
    requires from + |inner| + |close| <= |text| && text[from..from + |inner| + |close|] == inner + close
    requires forall p: nat :: p < |inner| ==> !OccursAt(inner + close, close, p)
    ensures IndexOf(text, close, from) == Some(from + |inner|)
  {
    var window := inner + close;
    var j := from + |inner|;
    forall p: nat | from <= p < j
      ensures !OccursAt(text, close, p)
    {
      var q: nat := p - from;
      assert q + |close| <= |window|;
      forall m | q <= m < q + |close| ensures window[m] == text[from + m] {
        assert window[m] == text[from..from + |window|][m];
      }
      assert text[p..p + |close|] == window[q..q + |close|];
      assert !OccursAt(window, close, q);
    }
    assert text[j..j + |close|] == window[|inner|..];
    IndexOfFindsFirst(text, close, from, j);
  }

  /** `\s*` at `from` consumes the whole run `spaces` and stops at the first character after it. */
  lemma SkipSpaceRun(text: string, from: nat, spaces: string, k: nat)
    requires k == from + |spaces| <= |text| && text[from..k] == spaces
    requires forall c :: c in spaces ==> IsSpace(c)
    requires k == |text| || !IsSpace(text[k])
    ensures SkipSpaces(text, from) == k
  {
    forall q | from <= q < k ensures IsSpace(text[q]) {
      assert text[q] == spaces[q - from];
    }
    SkipSpacesExact(text, from, k);
  }

  /** `SkipSpaces` stops exactly at the first non-space character. */
  lemma SkipSpacesExact(s: string, from: nat, k: nat)
    requires from <= k <= |s|
    requires forall q :: from <= q < k ==> IsSpace(s[q])
    requires k == |s| || !IsSpace(s[k])
    ensures SkipSpaces(s, from) == k
  {
  }

  /** The regions cut out of a top-level HTML or CSS file of Chrome and Edge builds; others are kept as copied. */
  function StripUiMarkers(b: Browser, f: StaticFile): (r: StaticFile)
    ensures r.path == f.path
    ensures |r.content| <= |f.content|
    ensures HasSidebar(b) || !IsTopLevel(f.path) || !(EndsWith(f.path, ".html") || EndsWith(f.path, ".css")) ==> r == f
    ensures (b == Chrome || b == Edge) && IsTopLevel(f.path) && EndsWith(f.path, ".html") ==> r.content == StripRegions(f.content, HtmlOpen, HtmlClose)
    ensures (b == Chrome || b == Edge) && IsTopLevel(f.path) && EndsWith(f.path, ".css") ==> r.content == StripRegions(f.content, CssOpen, CssClose)
  {
    if (b == Chrome || b == Edge) && IsTopLevel(f.path) && EndsWith(f.path, ".html") then
      // the last character is `l`, so the path does not also end with `.css`
      assert f.path[|f.path| - 1] == ".html"[4];
      StaticFile(f.path, StripRegions(f.content, HtmlOpen, HtmlClose))
    else if (b == Chrome || b == Edge) && IsTopLevel(f.path) && EndsWith(f.path, ".css") then
      StaticFile(f.path, StripRegions(f.content, CssOpen, CssClose))
    else f
  }

  /** The HTML and CSS globs name files directly in the build directory, not in its sub-directories. */
  predicate IsTopLevel(path: string)
  {
    '/' !in path
  }

  /** `copyStaticFiles`: the copied tree, with the UI regions stripped where the browser lacks them. */
  function CopyStaticFiles(b: Browser, files: seq<StaticFile>): (r: seq<StaticFile>)
    ensures |r| == |files|
    ensures forall i :: 0 <= i < |r| ==> r[i] == StripUiMarkers(b, files[i])
  {
    seq(|files|, i requires 0 <= i < |files| => StripUiMarkers(b, files[i]))
  }

  /** Firefox and Opera builds get the static files exactly as they are in the source tree. */
  lemma SidebarBrowsersCopyVerbatim(b: Browser, files: seq<StaticFile>)
    requires HasSidebar(b)
    ensures CopyStaticFiles(b, files) == files
  {
  }
}
