/**
 * src/code/specialPages.js: per browser, the URL patterns of the extension store, where the browser
 * action is disabled and no content script is injected. A pattern is kept as its regular-expression
 * source after the `^` anchor, with each escaped `\/` written as `/`; `Matches` interprets the three
 * constructs the patterns use.
 */
module SpecialPages {
  import opened Wrappers
  import opened Text
  import opened Browsers

  type Pattern = string

  /** The characters `.` does not match without the `s` flag. */
  predicate IsLineTerminator(c: char)
  {
    c == '\n' || c == '\r' || c == '\U{2028}' || c == '\U{2029}'
  }

  /** `p` begins with the lazy repetition `c*?` of its first character. */
  predicate StartsWithLazyStar(p: Pattern)
  {
    |p| >= 3 && p[1] == '*' && p[2] == '?'
  }

  /**
   * `new RegExp('^' + p).test(s)`: some prefix of `s` matches `p`. In `p`, `.` is any character but a line
   * terminator, `c*?` any number of `c`, and every other character itself. Laziness does not change the answer.
   */
  predicate Matches(p: Pattern, s: string)
    decreases |p|, |s|
  {
    if p == [] then true
    else if StartsWithLazyStar(p) then Matches(p[3..], s) || (|s| > 0 && s[0] == p[0] && Matches(p, s[1..]))
    else if p[0] == '.' then |s| > 0 && !IsLineTerminator(s[0]) && Matches(p[1..], s[1..])
    else |s| > 0 && s[0] == p[0] && Matches(p[1..], s[1..])
  }

  const Scheme: string := "https://"

  /** The Edge pattern after the host: lazily any number of slashes, then the path `/store`. */
  const EdgePath: Pattern := "/*?/store"

  /** A browser's pattern after `^https:\/\/`: the store host, and for Edge a path. */
  function PageAfterScheme(b: Browser): Pattern
  {
    match b
    case Firefox => "addons.mozilla.org"
    case Chrome => "chrome.google.com/webstore"
    case Opera => "addons.opera.com"
    case Edge => "www.microsoft.com" + EdgePath
  }

  /** The frozen one-element list of a browser. */
  function SpecialPagesFor(b: Browser): (r: seq<Pattern>)
    ensures |r| == 1
  {
    [Scheme + PageAfterScheme(b)]
  }

  /** The module's `switch (BROWSER)`: any other name throws. */
  function SpecialPages(name: string): (r: Result<seq<Pattern>, string>)
    ensures r.Ok? <==> ParseBrowser(name).Some?
    ensures r.Ok? ==> r.value == SpecialPagesFor(ParseBrowser(name).value) && |r.value| == 1
    ensures r.Err? ==> r.error == "EXTENSION_NAME: invalid browser " + name + " given."
  {
    match ParseBrowser(name)
    case Some(b) => Ok(SpecialPagesFor(b))
    case None => Err("EXTENSION_NAME: invalid browser " + name + " given.")
  }

  /** `text` read as pattern source matches `s` character for character: `.` takes any non-terminator. */
  predicate CharsMatch(text: string, s: string)
    requires |s| == |text|
  {
    forall i :: 0 <= i < |text| ==> if text[i] == '.' then !IsLineTerminator(s[i]) else s[i] == text[i]
  }

  /** A stretch of source without repetition consumes exactly its length, then matching goes on after it. */
  lemma {:induction false} StretchMatches(text: string, rest: Pattern, s: string)
    requires '*' !in text && (rest == [] || rest[0] != '*')
    ensures Matches(text + rest, s)
        <==> |text| <= |s| && CharsMatch(text, s[..|text|]) && Matches(rest, s[|text|..])
  {
    if text != [] {
      var p := text + rest;
      assert p[1..] == text[1..] + rest;
      assert !StartsWithLazyStar(p) by {
        if |p| >= 2 {
          assert p[1] == if |text| >= 2 then text[1] else rest[0];
        }
      }
      if |s| > 0 {
        StretchMatches(text[1..], rest, s[1..]);
        if |text| <= |s| {
          assert s[1..][|text| - 1..] == s[|text|..];
          assert s[..|text|][1..] == s[1..][..|text| - 1];
          CharsMatchSplit(text, s[..|text|]);
        }
      }
    } else {
      assert text + rest == rest;
    }
  }

  lemma CharsMatchSplit(text: string, s: string)
    requires |s| == |text| > 0
    ensures CharsMatch(text, s) <==> CharsMatch(text[..1], s[..1]) && CharsMatch(text[1..], s[1..])
  {
    if CharsMatch(text[..1], s[..1]) && CharsMatch(text[1..], s[1..]) {
      forall i | 0 <= i < |text| ensures if text[i] == '.' then !IsLineTerminator(s[i]) else s[i] == text[i] {
        if i > 0 {
          assert text[i] == text[1..][i - 1] && s[i] == s[1..][i - 1];
        } else {
          assert text[0] == text[..1][0] && s[0] == s[..1][0];
        }
      }
    }
  }

  /** Without `.` in the source, matching is literal. */
  lemma LiteralMatch(text: string, s: string)
    requires '.' !in text && |s| == |text|
    ensures CharsMatch(text, s) <==> s == text
  {
    if CharsMatch(text, s) {
      forall i | 0 <= i < |text| ensures s[i] == text[i] {
        assert text[i] != '.';
      }
    }
  }

  lemma SchemeChars()
    ensures '.' !in Scheme && '*' !in Scheme && |Scheme| == 8 && Scheme[4] == 's'
  {
  }

  /** Every special page requires the `https://` scheme. */
  lemma SpecialPagesNeedHttps(b: Browser, s: string)
    ensures Matches(SpecialPagesFor(b)[0], s) ==> StartsWith(s, Scheme)
  {
    SchemeChars();
    StretchMatches(Scheme, PageAfterScheme(b), s);
    if |s| >= |Scheme| {
      LiteralMatch(Scheme, s[..|Scheme|]);
    }
  }

  /** A dot-free, repetition-free prefix of the pattern matches itself and hands the rest on. */
  lemma LiteralThen(text: string, rest: Pattern, tail: string)
    requires '.' !in text && '*' !in text && (rest == [] || rest[0] != '*')
    ensures Matches(text + rest, text + tail) <==> Matches(rest, tail)
  {
    StretchMatches(text, rest, text + tail);
    assert (text + tail)[..|text|] == text;
    assert (text + tail)[|text|..] == tail;
    LiteralMatch(text, text);
  }

  lemma EdgeParts()
    ensures SpecialPagesFor(Edge)[0] == Scheme + ("www.microsoft.com" + EdgePath)
    ensures EdgePath[0] != '*' && StartsWithLazyStar(EdgePath) && EdgePath[0] == '/' && EdgePath[3..] == "/store"
  {
  }

  lemma StoreAfterHost(path: string)
    requires StartsWith(path, "/store")
    ensures Matches(EdgePath, path)
  {
    EdgeParts();
    assert "/store" == "/store" + [];
    StretchMatches("/store", [], path);
    LiteralMatch("/store", path[..6]);
  }

  lemma LocaleAfterHost(path: string)
    requires StartsWith(path, "/en-us")
    ensures !Matches(EdgePath, path)
  {
    EdgeParts();
    assert "/store" == "/store" + [];
    StretchMatches("/store", [], path);
    StretchMatches("/store", [], path[1..]);
    assert path[..6][1] == 'e';
    if |path| >= 7 {
      assert path[1..][..6][0] == 'e';
    }
    assert path[1..][0] == 'e';
    assert Matches(EdgePath, path[1..]) == Matches("/store", path[1..]);
  }

  /** Past the scheme and the host, the Edge pattern is matched by its path part alone. */
  lemma EdgeHostConsumed(path: string)
    ensures Matches(SpecialPagesFor(Edge)[0], Scheme + ("www.microsoft.com" + path)) <==> Matches(EdgePath, path)
  {
    var host := "www.microsoft.com";
    HostMatchesItself(host, EdgePath, path);
    SchemeChars();
    EdgeParts();
    LiteralThen(Scheme, host + EdgePath, host + path);
  }

  /** Every URL `https://www.microsoft.com/store...` is an Edge special page. */
  lemma EdgeStoreRightAfterHost(tail: string)
    ensures Matches(SpecialPagesFor(Edge)[0], Scheme + ("www.microsoft.com" + ("/store" + tail)))
  {
    StoreAfterHost("/store" + tail);
    EdgeHostConsumed("/store" + tail);
  }

  /** The pattern needs `/store` right after the host: `https://www.microsoft.com/en-us/store...` is not special. */
  lemma EdgeLocaleStoreNotSpecial(tail: string)
    ensures !Matches(SpecialPagesFor(Edge)[0], Scheme + ("www.microsoft.com" + ("/en-us/store" + tail)))
  {
    LocaleAfterHost("/en-us/store" + tail);
    EdgeHostConsumed("/en-us/store" + tail);
  }

  /** A host pattern, dots included, matches its own text. */
  lemma HostMatchesItself(host: string, rest: Pattern, tail: string)
    requires '*' !in host && (rest == [] || rest[0] != '*')
    requires forall c :: c in host ==> !IsLineTerminator(c)
    ensures Matches(host + rest, host + tail) <==> Matches(rest, tail)
  {
    StretchMatches(host, rest, host + tail);
    assert (host + tail)[..|host|] == host;
    assert (host + tail)[|host|..] == tail;
    assert CharsMatch(host, host) by {
      forall i | 0 <= i < |host| ensures if host[i] == '.' then !IsLineTerminator(host[i]) else host[i] == host[i] {
        assert host[i] in host;
      }
    }
  }
}
