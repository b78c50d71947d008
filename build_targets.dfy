/**
 * The target resolver of scripts/build.js: `checkBuildMode`, `pathToBuild` and `zipFileName`,
 * with the module-level `testMode` flag kept as the state of a `BuildDriver` object.
 */
module BuildTargets {
  import opened Wrappers
  import opened Browsers
  import opened Text

  /** The fatal errors of the build driver; `error()` ends the process with exit code 42 for each of them. */
  datatype BuildError =
    | InvalidBuildMode(received: Option<string>)
    | TestModeNotChrome
    | InvalidBrowser(name: string)
    | UnusedMessages

  const BuildDir: string := "build"

  /** `buildTargets`: the browsers and the synthetic `all`. */
  const BuildTargetNames: seq<string> := ["firefox", "chrome", "opera", "edge", "all"]

  /** Test mode is on exactly when the second argument is the literal `test`. */
  predicate IsTestMode(arg3: Option<string>)
  {
    arg3 == Some("test")
  }

  /**
   * The browsers `checkBuildMode` returns for the first argument, or the error it exits with.
   * The target is checked before the test-mode restriction.
   */
  function ResolveTargets(arg2: Option<string>, testMode: bool): (r: Result<seq<Browser>, BuildError>)
    ensures r.Err? <==> (arg2.None? || arg2.value !in BuildTargetNames || (testMode && arg2 != Some("chrome")))
    ensures r.Err? && (arg2.None? || arg2.value !in BuildTargetNames) ==> r.error == InvalidBuildMode(arg2)
    ensures r.Err? && arg2.Some? && arg2.value in BuildTargetNames ==> r.error == TestModeNotChrome
    ensures r.Ok? && arg2 == Some("all") ==> r.value == AllBrowsers
    ensures r.Ok? && arg2 != Some("all") ==> |r.value| == 1 && Name(r.value[0]) == arg2.value
  {
    if arg2.None? || arg2.value !in BuildTargetNames then Err(InvalidBuildMode(arg2))
    else if testMode && arg2.value != "chrome" then Err(TestModeNotChrome)
    else if arg2.value == "all" then Ok(AllBrowsers)
    else match ParseBrowser(arg2.value)
      case Some(b) => Ok([b])
      case None => assert false; Err(InvalidBuildMode(arg2))
  }

  /** The holder of the module-level `testMode` variable that `checkBuildMode` assigns. */
  class BuildDriver {
    var testMode: bool

    constructor ()
      ensures !testMode
    {
      testMode := false;
    }

    /** `checkBuildMode`: record the test-mode flag, then validate the requested target. */
    method CheckBuildMode(arg2: Option<string>, arg3: Option<string>)
      returns (r: Result<seq<Browser>, BuildError>)
      modifies this
      ensures testMode == IsTestMode(arg3)
      ensures r == ResolveTargets(arg2, testMode)
    {
      testMode := arg3 == Some("test");
      r := ResolveTargets(arg2, testMode);
    }
  }

  /** The output directory of one browser's build. */
  function BuildPath(b: Browser, testMode: bool): string
  {
    BuildDir + "/" + Name(b) + (if testMode then "-test" else "")
  }

  /** `pathToBuild`: a build directory for a valid browser name, an exit for anything else. */
  function PathToBuild(name: string, testMode: bool): (r: Result<string, BuildError>)
    ensures r.Ok? <==> exists b :: Name(b) == name
    ensures r.Err? ==> r.error == InvalidBrowser(name)
    ensures r.Ok? ==> StartsWith(r.value, "build/" + name)
    ensures r.Ok? ==> (EndsWith(r.value, "-test") <==> testMode)
    ensures r.Ok? ==> |r.value| == 6 + |name| + (if testMode then 5 else 0)
  {
    match ParseBrowser(name)
    case Some(b) =>
      var path := BuildPath(b, testMode);
      assert !testMode ==> path[|path| - 1] == Name(b)[|Name(b)| - 1] != 't';
      Ok(path)
    case None => Err(InvalidBrowser(name))
  }

  /** Distinct browsers and modes never share a build directory (the names have distinct lengths). */
  lemma BuildPathInjective(b1: Browser, t1: bool, b2: Browser, t2: bool)
    requires BuildPath(b1, t1) == BuildPath(b2, t2)
    ensures b1 == b2 && t1 == t2
  {
    assert |BuildPath(b1, t1)| == |BuildPath(b2, t2)|;
  }

  /** `zipFileName`: `<name>-<version>[-test]-<browser>.zip`. */
  function ZipFileName(extName: string, extVersion: string, testMode: bool, browser: string): (r: string)
    ensures StartsWith(r, extName + "-" + extVersion)
    ensures EndsWith(r, "-" + browser + ".zip")
    ensures |r| == |extName| + |extVersion| + |browser| + 6 + (if testMode then 5 else 0)
    ensures testMode ==> OccursAt(r, "-test", |extName| + 1 + |extVersion|)
  {
    var test := if testMode then "-test" else "";
    extName + "-" + extVersion + test + "-" + browser + ".zip"
  }

  /** One package name and version: different browsers give different archives, and so do the two modes. */
  lemma ZipFileNameInjective(extName: string, extVersion: string, t1: bool, b1: Browser, t2: bool, b2: Browser)
    requires ZipFileName(extName, extVersion, t1, Name(b1)) == ZipFileName(extName, extVersion, t2, Name(b2))
    ensures b1 == b2 && t1 == t2
  {
    var z1, z2 := ZipFileName(extName, extVersion, t1, Name(b1)), ZipFileName(extName, extVersion, t2, Name(b2));
    var p := |extName| + |extVersion| + 1;
    assert t1 == t2 by {
      if t1 != t2 {
        // equal strings, but the test suffix is five characters and browser names differ by at most three
        assert |z1| == |z2|;
      }
    }
    var n := |Name(b1)|;
    assert |Name(b2)| == n;
    assert z1[|z1| - n - 4..|z1| - 4] == Name(b1);
    assert z2[|z2| - n - 4..|z2| - 4] == Name(b2);
  }

  /** Both failures of `checkBuildMode` end the process with code 42 before any browser is built. */
  lemma ResolveTargetsErrors(arg2: Option<string>, arg3: Option<string>)
    ensures ResolveTargets(arg2, IsTestMode(arg3)).Err? <==>
      (arg2.None? || arg2.value !in BuildTargetNames || (arg3 == Some("test") && arg2 != Some("chrome")))
    ensures IsTestMode(arg3) && arg2 == Some("all") ==> ResolveTargets(arg2, IsTestMode(arg3)) == Err(TestModeNotChrome)
  {
  }

  /** `all` expands to each browser exactly once, in the order of `validBrowsers`. */
  lemma AllExpandsToEveryBrowserOnce(testMode: bool, b: Browser)
    requires !testMode
    ensures ResolveTargets(Some("all"), testMode) == Ok([Firefox, Chrome, Opera, Edge])
    ensures multiset(ResolveTargets(Some("all"), testMode).value)[b] == 1
  {
  }
}
