/**
 * `checkMessages` of scripts/build.js: every message of the built catalog must be mentioned in some
 * source file, except the role names, whose lookups are assembled at run time.
 */
module MessageCheck {
  import opened Wrappers
  import opened Text
  import opened BuildTargets

  datatype SourceFile = SourceFile(path: string, content: string)

  /** An entry of `messageSummary`: a usage count, or the marker written for role names. */
  datatype Usage = Count(n: nat) | NotChecked

  /** `key` occurs somewhere in `text`. */
  ghost predicate Mentions(text: string, key: string)
  {
    exists j: nat :: OccursAt(text, key, j)
  }

  /**
   * The length of `text.match(new RegExp(key, 'g'))` from position `from` on, for a key without regular
   * expression metacharacters: matches do not overlap, and an empty match moves on by one character.
   */
  function CountFrom(text: string, key: string, from: nat): (r: nat)
    requires from <= |text| + 1
    decreases |text| + 1 - from
    ensures r == 0 <==> forall j: nat :: from <= j ==> !OccursAt(text, key, j)
  {
    if from > |text| then 0
    else if OccursAt(text, key, from) then 1 + CountFrom(text, key, from + if |key| == 0 then 1 else |key|)
    else CountFrom(text, key, from + 1)
  }

  /** `(text.match(new RegExp(key, 'g')) || []).length`. */
  function CountMatches(text: string, key: string): (r: nat)
    ensures r == 0 <==> !Mentions(text, key)
  {
    CountFrom(text, key, 0)
  }

  /** An empty key matches at every position, end included. */
  lemma {:induction false} EmptyKeyMatchesEverywhere(text: string, from: nat)
    requires from <= |text| + 1
    decreases |text| + 1 - from
    ensures CountFrom(text, "", from) == |text| + 1 - from
  {
    if from <= |text| {
      assert OccursAt(text, "", from);
      EmptyKeyMatchesEverywhere(text, from + 1);
    }
  }

  /** The source glob skips every file whose name ends in `Messages.json`: catalogs do not count as uses. */
  predicate IsScanned(f: SourceFile)
  {
    !EndsWith(f.path, "Messages.json")
  }

  function ScannedFiles(files: seq<SourceFile>): (r: seq<SourceFile>)
    ensures forall f :: f in r <==> f in files && IsScanned(f)
    ensures |r| <= |files|
  {
    if files == [] then []
    else (if IsScanned(files[0]) then [files[0]] else []) + ScannedFiles(files[1..])
  }

  /** The filter keeps every scanned file as often as it occurs, and no catalog. */
  lemma {:induction false} ScannedFilesCount(files: seq<SourceFile>, f: SourceFile)
    ensures multiset(ScannedFiles(files))[f] == if IsScanned(f) then multiset(files)[f] else 0
  {
    if files != [] {
      assert files == [files[0]] + files[1..];
      ScannedFilesCount(files[1..], f);
    }
  }

  /** The total of the match counts of `key` over `files`. */
  function TotalUses(key: string, files: seq<SourceFile>): (r: nat)
    ensures r == 0 <==> forall i :: 0 <= i < |files| ==> !Mentions(files[i].content, key)
  {
    if files == [] then 0
    else TotalUses(key, files[..|files| - 1]) + CountMatches(files[|files| - 1].content, key)
  }

  /** The summary entry of a message. */
  function Expected(key: string, files: seq<SourceFile>): Usage
  {
    if StartsWith(key, "role") then NotChecked else Count(TotalUses(key, files))
  }

  /** A message that is not a role name and that no scanned file mentions. */
  ghost predicate IsUnused(key: string, files: seq<SourceFile>)
  {
    !StartsWith(key, "role") && forall i :: 0 <= i < |files| ==> !Mentions(files[i].content, key)
  }

  /** The inner loop of `checkMessages`: the uses of one message summed over the scanned files. */
  method CountUses(name: string, scanned: seq<SourceFile>) returns (count: nat)
    ensures count == TotalUses(name, scanned)
  {
    count := 0;
    for f := 0 to |scanned|
      invariant count == TotalUses(name, scanned[..f])
    {
      assert scanned[..f + 1][..f] == scanned[..f];
      count := count + CountMatches(scanned[f].content, name);
    }
    assert scanned[..|scanned|] == scanned;
  }

  /**
   * `checkMessages`: `keys` are the catalog's message names, `files` the source tree. The summary has an
   * entry per message; the check fails exactly when some non-role message is mentioned nowhere.
   */
  method CheckMessages(keys: seq<string>, files: seq<SourceFile>)
      returns (summary: map<string, Usage>, outcome: Outcome<BuildError>)
    ensures forall k :: k in summary <==> k in keys
    ensures forall k :: k in summary ==> summary[k] == Expected(k, ScannedFiles(files))
    ensures outcome.Fail? <==> exists k :: k in keys && IsUnused(k, ScannedFiles(files))
    ensures outcome.Fail? ==> outcome.error == UnusedMessages
  {
    var scanned := ScannedFiles(files);
    summary := map[];
    for i := 0 to |keys|
      invariant forall k :: k in summary <==> k in keys[..i]
      invariant forall k :: k in summary ==> summary[k] == Expected(k, scanned)
    {
      var name := keys[i];
      var count := CountUses(name, scanned);
      summary := summary[name := Count(count)];
      if StartsWith(name, "role") {
        summary := summary[name := NotChecked];
      }
      assert keys[..i + 1] == keys[..i] + [name];
    }
    assert keys[..|keys|] == keys;
    SummaryFlagsUnused(summary, keys, scanned);
    if exists k :: k in summary && summary[k] == Count(0) {
      outcome := Fail(UnusedMessages);
    } else {
      outcome := Pass;
    }
  }

  /** A zero in the summary marks exactly the unused non-role messages. */
  lemma SummaryFlagsUnused(summary: map<string, Usage>, keys: seq<string>, scanned: seq<SourceFile>)
    requires forall k :: k in summary <==> k in keys
    requires forall k :: k in summary ==> summary[k] == Expected(k, scanned)
    ensures (exists k :: k in summary && summary[k] == Count(0)) <==> exists k :: k in keys && IsUnused(k, scanned)
  {
    if k :| k in keys && IsUnused(k, scanned) {
      assert k in summary && summary[k] == Count(0);
    }
  }

  /** A role name never fails the check, whether or not it is mentioned. */
  lemma RoleNamesNeverFail(keys: seq<string>, files: seq<SourceFile>)
    requires forall k :: k in keys ==> StartsWith(k, "role")
    ensures !exists k :: k in keys && IsUnused(k, ScannedFiles(files))
  {
  }

  /** A mention inside a message catalog does not save a message from the check. */
  lemma CatalogMentionsIgnored(key: string, files: seq<SourceFile>, catalog: SourceFile)
    requires EndsWith(catalog.path, "Messages.json")
    ensures ScannedFiles(files + [catalog]) == ScannedFiles(files)
  {
    ScannedFilesAppend(files, [catalog]);
    assert ScannedFiles([catalog]) == [];
  }

  /** The filter keeps the order of the files: scanning two lists one after the other scans their concatenation. */
  lemma {:induction false} ScannedFilesAppend(a: seq<SourceFile>, b: seq<SourceFile>)
    ensures ScannedFiles(a + b) == ScannedFiles(a) + ScannedFiles(b)
  {
    if a != [] {
      assert (a + b)[1..] == a[1..] + b;
      ScannedFilesAppend(a[1..], b);
    } else {
      assert a + b == b;
    }
  }
}
