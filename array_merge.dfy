/**
 * The positional array merge `legacyArrayMerge` that `mergeManifest` in scripts/build.js hands to
 * deepmerge, and the manifest merge itself. deepmerge's own recursion is an abstract parameter.
 */
module ArrayMerge {
  import opened Wrappers
  import opened JsonValues

  /** deepmerge's `merge(target, source, options)` for one element; `None` is an absent (undefined) target. */
  type ElementMerge = (Option<Json>, Json) -> Json

  /** The `options` object deepmerge passes to the array merge: its `clone` flag and its recursion. */
  datatype MergeOptions = MergeOptions(clone: Option<bool>, merge: ElementMerge)

  /** `options.clone !== false`: an unset flag requests cloning. */
  predicate CloneRequested(opts: MergeOptions)
  {
    opts.clone != Some(false)
  }

  /** The `clone` helper: a mergeable value merged into an empty one of its kind. */
  function Clone(e: Json, opts: MergeOptions): Json
  {
    opts.merge(Some(EmptyTarget(e)), e)
  }

  /** `target[i]` as JavaScript reads it: `undefined` past the end. */
  function At(target: seq<Json>, i: nat): (r: Option<Json>)
    ensures r.Some? <==> i < |target|
    ensures r.Some? ==> r.value == target[i]
  {
    if i < |target| then Some(target[i]) else None
  }

  /**
   * One iteration of the `forEach` callback, on source element `e` at index `i`. A JSON array holds no
   * `undefined`, so `destination[i]` is undefined exactly when `i` is past its end; `i == |dest|` then.
   */
  function Step(target: seq<Json>, dest: seq<Json>, i: nat, e: Json, opts: MergeOptions): (r: seq<Json>)
    requires i <= |dest|
    ensures i < |r| && |dest| <= |r| <= |dest| + 1
    ensures forall j :: 0 <= j < |dest| && j != i ==> r[j] == dest[j]
    ensures |r| == |dest| + 1 ==> r[|dest|] == (if i == |dest| && CloneRequested(opts) && IsMergeable(e) then Clone(e, opts) else e)
    ensures i < |dest| ==> r[i] == (if IsMergeable(e) then opts.merge(At(target, i), e) else dest[i])
    ensures i < |dest| && IsMergeable(e) ==> |r| == |dest|
    ensures i < |dest| && !IsMergeable(e) ==> r == (if e in target then dest else dest + [e])
  {
    if i == |dest| then
      dest + [if CloneRequested(opts) && IsMergeable(e) then Clone(e, opts) else e]
    else if IsMergeable(e) then
      dest[i := opts.merge(At(target, i), e)]
    else if e !in target then
      dest + [e]
    else
      dest
  }

  /** The destination after the callback has run on the first `n` source elements. */
  function MergeUpTo(target: seq<Json>, source: seq<Json>, n: nat, opts: MergeOptions): (d: seq<Json>)
    requires n <= |source|
    ensures |target| <= |d| && n <= |d| <= |target| + n
  {
    if n == 0 then target
    else Step(target, MergeUpTo(target, source, n - 1, opts), n - 1, source[n - 1], opts)
  }

  /** `legacyArrayMerge(target, source, options)`: a copy of `target` updated or extended per source element. */
  method LegacyArrayMerge(target: seq<Json>, source: seq<Json>, opts: MergeOptions) returns (destination: seq<Json>)
    ensures destination == MergeUpTo(target, source, |source|, opts)
    ensures |target| <= |destination| && |source| <= |destination| <= |target| + |source|
  {
    destination := target;
    for i := 0 to |source|
      invariant destination == MergeUpTo(target, source, i, opts)
    {
      var e := source[i];
      if i >= |destination| {
        var shouldClone := CloneRequested(opts) && IsMergeable(e);
        destination := destination + [if shouldClone then Clone(e, opts) else e];
      } else if IsMergeable(e) {
        destination := destination[i := opts.merge(At(target, i), e)];
      } else if e !in target {
        destination := destination + [e];
      }
    }
  }

  /**
   * An index of `target` ends up holding `target[k]`, unless the source element at `k` is mergeable;
   * that one is merged with the ORIGINAL `target[k]`.
   */
  lemma {:induction false} TargetIndexResult(target: seq<Json>, source: seq<Json>, opts: MergeOptions, n: nat, k: nat)
    requires n <= |source| && k < |target|
    ensures MergeUpTo(target, source, n, opts)[k]
         == if k < n && IsMergeable(source[k]) then opts.merge(Some(target[k]), source[k]) else target[k]
  {
    if n > 0 {
      TargetIndexResult(target, source, opts, n - 1, k);
    }
  }

  /** Every scalar of `target` stays at its index unless a mergeable source element sits at that index. */
  lemma TargetScalarsStay(target: seq<Json>, source: seq<Json>, opts: MergeOptions, k: nat)
    requires k < |target|
    requires k >= |source| || !IsMergeable(source[k])
    ensures MergeUpTo(target, source, |source|, opts)[k] == target[k]
  {
    TargetIndexResult(target, source, opts, |source|, k);
  }

  /** Scalars absent from `target` are appended in source order, whatever the lengths. */
  lemma {:induction false} FreshScalarsAppended(target: seq<Json>, source: seq<Json>, opts: MergeOptions, n: nat)
    requires n <= |source|
    requires forall j :: 0 <= j < |source| ==> !IsMergeable(source[j]) && source[j] !in target
    ensures MergeUpTo(target, source, n, opts) == target + source[..n]
  {
    if n > 0 {
      FreshScalarsAppended(target, source, opts, n - 1);
      assert source[..n] == source[..n - 1] + [source[n - 1]];
    }
  }

  /**
   * The manifest case: the browser fragment's list `[z]` is the target and the common list `[x, y]` the
   * source, so the browser's entry comes first.
   */
  lemma BrowserEntriesFirst(z: Json, x: Json, y: Json, opts: MergeOptions)
    requires !IsMergeable(x) && !IsMergeable(y) && x != z && y != z
    ensures MergeUpTo([z], [x, y], 2, opts) == [z, x, y]
  {
    FreshScalarsAppended([z], [x, y], opts, 2);
  }

  /** Scalars already in `target` are not appended while the destination still reaches their index. */
  lemma {:induction false} KnownScalarsKept(target: seq<Json>, source: seq<Json>, opts: MergeOptions, n: nat)
    requires n <= |source| <= |target|
    requires forall j :: 0 <= j < |source| ==> !IsMergeable(source[j]) && source[j] in target
    ensures MergeUpTo(target, source, n, opts) == target
  {
    if n > 0 {
      KnownScalarsKept(target, source, opts, n - 1);
    }
  }

  /**
   * One scalar source element that the original `target` already holds, at an index the destination still
   * reaches, leaves the destination as it was: it is neither appended nor written anywhere.
   */
  lemma KnownScalarNotAppended(target: seq<Json>, source: seq<Json>, opts: MergeOptions, n: nat)
    requires n < |source| && n < |MergeUpTo(target, source, n, opts)|
    requires !IsMergeable(source[n]) && source[n] in target
    ensures MergeUpTo(target, source, n + 1, opts) == MergeUpTo(target, source, n, opts)
  {
  }

  /** Merging an array of scalars with itself returns it unchanged. */
  lemma ScalarSelfMerge(a: seq<Json>, opts: MergeOptions)
    requires forall j :: 0 <= j < |a| ==> !IsMergeable(a[j])
    ensures MergeUpTo(a, a, |a|, opts) == a
  {
    KnownScalarsKept(a, a, opts, |a|);
  }

  /**
   * If deepmerge leaves each mergeable value merged with itself unchanged, the array merge of an array with
   * itself returns it unchanged. Scalars need no such condition: they are never handed to deepmerge here.
   */
  lemma {:induction false} SelfMergeIdempotent(a: seq<Json>, opts: MergeOptions, n: nat)
    requires n <= |a|
    requires forall x :: IsMergeable(x) ==> opts.merge(Some(x), x) == x
    ensures MergeUpTo(a, a, n, opts) == a
  {
    if n > 0 {
      SelfMergeIdempotent(a, opts, n - 1);
      if IsMergeable(a[n - 1]) {
        assert opts.merge(At(a, n - 1), a[n - 1]) == a[n - 1];
      }
      assert a[n - 1 := a[n - 1]] == a;
    }
  }

  /**
   * With a source of scalars only, `target` is a prefix of the result, every source scalar is in the
   * result, and nothing else is added.
   */
  lemma {:induction false} ScalarSourceCovered(target: seq<Json>, source: seq<Json>, opts: MergeOptions, n: nat)
    requires n <= |source|
    requires forall j :: 0 <= j < |source| ==> !IsMergeable(source[j])
    ensures var d := MergeUpTo(target, source, n, opts);
      && d[..|target|] == target
      && (forall j :: 0 <= j < n ==> source[j] in d)
      && (forall v :: v in d ==> v in target || v in source[..n])
  {
    if n > 0 {
      ScalarSourceCovered(target, source, opts, n - 1);
      var prev := MergeUpTo(target, source, n - 1, opts);
      var d := MergeUpTo(target, source, n, opts);
      assert source[..n] == source[..n - 1] + [source[n - 1]];
      assert d == prev || d == prev + [source[n - 1]];
      assert d[..|target|] == prev[..|target|];
      forall j | 0 <= j < n ensures source[j] in d {
        if j == n - 1 && d == prev {
          assert source[j] in target;
          assert target == d[..|target|];
        }
      }
    }
  }

  /**
   * A pushed scalar can be overwritten: with target `["a"]` and source `["b", {}]`, "b" is pushed at index
   * 1 and then replaced by the merge of the absent `target[1]` with `{}`.
   */
  lemma PushedScalarOverwritten(opts: MergeOptions)
    ensures MergeUpTo([Str("a")], [Str("b"), Object(map[])], 2, opts)
         == [Str("a"), opts.merge(None, Object(map[]))]
  {
    var target, source := [Str("a")], [Str("b"), Object(map[])];
    assert MergeUpTo(target, source, 0, opts) == target;
    assert Str("b") !in target;
    assert MergeUpTo(target, source, 1, opts) == [Str("a"), Str("b")];
  }

  /**
   * Scalars are checked against the original target only: with target `[5]` and source `[5, 5]` the
   * second 5 lands past the end and is written there.
   */
  lemma RepeatedScalarPastTarget(opts: MergeOptions)
    ensures MergeUpTo([Num(5)], [Num(5), Num(5)], 2, opts) == [Num(5), Num(5)]
  {
    var target, source := [Num(5)], [Num(5), Num(5)];
    assert MergeUpTo(target, source, 0, opts) == target;
    assert MergeUpTo(target, source, 1, opts) == target;
  }

  /** deepmerge of two manifest objects, the browser fragment as target and the common one as source. */
  type ObjectMerge = (map<string, Json>, map<string, Json>) -> map<string, Json>

  /** `mergeManifest`: the fragments merged, then `version` set to the package version. */
  function MergeManifest(extra: map<string, Json>, common: map<string, Json>, deepMerge: ObjectMerge, version: string): (r: map<string, Json>)
    ensures "version" in r && r["version"] == Str(version)
    ensures forall k :: k != "version" ==> (k in r <==> k in deepMerge(extra, common))
    ensures forall k :: k != "version" && k in r ==> r[k] == deepMerge(extra, common)[k]
  {
    deepMerge(extra, common)["version" := Str(version)]
  }

  /**
   * The manifest case of `[Z]` and `[X, Y]`: for a list-valued key of both fragments that deepmerge hands to
   * `legacyArrayMerge` (the browser fragment's list as target), the merged manifest lists the browser's
   * entry first.
   */
  lemma ManifestBrowserEntriesFirst(extra: map<string, Json>, common: map<string, Json>, deepMerge: ObjectMerge,
                                    opts: MergeOptions, version: string, key: string, z: Json, x: Json, y: Json)
    requires key != "version"
    requires key in extra && extra[key] == Array([z]) && key in common && common[key] == Array([x, y])
    requires key in deepMerge(extra, common)
    requires deepMerge(extra, common)[key] == Array(MergeUpTo(extra[key].items, common[key].items, |common[key].items|, opts))
    requires !IsMergeable(x) && !IsMergeable(y) && x != z && y != z
    ensures MergeManifest(extra, common, deepMerge, version)[key] == Array([z, x, y])
    ensures MergeManifest(extra, common, deepMerge, version)["version"] == Str(version)
  {
    BrowserEntriesFirst(z, x, y, opts);
  }
}
