/** `browserPngSizes` of scripts/build.js: the icon sizes, in pixels, rasterised for each browser. */
module Icons {
  import opened Browsers

  /** The sizes are listed in a browser's table without repetition. */
  predicate Distinct(sizes: seq<nat>)
  {
    forall i, j :: 0 <= i < j < |sizes| ==> sizes[i] != sizes[j]
  }

  /** The PNG sizes copied into a browser's build, in table order. */
  function PngSizes(b: Browser): (r: seq<nat>)
    ensures 48 in r
    ensures Distinct(r)
    ensures forall s :: s in r ==> 16 <= s <= 150
    ensures b == Edge <==> 150 in r
    ensures 128 in r <==> b == Chrome || b == Opera
  {
    match b
    case Firefox => [18, 32, 36, 48, 64, 96]
    case Chrome => [16, 19, 32, 38, 48, 128]
    case Opera => [16, 19, 38, 48, 128]
    case Edge => [20, 40, 24, 48, 44, 50, 150]
  }
}
