/** The one-line text fitter (components/FitSingleLineText.tsx): the largest
    font size in a range at which the text still fits its container, found by
    binary search. Measuring the text at a size is the predicate `fits`. */
module FontFit {

  /** Measuring at a larger size never makes the text narrower: if it fits at
      some size in the range, it fits at every smaller size in the range. */
  ghost predicate Monotone(fits: int -> bool, minSize: int, maxSize: int) {
    forall a, b :: minSize <= a <= b <= maxSize && fits(b) ==> fits(a)
  }

  /** The `fit` loop. `best` starts at `minSize`, and each probe that fits
      raises it; `probes` records the sizes tried. */
  method SearchFontSize(minSize: int, maxSize: int, fits: int -> bool) returns (best: int, ghost probes: seq<int>)
    ensures best == minSize || (minSize <= best <= maxSize && fits(best))
    ensures minSize <= maxSize ==> minSize <= best <= maxSize
    ensures minSize > maxSize ==> best == minSize && probes == []
    ensures forall k :: 0 <= k < |probes| ==> minSize <= probes[k] <= maxSize
    ensures Monotone(fits, minSize, maxSize) ==>
      forall s :: minSize <= s <= maxSize && fits(s) ==> s <= best && fits(best)
  {
    var low, high := minSize, maxSize;
    best := minSize;
    probes := [];
    while low <= high
      invariant minSize <= low && high <= maxSize
      invariant low <= maxSize + 1 || low == minSize
      invariant best == minSize || (minSize <= best <= maxSize && fits(best))
      invariant low > minSize ==> best == low - 1 && fits(best)
      invariant forall k :: 0 <= k < |probes| ==> minSize <= probes[k] <= maxSize
      invariant minSize > maxSize ==> probes == []
      invariant Monotone(fits, minSize, maxSize) ==> forall s :: high < s <= maxSize ==> !fits(s)
      decreases high - low
    {
      var mid := (low + high) / 2;
      probes := probes + [mid];
      if fits(mid) {
        best := mid;
        low := mid + 1;
      } else {
        high := mid - 1;
      }
    }
  }

  class FitSingleLineText {
    const minSizePx: int
    const maxSizePx: int
    var fontSize: int

    /** The text starts at the largest size (10 and 48 px unless given). */
    constructor(minSize: int, maxSize: int)
      ensures minSizePx == minSize && maxSizePx == maxSize && fontSize == maxSize
    {
      minSizePx := minSize;
      maxSizePx := maxSize;
      fontSize := maxSize;
    }

    /** `fit`: nothing happens while the container has no width; otherwise the
        font size becomes the result of the search. */
    method Fit(width: int, fits: int -> bool)
      modifies this`fontSize
      ensures width <= 0 ==> fontSize == old(fontSize)
      ensures width > 0 ==>
        && (fontSize == minSizePx || (minSizePx <= fontSize <= maxSizePx && fits(fontSize)))
        && (Monotone(fits, minSizePx, maxSizePx) ==>
              forall s :: minSizePx <= s <= maxSizePx && fits(s) ==> s <= fontSize)
    {
      if width <= 0 {
        return;
      }
      var best, _ := SearchFontSize(minSizePx, maxSizePx, fits);
      fontSize := best;
    }
  }
}
