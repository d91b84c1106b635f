/** Counting events that keep a minimum distance. */
module Spacing {

  predicate Spaced(xs: seq<int>, gap: nat) {
    forall i | 0 < i < |xs| :: xs[i] - xs[i - 1] >= gap
  }

  lemma {:induction false} SpacedSpan(xs: seq<int>, gap: nat, i: nat, j: nat)
    requires Spaced(xs, gap) && i <= j < |xs|
    ensures xs[j] - xs[i] >= (j - i) * gap
    decreases j - i
  {
    if i < j {
      SpacedSpan(xs, gap, i, j - 1);
      assert xs[j] - xs[j - 1] >= gap;
      assert (j - i) * gap == (j - 1 - i) * gap + gap;
    }
  }

  /** Of events at least gap apart, a window of the given width holds at most width / gap + 1. */
  lemma SpacedInWindow(xs: seq<int>, gap: nat, from: int, width: nat, i: nat, j: nat)
    requires Spaced(xs, gap) && gap > 0 && i <= j < |xs|
    requires from <= xs[i] && xs[j] <= from + width
    ensures j - i + 1 <= width / gap + 1
  {
    SpacedSpan(xs, gap, i, j);
    QuotientBounds(j - i, gap, width);
  }

  lemma QuotientBounds(k: nat, gap: nat, width: nat)
    requires gap > 0
    ensures k > width / gap ==> k * gap > width
  {
    var q := width / gap;
    assert width < q * gap + gap;
    if k > q {
      assert k * gap == q * gap + gap + (k - q - 1) * gap;
    }
  }

  lemma SpacedSnoc(xs: seq<int>, gap: nat, x: int)
    requires Spaced(xs, gap) && (xs != [] ==> x - xs[|xs| - 1] >= gap)
    ensures Spaced(xs + [x], gap)
  {}
}
