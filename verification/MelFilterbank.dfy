/**
The triangular mel filterbank, over exact reals.

Each filter rises from its left point to its centre and falls to its right point; neighbours share
points, so their flanks complement each other.  The column sums are computed in closed form: the
filterbank as a whole is a trapezoid, exactly 1 over all the centres.
*/
module MelFilterbank {
  import opened Common

  // ---------------------------------------------------------------- one filter

  function FilterValue(left: real, center: real, right: real, k: real): real {
    if k > left && k <= center && center > left then (k - left) / (center - left)
    else if k > center && k < right && right > center then (right - k) / (right - center)
    else 0.0
  }

  /** Filter `m` over the given bin points, at bin `k`. */
  function Filter(points: seq<real>, m: nat, k: real): real
    requires m + 2 < |points|
  {
    FilterValue(points[m], points[m + 1], points[m + 2], k)
  }

  predicate Increasing(points: seq<real>) { forall i, j :: 0 <= i < j < |points| ==> points[i] < points[j] }

  /** How far `k` is from the left end of interval j, as a fraction of it. */
  function Rising(points: seq<real>, j: nat, k: real): real
    requires j + 1 < |points| && Increasing(points)
  {
    (k - points[j]) / (points[j + 1] - points[j])
  }

  function Falling(points: seq<real>, j: nat, k: real): real
    requires j + 1 < |points| && Increasing(points)
  {
    (points[j + 1] - k) / (points[j + 1] - points[j])
  }

  lemma NoZeroProduct(x: real, w: real)
    requires w > 0.0 && x * w == 0.0
    ensures x == 0.0
  {
  }

  lemma SumToOne(p: real, q: real, x: real, y: real, w: real)
    requires p * w == x && q * w == y && x + y == w && w > 0.0
    ensures p + q == 1.0
  {
    var excess := p + q - 1.0;
    assert excess * w == p * w + q * w - w;
    NoZeroProduct(excess, w);
  }

  lemma SharesAddToOne(x: real, y: real, w: real)
    requires x + y == w && w > 0.0
    ensures x / w + y / w == 1.0
  {
    TimesBack(x, w);
    TimesBack(y, w);
    SumToOne(x / w, y / w, x, y, w);
  }

  lemma Fraction(x: real, w: real)
    requires 0.0 < x <= w
    ensures 0.0 < x / w <= 1.0
  {
  }

  lemma FlanksComplement(points: seq<real>, j: nat, k: real)
    requires j + 1 < |points| && Increasing(points)
    ensures Rising(points, j, k) + Falling(points, j, k) == 1.0
    ensures points[j] < k <= points[j + 1] ==> 0.0 < Rising(points, j, k) <= 1.0
    ensures points[j] <= k < points[j + 1] ==> 0.0 < Falling(points, j, k) <= 1.0
    ensures k == points[j + 1] ==> Falling(points, j, k) == 0.0
  {
    var width, up, down := points[j + 1] - points[j], k - points[j], points[j + 1] - k;
    SharesAddToOne(up, down, width);
    if 0.0 < up <= width {
      Fraction(up, width);
    }
    if 0.0 < down <= width {
      Fraction(down, width);
    }
  }

  // ---------------------------------------------------------------- column sums

  /** The sum of the first `n` filters at bin `k`. */
  function ColumnSum(points: seq<real>, n: nat, k: real): real
    requires n + 2 <= |points|
  {
    if n == 0 then 0.0 else ColumnSum(points, n - 1, k) + Filter(points, n - 1, k)
  }

  lemma OneFilterInInterval(points: seq<real>, m: nat, k: real, j: nat)
    requires m + 2 < |points| && Increasing(points) && j + 1 < |points|
    requires points[j] < k <= points[j + 1]
    ensures Filter(points, m, k) ==
            if m == j then Rising(points, j, k) else if m + 1 == j then Falling(points, j, k) else 0.0
  {
    if m + 1 == j {
      FlanksComplement(points, j, k);
    } else if m > j {
      assert points[j + 1] <= points[m];
    } else if m + 1 < j {
      assert points[m + 2] <= points[j];
    }
  }

  /** With `k` in interval j, only filter j (rising) and filter j-1 (falling) contribute. */
  lemma {:induction false} ColumnInInterval(points: seq<real>, n: nat, k: real, j: nat)
    requires n + 2 <= |points| && Increasing(points) && j + 1 < |points|
    requires points[j] < k <= points[j + 1]
    ensures ColumnSum(points, n, k) ==
            (if 1 <= j <= n then Falling(points, j, k) else 0.0) + (if j < n then Rising(points, j, k) else 0.0)
  {
    if n > 0 {
      ColumnInInterval(points, n - 1, k, j);
      OneFilterInInterval(points, n - 1, k, j);
    }
  }

  /** Outside all intervals nothing contributes. */
  lemma {:induction false} ColumnOutside(points: seq<real>, n: nat, k: real)
    requires n + 2 <= |points| && Increasing(points) && (k <= points[0] || k > points[|points| - 1])
    ensures ColumnSum(points, n, k) == 0.0
  {
    if n > 0 {
      ColumnOutside(points, n - 1, k);
      assert points[0] <= points[n - 1] && points[n + 1] <= points[|points| - 1];
    }
  }

  lemma {:induction false} Locate(points: seq<real>, n: nat, k: real) returns (j: nat)
    requires n < |points| && points[0] < k <= points[n]
    ensures j < n && points[j] < k <= points[j + 1]
  {
    if k > points[n - 1] {
      j := n - 1;
    } else {
      j := Locate(points, n - 1, k);
    }
  }

  /** The shape of the whole filterbank of `n` filters. */
  function Trapezoid(points: seq<real>, n: nat, k: real): real
    requires n >= 1 && |points| == n + 2 && Increasing(points)
  {
    if k <= points[0] || k >= points[n + 1] then 0.0
    else if k < points[1] then Rising(points, 0, k)
    else if k <= points[n] then 1.0
    else Falling(points, n, k)
  }

  /** MAIN: the filters sum to a trapezoid: exactly 1 from the first centre to the last, ramps at the two ends, 0 beyond. */
  lemma ColumnsAreATrapezoid(points: seq<real>, n: nat, k: real)
    requires n >= 1 && |points| == n + 2 && Increasing(points)
    ensures ColumnSum(points, n, k) == Trapezoid(points, n, k)
    ensures points[1] <= k <= points[n] ==> ColumnSum(points, n, k) == 1.0
    ensures 0.0 <= ColumnSum(points, n, k) <= 1.0
  {
    if k <= points[0] || k > points[n + 1] {
      ColumnOutside(points, n, k);
    } else {
      var j := Locate(points, n + 1, k);
      ColumnInInterval(points, n, k, j);
      FlanksComplement(points, j, k);
      assert j >= 1 ==> points[1] <= points[j];
      assert j < n ==> points[j + 1] <= points[n];
    }
  }

  // ---------------------------------------------------------------- the matrix

  /** `log10` and `10^x` are taken from outside; all that matters is that they increase. */
  datatype Logs = Logs(log10: real -> real, pow10: real -> real)

  ghost predicate LogsIncrease(l: Logs) {
    && (forall x, y {:trigger l.log10(x), l.log10(y)} :: 0.0 < x < y ==> l.log10(x) < l.log10(y))
    && (forall x, y {:trigger l.pow10(x), l.pow10(y)} :: x < y ==> l.pow10(x) < l.pow10(y))
  }

  function HzToMel(l: Logs, hz: real): real { 2595.0 * l.log10(1.0 + hz / 700.0) }

  function MelToHz(l: Logs, mel: real): real { 700.0 * (l.pow10(mel / 2595.0) - 1.0) }

  function MelPoint(l: Logs, fmin: real, fmax: real, i: nat, count: nat): real
    requires count >= 2
  {
    var low, high := HzToMel(l, fmin), HzToMel(l, fmax);
    low + (high - low) * (i as real) / (count as real - 1.0)
  }

  function BinPoints(l: Logs, nMels: nat, nFft: nat, sr: nat, fmin: real, fmax: real): (points: seq<real>)
    requires sr > 0
    ensures |points| == nMels + 2
  {
    seq(nMels + 2, i requires 0 <= i => MelToHz(l, MelPoint(l, fmin, fmax, i, nMels + 2)) * (nFft as real) / (sr as real))
  }

  lemma Divided(x: real, y: real, b: real)
    requires x < y && b > 0.0
    ensures x / b < y / b
  {
    assert (y - x) / b > 0.0;
    assert y / b - x / b == (y - x) / b;
  }

  lemma ScaleKeepsOrder(x: real, y: real, a: real, b: real)
    requires x < y && a > 0.0 && b > 0.0
    ensures x * a / b < y * a / b
  {
    assert x * a < y * a;
    Divided(x * a, y * a, b);
  }

  lemma MelScaleIncreases(l: Logs, f: real, g: real)
    requires LogsIncrease(l) && -700.0 < f < g
    ensures HzToMel(l, f) < HzToMel(l, g)
  {
    Divided(f, g, 700.0);
    Divided(-700.0, f, 700.0);
    assert l.log10(1.0 + f / 700.0) < l.log10(1.0 + g / 700.0);
  }

  lemma HzScaleIncreases(l: Logs, x: real, y: real)
    requires LogsIncrease(l) && x < y
    ensures MelToHz(l, x) < MelToHz(l, y)
  {
    Divided(x, y, 2595.0);
    assert l.pow10(x / 2595.0) < l.pow10(y / 2595.0);
  }

  lemma Scaled(x: real, y: real, d: real)
    requires x < y && d > 0.0
    ensures d * x < d * y
  {
    assert d * (y - x) > 0.0;
  }

  lemma Spaced(low: real, d: real, i: nat, j: nat, n: real)
    requires d > 0.0 && i < j && n > 0.0
    ensures low + d * (i as real) / n < low + d * (j as real) / n
  {
    Scaled(i as real, j as real, d);
    Divided(d * (i as real), d * (j as real), n);
  }

  lemma MelPointsIncrease(l: Logs, fmin: real, fmax: real, i: nat, j: nat, count: nat)
    requires LogsIncrease(l) && -700.0 < fmin < fmax && i < j && count >= 2
    ensures MelPoint(l, fmin, fmax, i, count) < MelPoint(l, fmin, fmax, j, count)
  {
    MelScaleIncreases(l, fmin, fmax);
    Spaced(HzToMel(l, fmin), HzToMel(l, fmax) - HzToMel(l, fmin), i, j, count as real - 1.0);
  }

  /** Equally spaced mel points come back as strictly increasing bin points. */
  lemma BinPointsIncrease(l: Logs, nMels: nat, nFft: nat, sr: nat, fmin: real, fmax: real)
    requires LogsIncrease(l) && sr > 0 && nFft > 0 && -700.0 < fmin < fmax
    ensures Increasing(BinPoints(l, nMels, nFft, sr, fmin, fmax))
  {
    forall i, j | 0 <= i < j < nMels + 2
      ensures BinPoints(l, nMels, nFft, sr, fmin, fmax)[i] < BinPoints(l, nMels, nFft, sr, fmin, fmax)[j]
    {
      var x, y := MelPoint(l, fmin, fmax, i, nMels + 2), MelPoint(l, fmin, fmax, j, nMels + 2);
      MelPointsIncrease(l, fmin, fmax, i, j, nMels + 2);
      HzScaleIncreases(l, x, y);
      ScaleKeepsOrder(MelToHz(l, x), MelToHz(l, y), nFft as real, sr as real);
    }
  }

  /** Rows below `m` are filled, row `m` up to column `k`; the rest is zero. */
  ghost predicate FilledUpTo(filters: array2<real>, points: seq<real>, m: nat, k: nat)
    requires |points| == filters.Length0 + 2
    reads filters
  {
    forall i, j :: 0 <= i < filters.Length0 && 0 <= j < filters.Length1 ==>
      filters[i, j] == if i < m || (i == m && j < k) then Filter(points, i, j as real) else 0.0
  }

  /** The two loops of `mel_filterbank`, over any points. */
  method FillTriangles(filters: array2<real>, points: seq<real>)
    requires |points| == filters.Length0 + 2 && FilledUpTo(filters, points, 0, 0)
    modifies filters
    ensures FilledUpTo(filters, points, filters.Length0, 0)
  {
    for m := 0 to filters.Length0
      invariant FilledUpTo(filters, points, m, 0)
    {
      var left, center, right := points[m], points[m + 1], points[m + 2];
      for k := 0 to filters.Length1
        invariant FilledUpTo(filters, points, m, k)
      {
        var kf := k as real;
        if kf > left && kf <= center && center > left {
          filters[m, k] := (kf - left) / (center - left);
        } else if kf > center && kf < right && right > center {
          filters[m, k] := (right - kf) / (right - center);
        }
      }
    }
  }

  /** `mel_filterbank`: one row per filter, one column per frequency bin. */
  method Filterbank(l: Logs, nMels: nat, nFft: nat, sr: nat, fmin: real, fmax: real) returns (filters: array2<real>)
    requires sr > 0
    ensures filters.Length0 == nMels && (nMels > 0 ==> filters.Length1 == nFft / 2 + 1)
    ensures fmin >= fmax ==> forall m, k :: 0 <= m < nMels && 0 <= k < filters.Length1 ==> filters[m, k] == 0.0
    ensures fmin < fmax ==> forall m, k :: 0 <= m < nMels && 0 <= k < filters.Length1 ==>
      filters[m, k] == Filter(BinPoints(l, nMels, nFft, sr, fmin, fmax), m, k as real)
  {
    var nFreqs := nFft / 2 + 1;
    if nMels == 0 {
      filters := new real[0, 0];
      return;
    }
    filters := new real[nMels, nFreqs]((_, _) => 0.0);
    if fmin >= fmax {
      return;
    }
    FillTriangles(filters, BinPoints(l, nMels, nFft, sr, fmin, fmax));
  }

  /** The two functions undo each other. */
  ghost predicate LogsInvert(l: Logs) { forall x :: x > 0.0 ==> l.pow10(l.log10(x)) == x }

  lemma FractionOfWhole(low: real, d: real, n: real)
    requires n > 0.0
    ensures low + d * 0.0 / n == low && low + d * n / n == low + d
  {
    TimesBack(d * n, n);
    var excess := d * n / n - d;
    assert excess * n == 0.0;
    NoZeroProduct(excess, n);
  }

  lemma MelScaleInverts(l: Logs, f: real)
    requires LogsInvert(l) && f > -700.0
    ensures MelToHz(l, HzToMel(l, f)) == f
  {
    Divided(-700.0, f, 700.0);
    assert 2595.0 * l.log10(1.0 + f / 700.0) / 2595.0 == l.log10(1.0 + f / 700.0);
  }

  lemma EndMelPoints(l: Logs, fmin: real, fmax: real, last: nat)
    requires last >= 1
    ensures MelPoint(l, fmin, fmax, 0, last + 1) == HzToMel(l, fmin)
    ensures MelPoint(l, fmin, fmax, last, last + 1) == HzToMel(l, fmax)
  {
    var low, n := HzToMel(l, fmin), last as real;
    var d := HzToMel(l, fmax) - low;
    FractionOfWhole(low, d, n);
    assert (last + 1) as real - 1.0 == n;
    assert MelPoint(l, fmin, fmax, last, last + 1) == low + d * n / n;
  }

  /** The outer edges are the two frequencies themselves, in bins. */
  lemma OuterEdges(l: Logs, nMels: nat, nFft: nat, sr: nat, fmin: real, fmax: real)
    requires LogsInvert(l) && sr > 0 && -700.0 < fmin < fmax
    ensures
      var points := BinPoints(l, nMels, nFft, sr, fmin, fmax);
      points[0] == fmin * nFft as real / sr as real && points[nMels + 1] == fmax * nFft as real / sr as real
  {
    EndMelPoints(l, fmin, fmax, nMels + 1);
    MelScaleInverts(l, fmin);
    MelScaleInverts(l, fmax);
  }

  /** The two functions undo each other the other way round. */
  ghost predicate PowersInvert(l: Logs) { forall x :: l.log10(l.pow10(x)) == x }

  lemma HzScaleInverts(l: Logs, mel: real, hz: real)
    requires PowersInvert(l) && hz == MelToHz(l, mel)
    ensures HzToMel(l, hz) == mel
  {
    var power := l.pow10(mel / 2595.0);
    assert 1.0 + hz / 700.0 == power;
    assert 2595.0 * (mel / 2595.0) == mel;
  }

  lemma Cancels(x: real, w: real)
    requires w != 0.0
    ensures x * w / w == x
  {
    TimesBack(x * w, w);
    var excess := x * w / w - x;
    assert excess * w == 0.0;
    assert excess == 0.0;
  }

  lemma BackFromBins(hz: real, nFft: real, sr: real)
    requires nFft > 0.0 && sr > 0.0
    ensures hz * nFft / sr * sr / nFft == hz
  {
    var a := hz * nFft;
    TimesBack(a, sr);
    Cancels(hz, nFft);
    assert a / sr * sr / nFft == a / nFft;
  }

  /** The frequency of bin point `i` of `count`. */
  function HzOfPoint(l: Logs, count: nat, nFft: nat, sr: nat, fmin: real, fmax: real, i: nat): real
    requires sr > 0 && nFft > 0 && i < count && count >= 2
  {
    BinPoints(l, count - 2, nFft, sr, fmin, fmax)[i] * sr as real / nFft as real
  }

  lemma HzOfPointIs(l: Logs, count: nat, nFft: nat, sr: nat, fmin: real, fmax: real, i: nat)
    requires sr > 0 && nFft > 0 && i < count && count >= 2
    ensures HzOfPoint(l, count, nFft, sr, fmin, fmax, i) == MelToHz(l, MelPoint(l, fmin, fmax, i, count))
  {
    BackFromBins(MelToHz(l, MelPoint(l, fmin, fmax, i, count)), nFft as real, sr as real);
  }

  lemma OneStep(d: real, k: real, n: real, x: real, y: real)
    requires n != 0.0 && x == d * k / n && y == d * (k + 1.0) / n
    ensures (y - x) * n == d
  {
    TimesBack(d * k, n);
    TimesBack(d * (k + 1.0), n);
    assert (y - x) * n == y * n - x * n;
    assert d * (k + 1.0) == d * k + d;
  }

  lemma MelPointsAreEquallySpaced(l: Logs, fmin: real, fmax: real, i: nat, count: nat)
    requires count >= 2
    ensures (MelPoint(l, fmin, fmax, i + 1, count) - MelPoint(l, fmin, fmax, i, count)) * (count as real - 1.0)
            == HzToMel(l, fmax) - HzToMel(l, fmin)
  {
    var low, d, n := HzToMel(l, fmin), HzToMel(l, fmax) - HzToMel(l, fmin), count as real - 1.0;
    var x, y := d * (i as real) / n, d * ((i + 1) as real) / n;
    assert (i + 1) as real == i as real + 1.0;
    OneStep(d, i as real, n, x, y);
    assert MelPoint(l, fmin, fmax, i, count) == low + x && MelPoint(l, fmin, fmax, i + 1, count) == low + y;
  }

  /** MAIN: the bin points, as frequencies, are equally spaced on the mel scale: `count` - 1 steps from the one frequency to the other. */
  lemma PointsAreEquallySpaced(l: Logs, count: nat, nFft: nat, sr: nat, fmin: real, fmax: real, i: nat, at: real, next: real)
    requires PowersInvert(l) && sr > 0 && nFft > 0 && i + 1 < count && count >= 2
    requires at == HzToMel(l, HzOfPoint(l, count, nFft, sr, fmin, fmax, i))
    requires next == HzToMel(l, HzOfPoint(l, count, nFft, sr, fmin, fmax, i + 1))
    ensures (next - at) * (count as real - 1.0) == HzToMel(l, fmax) - HzToMel(l, fmin)
    ensures i == 0 ==> at == HzToMel(l, fmin)
  {
    HzOfPointIs(l, count, nFft, sr, fmin, fmax, i);
    HzOfPointIs(l, count, nFft, sr, fmin, fmax, i + 1);
    HzScaleInverts(l, MelPoint(l, fmin, fmax, i, count), HzOfPoint(l, count, nFft, sr, fmin, fmax, i));
    HzScaleInverts(l, MelPoint(l, fmin, fmax, i + 1, count), HzOfPoint(l, count, nFft, sr, fmin, fmax, i + 1));
    MelPointsAreEquallySpaced(l, fmin, fmax, i, count);
    EndMelPoints(l, fmin, fmax, count - 1);
  }

  /** The scale itself: 0 at 0 Hz, and 2595 for every factor of ten of 1 + f / 700. */
  lemma MelScaleAnchors(l: Logs, f: real, tens: real)
    requires f > -700.0 && l.log10(1.0 + f / 700.0) == tens
    ensures HzToMel(l, f) == 2595.0 * tens
    ensures l.log10(1.0) == 0.0 ==> HzToMel(l, 0.0) == 0.0
    ensures l.log10(10.0) == 1.0 ==> HzToMel(l, 6300.0) == 2595.0
  {
  }

  /** The weight that the first `n` rows of a matrix give to column `k`. */
  function MatrixSum(filters: array2<real>, n: nat, k: nat): real
    requires n <= filters.Length0 && k < filters.Length1
    reads filters
  {
    if n == 0 then 0.0 else MatrixSum(filters, n - 1, k) + filters[n - 1, k]
  }

  lemma {:induction false} MatrixSumIsColumnSum(filters: array2<real>, points: seq<real>, n: nat, k: nat)
    requires n <= filters.Length0 && k < filters.Length1 && n + 2 <= |points|
    requires forall m :: 0 <= m < n ==> filters[m, k] == Filter(points, m, k as real)
    ensures MatrixSum(filters, n, k) == ColumnSum(points, n, k as real)
  {
    if n > 0 {
      MatrixSumIsColumnSum(filters, points, n - 1, k);
    }
  }

  /** A ramp is below 1 before its upper end. */
  lemma RampsAreStrict(points: seq<real>, j: nat, k: real)
    requires j + 1 < |points| && Increasing(points)
    ensures k < points[j + 1] ==> Rising(points, j, k) < 1.0
    ensures k > points[j] ==> Falling(points, j, k) < 1.0
  {
    FlanksComplement(points, j, k);
    if k < points[j + 1] {
      Divided(0.0, points[j + 1] - k, points[j + 1] - points[j]);
    }
    if k > points[j] {
      Divided(0.0, k - points[j], points[j + 1] - points[j]);
    }
  }

  lemma WeightedBetweenEdges(points: seq<real>, n: nat, k: real)
    requires n >= 1 && |points| == n + 2 && Increasing(points)
    ensures
      var sum := ColumnSum(points, n, k);
      && 0.0 <= sum <= 1.0 && (sum == 1.0 <==> points[1] <= k <= points[n])
      && (sum > 0.0 <==> points[0] < k < points[n + 1])
  {
    RampsAreStrict(points, 0, k);
    RampsAreStrict(points, n, k);
    assert points[0] < points[1] && points[n] < points[n + 1];
    assert n > 1 ==> points[1] < points[n];
    ColumnsAreATrapezoid(points, n, k);
    FlanksComplement(points, 0, k);
    FlanksComplement(points, n, k);
  }

  /**
  MAIN, on the matrix itself: the bins with total weight 1 are exactly those from the first centre to the
  last, and those with any weight exactly those strictly between the outer edges, which are the two
  frequencies when the logarithm and the power undo each other.
  */
  lemma FilterbankIsPartitionOfUnity(l: Logs, nMels: nat, nFft: nat, sr: nat, fmin: real, fmax: real, filters: array2<real>, k: nat)
    requires LogsIncrease(l) && nMels >= 1 && nFft > 0 && sr > 0 && -700.0 < fmin < fmax
    requires filters.Length0 == nMels && k < filters.Length1
    requires forall m :: 0 <= m < nMels ==> filters[m, k] == Filter(BinPoints(l, nMels, nFft, sr, fmin, fmax), m, k as real)
    ensures
      var points := BinPoints(l, nMels, nFft, sr, fmin, fmax);
      var sum := MatrixSum(filters, nMels, k);
      && 0.0 <= sum <= 1.0
      && (sum == 1.0 <==> points[1] <= k as real <= points[nMels])
      && (sum > 0.0 <==> points[0] < k as real < points[nMels + 1])
      && (LogsInvert(l) ==>
            (sum > 0.0 <==> fmin * nFft as real / sr as real < k as real < fmax * nFft as real / sr as real))
  {
    var points := BinPoints(l, nMels, nFft, sr, fmin, fmax);
    MatrixSumIsColumnSum(filters, points, nMels, k);
    BinPointsIncrease(l, nMels, nFft, sr, fmin, fmax);
    if LogsInvert(l) {
      OuterEdges(l, nMels, nFft, sr, fmin, fmax);
    }
    WeightedBetweenEdges(points, nMels, k as real);
  }

  // ---------------------------------------------------------------- the tail of `log_mel_spectrogram`

  const FLOOR := 0.0000000001

  function Floored(l: Logs, v: real): real { l.log10(MaxReal(v, FLOOR)) }

  /** What the three in-place passes make of one value, the largest logarithm being `top`. */
  function Normalized(l: Logs, top: real, v: real): real {
    (MaxReal(Floored(l, v), top - 8.0) - top) / 4.0 + 1.0
  }

  /** `top` is the largest floored logarithm of the values. */
  ghost predicate IsTop(l: Logs, vals: seq<real>, top: real) {
    && (forall i :: 0 <= i < |vals| ==> Floored(l, vals[i]) <= top)
    && (exists i :: 0 <= i < |vals| && Floored(l, vals[i]) == top)
  }

  method NormalizeLogMel(l: Logs, mel: array<real>) returns (logMax: real)
    modifies mel
    ensures mel.Length > 0 ==> IsTop(l, old(mel[..]), logMax)
    ensures forall i :: 0 <= i < mel.Length ==> mel[i] == Normalized(l, logMax, old(mel[..])[i])
  {
    ghost var before := mel[..];
    for i := 0 to mel.Length
      invariant forall j :: 0 <= j < i ==> mel[j] == Floored(l, before[j])
      invariant forall j :: i <= j < mel.Length ==> mel[j] == before[j]
    {
      mel[i] := Floored(l, mel[i]);
    }
    logMax := if mel.Length > 0 then mel[0] else 0.0;
    ghost var at := 0;
    for i := 0 to mel.Length
      invariant forall j :: 0 <= j < i ==> mel[j] <= logMax
      invariant mel.Length > 0 ==> at < mel.Length && mel[at] == logMax
    {
      if mel[i] > logMax {
        at := i;
      }
      logMax := MaxReal(logMax, mel[i]);
    }
    assert mel.Length > 0 ==> IsTop(l, before, logMax);
    var clampMin := logMax - 8.0;
    for i := 0 to mel.Length
      invariant forall j :: 0 <= j < i ==> mel[j] == MaxReal(Floored(l, before[j]), clampMin)
      invariant forall j :: i <= j < mel.Length ==> mel[j] == Floored(l, before[j])
    {
      mel[i] := MaxReal(mel[i], clampMin);
    }
    for i := 0 to mel.Length
      invariant forall j :: 0 <= j < i ==> mel[j] == Normalized(l, logMax, before[j])
      invariant forall j :: i <= j < mel.Length ==> mel[j] == MaxReal(Floored(l, before[j]), clampMin)
    {
      mel[i] := (mel[i] - logMax) / 4.0 + 1.0;
    }
  }

  /** Every output lies in [-1, 1], 1 marks exactly the loudest cells, -1 exactly those 8 decades or more below, order is kept. */
  lemma NormalizedRange(l: Logs, vals: seq<real>, top: real, i: nat, j: nat)
    requires LogsIncrease(l) && IsTop(l, vals, top) && i < |vals| && j < |vals|
    ensures -1.0 <= Normalized(l, top, vals[i]) <= 1.0
    ensures Normalized(l, top, vals[i]) == 1.0 <==> Floored(l, vals[i]) == top
    ensures Normalized(l, top, vals[i]) == -1.0 <==> Floored(l, vals[i]) <= top - 8.0
    ensures vals[i] <= vals[j] ==> Normalized(l, top, vals[i]) <= Normalized(l, top, vals[j])
    ensures exists m :: 0 <= m < |vals| && Normalized(l, top, vals[m]) == 1.0
  {
    var x, y := MaxReal(vals[i], FLOOR), MaxReal(vals[j], FLOOR);
    assert x < y ==> l.log10(x) < l.log10(y);
    var m :| 0 <= m < |vals| && Floored(l, vals[m]) == top;
    assert Normalized(l, top, vals[m]) == 1.0;
  }

  /** Within 8 of the loudest, a difference of logarithms becomes a quarter of it. */
  lemma NormalizedIsAffine(l: Logs, top: real, v: real, w: real)
    requires Floored(l, v) >= top - 8.0 && Floored(l, w) >= top - 8.0
    ensures Normalized(l, top, v) - Normalized(l, top, w) == (Floored(l, v) - Floored(l, w)) / 4.0
    ensures v >= 0.0000000001 ==> Floored(l, v) == l.log10(v)
    ensures v <= 0.0000000001 ==> Floored(l, v) == l.log10(0.0000000001)
  {
  }
}
