/**
 * The per-pixel feature vector of the multi-temporal classifier (lines
 * 667-701). Values are of an arbitrary type V; only their layout matters
 * here, because the classifier was trained on exactly this order.
 */
module Features {
  import opened Outcomes
  import opened Neighbours

  /** `z[..., 0::2] = a; z[..., 1::2] = b`: a and b interleaved entry by entry. */
  function Interleave2<V>(a: seq<V>, b: seq<V>): (z: seq<V>)
    requires |a| == |b|
    ensures |z| == 2 * |a|
  {
    if a == [] then [] else [a[0], b[0]] + Interleave2(a[1..], b[1..])
  }

  /** `z[..., 0::3] = a; z[..., 1::3] = b; z[..., 2::3] = c`. */
  function Interleave3<V>(a: seq<V>, b: seq<V>, c: seq<V>): (z: seq<V>)
    requires |a| == |b| == |c|
    ensures |z| == 3 * |a|
  {
    if a == [] then [] else [a[0], b[0], c[0]] + Interleave3(a[1..], b[1..], c[1..])
  }

  /** The strided views `z[0::2]` and `z[1::2]` of an even-length sequence. */
  function Deinterleave2<V>(z: seq<V>): (r: (seq<V>, seq<V>))
    requires |z| % 2 == 0
    ensures |r.0| == |r.1| == |z| / 2
  {
    if z == [] then ([], [])
    else
      var rest := Deinterleave2(z[2..]);
      ([z[0]] + rest.0, [z[1]] + rest.1)
  }

  /** The strided views `z[0::3]`, `z[1::3]` and `z[2::3]`. */
  function Deinterleave3<V>(z: seq<V>): (r: (seq<V>, seq<V>, seq<V>))
    requires |z| % 3 == 0
    ensures |r.0| == |r.1| == |r.2| == |z| / 3
  {
    if z == [] then ([], [], [])
    else
      var rest := Deinterleave3(z[3..]);
      ([z[0]] + rest.0, [z[1]] + rest.1, [z[2]] + rest.2)
  }

  /** Entry 2k + s of an interleaving is entry k of its s-th input. */
  lemma {:induction false} Interleave2At<V>(a: seq<V>, b: seq<V>, k: int)
    requires |a| == |b| && 0 <= k < |a|
    ensures Interleave2(a, b)[2 * k] == a[k] && Interleave2(a, b)[2 * k + 1] == b[k]
  {
    if k > 0 {
      Interleave2At(a[1..], b[1..], k - 1);
    }
  }

  /** Entry 3k + s of an interleaving is entry k of its s-th input. */
  lemma {:induction false} Interleave3At<V>(a: seq<V>, b: seq<V>, c: seq<V>, k: int)
    requires |a| == |b| == |c| && 0 <= k < |a|
    ensures Interleave3(a, b, c)[3 * k] == a[k]
    ensures Interleave3(a, b, c)[3 * k + 1] == b[k]
    ensures Interleave3(a, b, c)[3 * k + 2] == c[k]
  {
    if k > 0 {
      Interleave3At(a[1..], b[1..], c[1..], k - 1);
    }
  }

  /** The strided views of an interleaving give its inputs back. */
  lemma {:induction false} Deinterleave2Interleave2<V>(a: seq<V>, b: seq<V>)
    requires |a| == |b|
    ensures Deinterleave2(Interleave2(a, b)) == (a, b)
  {
    if a != [] {
      Deinterleave2Interleave2(a[1..], b[1..]);
      var z := Interleave2(a, b);
      assert z[0] == a[0] && z[1] == b[0] && z[2..] == Interleave2(a[1..], b[1..]);
      assert a == [a[0]] + a[1..] && b == [b[0]] + b[1..];
    }
  }

  /** Interleaving the strided views of an even-length sequence rebuilds it. */
  lemma {:induction false} Interleave2Deinterleave2<V>(z: seq<V>)
    requires |z| % 2 == 0
    ensures Interleave2(Deinterleave2(z).0, Deinterleave2(z).1) == z
  {
    if z != [] {
      Interleave2Deinterleave2(z[2..]);
      var r := Deinterleave2(z);
      assert r.0[1..] == Deinterleave2(z[2..]).0 && r.1[1..] == Deinterleave2(z[2..]).1;
      assert z == [z[0], z[1]] + z[2..];
    }
  }

  /** The strided views of an interleaving give its inputs back. */
  lemma {:induction false} Deinterleave3Interleave3<V>(a: seq<V>, b: seq<V>, c: seq<V>)
    requires |a| == |b| == |c|
    ensures Deinterleave3(Interleave3(a, b, c)) == (a, b, c)
  {
    if a != [] {
      Deinterleave3Interleave3(a[1..], b[1..], c[1..]);
      var z := Interleave3(a, b, c);
      assert z[0] == a[0] && z[1] == b[0] && z[2] == c[0] && z[3..] == Interleave3(a[1..], b[1..], c[1..]);
      assert a == [a[0]] + a[1..] && b == [b[0]] + b[1..] && c == [c[0]] + c[1..];
    }
  }

  /** Interleaving the strided views of a sequence whose length is a multiple of 3 rebuilds it. */
  lemma {:induction false} Interleave3Deinterleave3<V>(z: seq<V>)
    requires |z| % 3 == 0
    ensures Interleave3(Deinterleave3(z).0, Deinterleave3(z).1, Deinterleave3(z).2) == z
  {
    if z != [] {
      Interleave3Deinterleave3(z[3..]);
      var r := Deinterleave3(z);
      assert r.0[1..] == Deinterleave3(z[3..]).0 && r.1[1..] == Deinterleave3(z[3..]).1;
      assert r.2[1..] == Deinterleave3(z[3..]).2;
      assert z == [z[0], z[1], z[2]] + z[3..];
    }
  }

  /** The feature groups of one pixel, each with one entry per band. */
  datatype PixelFeatures<V> = PixelFeatures(
    bands: seq<V>,
    localMean: seq<V>,
    ssimMax: seq<V>, ssimMean: seq<V>, ssimStd: seq<V>,
    tempMin: seq<V>, tempMean: seq<V>,
    diffMax: seq<V>, diffMean: seq<V>)
  {
    predicate HasBands(nBands: nat)
    {
      && |bands| == nBands && |localMean| == nBands
      && |ssimMax| == nBands && |ssimMean| == nBands && |ssimStd| == nBands
      && |tempMin| == nBands && |tempMean| == nBands
      && |diffMax| == nBands && |diffMean| == nBands
    }
  }

  /**
   * The concatenation of line 692: band values, local mean, the SSIM
   * statistics interleaved per band, the temporal statistics interleaved and
   * the difference statistics interleaved.
   */
  function FeatureVector<V>(f: PixelFeatures<V>, nBands: nat): (z: seq<V>)
    requires f.HasBands(nBands)
    ensures |z| == 9 * nBands
  {
    f.bands + f.localMean
    + Interleave3(f.ssimMax, f.ssimMean, f.ssimStd)
    + Interleave2(f.tempMin, f.tempMean)
    + Interleave2(f.diffMax, f.diffMean)
  }

  /** Splits a vector of 9 * nBands values back into its feature groups. */
  function Unpack<V>(z: seq<V>, nBands: nat): (f: PixelFeatures<V>)
    requires |z| == 9 * nBands
    ensures f.HasBands(nBands)
  {
    var ssim := Deinterleave3(z[2 * nBands..5 * nBands]);
    var temp := Deinterleave2(z[5 * nBands..7 * nBands]);
    var diff := Deinterleave2(z[7 * nBands..]);
    PixelFeatures(z[..nBands], z[nBands..2 * nBands], ssim.0, ssim.1, ssim.2, temp.0, temp.1, diff.0, diff.1)
  }

  /** Where each feature of band b sits in the vector. */
  lemma FeatureLayout<V>(f: PixelFeatures<V>, nBands: nat, b: int)
    requires f.HasBands(nBands) && 0 <= b < nBands
    ensures var z := FeatureVector(f, nBands);
      && z[b] == f.bands[b]
      && z[nBands + b] == f.localMean[b]
      && z[2 * nBands + 3 * b] == f.ssimMax[b]
      && z[2 * nBands + 3 * b + 1] == f.ssimMean[b]
      && z[2 * nBands + 3 * b + 2] == f.ssimStd[b]
      && z[5 * nBands + 2 * b] == f.tempMin[b]
      && z[5 * nBands + 2 * b + 1] == f.tempMean[b]
      && z[7 * nBands + 2 * b] == f.diffMax[b]
      && z[7 * nBands + 2 * b + 1] == f.diffMean[b]
  {
    Interleave3At(f.ssimMax, f.ssimMean, f.ssimStd, b);
    Interleave2At(f.tempMin, f.tempMean, b);
    Interleave2At(f.diffMax, f.diffMean, b);
  }

  /** The layout loses nothing: unpacking a feature vector gives its groups back. */
  lemma UnpackFeatureVector<V>(f: PixelFeatures<V>, nBands: nat)
    requires f.HasBands(nBands)
    ensures Unpack(FeatureVector(f, nBands), nBands) == f
  {
    var z := FeatureVector(f, nBands);
    var s3 := Interleave3(f.ssimMax, f.ssimMean, f.ssimStd);
    var t2 := Interleave2(f.tempMin, f.tempMean);
    var d2 := Interleave2(f.diffMax, f.diffMean);
    assert z[..nBands] == f.bands;
    assert z[nBands..2 * nBands] == f.localMean;
    assert z[2 * nBands..5 * nBands] == s3;
    assert z[5 * nBands..7 * nBands] == t2;
    assert z[7 * nBands..] == d2;
    Deinterleave3Interleave3(f.ssimMax, f.ssimMean, f.ssimStd);
    Deinterleave2Interleave2(f.tempMin, f.tempMean);
    Deinterleave2Interleave2(f.diffMax, f.diffMean);
  }

  /** The sum of a run of values. */
  function Sum(w: seq<real>): real
  {
    if w == [] then 0.0 else w[0] + Sum(w[1..])
  }

  lemma {:induction false} SumAppend(a: seq<real>, b: seq<real>)
    ensures Sum(a + b) == Sum(a) + Sum(b)
  {
    if a == [] {
      assert a + b == b;
    } else {
      SumAppend(a[1..], b);
      assert (a + b)[1..] == a[1..] + b;
    }
  }

  /** Removing an entry removes exactly its value from the sum. */
  lemma SumDelete(w: seq<real>, i: int)
    requires 0 <= i < |w|
    ensures Sum(Delete(w, i)) == Sum(w) - w[i]
  {
    SumAppend(w[..i], w[i + 1..]);
    SumAppend(w[..i], [w[i]] + w[i + 1..]);
    SumAppend([w[i]], w[i + 1..]);
    assert w == w[..i] + ([w[i]] + w[i + 1..]);
  }

  /**
   * `diff_mean` at one pixel (line 685), from the target value, the temporal
   * mean over the window and the window length `tAll`. `1./t_rest` with
   * `t_rest == 0` raises ZeroDivisionError, so a one-frame window fails.
   */
  function DiffMean(target: real, tempMean: real, tAll: int): (r: Result<real>)
    ensures r.Err? <==> tAll == 1
    ensures r.Err? ==> r.error == ZeroDivisionError
  {
    var tRest := tAll - 1;
    if tRest == 0 then Err(ZeroDivisionError)
    else Ok(target * (1.0 + 1.0 / tRest as real) - tAll as real * tempMean / tRest as real)
  }

  /** The mean of a non-empty run of values. */
  function Mean(w: seq<real>): real
    requires w != []
  {
    Sum(w) / |w| as real
  }

  /**
   * Where every frame of a window of at least two frames is valid, the
   * shortcut of line 685 is the target minus the mean of the other frames.
   */
  lemma DiffMeanIsTargetMinusRest(w: seq<real>, rel: int)
    requires 2 <= |w| && 0 <= rel < |w|
    ensures DiffMean(w[rel], Mean(w), |w|) == Ok(w[rel] - Mean(Delete(w, rel)))
  {
    var n := |w|;
    SumDelete(w, rel);
    var x, all, others := w[rel], Mean(w), Mean(Delete(w, rel));
    assert all * n as real == Sum(w);
    assert others * (n - 1) as real == Sum(Delete(w, rel));
    DiffMeanOfMeans(x, all, others, n);
  }

  /**
   * The temporal mean of line 674 is taken over the valid frames only, while
   * `t_all` and `t_rest` count every frame of the window. With three frames
   * of which one is masked at the pixel, so that the mean is that of the
   * target x and the other valid frame y, the shortcut gives three quarters
   * of x - y rather than x - y.
   */
  lemma DiffMeanWithMaskedFrame(x: real, y: real)
    ensures DiffMean(x, (x + y) / 2.0, 3) == Ok(3.0 / 4.0 * (x - y))
    ensures x != y ==> DiffMean(x, (x + y) / 2.0, 3) != Ok(x - y)
  {
    assert DiffMean(x, (x + y) / 2.0, 3).value == x * (1.0 + 1.0 / 2.0) - 3.0 * ((x + y) / 2.0) / 2.0;
  }

  /** The shortcut for a window of n frames, from the window mean and the mean of the other frames. */
  lemma DiffMeanOfMeans(x: real, all: real, others: real, n: int)
    requires 2 <= n && all * n as real == others * (n - 1) as real + x
    ensures DiffMean(x, all, n) == Ok(x - others)
  {
    var nr, mr := n as real, (n - 1) as real;
    var shortcut := x * (1.0 + 1.0 / mr) - nr * all / mr;
    assert DiffMean(x, all, n).value == shortcut;
    assert nr * all == others * mr + x;
    assert nr * all / mr == others + x / mr;
    assert x * (1.0 + 1.0 / mr) == x + x / mr;
  }
}
