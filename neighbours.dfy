/**
 * The neighbour side of the SSIM features (`_ssim_stats`): the target frame is
 * removed from the window, each remaining frame is compared with the target
 * band by band, and the comparisons are reduced over the neighbours that are
 * valid together with the target. A single-band image, the SSIM formula and
 * the masked max/mean/std reductions are parameters.
 */
module Neighbours {
  import opened Outcomes

  /** `np.delete(s, i, axis=0)`: the sequence without its entry i. */
  function Delete<T>(s: seq<T>, i: int): (r: seq<T>)
    requires 0 <= i < |s|
    ensures |r| == |s| - 1
    ensures forall j :: 0 <= j < |r| ==> r[j] == s[if j < i then j else j + 1]
  {
    s[..i] + s[i + 1..]
  }

  /** Putting the removed entry back at its place restores the sequence. */
  lemma DeleteRestore<T>(s: seq<T>, i: int)
    requires 0 <= i < |s|
    ensures Delete(s, i)[..i] + [s[i]] + Delete(s, i)[i..] == s
  {
    var d := Delete(s, i);
    assert d[..i] == s[..i];
    assert d[i..] == s[i + 1..];
  }

  /** Every frame of a window has the same number of pixels. */
  ghost predicate SameShape(isData: seq<seq<bool>>)
  {
    forall f :: 0 <= f < |isData| ==> |isData[f]| == |isData[0]|
  }

  /**
   * The validity of neighbour j at pixel p (line 554): it holds exactly where
   * both the neighbour and the target have data.
   */
  function JointValidity(isData: seq<seq<bool>>, rel: int): (v: seq<seq<bool>>)
    requires 0 <= rel < |isData| && SameShape(isData)
    ensures |v| == |isData| - 1
    ensures forall j :: 0 <= j < |v| ==> |v[j]| == |isData[rel]|
    ensures forall j, p :: 0 <= j < |v| && 0 <= p < |v[j]| ==>
              (v[j][p] <==> isData[if j < rel then j else j + 1][p] && isData[rel][p])
  {
    var others := Delete(isData, rel);
    seq(|others|, j requires 0 <= j < |others| =>
      seq(|isData[rel]|, p requires 0 <= p < |isData[rel]| => others[j][p] && isData[rel][p]))
  }

  /**
   * The arrays `_ssim_stats` receives for a window: per frame, one image per
   * band of the band values, the local means and the local variances, and a
   * validity mask of the common pixel count; `rel` is the target's position.
   */
  ghost predicate WellFormed<I>(bands: seq<seq<I>>, isData: seq<seq<bool>>, mu: seq<seq<I>>, va: seq<seq<I>>,
                                rel: int, nBands: nat)
  {
    && |bands| == |isData| == |mu| == |va|
    && 0 <= rel < |bands|
    && SameShape(isData)
    && forall f :: 0 <= f < |bands| ==> |bands[f]| == nBands && |mu[f]| == nBands && |va[f]| == nBands
  }

  /** The SSIM maps of the target against each neighbour in band b (lines 556-569). */
  function LocalSsim<I>(bands: seq<seq<I>>, isData: seq<seq<bool>>, mu: seq<seq<I>>, va: seq<seq<I>>,
                        rel: int, nBands: nat, b: int, ssim: (I, I, seq<bool>, I, I, I, I) -> I): (r: seq<I>)
    requires WellFormed(bands, isData, mu, va, rel, nBands) && 0 <= b < nBands
    ensures |r| == |bands| - 1
  {
    var bandsR, muR, vaR, valid := Delete(bands, rel), Delete(mu, rel), Delete(va, rel), JointValidity(isData, rel);
    seq(|bandsR|, j requires 0 <= j < |bandsR| =>
      ssim(bands[rel][b], bandsR[j][b], valid[j], mu[rel][b], muR[j][b], va[rel][b], vaR[j][b]))
  }

  /** The three reduced SSIM maps, one image per band each. */
  datatype SsimMaps<I> = SsimMaps(max: seq<I>, mean: seq<I>, std: seq<I>)

  /**
   * `_ssim_stats`: for every band, the SSIM map of the target against every
   * neighbour, then the masked max, mean and std over the neighbours. Stacking
   * an empty list of maps raises ValueError, so a window holding only the
   * target fails as soon as there is a band to process.
   */
  method SsimStats<I>(bands: seq<seq<I>>, isData: seq<seq<bool>>, mu: seq<seq<I>>, va: seq<seq<I>>,
                      rel: int, nBands: nat, ssim: (I, I, seq<bool>, I, I, I, I) -> I,
                      getMax: (seq<I>, seq<seq<bool>>) -> I, getMean: (seq<I>, seq<seq<bool>>) -> I,
                      getStd: (seq<I>, seq<seq<bool>>) -> I)
    returns (r: Result<SsimMaps<I>>)
    requires WellFormed(bands, isData, mu, va, rel, nBands)
    ensures r.Err? <==> 0 < nBands && |bands| == 1
    ensures r.Err? ==> r.error == ValueError
    ensures r.Ok? ==> |r.value.max| == nBands && |r.value.mean| == nBands && |r.value.std| == nBands
    ensures r.Ok? ==> forall b :: 0 <= b < nBands ==>
              && r.value.max[b] == getMax(LocalSsim(bands, isData, mu, va, rel, nBands, b, ssim), JointValidity(isData, rel))
              && r.value.mean[b] == getMean(LocalSsim(bands, isData, mu, va, rel, nBands, b, ssim), JointValidity(isData, rel))
              && r.value.std[b] == getStd(LocalSsim(bands, isData, mu, va, rel, nBands, b, ssim), JointValidity(isData, rel))
  {
    var bandsR, muR, vaR := Delete(bands, rel), Delete(mu, rel), Delete(va, rel);
    var nFrames := |bandsR|;
    var valid := JointValidity(isData, rel);
    var maxs, means, stds := [], [], [];
    var b := 0;
    while b < nBands
      invariant 0 <= b <= nBands
      invariant b > 0 ==> nFrames > 0
      invariant |maxs| == b && |means| == b && |stds| == b
      invariant forall c :: 0 <= c < b ==>
                  && maxs[c] == getMax(LocalSsim(bands, isData, mu, va, rel, nBands, c, ssim), valid)
                  && means[c] == getMean(LocalSsim(bands, isData, mu, va, rel, nBands, c, ssim), valid)
                  && stds[c] == getStd(LocalSsim(bands, isData, mu, va, rel, nBands, c, ssim), valid)
    {
      var localSsim := [];
      var j := 0;
      while j < nFrames
        invariant 0 <= j <= nFrames
        invariant localSsim == LocalSsim(bands, isData, mu, va, rel, nBands, b, ssim)[..j]
      {
        localSsim := localSsim + [ssim(bands[rel][b], bandsR[j][b], valid[j], mu[rel][b], muR[j][b], va[rel][b], vaR[j][b])];
        j := j + 1;
      }
      if nFrames == 0 {
        return Err(ValueError);
      }
      assert localSsim == LocalSsim(bands, isData, mu, va, rel, nBands, b, ssim);
      maxs := maxs + [getMax(localSsim, valid)];
      means := means + [getMean(localSsim, valid)];
      stds := stds + [getStd(localSsim, valid)];
      b := b + 1;
    }
    r := Ok(SsimMaps(maxs, means, stds));
  }
}
