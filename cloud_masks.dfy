/**
 * The output stage of `AddMultiCloudMaskTask.execute`: which of the two
 * classifiers run for the requested outputs, thresholding of the (optionally
 * averaged) probabilities, the intersection mask, optional dilation, and the
 * final masking with the validity mask. Images are flat sequences with one
 * entry per pixel of every frame; averaging and dilation are parameters that
 * keep the shape.
 */
module CloudMasks {
  import opened Outcomes
  import opened MonoDriver
  import opened MultiDriver

  /** The task's settings that steer `execute`; an unset feature name is None. */
  datatype Config = Config(
    maxProcFrames: nat,
    monoProbaFeature: Option<string>,
    multiProbaFeature: Option<string>,
    monoMaskFeature: Option<string>,
    multiMaskFeature: Option<string>,
    maskFeature: Option<string>,
    monoThreshold: real,
    multiThreshold: real,
    averageOver: Option<int>,
    dilationSize: Option<int>)

  /**
   * The constructor builds a smoothing or dilation kernel only for a size
   * that is set and positive; an unset size and a size of zero or less
   * leave the kernel None.
   */
  predicate HasKernel(size: Option<int>)
  {
    size.Some? && size.value > 0
  }

  /** Which classifier drivers run. */
  datatype Plan = Plan(runMono: bool, runMulti: bool)

  /**
   * The three-way branch of `execute`: the multi-temporal classifier runs
   * exactly when one of its outputs or the intersection is requested; the
   * single-frame one when one of its outputs or the intersection is
   * requested, and also when nothing multi-temporal is, so that at least
   * one of them always runs.
   */
  function Dispatch(cfg: Config): (p: Plan)
    ensures p.runMulti <==> cfg.multiProbaFeature.Some? || cfg.multiMaskFeature.Some? || cfg.maskFeature.Some?
    ensures p.runMono <==> cfg.monoProbaFeature.Some? || cfg.monoMaskFeature.Some? || cfg.maskFeature.Some? || !p.runMulti
    ensures p.runMono || p.runMulti
  {
    if cfg.multiProbaFeature.None? && cfg.multiMaskFeature.None? && cfg.maskFeature.None? then
      Plan(true, false)
    else if cfg.monoProbaFeature.None? && cfg.monoMaskFeature.None? && cfg.maskFeature.None? then
      Plan(false, true)
    else
      Plan(true, true)
  }

  /** A filter (the averaging or the dilation) that keeps the number of pixels. */
  ghost predicate KeepsLength<T(!new)>(f: seq<T> -> seq<T>)
  {
    forall x :: |f(x)| == |x|
  }

  /**
   * `_average_all`: the averaging filter, applied only when its kernel
   * exists; without one the probabilities pass through unchanged. Either
   * way every pixel keeps its place.
   */
  function AverageAll(size: Option<int>, average: seq<real> -> seq<real>, p: seq<real>): (r: seq<real>)
    requires KeepsLength(average)
    ensures |r| == |p|
    ensures !HasKernel(size) ==> r == p
  {
    if HasKernel(size) then average(p) else p
  }

  /**
   * `_dilate_all`: the dilation, applied only when its kernel exists;
   * without one the mask passes through unchanged. Either way every pixel
   * keeps its place, and a dilation that keeps every marked pixel (as one
   * by a kernel containing its centre does) loses no cloud.
   */
  function DilateAll(size: Option<int>, dilate: seq<bool> -> seq<bool>, m: seq<bool>): (r: seq<bool>)
    requires KeepsLength(dilate)
    ensures |r| == |m|
    ensures !HasKernel(size) ==> r == m
    ensures (forall x: seq<bool>, j :: 0 <= j < |x| && x[j] ==> dilate(x)[j]) ==> forall j :: 0 <= j < |m| && m[j] ==> r[j]
  {
    if HasKernel(size) then dilate(m) else m
  }

  /** `p >= threshold`, pixel by pixel. */
  function AtLeast(p: seq<real>, threshold: real): seq<bool>
  {
    seq(|p|, i requires 0 <= i < |p| => p[i] >= threshold)
  }

  /** `mask * is_data`, pixel by pixel. */
  function MaskedBy(m: seq<bool>, isData: seq<bool>): seq<bool>
    requires |m| == |isData|
  {
    seq(|m|, i requires 0 <= i < |m| => m[i] && isData[i])
  }

  /** `proba * is_data`, pixel by pixel. */
  function ZeroedBy(p: seq<real>, isData: seq<bool>): seq<real>
    requires |p| == |isData|
  {
    seq(|p|, i requires 0 <= i < |p| => if isData[i] then p[i] else 0.0)
  }

  /** A pixel is in the mask exactly when its probability reaches the threshold. */
  ghost predicate Thresholds(mask: seq<bool>, p: seq<real>, threshold: real)
  {
    |mask| == |p| && forall i :: 0 <= i < |p| ==> (mask[i] <==> p[i] >= threshold)
  }

  /** A pixel is in the intersection exactly when it is in both masks. */
  ghost predicate Intersects(inter: seq<bool>, a: seq<bool>, b: seq<bool>)
  {
    |inter| == |a| == |b| && forall i :: 0 <= i < |inter| ==> (inter[i] <==> a[i] && b[i])
  }

  /** The thresholded masks and their intersection, before dilation; unset where `execute` leaves them undefined. */
  datatype Thresholded = Thresholded(monoMask: Option<seq<bool>>, multiMask: Option<seq<bool>>, inter: Option<seq<bool>>)

  /**
   * Averaging and thresholding, then the intersection. A mask is built when
   * its own output or the intersection is requested, and only then is the
   * matching probability read: a pixel is cloudy when its averaged
   * probability reaches the threshold, and in the intersection when it is
   * cloudy in both masks.
   */
  function Threshold(cfg: Config, mono: Option<seq<real>>, multi: Option<seq<real>>, average: seq<real> -> seq<real>): (t: Thresholded)
    requires KeepsLength(average)
    requires cfg.monoMaskFeature.Some? || cfg.maskFeature.Some? ==> mono.Some?
    requires cfg.multiMaskFeature.Some? || cfg.maskFeature.Some? ==> multi.Some?
    requires mono.Some? && multi.Some? ==> |mono.value| == |multi.value|
    ensures t.monoMask.Some? <==> cfg.monoMaskFeature.Some? || cfg.maskFeature.Some?
    ensures t.multiMask.Some? <==> cfg.multiMaskFeature.Some? || cfg.maskFeature.Some?
    ensures t.inter.Some? <==> cfg.maskFeature.Some?
    ensures t.monoMask.Some? ==> Thresholds(t.monoMask.value, AverageAll(cfg.averageOver, average, mono.value), cfg.monoThreshold)
    ensures t.multiMask.Some? ==> Thresholds(t.multiMask.value, AverageAll(cfg.averageOver, average, multi.value), cfg.multiThreshold)
    ensures t.inter.Some? ==> t.monoMask.Some? && t.multiMask.Some? && Intersects(t.inter.value, t.monoMask.value, t.multiMask.value)
  {
    var monoMask :=
      if cfg.monoMaskFeature.Some? || cfg.maskFeature.Some? then
        Some(AtLeast(AverageAll(cfg.averageOver, average, mono.value), cfg.monoThreshold))
      else None;
    var multiMask :=
      if cfg.multiMaskFeature.Some? || cfg.maskFeature.Some? then
        Some(AtLeast(AverageAll(cfg.averageOver, average, multi.value), cfg.multiThreshold))
      else None;
    var inter :=
      if cfg.maskFeature.Some? then
        Some(seq(|monoMask.value|, i requires 0 <= i < |monoMask.value| => monoMask.value[i] && multiMask.value[i]))
      else None;
    Thresholded(monoMask, multiMask, inter)
  }

  /** The features `execute` adds to the patch; unset where the feature name is. */
  datatype Outputs = Outputs(
    monoMask: Option<seq<bool>>,
    multiMask: Option<seq<bool>>,
    mask: Option<seq<bool>>,
    monoProba: Option<seq<real>>,
    multiProba: Option<seq<real>>)

  /** The mask is false wherever the pixel holds no data. */
  ghost predicate OnlyOnData(m: seq<bool>, isData: seq<bool>)
  {
    |m| == |isData| && forall i :: 0 <= i < |m| && !isData[i] ==> !m[i]
  }

  /** The probability map is `p` on data pixels and zero elsewhere. */
  ghost predicate ZeroOffData(out: seq<real>, p: seq<real>, isData: seq<bool>)
  {
    |out| == |p| == |isData| && forall i :: 0 <= i < |out| ==> out[i] == if isData[i] then p[i] else 0.0
  }

  /**
   * The output stage of `execute`, from the probabilities the dispatched
   * drivers produced: every output is present exactly when its feature name
   * is set, every mask is dilated and then cut to the valid pixels, and
   * every probability map is zero outside them.
   */
  function Compose(cfg: Config, isData: seq<bool>, mono: Option<seq<real>>, multi: Option<seq<real>>,
                   average: seq<real> -> seq<real>, dilate: seq<bool> -> seq<bool>): (o: Outputs)
    requires KeepsLength(average) && KeepsLength(dilate)
    requires mono.Some? <==> Dispatch(cfg).runMono
    requires multi.Some? <==> Dispatch(cfg).runMulti
    requires mono.Some? ==> |mono.value| == |isData|
    requires multi.Some? ==> |multi.value| == |isData|
    ensures o.monoMask.Some? <==> cfg.monoMaskFeature.Some?
    ensures o.multiMask.Some? <==> cfg.multiMaskFeature.Some?
    ensures o.mask.Some? <==> cfg.maskFeature.Some?
    ensures o.monoProba.Some? <==> cfg.monoProbaFeature.Some?
    ensures o.multiProba.Some? <==> cfg.multiProbaFeature.Some?
    ensures o.monoMask.Some? ==> OnlyOnData(o.monoMask.value, isData)
    ensures o.multiMask.Some? ==> OnlyOnData(o.multiMask.value, isData)
    ensures o.mask.Some? ==> OnlyOnData(o.mask.value, isData)
    ensures o.monoProba.Some? ==> ZeroOffData(o.monoProba.value, mono.value, isData)
    ensures o.multiProba.Some? ==> ZeroOffData(o.multiProba.value, multi.value, isData)
  {
    var t := Threshold(cfg, mono, multi, average);
    Outputs(
      if cfg.monoMaskFeature.Some? then Some(MaskedBy(DilateAll(cfg.dilationSize, dilate, t.monoMask.value), isData)) else None,
      if cfg.multiMaskFeature.Some? then Some(MaskedBy(DilateAll(cfg.dilationSize, dilate, t.multiMask.value), isData)) else None,
      if cfg.maskFeature.Some? then Some(MaskedBy(DilateAll(cfg.dilationSize, dilate, t.inter.value), isData)) else None,
      if cfg.monoProbaFeature.Some? then Some(ZeroedBy(mono.value, isData)) else None,
      if cfg.multiProbaFeature.Some? then Some(ZeroedBy(multi.value, isData)) else None)
  }

  /**
   * Without a dilation kernel the written intersection mask marks exactly
   * the valid pixels whose averaged probabilities reach both thresholds.
   */
  lemma UndilatedMask(cfg: Config, isData: seq<bool>, mono: Option<seq<real>>, multi: Option<seq<real>>,
                      average: seq<real> -> seq<real>, dilate: seq<bool> -> seq<bool>, i: int)
    requires KeepsLength(average) && KeepsLength(dilate)
    requires mono.Some? <==> Dispatch(cfg).runMono
    requires multi.Some? <==> Dispatch(cfg).runMulti
    requires mono.Some? ==> |mono.value| == |isData|
    requires multi.Some? ==> |multi.value| == |isData|
    requires cfg.maskFeature.Some? && !HasKernel(cfg.dilationSize) && 0 <= i < |isData|
    ensures var o := Compose(cfg, isData, mono, multi, average, dilate);
            var monoAvg := AverageAll(cfg.averageOver, average, mono.value);
            var multiAvg := AverageAll(cfg.averageOver, average, multi.value);
            o.mask.value[i] <==> isData[i] && monoAvg[i] >= cfg.monoThreshold && multiAvg[i] >= cfg.multiThreshold
  {
    var t := Threshold(cfg, mono, multi, average);
    assert t.inter.value[i] <==> t.monoMask.value[i] && t.multiMask.value[i];
  }

  /**
   * With a dilation that only ever adds cloudy pixels (the disk kernel
   * contains its centre), every valid pixel of the intersection is in the
   * written mask, and likewise for the single-classifier masks.
   */
  lemma DilationKeepsClouds(cfg: Config, isData: seq<bool>, mono: Option<seq<real>>, multi: Option<seq<real>>,
                            average: seq<real> -> seq<real>, dilate: seq<bool> -> seq<bool>, i: int)
    requires KeepsLength(average) && KeepsLength(dilate)
    requires forall m: seq<bool>, j :: 0 <= j < |m| && m[j] ==> dilate(m)[j]
    requires mono.Some? <==> Dispatch(cfg).runMono
    requires multi.Some? <==> Dispatch(cfg).runMulti
    requires mono.Some? ==> |mono.value| == |isData|
    requires multi.Some? ==> |multi.value| == |isData|
    requires 0 <= i < |isData| && isData[i]
    ensures var o := Compose(cfg, isData, mono, multi, average, dilate);
            var t := Threshold(cfg, mono, multi, average);
            && (o.mask.Some? && t.inter.value[i] ==> o.mask.value[i])
            && (o.monoMask.Some? && t.monoMask.value[i] ==> o.monoMask.value[i])
            && (o.multiMask.Some? && t.multiMask.value[i] ==> o.multiMask.value[i])
  {
  }

  /**
   * `execute`: the drivers the dispatch selects run, the multi-temporal one
   * first, so that its IndexError for an empty window wins over the
   * single-frame driver's ValueError for the same zero chunk size. An
   * exception of either ends `execute`, and otherwise the outputs
   * are composed from their probabilities. `rows` are the single-frame
   * classifier's inputs, one per pixel of every frame; `frames`, `avg`,
   * `prevar` and `score` are the multi-temporal driver's. The returned
   * probabilities are the drivers' results, for the contracts to speak of.
   */
  method Execute<R, F, S(0)>(cfg: Config, isData: seq<bool>, rows: seq<R>, clf: R -> real,
                             frames: seq<F>, imgSize: nat, avg: F -> S, prevar: (F, S) -> S,
                             score: (seq<F>, seq<S>, seq<S>, int, int) -> real,
                             average: seq<real> -> seq<real>, dilate: seq<bool> -> seq<bool>)
    returns (r: Result<Outputs>, mono: Option<seq<real>>, multi: Option<seq<real>>)
    requires KeepsLength(average) && KeepsLength(dilate)
    requires |rows| == |frames| * imgSize && |isData| == |rows|
    ensures var plan := Dispatch(cfg);
            r.Err? <==> || (plan.runMulti && 0 < |frames| && Min(cfg.maxProcFrames, |frames|) < 2)
                        || (plan.runMono && cfg.maxProcFrames == 0)
    ensures r.Err? ==> r.error == if Dispatch(cfg).runMulti && 0 < |frames| && cfg.maxProcFrames == 0 then IndexError else ValueError
    ensures r.Ok? ==> mono.Some? == Dispatch(cfg).runMono && multi.Some? == Dispatch(cfg).runMulti
    ensures r.Ok? && mono.Some? ==> mono.value == Classified(clf, rows)
    ensures r.Ok? && multi.Some? ==>
              && |multi.value| == |frames| * imgSize
              && Filled(multi.value, frames, cfg.maxProcFrames, imgSize, avg, prevar, score, |frames|)
    ensures r.Ok? ==> r.value == Compose(cfg, isData, mono, multi, average, dilate)
  {
    var plan := Dispatch(cfg);
    mono, multi := None, None;
    if plan.runMulti {
      var m := MultiIterations(frames, cfg.maxProcFrames, imgSize, avg, prevar, score);
      if m.Err? {
        return Err(m.error), mono, multi;
      }
      multi := Some(m.value[..]);
    }
    if plan.runMono {
      var p, _ := MonoIterations(rows, |frames|, imgSize, cfg.maxProcFrames, clf);
      if p.Err? {
        return Err(p.error), mono, multi;
      }
      mono := Some(p.value[..]);
    }
    r := Ok(Compose(cfg, isData, mono, multi, average, dilate));
  }
}
