/**
 * The multi-temporal classifier driver (`_multi_iterations`): frames are
 * scored one at a time, each against the window around it, with the window
 * statistics carried from one frame to the next. Feature extraction and the
 * classifier together are the parameter `score`: given the window's frames,
 * their local means and variances, the target's offset and a pixel, it gives
 * the cloud probability of that pixel of the target frame.
 */
module MultiDriver {
  import opened Outcomes
  import opened FrameWindow
  import opened WindowStats

  /**
   * The reference for frame t: every pixel scored with statistics recomputed
   * from scratch over the whole window of t.
   */
  function FrameScores<F, S>(frames: seq<F>, maxFrames: int, imgSize: nat, avg: F -> S, prevar: (F, S) -> S,
                             score: (seq<F>, seq<S>, seq<S>, int, int) -> real, t: int): (r: seq<real>)
    requires 1 <= maxFrames && 0 <= t < |frames|
    ensures |r| == imgSize
  {
    var w := FrameIndices(|frames|, t, maxFrames);
    var window := frames[w.low..w.high];
    seq(imgSize, p => score(window, Means(avg, window), Variances(avg, prevar, window), w.rel, p))
  }

  /**
   * `_multi_iterations`: slot t * imgSize + p of the flat buffer holds the
   * score of pixel p of frame t computed from the full statistics of its
   * window, although the statistics are only updated incrementally.
   * A window without frames (max_proc_frames == 0) fails with IndexError
   * when the target is taken from it; a one-frame window fails with
   * ValueError when the empty list of neighbour SSIM maps is stacked (the
   * band selection always holds bands, so the stacking comes first).
   */
  method MultiIterations<F, S(0)>(frames: seq<F>, maxFrames: nat, imgSize: nat,
                                  avg: F -> S, prevar: (F, S) -> S,
                                  score: (seq<F>, seq<S>, seq<S>, int, int) -> real)
    returns (r: Result<array<real>>)
    ensures r.Err? <==> 0 < |frames| && Min(maxFrames, |frames|) < 2
    ensures r.Err? ==> r.error == (if maxFrames == 0 then IndexError else ValueError)
    ensures r.Ok? ==> r.value.Length == |frames| * imgSize
    ensures r.Ok? ==> Filled(r.value[..], frames, maxFrames, imgSize, avg, prevar, score, |frames|)
  {
    var n := |frames|;
    var stats := new LocalStats(frames, maxFrames, avg, prevar);
    var proba := new real[n * imgSize];
    var t := 0;
    while t < n
      invariant 0 <= t <= n
      invariant 0 < t ==> 2 <= Min(maxFrames, n)
      invariant stats.Valid() && stats.Follows() && fresh(stats.Repr) && proba !in stats.Repr
      invariant stats.frames == frames && stats.maxFrames == maxFrames
      invariant stats.avg == avg && stats.prevar == prevar
      invariant t == 0 ==> !stats.primed
      invariant 0 < t ==> stats.primed && stats.last == t - 1
      invariant proba.Length == n * imgSize
      invariant Filled(proba[..], frames, maxFrames, imgSize, avg, prevar, score, t)
    {
      var err := ScoreFrame(stats, proba, frames, maxFrames, imgSize, avg, prevar, score, t);
      if err.Some? {
        return Err(err.value);
      }
      t := t + 1;
    }
    return Ok(proba);
  }

  /**
   * One pass of the loop of `_multi_iterations`: the window of frame t is
   * chosen, the statistics are brought up to date, and the frame's scores
   * are written into its slice. The window size decides whether it fails.
   */
  method ScoreFrame<F, S(0)>(stats: LocalStats<F, S>, proba: array<real>, frames: seq<F>, maxFrames: nat, imgSize: nat,
                             avg: F -> S, prevar: (F, S) -> S, score: (seq<F>, seq<S>, seq<S>, int, int) -> real, t: int)
    returns (err: Option<Error>)
    requires 0 <= t < |frames| && proba.Length == |frames| * imgSize
    requires stats.Valid() && stats.Follows() && proba !in stats.Repr
    requires stats.frames == frames && stats.maxFrames == maxFrames && stats.avg == avg && stats.prevar == prevar
    requires t == 0 ==> !stats.primed
    requires 0 < t ==> stats.primed && stats.last == t - 1
    requires 0 < t ==> 2 <= Min(maxFrames, |frames|)
    requires Filled(proba[..], frames, maxFrames, imgSize, avg, prevar, score, t)
    modifies stats.Repr, proba
    ensures err.Some? <==> Min(maxFrames, |frames|) < 2
    ensures err.Some? ==> err.value == (if maxFrames == 0 then IndexError else ValueError)
    ensures err.None? ==>
              && stats.Valid() && stats.Follows() && fresh(stats.Repr - old(stats.Repr)) && proba !in stats.Repr
              && stats.primed && stats.last == t
              && Filled(proba[..], frames, maxFrames, imgSize, avg, prevar, score, t + 1)
  {
    var n := |frames|;
    var w := FrameIndices(n, t, maxFrames);
    if w.high - w.low == 0 {
      return Some(IndexError);
    }
    ghost var done := proba[..];
    w := stats.Update(t);
    assert proba[..] == done;
    if w.high - w.low == 1 {
      // the error condition of Neighbours.SsimStats (no neighbour to stack),
      // stated here directly because `score` stands for the feature assembly
      return Some(ValueError);
    }
    var window, mus, vars := frames[w.low..w.high], stats.mu[..], stats.va[..];
    var scores := seq(imgSize, p => score(window, mus, vars, w.rel, p));
    ScoresFromStats(frames, maxFrames, imgSize, avg, prevar, score, t, w, mus, vars, scores);
    WriteFrame(proba, frames, maxFrames, imgSize, avg, prevar, score, t, scores);
    return None;
  }

  /** Scoring with statistics equal to the full recomputation over the window of t gives the reference of t. */
  lemma ScoresFromStats<F, S>(frames: seq<F>, maxFrames: int, imgSize: nat, avg: F -> S, prevar: (F, S) -> S,
                              score: (seq<F>, seq<S>, seq<S>, int, int) -> real, t: int,
                              w: Window, mus: seq<S>, vars: seq<S>, scores: seq<real>)
    requires 1 <= maxFrames && 0 <= t < |frames| && w == FrameIndices(|frames|, t, maxFrames)
    requires mus == Means(avg, frames[w.low..w.high]) && vars == Variances(avg, prevar, frames[w.low..w.high])
    requires scores == seq(imgSize, p => score(frames[w.low..w.high], mus, vars, w.rel, p))
    ensures scores == FrameScores(frames, maxFrames, imgSize, avg, prevar, score, t)
  {
  }

  /** The slice of every frame s before t holds the reference scores of s. */
  ghost predicate Filled<F, S>(proba: seq<real>, frames: seq<F>, maxFrames: int, imgSize: nat, avg: F -> S, prevar: (F, S) -> S,
                               score: (seq<F>, seq<S>, seq<S>, int, int) -> real, t: int)
    requires (t == 0 || 1 <= maxFrames) && t <= |frames|
  {
    forall s :: 0 <= s < t ==>
      && (s + 1) * imgSize <= |proba|
      && proba[s * imgSize..(s + 1) * imgSize] == FrameScores(frames, maxFrames, imgSize, avg, prevar, score, s)
  }

  /** Writing the reference of frame t into its slice, and nothing before it, extends the filled prefix by one frame. */
  lemma FilledStep<F, S>(before: seq<real>, after: seq<real>, frames: seq<F>, maxFrames: int, imgSize: nat, avg: F -> S,
                         prevar: (F, S) -> S, score: (seq<F>, seq<S>, seq<S>, int, int) -> real, t: int)
    requires 1 <= maxFrames && 0 <= t < |frames|
    requires |before| == |after| && (t + 1) * imgSize <= |after|
    requires Filled(before, frames, maxFrames, imgSize, avg, prevar, score, t)
    requires after[..t * imgSize] == before[..t * imgSize]
    requires after[t * imgSize..(t + 1) * imgSize] == FrameScores(frames, maxFrames, imgSize, avg, prevar, score, t)
    ensures Filled(after, frames, maxFrames, imgSize, avg, prevar, score, t + 1)
  {
    forall s | 0 <= s < t + 1
      ensures (s + 1) * imgSize <= |after|
      ensures after[s * imgSize..(s + 1) * imgSize] == FrameScores(frames, maxFrames, imgSize, avg, prevar, score, s)
    {
      if s < t {
        MulLe(s + 1, t, imgSize);
        assert after[s * imgSize..(s + 1) * imgSize] == after[..t * imgSize][s * imgSize..(s + 1) * imgSize];
        assert before[s * imgSize..(s + 1) * imgSize] == before[..t * imgSize][s * imgSize..(s + 1) * imgSize];
      }
    }
  }

  /**
   * `multi_proba[t*img_size:(t+1)*img_size] = ...`: the scores of frame t go
   * to its own slice and nothing else changes, so one more frame is filled.
   */
  method WriteFrame<F, S>(proba: array<real>, frames: seq<F>, maxFrames: int, imgSize: nat, avg: F -> S, prevar: (F, S) -> S,
                          score: (seq<F>, seq<S>, seq<S>, int, int) -> real, t: int, scores: seq<real>)
    requires 1 <= maxFrames && 0 <= t < |frames| && proba.Length == |frames| * imgSize
    requires scores == FrameScores(frames, maxFrames, imgSize, avg, prevar, score, t)
    requires Filled(proba[..], frames, maxFrames, imgSize, avg, prevar, score, t)
    modifies proba
    ensures Filled(proba[..], frames, maxFrames, imgSize, avg, prevar, score, t + 1)
  {
    ghost var before := proba[..];
    MulLe(t + 1, |frames|, imgSize);
    forall p | 0 <= p < imgSize {
      proba[t * imgSize + p] := scores[p];
    }
    assert proba[..t * imgSize] == before[..t * imgSize];
    assert proba[..][t * imgSize..(t + 1) * imgSize] == scores;
    FilledStep(before, proba[..], frames, maxFrames, imgSize, avg, prevar, score, t);
  }
}
