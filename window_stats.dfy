/**
 * The sliding window statistics of the multi-temporal detector: the local
 * mean and local (incomplete) variance of every frame of the current window.
 * The per-frame statistic itself (a Gaussian blur divided by the blurred
 * validity mask, and the blurred square minus the squared mean) is a
 * function parameter: `avg` gives a frame's local mean, and `prevar` gives
 * its local variance from the frame and that mean.
 */
module WindowStats {
  import opened FrameWindow

  /** The local means of a run of frames, each computed from its own frame. */
  function Means<F, S>(avg: F -> S, frames: seq<F>): (r: seq<S>)
    ensures |r| == |frames|
    ensures forall k :: 0 <= k < |frames| ==> r[k] == avg(frames[k])
  {
    if frames == [] then [] else [avg(frames[0])] + Means(avg, frames[1..])
  }

  /** The local variances of a run of frames, each from its frame and its mean. */
  function Variances<F, S>(avg: F -> S, prevar: (F, S) -> S, frames: seq<F>): (r: seq<S>)
    ensures |r| == |frames|
    ensures forall k :: 0 <= k < |frames| ==> r[k] == prevar(frames[k], avg(frames[k]))
  {
    if frames == [] then [] else [prevar(frames[0], avg(frames[0]))] + Variances(avg, prevar, frames[1..])
  }

  /**
   * Sliding the window forward by one frame drops the first statistic and
   * appends the statistic of the frame that enters: the shift-and-append
   * update gives what a full recomputation over the new window gives.
   */
  lemma {:induction false} SlideMeans<F, S>(avg: F -> S, prevar: (F, S) -> S, frames: seq<F>, low: int, high: int)
    requires 0 <= low < high < |frames|
    ensures Means(avg, frames[low + 1..high + 1]) == Means(avg, frames[low..high])[1..] + [avg(frames[high])]
    ensures Variances(avg, prevar, frames[low + 1..high + 1])
         == Variances(avg, prevar, frames[low..high])[1..] + [prevar(frames[high], avg(frames[high]))]
  {
    var a, b := Means(avg, frames[low + 1..high + 1]), Means(avg, frames[low..high])[1..] + [avg(frames[high])];
    assert |a| == |b|;
    forall k | 0 <= k < |a| ensures a[k] == b[k] {
      if k < |a| - 1 {
        assert frames[low + 1..high + 1][k] == frames[low..high][k + 1];
      }
    }
    var c, d := Variances(avg, prevar, frames[low + 1..high + 1]),
                Variances(avg, prevar, frames[low..high])[1..] + [prevar(frames[high], avg(frames[high]))];
    assert |c| == |d|;
    forall k | 0 <= k < |c| ensures c[k] == d[k] {
      if k < |c| - 1 {
        assert frames[low + 1..high + 1][k] == frames[low..high][k + 1];
      }
    }
  }

  /**
   * The state `_multi_iterations` carries from one target frame to the next:
   * `loc_mu`, `loc_var` and the previous window bounds.
   */
  class LocalStats<F, S(0)> {
    const frames: seq<F>
    const maxFrames: int
    const avg: F -> S
    const prevar: (F, S) -> S

    /** `loc_mu`: one local mean per frame of the current window. */
    var mu: array<S>
    /** `loc_var`: one local variance per frame of the current window. */
    var va: array<S>
    /** False until the first window has been computed (`loc_mu is None`). */
    var primed: bool
    /** `prev_nt_min` and `prev_nt_max`. */
    var low: int
    var high: int

    /** The target frame of the previous step. */
    ghost var last: int
    ghost var Repr: set<object>

    /** Entry k of both arrays is the statistic of frame low + k. */
    ghost predicate Valid()
      reads this, Repr
    {
      && this in Repr && mu in Repr && va in Repr && mu != va
      && (primed ==>
            && 0 <= low <= high <= |frames|
            && mu[..] == Means(avg, frames[low..high])
            && va[..] == Variances(avg, prevar, frames[low..high]))
    }

    /** The stored bounds are those of the window of the previous target. */
    ghost predicate Follows()
      reads this
    {
      primed ==>
        && 0 <= last < |frames|
        && FrameIndices(|frames|, last, maxFrames).low == low
        && FrameIndices(|frames|, last, maxFrames).high == high
    }

    constructor (frames: seq<F>, maxFrames: int, avg: F -> S, prevar: (F, S) -> S)
      ensures Valid() && Follows() && fresh(Repr) && !primed
      ensures this.frames == frames && this.maxFrames == maxFrames
      ensures this.avg == avg && this.prevar == prevar
    {
      this.frames, this.maxFrames, this.avg, this.prevar := frames, maxFrames, avg, prevar;
      mu := new S[0];
      va := new S[0];
      primed, low, high := false, 0, 0;
      Repr := {this, mu, va};
    }

    /** The full computation of the first step (lines 631-644): fresh arrays for the window [low, high). */
    method Recompute(low: int, high: int)
      requires Valid() && 0 <= low <= high <= |frames|
      modifies Repr
      ensures Valid() && primed && this.low == low && this.high == high && last == old(last)
      ensures fresh(mu) && fresh(va) && Repr == {this, mu, va} && fresh(Repr - old(Repr))
      ensures mu[..] == Means(avg, frames[low..high])
      ensures va[..] == Variances(avg, prevar, frames[low..high])
    {
      var newMu, newVa := Fill(frames[low..high]);
      mu, va := newMu, newVa;
      Repr := {this, mu, va};
      this.low, this.high, primed := low, high, true;
    }

    /** Fresh arrays holding the local means and variances of every frame of `window`. */
    method Fill(window: seq<F>) returns (m: array<S>, v: array<S>)
      ensures fresh(m) && fresh(v) && m != v
      ensures m[..] == Means(avg, window)
      ensures v[..] == Variances(avg, prevar, window)
    {
      m := new S[|window|];
      v := new S[|window|];
      forall k | 0 <= k < |window| {
        m[k] := avg(window[k]);
      }
      forall k | 0 <= k < |window| {
        v[k] := prevar(window[k], m[k]);
      }
    }

    /**
     * The incremental update (lines 646-662): both arrays shift left by one
     * in place, and the last entries take the statistics of `entering`.
     */
    method Slide(entering: F)
      requires mu != va && 1 <= mu.Length && va.Length == mu.Length
      modifies mu, va
      ensures mu[..] == old(mu[..])[1..] + [avg(entering)]
      ensures va[..] == old(va[..])[1..] + [prevar(entering, avg(entering))]
    {
      var n := mu.Length;
      forall k | 0 <= k < n - 1 {
        mu[k] := mu[k + 1];
      }
      mu[n - 1] := avg(entering);
      forall k | 0 <= k < n - 1 {
        va[k] := va[k + 1];
      }
      va[n - 1] := prevar(entering, mu[n - 1]);
    }

    /**
     * One step of `_multi_iterations` for frame `target`: select its window;
     * on the first step compute every statistic of the window; afterwards,
     * when the bounds differ from the previous ones, shift both arrays left by
     * one and compute only the statistic of the new last frame; when they are
     * the same, keep the arrays as they are.
     */
    method Update(target: int) returns (w: Window)
      requires Valid() && Follows()
      requires 1 <= maxFrames && 0 <= target < |frames|
      requires primed ==> target == last + 1
      modifies Repr
      ensures Valid() && Follows() && fresh(Repr - old(Repr))
      ensures primed && last == target
      ensures w == FrameIndices(|frames|, target, maxFrames)
      ensures low == w.low && high == w.high
      ensures mu[..] == Means(avg, frames[w.low..w.high])
      ensures va[..] == Variances(avg, prevar, frames[w.low..w.high])
      ensures old(primed) ==> mu == old(mu) && va == old(va)
    {
      w := FrameIndices(|frames|, target, maxFrames);
      if !primed {
        Recompute(w.low, w.high);
      } else if low != w.low || high != w.high {
        Consecutive(|frames|, last, maxFrames);
        Advance(w.low, w.high);
      }
      last := target;
    }

    /** The shift branch of `Update`: the window moved forward by one frame. */
    method Advance(newLow: int, newHigh: int)
      requires Valid() && primed && low < high
      requires newLow == low + 1 && newHigh == high + 1 && newHigh <= |frames|
      modifies Repr
      ensures Valid() && Repr == old(Repr) && mu == old(mu) && va == old(va)
      ensures primed && low == newLow && high == newHigh && last == old(last)
    {
      SlideMeans(avg, prevar, frames, low, high);
      Slide(frames[high]);
      low, high := newLow, newHigh;
    }
  }
}
