/**
 * Temporal window selection of the multi-temporal cloud detector:
 * the half-open range of frames [low, high) that surrounds a target frame,
 * shifted so that it stays inside the sequence, and the target's offset in it.
 */
module FrameWindow {
  import opened Outcomes

  datatype Window = Window(low: int, high: int, rel: int)

  /**
   * The window of at most `maxFrames` frames around frame `target` of a
   * sequence of `numFrames` frames. Python's `//` floors; for the divisor 2
   * this agrees with Dafny's Euclidean `/` on every integer.
   */
  function FrameIndices(numFrames: int, target: int, maxFrames: int): (w: Window)
    ensures w.rel == target - w.low
    ensures 0 <= target < numFrames && 0 <= maxFrames ==>
              && 0 <= w.low <= w.high <= numFrames
              && w.high - w.low == Min(maxFrames, numFrames)
    ensures 0 <= target < numFrames && 1 <= maxFrames ==>
              w.low <= target < w.high
  {
    var reachLow := target - maxFrames / 2;
    var reachHigh := target + maxFrames - maxFrames / 2;
    var shift := Max(0, -reachLow) - Max(0, reachHigh - numFrames);
    var low := Max(0, reachLow + shift);
    var high := Min(numFrames, reachHigh + shift);
    Window(low, high, target - low)
  }

  /**
   * Between two consecutive targets the window either stays where it is or
   * moves forward by exactly one frame at both ends; a window never jumps.
   */
  lemma Consecutive(numFrames: int, target: int, maxFrames: int)
    requires 1 <= maxFrames && 0 <= target && target + 1 < numFrames
    ensures var a, b := FrameIndices(numFrames, target, maxFrames), FrameIndices(numFrames, target + 1, maxFrames);
            (b.low == a.low && b.high == a.high) || (b.low == a.low + 1 && b.high == a.high + 1)
  {
  }
}
