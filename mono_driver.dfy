/**
 * The single-frame classifier driver (`_mono_iterations`): frames are taken
 * in chunks of at most `max_proc_frames`, every pixel of a chunk becomes one
 * row of band values, and the classifier's cloud probability for each row is
 * written into a flat buffer at the row's own position. The classifier is a
 * row-wise function.
 */
module MonoDriver {
  import opened Outcomes

  /** The classifier output for every row, in row order. */
  function Classified<R>(clf: R -> real, rows: seq<R>): (p: seq<real>)
    ensures |p| == |rows|
    ensures forall i :: 0 <= i < |rows| ==> p[i] == clf(rows[i])
  {
    if rows == [] then [] else [clf(rows[0])] + Classified(clf, rows[1..])
  }

  /**
   * The frame ranges [t_i, min(t_i + maxFrames, frames)) for t_i in
   * range(start, frames, maxFrames): none when start has reached the last
   * frame, and otherwise the first begins at start and the last ends at the
   * last frame.
   */
  function Chunks(start: int, frames: int, maxFrames: int): (c: seq<(int, int)>)
    requires 1 <= maxFrames
    ensures c == [] <==> start >= frames
    ensures c != [] ==> c[0].0 == start && c[|c| - 1].1 == frames
    decreases frames - start
  {
    if start >= frames then []
    else [(start, Min(start + maxFrames, frames))] + Chunks(start + maxFrames, frames, maxFrames)
  }

  /** Frame f lies in chunk i. */
  ghost predicate InChunk(c: seq<(int, int)>, i: int, f: int)
  {
    0 <= i < |c| && c[i].0 <= f < c[i].1
  }

  /** Frame f lies in one of the chunks. */
  ghost predicate Covered(c: seq<(int, int)>, f: int)
  {
    exists i :: InChunk(c, i, f)
  }

  /**
   * The chunks are non-empty and hold at most maxFrames frames; every one
   * but the last holds exactly maxFrames, and each begins where the one
   * before it ends, so they come in order without overlap.
   */
  lemma {:induction false} ChunksOrdered(start: int, frames: int, maxFrames: int)
    requires 1 <= maxFrames && start <= frames
    ensures var c := Chunks(start, frames, maxFrames);
      && (forall i :: 0 <= i < |c| ==> c[i].0 < c[i].1 <= c[i].0 + maxFrames)
      && (forall i :: 0 <= i < |c| - 1 ==> c[i].1 == c[i].0 + maxFrames)
      && (forall i :: 0 <= i < |c| - 1 ==> c[i].1 == c[i + 1].0)
    decreases frames - start
  {
    var c := Chunks(start, frames, maxFrames);
    if start < frames {
      var next := Min(start + maxFrames, frames);
      ChunksOrdered(next, frames, maxFrames);
      var rest := Chunks(next, frames, maxFrames);
      assert c == [(start, next)] + Chunks(start + maxFrames, frames, maxFrames);
      assert c == [(start, next)] + rest;
      assert forall i :: 1 <= i < |c| ==> c[i] == rest[i - 1];
    }
  }

  /** A later chunk starts no earlier than an earlier one ends. */
  ghost predicate Increasing(c: seq<(int, int)>)
  {
    forall i, j :: 0 <= i < j < |c| ==> c[i].1 <= c[j].0
  }

  /** The chunks come in order. */
  lemma {:induction false} ChunksIncrease(start: int, frames: int, maxFrames: int)
    requires 1 <= maxFrames && start <= frames
    ensures Increasing(Chunks(start, frames, maxFrames))
    decreases frames - start
  {
    var c := Chunks(start, frames, maxFrames);
    if start < frames {
      var next := Min(start + maxFrames, frames);
      ChunksIncrease(next, frames, maxFrames);
      var rest := Chunks(next, frames, maxFrames);
      assert c == [(start, next)] + Chunks(start + maxFrames, frames, maxFrames);
      assert c == [(start, next)] + rest;
      forall i, j | 0 <= i < j < |c|
        ensures c[i].1 <= c[j].0
      {
        assert c[j] == rest[j - 1];
        if 0 < i {
          assert c[i] == rest[i - 1];
        } else if 1 < j {
          assert rest[0] == (next, Min(next + maxFrames, frames));
          assert rest[0].1 <= rest[j - 1].0;
        }
      }
    }
  }

  /** Every frame from start on lies in some chunk. */
  lemma {:induction false} ChunksCover(start: int, frames: int, maxFrames: int)
    requires 1 <= maxFrames && start <= frames
    ensures forall f :: start <= f < frames ==> Covered(Chunks(start, frames, maxFrames), f)
    decreases frames - start
  {
    var c := Chunks(start, frames, maxFrames);
    if start < frames {
      var next := Min(start + maxFrames, frames);
      ChunksCover(next, frames, maxFrames);
      var rest := Chunks(next, frames, maxFrames);
      forall f | start <= f < frames
        ensures Covered(c, f)
      {
        if f >= next {
          assert Covered(rest, f);
          var k :| InChunk(rest, k, f);
          assert c[k + 1] == rest[k];
          assert InChunk(c, k + 1, f);
        } else {
          assert InChunk(c, 0, f);
        }
      }
    }
  }

  /**
   * The chunks of `range(0, t, maxFrames)` partition the frames: they are
   * non-empty, hold at most maxFrames frames (all but the last exactly
   * maxFrames), come in order without overlap,
   * start at the first frame and end at the last one, and every frame lies in
   * exactly one of them.
   */
  lemma ChunksPartition(frames: int, maxFrames: int)
    requires 1 <= maxFrames && 0 <= frames
    ensures var c := Chunks(0, frames, maxFrames);
      && (c == [] <==> frames == 0)
      && (c != [] ==> c[0].0 == 0 && c[|c| - 1].1 == frames)
      && (forall i :: 0 <= i < |c| ==> c[i].0 < c[i].1 <= c[i].0 + maxFrames)
      && (forall i :: 0 <= i < |c| - 1 ==> c[i].1 == c[i].0 + maxFrames)
      && (forall i :: 0 <= i < |c| - 1 ==> c[i].1 == c[i + 1].0)
      && (forall f :: 0 <= f < frames ==> Covered(c, f))
      && (forall i, j, f :: InChunk(c, i, f) && InChunk(c, j, f) ==> i == j)
  {
    ChunksOrdered(0, frames, maxFrames);
    ChunksIncrease(0, frames, maxFrames);
    ChunksCover(0, frames, maxFrames);
    var c := Chunks(0, frames, maxFrames);
    forall i, j, f | InChunk(c, i, f) && InChunk(c, j, f)
      ensures i == j
    {
    }
  }

  /**
   * `_mono_iterations`: the probability buffer holds the classifier output of
   * every row, whatever the chunk size. Inside the loop, pass k writes the
   * frames of `Chunks(0, frames, maxFrames)[k]` and the ghost `writes`
   * counts the writes per slot; the loop ends after the last chunk. A chunk size of zero makes
   * `range` raise ValueError before anything is written.
   */
  method MonoIterations<R>(rows: seq<R>, frames: nat, imgSize: nat, maxFrames: nat, clf: R -> real)
    returns (r: Result<array<real>>, ghost writes: seq<nat>)
    requires |rows| == frames * imgSize
    ensures r.Err? <==> maxFrames == 0
    ensures r.Err? ==> r.error == ValueError
    ensures r.Ok? ==> r.value.Length == |rows| && r.value[..] == Classified(clf, rows)
    ensures r.Ok? ==> |writes| == |rows| && forall i :: 0 <= i < |rows| ==> writes[i] == 1
  {
    var proba := new real[|rows|];
    writes := seq(|rows|, _ => 0);
    if maxFrames == 0 {
      return Err(ValueError), writes;
    }
    var start := 0;
    ghost var chunks, k := Chunks(0, frames, maxFrames), 0;
    while start < frames
      invariant 0 <= start && AtChunk(chunks, k, start, frames, maxFrames)
      invariant proba.Length == |rows| == |writes|
      invariant Written(proba[..], writes, rows, clf, Min(start, frames) * imgSize)
    {
      NextChunk(chunks, k, start, frames, maxFrames);
      writes := ClassifyChunk(proba, rows, clf, frames, imgSize, maxFrames, start, writes);
      start, k := start + maxFrames, k + 1;
    }
    LastChunk(chunks, k, start, frames, maxFrames);
    MulLe(frames, Min(start, frames), imgSize);
    r := Ok(proba);
  }

  /** The first `upTo` slots hold their rows' classifier outputs and were written once; the others were not written. */
  ghost predicate Written<R>(proba: seq<real>, writes: seq<nat>, rows: seq<R>, clf: R -> real, upTo: int)
  {
    && upTo <= |proba| == |writes| == |rows|
    && (forall i :: 0 <= i < upTo ==> proba[i] == clf(rows[i]))
    && (forall i :: 0 <= i < |rows| ==> writes[i] == if i < upTo then 1 else 0)
  }

  /**
   * One pass of the loop of `_mono_iterations`: the frames
   * [start, min(start + maxFrames, frames)) are classified, their slots
   * written, and the written prefix grows to the end of the chunk.
   */
  method ClassifyChunk<R>(proba: array<real>, rows: seq<R>, clf: R -> real, frames: nat, imgSize: nat, maxFrames: nat,
                          start: nat, ghost writes: seq<nat>)
    returns (ghost writes': seq<nat>)
    requires 1 <= maxFrames && start < frames && |rows| == frames * imgSize
    requires Written(proba[..], writes, rows, clf, start * imgSize)
    modifies proba
    ensures Written(proba[..], writes', rows, clf, Min(start + maxFrames, frames) * imgSize)
    ensures forall i :: 0 <= i < proba.Length && !(start * imgSize <= i < Min(start + maxFrames, frames) * imgSize) ==>
              proba[i] == old(proba[i])
    ensures |writes'| == |writes| && forall i :: 0 <= i < |writes| ==>
              writes'[i] == writes[i] + if start * imgSize <= i < Min(start + maxFrames, frames) * imgSize then 1 else 0
  {
    var low, high := start, Min(start + maxFrames, frames);
    MulLe(low, high, imgSize);
    MulLe(high, frames, imgSize);
    WriteChunk(proba, rows, clf, low * imgSize, high * imgSize);
    writes' := seq(|writes|, i requires 0 <= i < |writes| =>
      writes[i] + if low * imgSize <= i < high * imgSize then 1 else 0);
  }

  /** The chunks from `start` on are the chunks of the list from position k on. */
  ghost predicate AtChunk(chunks: seq<(int, int)>, k: int, start: int, frames: int, maxFrames: int)
    requires 1 <= maxFrames
  {
    0 <= k <= |chunks| && Chunks(start, frames, maxFrames) == chunks[k..]
  }

  /** The chunk the loop of `_mono_iterations` is at is the next one of the list, and the rest follow it. */
  lemma NextChunk(chunks: seq<(int, int)>, k: int, start: int, frames: int, maxFrames: int)
    requires 1 <= maxFrames && start < frames && AtChunk(chunks, k, start, frames, maxFrames)
    ensures k < |chunks| && chunks[k] == (start, Min(start + maxFrames, frames))
    ensures AtChunk(chunks, k + 1, start + maxFrames, frames, maxFrames)
  {
    assert chunks[k..] == [chunks[k]] + chunks[k + 1..];
  }

  /** Once `start` has passed the last frame, every chunk of the list has been visited. */
  lemma LastChunk(chunks: seq<(int, int)>, k: int, start: int, frames: int, maxFrames: int)
    requires 1 <= maxFrames && frames <= start && AtChunk(chunks, k, start, frames, maxFrames)
    ensures k == |chunks|
  {
    assert chunks[k..] == [];
  }

  /**
   * `mono_proba[nt_min*img_size:nt_max*img_size] = ...`: the rows of one
   * chunk are classified together and land at their own positions; nothing
   * else in the buffer changes.
   */
  method WriteChunk<R>(proba: array<real>, rows: seq<R>, clf: R -> real, lo: int, hi: int)
    requires 0 <= lo <= hi <= |rows| == proba.Length
    modifies proba
    ensures forall i :: lo <= i < hi ==> proba[i] == clf(rows[i])
    ensures forall i :: 0 <= i < proba.Length && !(lo <= i < hi) ==> proba[i] == old(proba[i])
  {
    var out := Classified(clf, rows[lo..hi]);
    forall i | 0 <= i < |out| {
      proba[lo + i] := out[i];
    }
  }
}
