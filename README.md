# InterSSIM cloud masking: a verified model of its discrete core

This project models the discrete core of `AddMultiCloudMaskTask` from eo-learn's
`mask` package. The task detects clouds in a time series of Sentinel-2
images in two ways:

- a single-frame ("mono") classifier that sees one pixel of one frame at a time;
- a multi-temporal classifier whose per-pixel features compare each frame with
  the frames of a temporal window around it, using SSIM statistics,
  temporal minima and means, and differences.

From the requested outputs, `execute` decides which classifiers run. It then
thresholds, intersects, dilates and masks their probability maps.

The model keeps the indexing, the windowing, the incremental window
statistics, the neighbour selection, the feature layout, the chunked and
per-frame buffer writes, and the output logic. Everything numeric is a
function parameter, except the `diff_mean` feature (line 685), which is
computed in exact reals without the float32/float64 rounding of the source.
That covers:

- Gaussian blurs and the per-frame local mean and variance;
- the SSIM formula and the masked reductions;
- the two classifiers;
- averaging and dilation.

Modules:

- `Outcomes`: `Option`, `Result` and the exceptions the code can raise (`IndexError`, `ValueError`, `ZeroDivisionError`).
- `FrameWindow`: `_frame_indices`, the window `[low, high)` around a target frame and the target's offset `rel` in it.
- `WindowStats`: the `loc_mu`/`loc_var` buffers of `_multi_iterations`. They are a class over two arrays. They are filled completely for the first frame. When the window moves, they are shifted left by one in place and only the entering frame is computed. The class is proved to hold, after every step, exactly the statistics a full recomputation gives.
- `Neighbours`: `_ssim_stats`. It removes the target with `np.delete` and builds the joint validity of each neighbour and the target. Nested loops reduce the per-neighbour SSIM maps band by band.
- `Features`: the per-pixel feature vector of 9·B values and its interleaved blocks, with their inverse. It also shows that, where every frame of the window is valid at the pixel, the `diff_mean` shortcut is the target minus the mean of the other frames, and that it is not where a frame is masked.
- `MonoDriver`: `_mono_iterations`, which classifies chunks of at most `max_proc_frames` frames into a flat buffer.
- `MultiDriver`: `_multi_iterations`, which scores frame after frame into a flat buffer using the incremental window statistics.
- `CloudMasks`: `execute`. It dispatches to the drivers, thresholds the averaged probabilities, intersects the masks, dilates them and masks everything with `is_data`.
- `Request`: the removal of failed downloads at the end of `AddCloudMaskTask._make_request`.

## Model

| member | source | states |
|---|---|---|
| FrameWindow.FrameIndices | mask/eolearn/mask/cloud_mask.py:428-447 | `rel` is the target's offset from `low`. For a target inside the sequence and a non-negative window size, `0 <= low <= high <= numFrames` and the window holds `min(max_proc_frames, numFrames)` frames. For a window size of at least one, the target lies inside it. |
| FrameWindow.Consecutive | mask/eolearn/mask/cloud_mask.py:646-662 | For consecutive targets, the window either stays put or both bounds move up by exactly one, which is the only change the in-place shift branch handles. |
| WindowStats.Means | mask/eolearn/mask/cloud_mask.py:631-639 | Entry k of the full recomputation is the local mean of window frame k. |
| WindowStats.Variances | mask/eolearn/mask/cloud_mask.py:641-644 | Entry k of the full recomputation is the abstract `prevar` applied to window frame k and its own local mean (the squaring and subtraction are inside `prevar`). |
| WindowStats.SlideMeans | mask/eolearn/mask/cloud_mask.py:646-662 | The statistics of a window moved up by one are the old ones without the first, followed by those of the entering frame. |
| WindowStats.LocalStats.constructor | mask/eolearn/mask/cloud_mask.py:610-618 | The buffers start empty (`loc_mu is None`) over the given frames and window size. |
| WindowStats.LocalStats.Fill | mask/eolearn/mask/cloud_mask.py:631-644 | New arrays hold the local mean and the variance of every frame of the window, in order. |
| WindowStats.LocalStats.Recompute | mask/eolearn/mask/cloud_mask.py:631-644 | On the first step, fresh buffers hold the means and variances of every frame of `[low, high)`, and the bounds are stored. |
| WindowStats.LocalStats.Slide | mask/eolearn/mask/cloud_mask.py:655-662 | Each buffer is shifted left by one in place, and its last entry becomes the entering frame's statistic. |
| WindowStats.LocalStats.Advance | mask/eolearn/mask/cloud_mask.py:646-662 | Moving the window up by one keeps the buffers (same arrays) equal to the full recomputation over the new window. |
| WindowStats.LocalStats.Update | mask/eolearn/mask/cloud_mask.py:620-662 | For the next target, the window is `_frame_indices` of it and the buffers equal the full recomputation over that window. After the first step the same two arrays are kept: they are updated in place (lines 655-662) or left alone, never reallocated. |
| Neighbours.Delete | mask/eolearn/mask/cloud_mask.py:547-549 | Removing the target leaves n−1 entries: neighbour j is window frame j before the target and frame j+1 after it. |
| Neighbours.DeleteRestore | mask/eolearn/mask/cloud_mask.py:547-549 | Re-inserting the removed entry at its place gives back the window. |
| Neighbours.JointValidity | mask/eolearn/mask/cloud_mask.py:554 | There are n−1 validity masks, and neighbour j is valid at a pixel iff it and the target are both valid there. |
| Neighbours.LocalSsim | mask/eolearn/mask/cloud_mask.py:559-569 | Band b has one SSIM map per neighbour, comparing the target with that neighbour and its statistics. |
| Neighbours.SsimStats | mask/eolearn/mask/cloud_mask.py:541-577 | The nested loops give, for every band, the masked max, mean and std of that band's neighbour SSIM maps under the joint validity. Stacking no maps (a one-frame window with bands) raises ValueError. |
| Features.Interleave2 | mask/eolearn/mask/cloud_mask.py:676-689 | Two per-band maps interleaved give twice as many values. |
| Features.Interleave3 | mask/eolearn/mask/cloud_mask.py:667-670 | Three per-band maps interleaved give three times as many values. |
| Features.Deinterleave2 | mask/eolearn/mask/cloud_mask.py:676-689 | The even and odd positions split a block back into two equally long maps. |
| Features.Deinterleave3 | mask/eolearn/mask/cloud_mask.py:667-670 | Positions 0, 1 and 2 modulo 3 split a block back into three equally long maps. |
| Features.Interleave2At | mask/eolearn/mask/cloud_mask.py:676-689 | Position 2b holds the first map's band b (`0::2`) and position 2b+1 the second's (`1::2`). |
| Features.Interleave3At | mask/eolearn/mask/cloud_mask.py:668-670 | Positions 3b, 3b+1 and 3b+2 hold the max, mean and std of band b (`0::3`, `1::3`, `2::3`). |
| Features.Deinterleave2Interleave2 | mask/eolearn/mask/cloud_mask.py:676-689 | Splitting an interleaved pair gives back both maps. |
| Features.Interleave2Deinterleave2 | mask/eolearn/mask/cloud_mask.py:676-689 | Interleaving the two halves of a split block gives back the block. |
| Features.Deinterleave3Interleave3 | mask/eolearn/mask/cloud_mask.py:667-670 | Splitting an interleaved triple gives back all three maps. |
| Features.Interleave3Deinterleave3 | mask/eolearn/mask/cloud_mask.py:667-670 | Interleaving the three parts of a split block gives back the block. |
| Features.FeatureVector | mask/eolearn/mask/cloud_mask.py:691-701 | A pixel's feature vector has 9·B values. |
| Features.Unpack | mask/eolearn/mask/cloud_mask.py:691-701 | A vector of 9·B values splits into the nine per-band parts of the layout. |
| Features.FeatureLayout | mask/eolearn/mask/cloud_mask.py:667-701 | Band b's value sits at b and its local mean at B+b. Its SSIM max, mean and std sit at 2B+3b+{0,1,2}, its temporal min and mean at 5B+2b+{0,1}, and its diff max and mean at 7B+2b+{0,1}. |
| Features.UnpackFeatureVector | mask/eolearn/mask/cloud_mask.py:691-701 | Unpacking a feature vector gives back every part, so the layout loses nothing. |
| Features.DiffMean | mask/eolearn/mask/cloud_mask.py:681-685 | The shortcut fails with ZeroDivisionError exactly for a one-frame window (`t_rest == 0`). |
| Features.DiffMeanIsTargetMinusRest | mask/eolearn/mask/cloud_mask.py:681-685 | For a window of at least two frames, every one of them valid at the pixel, the shortcut equals the target minus the mean of the other frames. |
| Features.DiffMeanWithMaskedFrame | mask/eolearn/mask/cloud_mask.py:674-685 | With three frames of which one is masked at the pixel, the shortcut is three quarters of the target minus the other valid frame, so it differs from that difference whenever the two values differ. |
| MonoDriver.Classified | mask/eolearn/mask/cloud_mask.py:592-598 | The classifier output for row i sits at position i. |
| MonoDriver.Chunks | mask/eolearn/mask/cloud_mask.py:587-591 | The chunks of `range(start, t, m)` with ends `min(t_i + m, t)`: there are none iff start has reached t, and otherwise the first begins at start and the last ends at t. |
| MonoDriver.ChunksOrdered | mask/eolearn/mask/cloud_mask.py:587-591 | From any start, the chunks are non-empty and at most m long, every one but the last is exactly m long, and each begins where the one before it ends. |
| MonoDriver.ChunksIncrease | mask/eolearn/mask/cloud_mask.py:587-591 | A later chunk starts no earlier than an earlier one ends, so the chunks do not overlap. |
| MonoDriver.ChunksCover | mask/eolearn/mask/cloud_mask.py:587-591 | Every frame from the start on lies in some chunk. |
| MonoDriver.ChunksPartition | mask/eolearn/mask/cloud_mask.py:587-591 | The chunks of `range(0, t, m)` partition the frames. They are non-empty, at most m long (all but the last exactly m), contiguous and in order, start at 0 and end at t, and every frame lies in exactly one of them. |
| MonoDriver.WriteChunk | mask/eolearn/mask/cloud_mask.py:594-598 | The slots of a chunk receive the classifier output for their own rows, and the rest of the buffer is unchanged. |
| MonoDriver.ClassifyChunk | mask/eolearn/mask/cloud_mask.py:587-598 | One loop pass classifies the frames `[t_i, min(t_i + m, t))`: the written prefix of the buffer grows to the end of the chunk, each new slot holding its own row's output. Every slot outside the chunk keeps its old value, and the write count rises by one exactly on the chunk's slots. |
| MonoDriver.MonoIterations | mask/eolearn/mask/cloud_mask.py:579-600 | For every chunk size m ≥ 1 the final buffer holds, at every flat slot, the classifier output for its own row. A chunk size of 0 raises ValueError before anything is written. |
| MultiDriver.FrameScores | mask/eolearn/mask/cloud_mask.py:620-704 | The reference for frame t has one score per pixel, computed from statistics recomputed in full over the window of t. |
| MultiDriver.ScoresFromStats | mask/eolearn/mask/cloud_mask.py:665-704 | Scoring frame t with statistics equal to the full recomputation over its window gives its reference scores. |
| MultiDriver.FilledStep | mask/eolearn/mask/cloud_mask.py:704 | Writing frame t's scores into its own slice, and nothing before it, keeps the earlier frames' slices and fills one more. |
| MultiDriver.WriteFrame | mask/eolearn/mask/cloud_mask.py:704 | The slice `[t*img_size, (t+1)*img_size)` receives frame t's scores, and every earlier frame keeps its slice. |
| MultiDriver.ScoreFrame | mask/eolearn/mask/cloud_mask.py:620-708 | One loop pass fails exactly for a window of fewer than two frames: IndexError when empty, ValueError for one frame. Otherwise the statistics are brought up to date for frame t and one more frame slice holds its reference scores. |
| MultiDriver.MultiIterations | mask/eolearn/mask/cloud_mask.py:602-710 | With the incremental statistics, slice t of the buffer equals the full-recomputation reference for every frame t. An empty window raises IndexError, and a one-frame window raises ValueError when the empty list of neighbour SSIM maps is stacked. |
| CloudMasks.AverageAll | mask/eolearn/mask/cloud_mask.py:529-533 | Averaging keeps every pixel in place. When the averaging size is unset or at most 0, no kernel is built (lines 402-410) and the probabilities pass through unchanged. |
| CloudMasks.DilateAll | mask/eolearn/mask/cloud_mask.py:535-539 | Dilation keeps every pixel in place. When the dilation size is unset or at most 0, no kernel is built (lines 402-410) and the mask passes through unchanged, and a dilation that keeps marked pixels loses none of the mask's pixels. |
| CloudMasks.Dispatch | mask/eolearn/mask/cloud_mask.py:733-754 | The multi-temporal classifier runs iff a multi output or the intersection is requested. The single-frame one runs iff a mono output or the intersection is requested, or no multi-temporal output is. At least one always runs. |
| CloudMasks.Threshold | mask/eolearn/mask/cloud_mask.py:771-780 | A mask exists iff it or the intersection is requested, and a pixel is in it iff its averaged probability reaches the threshold (`>=`). The intersection is the pixelwise AND of both masks, so it is contained in each. |
| CloudMasks.Compose | mask/eolearn/mask/cloud_mask.py:782-801 | Each output exists iff its feature name is set. Every written mask is false where `is_data` is false, and every probability map equals the classifier's on valid pixels and 0 elsewhere. |
| CloudMasks.UndilatedMask | mask/eolearn/mask/cloud_mask.py:771-795 | Without a dilation kernel, the written intersection marks exactly the valid pixels whose averaged probabilities reach both thresholds. |
| CloudMasks.DilationKeepsClouds | mask/eolearn/mask/cloud_mask.py:782-795 | If the dilation never removes a pixel, every valid pixel of a thresholded mask or the intersection stays in the written mask. |
| CloudMasks.Execute | mask/eolearn/mask/cloud_mask.py:712-801 | The dispatched drivers run, multi-temporal first, and either one's exception ends `execute`. It fails iff a dispatched driver fails, and the exception is IndexError when the multi-temporal driver runs on frames with a window size of 0 (its error comes first), and ValueError otherwise. Otherwise the mono probabilities are the classifier's per row, each multi slice is its reference, and the outputs are composed from them. |
| Request.Present | mask/eolearn/mask/cloud_mask.py:244-248 | Only successful downloads remain. |
| Request.DatesKept | mask/eolearn/mask/cloud_mask.py:244-248 | No more dates remain than there were. |
| Request.KeptIndices | mask/eolearn/mask/cloud_mask.py:244 | The positions of the successful downloads are increasing, and each holds a payload. |
| Request.PresentAt | mask/eolearn/mask/cloud_mask.py:244-248 | Entry k of the remaining payloads is the payload at the k-th successful position. |
| Request.DatesKeptAt | mask/eolearn/mask/cloud_mask.py:244-248 | For equally long lists, entry k of the remaining dates is the date at the k-th successful position. |
| Request.Lockstep | mask/eolearn/mask/cloud_mask.py:244-248 | For equally long lists, entry k of the remaining payloads and of the remaining dates both come from the k-th successful position. |
| Request.PresentKeepsAll | mask/eolearn/mask/cloud_mask.py:244-248 | Every successful download survives the filter. |
| Request.PresentNoFailures | mask/eolearn/mask/cloud_mask.py:244-248 | Without failures, both lists are unchanged. |
| Request.DatesKeptNoFailures | mask/eolearn/mask/cloud_mask.py:244-248 | When no download failed, every date remains, whatever the length of the date list. |
| Request.StepValues | mask/eolearn/mask/cloud_mask.py:245-247 | Deleting position i of the partly filtered payloads, after all larger positions were handled, filters one more position. |
| Request.StepDates | mask/eolearn/mask/cloud_mask.py:245-248 | The same holds for the dates. |
| Request.RemoveFailures | mask/eolearn/mask/cloud_mask.py:244-250 | Deleting failed positions from the back gives the order-preserving filter of both lists, position by position. A failure at a position past the end of the dates raises IndexError when its date is read. |
| Request.RemoveFailuresAligned | mask/eolearn/mask/cloud_mask.py:241-250 | Payloads are fetched only for the dates at positions `keep` (`data_filter`, lines 241-243). With that filter taken into account, entry k of the remaining payloads and of the remaining dates both come from the k-th successful download, and no date that was not downloaded remains. |
| Request.MisalignedDates | mask/eolearn/mask/cloud_mask.py:241-248 | With dates 10 and 20, only 20 downloaded and that download failed, the loop as written keeps date 20 and drops 10, beside no payload; the aligned removal keeps neither. |

## Left out

- Gaussian blurs, `_win_avg`/`_win_prevar`, the `_red_ssim` formula and the masked reductions `_get_max`/`_get_min`/`_get_mean`/`_get_std` are floating-point numerics in OpenCV and numpy, so they are function parameters. The treatment of fully masked pixels is therefore not modelled.
- The classifiers (`joblib.load`, `predict_proba`) are opaque external models. They are a row-wise function (mono) and a per-frame scoring function of the window, its statistics, the target offset and the pixel (multi).
- MonoDriver.MonoIterations: the contract states only the final buffer. That the loop visits the chunks of `range(0, t, m)` in order, one per pass, and writes each slot once is kept as loop invariants (`AtChunk`, `Written`) and ghost write counts that the method keeps itself, not as a promise of the contract.
- MultiDriver.MultiIterations: the multi `score` parameter stands for the whole feature assembly of lines 665-701 together with `predict_proba`, so the driver never calls `Neighbours.SsimStats` or `Features.FeatureVector`; those are modelled and proved on their own. The one-frame ValueError of `MultiDriver.ScoreFrame` restates the error condition of `Neighbours.SsimStats` (stacking an empty neighbour list) and is not derived from it.
- Features.DiffMean: computed in exact reals. The float32/float64 rounding of line 685 is not modelled, so the equality of `Features.DiffMeanIsTargetMinusRest` holds exactly only in the model.
- Averaging (`_average`, `disk` kernels) and dilation (`cv2.dilate`) are shape-keeping function parameters. Only the decision of whether to apply them (`HasKernel`) is modelled.
- Resizing (`scale_factors`, `resize_images`, `_resize`), sigma derivation and `_get_rescale_factors`/`_upsampling` are not modelled: the model runs at the source resolution, so the `is_data` re-read at line 783 is the same mask the drivers saw.
- Arrays of shape (frames, rows, columns, bands) are flattened to one entry per pixel (and per frame) with bands inside the opaque values. The float32 casts and the reshape calls are not modelled.
- A negative `max_proc_frames` is not modelled: the window size is a `nat`.
- The OGC/WMS/WCS request building and downloading in `_make_request` is network I/O. Only the removal of failed downloads is modelled, and the logging is left out.
- Request.Lockstep: states the pairing of payloads with dates only for equally long lists. Lines 241-243 download payloads only for the common timestamps (`data_filter=download_frames`) while `request_dates` keeps every date, so the positions of the two lists agree only when no date is filtered out; see Findings. `get_common_timestamps` and `get_data` are not part of this model; they are taken to return positions into the date list and one payload per kept position.
- EOPatch reads and writes and the constructor's classifier loading are left out. The band selection (`band_indices`) is reduced to the number of bands in `Neighbours`. The drivers take bands to be present, as `band_indices` always selects ten (line 363); what a band-less run would raise depends on `map_over_axis`, which is not part of this model.
- Features.DiffMeanIsTargetMinusRest: holds only where every frame of the window is valid at the pixel. The temporal mean (line 674) is over the valid frames while `t_all` and `t_rest` (lines 681-682) count every frame, so with masked frames the shortcut is not the target minus the mean of the other valid frames (Features.DiffMeanWithMaskedFrame). The classifier is trained on the feature as computed, so this is recorded and not corrected.
- MultiDriver.MultiIterations: the temporal min and mean and the diff max over the masked window are part of the opaque scoring function. Only the `diff_mean` shortcut is related to its intended meaning, in Features.DiffMeanIsTargetMinusRest.

## Findings

| source | as written | input that shows it | evidently intended | confidence | as-written member | corrected member |
|---|---|---|---|---|---|---|
| mask/eolearn/mask/cloud_mask.py:241-248 | The payloads are downloaded only for the common timestamps, one per position of `download_frames`, but a failed payload's position is deleted from the full `request_dates` list. | Dates 10 and 20, of which only 20 is a patch timestamp, and its download fails: date 10 is deleted and date 20 stays, beside an empty payload list. | Delete the failed payload's own date and keep only downloaded dates, so that the returned dates pair up with the returned payloads for `consolidate_timestamps` (line 266). | medium; not executed; rests on `get_common_timestamps` returning positions and `get_data` returning one payload per kept position | Request.RemoveFailures, Request.MisalignedDates | Request.RemoveFailuresAligned |
