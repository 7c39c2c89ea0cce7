/**
 * The clean-up at the end of `AddCloudMaskTask._make_request`: downloads that
 * failed come back as None, and their positions are deleted, from the last
 * to the first, both from the returned payloads and from the list of
 * acquisition dates. Payloads and dates are opaque values.
 */
module Request {
  import opened Outcomes
  import opened Neighbours

  /** The payloads that were downloaded, in their original order. */
  function Present<V>(values: seq<Option<V>>): (r: seq<Option<V>>)
    ensures |r| <= |values|
    ensures forall k :: 0 <= k < |r| ==> r[k].Some?
  {
    if values == [] then []
    else (if values[0].None? then [] else [values[0]]) + Present(values[1..])
  }

  /** The dates whose position does not hold a failed download, in their original order. */
  function DatesKept<V, D>(values: seq<Option<V>>, dates: seq<D>): (r: seq<D>)
    ensures |r| <= |dates|
  {
    if dates == [] then []
    else
      (if values != [] && values[0].None? then [] else [dates[0]])
      + DatesKept(if values == [] then [] else values[1..], dates[1..])
  }

  /** Positions of the downloaded payloads, in increasing order. */
  function KeptIndices<V>(values: seq<Option<V>>): (r: seq<nat>)
    ensures |r| <= |values|
    ensures forall k :: 0 <= k < |r| ==> r[k] < |values| && values[r[k]].Some?
    ensures forall k, l :: 0 <= k < l < |r| ==> r[k] < r[l]
  {
    if values == [] then []
    else (if values[0].None? then [] else [0]) + Shift(KeptIndices(values[1..]))
  }

  /** Every position moved up by one, as after dropping the first entry of the list they index. */
  function Shift(idx: seq<nat>): (r: seq<nat>)
    ensures |r| == |idx| && forall k :: 0 <= k < |idx| ==> r[k] == idx[k] + 1
  {
    seq(|idx|, k requires 0 <= k < |idx| => idx[k] + 1)
  }

  /** Entry k of `kept` is entry `idx[k]` of `all`. */
  ghost predicate Picks<T>(kept: seq<T>, all: seq<T>, idx: seq<nat>)
  {
    |kept| == |idx| && forall k :: 0 <= k < |idx| ==> idx[k] < |all| && kept[k] == all[idx[k]]
  }

  /** Picking from the tail, and optionally the head first, is picking from the whole list with shifted positions. */
  lemma PicksCons<T>(kept: seq<T>, all: seq<T>, idx: seq<nat>, head: bool)
    requires all != [] && Picks(kept, all[1..], idx)
    ensures Picks((if head then [all[0]] else []) + kept, all, (if head then [0] else []) + Shift(idx))
  {
    var off := if head then 1 else 0;
    var k2, i2 := (if head then [all[0]] else []) + kept, (if head then [0] else []) + Shift(idx);
    forall k | off <= k < |i2|
      ensures i2[k] < |all| && k2[k] == all[i2[k]]
    {
      assert k2[k] == kept[k - off] && i2[k] == idx[k - off] + 1;
    }
  }

  /** Entry k of the remaining payloads is the payload at the k-th successful position. */
  lemma {:induction false} PresentAt<V>(values: seq<Option<V>>)
    ensures Picks(Present(values), values, KeptIndices(values))
  {
    if values != [] {
      PresentAt(values[1..]);
      PicksCons(Present(values[1..]), values, KeptIndices(values[1..]), values[0].Some?);
    }
  }

  /** For a date list as long as the payloads, entry k of the remaining dates is the date at the k-th successful position. */
  lemma {:induction false} DatesKeptAt<V, D>(values: seq<Option<V>>, dates: seq<D>)
    requires |values| == |dates|
    ensures Picks(DatesKept(values, dates), dates, KeptIndices(values))
  {
    if values != [] {
      DatesKeptAt(values[1..], dates[1..]);
      PicksCons(DatesKept(values[1..], dates[1..]), dates, KeptIndices(values[1..]), values[0].Some?);
    }
  }

  /**
   * The filter keeps the payloads and the dates in lockstep: for equally long
   * lists, entry k of both results comes from the same position, the k-th
   * successful download.
   */
  lemma Lockstep<V, D>(values: seq<Option<V>>, dates: seq<D>)
    requires |values| == |dates|
    ensures var idx := KeptIndices(values);
            && |Present(values)| == |DatesKept(values, dates)| == |idx|
            && forall k :: 0 <= k < |idx| ==> Present(values)[k] == values[idx[k]] && DatesKept(values, dates)[k] == dates[idx[k]]
  {
    PresentAt(values);
    DatesKeptAt(values, dates);
  }

  /** Every successful download survives: the filter drops exactly the failures. */
  lemma {:induction false} PresentKeepsAll<V>(values: seq<Option<V>>, i: int)
    requires 0 <= i < |values| && values[i].Some?
    ensures exists k :: 0 <= k < |KeptIndices(values)| && KeptIndices(values)[k] == i
  {
    if i == 0 {
      assert KeptIndices(values)[0] == 0;
    } else {
      PresentKeepsAll(values[1..], i - 1);
      var k :| 0 <= k < |KeptIndices(values[1..])| && KeptIndices(values[1..])[k] == i - 1;
      var off := if values[0].None? then 0 else 1;
      assert KeptIndices(values)[k + off] == i;
    }
  }

  /** With no failed download there is nothing to remove. */
  lemma {:induction false} PresentNoFailures<V, D>(values: seq<Option<V>>, dates: seq<D>)
    requires forall i :: 0 <= i < |values| ==> values[i].Some?
    ensures Present(values) == values
    ensures DatesKept(values, dates) == dates
  {
    if values != [] {
      PresentNoFailures(values[1..], dates);
      assert values == [values[0]] + values[1..];
    }
    DatesKeptNoFailures(values, dates);
  }

  /** With no failed download every date remains, however long the date list is. */
  lemma {:induction false} DatesKeptNoFailures<V, D>(values: seq<Option<V>>, dates: seq<D>)
    requires forall i :: 0 <= i < |values| ==> values[i].Some?
    ensures DatesKept(values, dates) == dates
  {
    if dates != [] {
      var rest := if values == [] then [] else values[1..];
      assert forall i :: 0 <= i < |rest| ==> rest[i] == values[i + 1];
      DatesKeptNoFailures(rest, dates[1..]);
      assert dates == [dates[0]] + dates[1..];
    }
  }

  /** One step of the loop on the payloads: position i is dropped exactly when it failed. */
  lemma StepValues<V>(values: seq<Option<V>>, i: int)
    requires 0 <= i < |values|
    ensures var before := values[..i + 1] + Present(values[i + 1..]);
            var after := values[..i] + Present(values[i..]);
            if values[i].None? then |before| > i && after == Delete(before, i) else after == before
  {
    assert values[i..] == [values[i]] + values[i + 1..];
    assert values[..i + 1] == values[..i] + [values[i]];
  }

  /** One step of the loop on the dates, for a position the dates reach. */
  lemma StepDates<V, D>(values: seq<Option<V>>, dates: seq<D>, i: int)
    requires 0 <= i < |values| && i < |dates|
    ensures var before := dates[..i + 1] + DatesKept(values[i + 1..], dates[i + 1..]);
            var after := dates[..i] + DatesKept(values[i..], dates[i..]);
            if values[i].None? then |before| > i && after == Delete(before, i) else after == before
  {
    assert values[i..] == [values[i]] + values[i + 1..];
    assert dates[i..] == [dates[i]] + dates[i + 1..];
    assert dates[..i + 1] == dates[..i] + [dates[i]];
  }

  /**
   * The loop over `reversed(sorted(bad_data))`. Deleting from the back keeps
   * every smaller position pointing at its original entry, so the result is
   * the order-preserving filter of both lists. The warning for a failure reads
   * its date first, so a failure at a position the dates do not reach raises
   * IndexError; the largest failed position is the first one visited.
   * Position i of the payloads is taken to be position i of the dates; when
   * the download was filtered that is not so (see RemoveFailuresAligned).
   */
  method RemoveFailures<V, D>(values: seq<Option<V>>, dates: seq<D>) returns (r: Result<(seq<Option<V>>, seq<D>)>)
    ensures r.Err? <==> exists i :: |dates| <= i < |values| && values[i].None?
    ensures r.Err? ==> r.error == IndexError
    ensures r.Ok? ==> r.value.0 == Present(values) && r.value.1 == DatesKept(values, dates)
  {
    var vs, ds := values, dates;
    var idx := |values|;
    if idx <= |dates| {
      PresentNoFailures(values[idx..], dates[idx..]);
    }
    while idx > 0
      invariant 0 <= idx <= |values|
      invariant vs == values[..idx] + Present(values[idx..])
      invariant forall i :: idx <= i < |values| && |dates| <= i ==> values[i].Some?
      invariant |dates| <= idx ==> ds == dates
      invariant idx <= |dates| ==> ds == dates[..idx] + DatesKept(values[idx..], dates[idx..])
    {
      idx := idx - 1;
      StepValues(values, idx);
      if idx < |dates| {
        StepDates(values, dates, idx);
      }
      if values[idx].None? {
        if idx >= |ds| {
          return Err(IndexError);
        }
        vs := Delete(vs, idx);
        ds := Delete(ds, idx);
      }
    }
    assert values[..0] == [] && values[0..] == values && dates[0..] == dates;
    return Ok((vs, ds));
  }
  /**
   * The download filter of lines 241-243: payloads are fetched only for the
   * dates at the positions `keep`, so payload k belongs to date `dates[keep[k]]`.
   */
  function Selected<D>(dates: seq<D>, keep: seq<nat>): seq<D>
    requires forall k :: 0 <= k < |keep| ==> keep[k] < |dates|
  {
    seq(|keep|, k requires 0 <= k < |keep| => dates[keep[k]])
  }

  /**
   * The removal the caller needs when the download was filtered: a failed
   * payload takes its own date with it, and dates that were never
   * downloaded do not remain, so the k-th remaining payload and the k-th
   * remaining date come from the same download.
   */
  function RemoveFailuresAligned<V, D>(values: seq<Option<V>>, dates: seq<D>, keep: seq<nat>): (r: (seq<Option<V>>, seq<D>))
    requires |values| == |keep| && forall k :: 0 <= k < |keep| ==> keep[k] < |dates|
    ensures var idx := KeptIndices(values);
            && |r.0| == |r.1| == |idx|
            && forall k :: 0 <= k < |idx| ==> r.0[k] == values[idx[k]] && r.1[k] == dates[keep[idx[k]]]
  {
    var downloaded := Selected(dates, keep);
    PresentAt(values);
    DatesKeptAt(values, downloaded);
    (Present(values), DatesKept(values, downloaded))
  }

  /**
   * The loop of lines 244-248 when a date is filtered out: of the dates 10
   * and 20 only 20 is downloaded, and that download fails. The loop deletes
   * position 0 of both lists, so date 10, which was never downloaded, goes
   * and the failed date 20 stays beside no payload at all; the aligned
   * removal keeps neither.
   */
  lemma MisalignedDates()
    ensures Selected([10, 20], [1]) == [20]
    ensures Present<int>([None]) == []
    ensures DatesKept<int, int>([None], [10, 20]) == [20]
    ensures RemoveFailuresAligned<int, int>([None], [10, 20], [1]) == ([], [])
  {
    assert DatesKept<int, int>([None], [10, 20]) == [] + DatesKept<int, int>([], [20]);
  }
}
