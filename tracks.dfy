/**
 * Keyframe tracks: which keyframe interval a sample time falls in, found
 * either by a partition-point search over the key times or by a short scan
 * from a cursor left by the previous sample, and which values the sample
 * then reads. Key times are compared only with `<=`, `<` and `>=`, so they
 * are modelled as integers; the interpolation weight and the interpolation
 * itself are floating point and are left out.
 */
module Tracks {
  import opened Wrappers

  datatype InterpolationMode = Linear | Step | CubicSpline

  /** How many intervals the cursor scan tries in each direction after the cursor's own. */
  const MAX_SCAN_OFFSET: nat := 3

  /** A track: its key times, how many values it holds, and its interpolation mode. */
  datatype Track = Track(times: seq<int>, valueCount: nat, mode: InterpolationMode)

  /** The values a sample reads, by position in the value vector. */
  datatype Reads =
    | Value(at: nat)
    | Lerp(from: nat, to: nat)
    | Cubic(value0: nat, outTangent0: nat, inTangent1: nat, value1: nat)

  /** An empty track panics; so does reading the key time at a cursor past the end. */
  datatype TrackError = EmptyTrack | TimeIndexOutOfBounds(index: nat)

  /** Key times in non-decreasing order, as glTF requires of animation samplers. */
  ghost predicate Sorted(times: seq<int>)
  {
    forall a, b :: 0 <= a < b < |times| ==> times[a] <= times[b]
  }

  /** `get_value_at`: a cubic-spline keyframe stores in-tangent, value, out-tangent; the value is the middle one. */
  function ValueIndex(mode: InterpolationMode, index: nat): (r: nat)
    ensures mode == CubicSpline ==> r == 3 * index + 1 && r % 3 == 1
    ensures mode != CubicSpline ==> r == index
  {
    if mode == CubicSpline then index * 3 + 1 else index
  }

  /**
   * `sample_at_frame`: at or past the last interval the last keyframe's
   * value; otherwise the interval's left value for `Step`, both values for
   * `Linear`, and both values with the two inner tangents for `CubicSpline`.
   */
  function SampleAtFrame(tr: Track, index: nat): (r: Reads)
    requires |tr.times| > 0
    ensures index >= |tr.times| - 1 ==> r == Value(ValueIndex(tr.mode, |tr.times| - 1))
    ensures index < |tr.times| - 1 && tr.mode == Step ==> r == Value(index)
    ensures index < |tr.times| - 1 && tr.mode == Linear ==> r == Lerp(index, index + 1)
    ensures index < |tr.times| - 1 && tr.mode == CubicSpline ==>
              r == Cubic(ValueIndex(CubicSpline, index), 3 * index + 2, 3 * (index + 1), ValueIndex(CubicSpline, index + 1))
  {
    var len := |tr.times|;
    if index >= len - 1 then Value(ValueIndex(tr.mode, len - 1))
    else
      match tr.mode
      case Step => Value(ValueIndex(tr.mode, index))
      case Linear => Lerp(ValueIndex(tr.mode, index), ValueIndex(tr.mode, index + 1))
      case CubicSpline =>
        var prev, next := index * 3, (index + 1) * 3;
        Cubic(prev + 1, prev + 2, next, next + 1)
  }

  // ---------------------------------------------------------------------
  // The partition-point search

  /** `partition_point(|&t| t <= time)`: the length of the leading run of key times at or before `time`. */
  function PartitionPoint(times: seq<int>, time: int): (p: nat)
    ensures p <= |times|
    ensures forall j :: 0 <= j < p ==> times[j] <= time
    ensures p < |times| ==> times[p] > time
    decreases |times|
  {
    if times == [] || times[0] > time then 0 else 1 + PartitionPoint(times[1..], time)
  }

  /** The interval a time falls in: the last key at or before it, or the first key when there is none. */
  function IntervalIndex(times: seq<int>, time: int): nat
  {
    var p := PartitionPoint(times, time);
    if p > 0 then p - 1 else 0
  }

  /** On sorted key times the partition point counts exactly the keys at or before the time. */
  lemma {:induction false} PartitionPointSplits(times: seq<int>, time: int)
    requires Sorted(times)
    ensures var p := PartitionPoint(times, time);
      forall j :: 0 <= j < |times| ==> (times[j] <= time <==> j < p)
  {
    var p := PartitionPoint(times, time);
    forall j | p <= j < |times|
      ensures times[j] > time
    {
      assert times[p] <= times[j];
    }
  }

  /**
   * The interval property: before the first key the index is 0, at or past
   * the last key it is the last index, and otherwise the time lies in
   * `[times[i], times[i + 1])`.
   */
  lemma {:induction false} IntervalIndexBrackets(times: seq<int>, time: int)
    requires Sorted(times) && |times| >= 1
    ensures var i := IntervalIndex(times, time);
      && i < |times|
      && (time < times[0] ==> i == 0)
      && (time >= times[|times| - 1] ==> i == |times| - 1)
      && (times[0] <= time < times[|times| - 1] ==> times[i] <= time < times[i + 1])
  {
    PartitionPointSplits(times, time);
  }

  /** Only one interval holds a time: any `i` with `times[i] <= time < times[i + 1]` is the interval index. */
  lemma {:induction false} IntervalUnique(times: seq<int>, time: int, i: nat)
    requires Sorted(times) && i + 1 < |times| && times[i] <= time < times[i + 1]
    ensures IntervalIndex(times, time) == i
  {
    PartitionPointSplits(times, time);
  }

  /** A time at or past the last key has the last interval index. */
  lemma {:induction false} IntervalIndexAtEnd(times: seq<int>, time: int)
    requires Sorted(times) && |times| >= 1 && time >= times[|times| - 1]
    ensures IntervalIndex(times, time) == |times| - 1
  {
    PartitionPointSplits(times, time);
  }

  /** `sample`, as written: the assertion on an empty track, then `sample_at_frame` at the partition point itself. */
  function Sample(tr: Track, time: int): (r: Result<Reads, TrackError>)
    ensures r.Err? <==> tr.times == []
  {
    if tr.times == [] then Err(EmptyTrack)
    else Ok(SampleAtFrame(tr, PartitionPoint(tr.times, time)))
  }

  /** `sample` as evidently intended: `sample_at_frame` at the interval index, as the cursor fallback computes it. */
  function SampleAtInterval(tr: Track, time: int): (r: Result<Reads, TrackError>)
    ensures r.Err? <==> tr.times == []
  {
    if tr.times == [] then Err(EmptyTrack)
    else Ok(SampleAtFrame(tr, IntervalIndex(tr.times, time)))
  }

  /**
   * `sample` passes the partition point, the index after the interval,
   * where the interval's own index is meant: between two keys 0 and 2, at
   * time 1, a linear track reads only the last value; the intended sample
   * blends the two values.
   */
  lemma SampleSkipsInterval()
    ensures Sample(Track([0, 2], 2, Linear), 1) == Ok(Value(1))
    ensures SampleAtInterval(Track([0, 2], 2, Linear), 1) == Ok(Lerp(0, 1))
  {
    assert PartitionPoint([0, 2], 1) == 1 by {
      assert [0, 2][1..] == [2];
    }
  }

  /**
   * The intended sample reads the interval holding the time: on sorted
   * keys strictly between the first and last key, an interpolating track
   * blends the values of keys `i` and `i + 1` with `times[i] <= time < times[i + 1]`.
   */
  lemma {:induction false} SampleAtIntervalBlendsBracket(tr: Track, time: int)
    requires Sorted(tr.times) && |tr.times| >= 2 && tr.mode == Linear
    requires tr.times[0] <= time < tr.times[|tr.times| - 1]
    ensures exists i :: 0 <= i < |tr.times| - 1 && tr.times[i] <= time < tr.times[i + 1] &&
              SampleAtInterval(tr, time) == Ok(Lerp(i, i + 1))
  {
    IntervalIndexBrackets(tr.times, time);
    var i := IntervalIndex(tr.times, time);
    assert tr.times[i] <= time < tr.times[i + 1];
  }

  /** A single keyframe is held for every time, by both samplers. */
  lemma SingleKeyframeHolds(tr: Track, time: int)
    requires |tr.times| == 1
    ensures SampleAtInterval(tr, time) == Ok(Value(ValueIndex(tr.mode, 0)))
    ensures Sample(tr, time) == Ok(Value(ValueIndex(tr.mode, 0)))
  {
  }

  // ---------------------------------------------------------------------
  // The cursor scan

  /** The forward scan from the cursor, from `offset` on: the first interval whose right key is after the time, clamped at the end. */
  function Forward(times: seq<int>, time: int, i: nat, offset: nat): Option<nat>
    requires |times| >= 2
    decreases MAX_SCAN_OFFSET + 1 - offset
  {
    if offset > MAX_SCAN_OFFSET then None
    else
      var idx := i + offset;
      if idx >= |times| - 1 then (if time >= times[|times| - 1] then Some(|times| - 1) else None)
      else if time < times[idx + 1] then Some(idx)
      else Forward(times, time, i, offset + 1)
  }

  /** The backward scan from the cursor, from `offset` on: the first key at or before the time; a key time past the end panics. */
  function Backward(times: seq<int>, time: int, i: nat, offset: nat): Result<Option<nat>, TrackError>
    decreases MAX_SCAN_OFFSET + 1 - offset
  {
    if offset > MAX_SCAN_OFFSET || i < offset then Ok(None)
    else
      var idx := i - offset;
      if idx >= |times| then Err(TimeIndexOutOfBounds(idx))
      else if time >= times[idx] then Ok(Some(idx))
      else Backward(times, time, i, offset + 1)
  }

  /**
   * The index `sample_with_cursor` picks, as written: a cursor past the
   * end is compared as if it were 0, but is then scanned from as it is; a
   * miss falls back to the interval index.
   */
  function CursorIndex(times: seq<int>, time: int, cursor: nat): Result<nat, TrackError>
    requires |times| >= 2
  {
    var current := if cursor < |times| then times[cursor] else times[0];
    var found: Result<Option<nat>, TrackError> := if time >= current then Ok(Forward(times, time, cursor, 0)) else Backward(times, time, cursor, 0);
    match found
    case Err(e) => Err(e)
    case Ok(Some(idx)) => Ok(idx)
    case Ok(None) => Ok(IntervalIndex(times, time))
  }

  /** What a sample with a cursor reads, and where it leaves the cursor. */
  datatype Sampled = Sampled(reading: Reads, cursor: nat)

  /**
   * `sample_with_cursor`: an empty track gives its first value or panics;
   * a single keyframe is held and the cursor left alone; otherwise the
   * cursor moves to the chosen interval and the sample reads it.
   */
  function CursorSample(tr: Track, time: int, cursor: nat): Result<Sampled, TrackError>
  {
    if tr.times == [] then
      if tr.valueCount > 0 then Ok(Sampled(Value(0), cursor)) else Err(EmptyTrack)
    else if |tr.times| == 1 then Ok(Sampled(Value(ValueIndex(tr.mode, 0)), cursor))
    else
      match CursorIndex(tr.times, time, cursor)
      case Err(e) => Err(e)
      case Ok(idx) => Ok(Sampled(SampleAtFrame(tr, idx), idx))
  }

  /**
   * The forward scan is sound: started where the time is at or after the
   * scanned key, whatever it finds is the interval index.
   */
  lemma {:induction false} ForwardFindsInterval(times: seq<int>, time: int, i: nat, offset: nat)
    requires Sorted(times) && |times| >= 2
    requires i + offset < |times| ==> times[i + offset] <= time
    ensures Forward(times, time, i, offset).Some? ==> Forward(times, time, i, offset).value == IntervalIndex(times, time)
    decreases MAX_SCAN_OFFSET + 1 - offset
  {
    if offset <= MAX_SCAN_OFFSET {
      var idx := i + offset;
      if idx >= |times| - 1 {
        if time >= times[|times| - 1] {
          IntervalIndexAtEnd(times, time);
        }
      } else if time < times[idx + 1] {
        IntervalUnique(times, time, idx);
      } else {
        ForwardFindsInterval(times, time, i, offset + 1);
      }
    }
  }

  /**
   * The backward scan is sound: from a cursor inside the track, with the
   * time before the key after the scanned one, it never panics and whatever
   * it finds is the interval index.
   */
  lemma {:induction false} BackwardFindsInterval(times: seq<int>, time: int, i: nat, offset: nat)
    requires Sorted(times) && i < |times|
    requires offset == 0 ==> time < times[i]
    requires 1 <= offset <= i + 1 ==> time < times[i - offset + 1]
    ensures Backward(times, time, i, offset).Ok?
    ensures Backward(times, time, i, offset).value.Some? ==> Backward(times, time, i, offset).value.value == IntervalIndex(times, time)
    decreases MAX_SCAN_OFFSET + 1 - offset
  {
    if offset <= MAX_SCAN_OFFSET && offset <= i {
      var idx := i - offset;
      if time >= times[idx] {
        assert idx < i;
        IntervalUnique(times, time, idx);
      } else {
        BackwardFindsInterval(times, time, i, offset + 1);
      }
    }
  }

  /**
   * From a cursor inside the track, the scan picks the same interval as
   * the partition-point search: on sorted keys the cursor only makes the
   * search faster.
   */
  lemma {:induction false} CursorIndexIsInterval(times: seq<int>, time: int, cursor: nat)
    requires Sorted(times) && |times| >= 2 && cursor < |times|
    ensures CursorIndex(times, time, cursor) == Ok(IntervalIndex(times, time))
  {
    if time >= times[cursor] {
      ForwardFindsInterval(times, time, cursor, 0);
    } else {
      BackwardFindsInterval(times, time, cursor, 0);
    }
  }

  /**
   * Sampling with a cursor inside the track reads what the intended
   * `sample` reads, and leaves the cursor on the interval of the time.
   */
  lemma {:induction false} CursorSampleAgrees(tr: Track, time: int, cursor: nat)
    requires Sorted(tr.times) && |tr.times| >= 2 && cursor < |tr.times|
    ensures CursorSample(tr, time, cursor) == Ok(Sampled(SampleAtInterval(tr, time).value, IntervalIndex(tr.times, time)))
  {
    CursorIndexIsInterval(tr.times, time, cursor);
  }

  /**
   * A cursor left past the end of a shorter track (the clip was switched)
   * and a time before the first key: the backward scan reads the key time
   * at the cursor, which panics.
   */
  lemma StaleCursorPanics()
    ensures CursorIndex([1, 2], 0, 5) == Err(TimeIndexOutOfBounds(5))
    ensures CursorSample(Track([1, 2], 2, Linear), 0, 5) == Err(TimeIndexOutOfBounds(5))
  {
  }

  /** The intended scan: a cursor past the end is reset to 0 before it is compared or scanned from. */
  function CursorIndexChecked(times: seq<int>, time: int, cursor: nat): (r: Result<nat, TrackError>)
    requires |times| >= 2
  {
    CursorIndex(times, time, if cursor < |times| then cursor else 0)
  }

  /** The intended scan never panics on sorted keys, always picks the interval of the time, and agrees with the scan as written on every cursor inside the track. */
  lemma {:induction false} CursorIndexCheckedIsInterval(times: seq<int>, time: int, cursor: nat)
    requires Sorted(times) && |times| >= 2
    ensures CursorIndexChecked(times, time, cursor) == Ok(IntervalIndex(times, time))
    ensures cursor < |times| ==> CursorIndexChecked(times, time, cursor) == CursorIndex(times, time, cursor)
  {
    CursorIndexIsInterval(times, time, if cursor < |times| then cursor else 0);
  }

  /** `KeyframeCursor`: the interval the previous sample of a track found. */
  class KeyframeCursor {
    var lastIndex: nat

    constructor ()
      ensures lastIndex == 0
    {
      lastIndex := 0;
    }
  }

  /** The forward loop of `sample_with_cursor`. */
  method ScanForward(times: seq<int>, time: int, i: nat) returns (res: Option<nat>)
    requires |times| >= 2
    ensures res == Forward(times, time, i, 0)
  {
    res := None;
    var len := |times|;
    for offset := 0 to MAX_SCAN_OFFSET + 1
      invariant Forward(times, time, i, 0) == Forward(times, time, i, offset)
    {
      var idx := i + offset;
      if idx >= len - 1 {
        if time >= times[len - 1] {
          res := Some(len - 1);
        }
        return;
      }
      if time < times[idx + 1] {
        res := Some(idx);
        return;
      }
    }
  }

  /** The backward loop of `sample_with_cursor`; the key time read at an index past the end is the panic. */
  method ScanBackward(times: seq<int>, time: int, i: nat) returns (res: Result<Option<nat>, TrackError>)
    ensures res == Backward(times, time, i, 0)
  {
    for offset := 0 to MAX_SCAN_OFFSET + 1
      invariant Backward(times, time, i, 0) == Backward(times, time, i, offset)
    {
      if i < offset {
        return Ok(None);
      }
      var idx := i - offset;
      if idx >= |times| {
        return Err(TimeIndexOutOfBounds(idx));
      }
      if time >= times[idx] {
        return Ok(Some(idx));
      }
    }
    return Ok(None);
  }

  /**
   * `sample_with_cursor`: the values read and the cursor moved as
   * `CursorSample` says; an error is a panic, after which the cursor is
   * not used again.
   */
  method SampleWithCursor(tr: Track, time: int, cursor: KeyframeCursor) returns (r: Result<Reads, TrackError>)
    modifies cursor
    ensures CursorSample(tr, time, old(cursor.lastIndex)).Ok? ==>
              r == Ok(CursorSample(tr, time, old(cursor.lastIndex)).value.reading) &&
              cursor.lastIndex == CursorSample(tr, time, old(cursor.lastIndex)).value.cursor
    ensures CursorSample(tr, time, old(cursor.lastIndex)).Err? ==> r == Err(CursorSample(tr, time, old(cursor.lastIndex)).error)
  {
    var times := tr.times;
    if times == [] {
      if tr.valueCount > 0 {
        return Ok(Value(0));
      }
      return Err(EmptyTrack);
    }
    var len := |times|;
    if len == 1 {
      return Ok(Value(ValueIndex(tr.mode, 0)));
    }
    var i := cursor.lastIndex;
    var current := if i < len then times[i] else times[0];
    var found: Result<Option<nat>, TrackError>;
    if time >= current {
      var forward := ScanForward(times, time, i);
      found := Ok(forward);
    } else {
      found := ScanBackward(times, time, i);
    }
    if found.Err? {
      return Err(found.error);
    }
    var finalIndex: nat;
    if found.value.Some? {
      finalIndex := found.value.value;
    } else {
      var next := PartitionPoint(times, time);
      finalIndex := if next > 0 then next - 1 else 0;
    }
    cursor.lastIndex := finalIndex;
    r := Ok(SampleAtFrame(tr, finalIndex));
  }

  /** Sampling a track forward in time, frame by frame, keeps the cursor on the interval of each time. */
  method SampleTwice(tr: Track, t1: int, t2: int, cursor: KeyframeCursor) returns (r1: Result<Reads, TrackError>, r2: Result<Reads, TrackError>)
    requires Sorted(tr.times) && |tr.times| >= 2 && cursor.lastIndex < |tr.times|
    modifies cursor
    ensures r1 == SampleAtInterval(tr, t1) && r2 == SampleAtInterval(tr, t2)
    ensures cursor.lastIndex == IntervalIndex(tr.times, t2)
  {
    CursorSampleAgrees(tr, t1, cursor.lastIndex);
    r1 := SampleWithCursor(tr, t1, cursor);
    IntervalIndexBrackets(tr.times, t1);
    CursorSampleAgrees(tr, t2, cursor.lastIndex);
    r2 := SampleWithCursor(tr, t2, cursor);
  }
}
