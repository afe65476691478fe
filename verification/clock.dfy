/** Frame timing: each frame turns the millisecond timestamp it is given into
    the seconds elapsed since the previous frame. The first frame seeds the
    previous timestamp with its own, so its elapsed time is zero. */
module Clock {

  import opened Optional

  /** The elapsed seconds of one frame and the timestamp remembered for the
      next one. */
  datatype Elapsed = Elapsed(delta: real, previous: Option<real>)

  function Advance(previous: Option<real>, now: real): (e: Elapsed)
    ensures e.previous == Some(now)
    ensures previous.None? ==> e.delta == 0.0
    ensures previous.Some? ==> e.delta * 1000.0 == now - previous.value
  {
    var seeded := previous.GetOr(now);
    Elapsed((now - seeded) / 1000.0, Some(now))
  }

  /** The elapsed times of a run of frames with timestamps `times`. */
  function Deltas(previous: Option<real>, times: seq<real>): (ds: seq<real>)
    ensures |ds| == |times|
    decreases |times|
  {
    if times == [] then []
    else
      var e := Advance(previous, times[0]);
      [e.delta] + Deltas(e.previous, times[1..])
  }

  function Sum(xs: seq<real>): real {
    if xs == [] then 0.0 else xs[0] + Sum(xs[1..])
  }

  /** Over a run that follows a frame stamped `p`, the elapsed times add up
      to the span from `p` to the last timestamp. */
  lemma {:induction false} DeltasTelescopeFrom(p: real, times: seq<real>)
    requires times != []
    ensures Sum(Deltas(Some(p), times)) * 1000.0 == times[|times| - 1] - p
    decreases |times|
  {
    var d := (times[0] - p) / 1000.0;
    if |times| > 1 {
      DeltasTelescopeFrom(times[0], times[1..]);
      assert times[1..][|times[1..]| - 1] == times[|times| - 1];
    }
    assert d * 1000.0 == times[0] - p;
  }

  /** From the very first frame, the elapsed times add up to the span from
      the first to the last timestamp; the first frame contributes zero. */
  lemma {:induction false} DeltasTelescope(times: seq<real>)
    requires times != []
    ensures Deltas(None, times)[0] == 0.0
    ensures Sum(Deltas(None, times)) * 1000.0 == times[|times| - 1] - times[0]
  {
    if |times| > 1 {
      DeltasTelescopeFrom(times[0], times[1..]);
      assert times[1..][|times[1..]| - 1] == times[|times| - 1];
    }
  }
}
