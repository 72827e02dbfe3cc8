/** The listener monitor() subscribes to the height characteristic: it
    decodes each pushed frame and calls the user's callback only when the
    reading moved away from the last one it passed on. */
module Telemetry {
  import opened Errors
  import opened Codec

  /** Height (m) and speed (m/s) changes below this are jitter. */
  const THRESHOLD: real := 0.001

  /** The values one callback receives: height, and speed when the
      callback takes two parameters. */
  datatype Sample = Sample(height: real, speed: real)

  /** The listener's "previous" values before anything was dispatched. */
  const START: Sample := Sample(0.0, 0.0)

  function Abs(x: real): real { if x < 0.0 then -x else x }

  function SampleOf(r: Reading): Sample { Sample(r.Height(), r.Speed()) }

  /** The listener drops a sample that is within THRESHOLD of the previous
      one in height and, when speed is tracked, in speed too. */
  predicate Suppressed(previous: Sample, s: Sample, withSpeed: bool) {
    Abs(s.height - previous.height) < THRESHOLD
    && (!withSpeed || Abs(s.speed - previous.speed) < THRESHOLD)
  }

  /** The last sample passed on, or START. */
  function Last(d: seq<Sample>): Sample {
    if d == [] then START else d[|d| - 1]
  }

  /** The samples passed on to the callback for a stream of decoded
      samples, each compared against the last one passed on. */
  function Dispatched(withSpeed: bool, xs: seq<Sample>): seq<Sample>
    decreases |xs|
  {
    if xs == [] then []
    else
      var d := Dispatched(withSpeed, xs[..|xs| - 1]);
      var x := xs[|xs| - 1];
      if Suppressed(Last(d), x, withSpeed) then d else d + [x]
  }

  /** Every decoded height is at least MIN_HEIGHT, so never within
      THRESHOLD of the starting height 0.0. */
  lemma StartNeverSuppresses(r: Reading, withSpeed: bool)
    requires IsU16(r.heightCounter)
    ensures !Suppressed(START, SampleOf(r), withSpeed)
  {
  }

  /** The first decoded frame is always passed on, and stays first. */
  lemma {:induction false} FirstFrameDispatched(withSpeed: bool, xs: seq<Sample>)
    requires xs != [] && xs[0].height >= MIN_HEIGHT
    ensures Dispatched(withSpeed, xs) != [] && Dispatched(withSpeed, xs)[0] == xs[0]
    decreases |xs|
  {
    if |xs| > 1 {
      var front := xs[..|xs| - 1];
      assert front[0] == xs[0];
      FirstFrameDispatched(withSpeed, front);
    } else {
      assert xs[..0] == [];
    }
  }

  /** Consecutive callbacks are never within THRESHOLD of each other, and
      the first is not within THRESHOLD of START. */
  lemma {:induction false} DispatchedSeparated(withSpeed: bool, xs: seq<Sample>)
    ensures var d := Dispatched(withSpeed, xs);
      && (d != [] ==> !Suppressed(START, d[0], withSpeed))
      && forall i :: 0 <= i < |d| - 1 ==> !Suppressed(d[i], d[i + 1], withSpeed)
    decreases |xs|
  {
    if xs != [] {
      DispatchedSeparated(withSpeed, xs[..|xs| - 1]);
    }
  }

  /** Every callback carries one of the received samples, and there are
      never more callbacks than samples. */
  lemma {:induction false} DispatchedFromInput(withSpeed: bool, xs: seq<Sample>)
    ensures |Dispatched(withSpeed, xs)| <= |xs|
    ensures forall y :: y in Dispatched(withSpeed, xs) ==> y in xs
    decreases |xs|
  {
    if xs != [] {
      var front := xs[..|xs| - 1];
      DispatchedFromInput(withSpeed, front);
      assert xs == front + [xs[|xs| - 1]];
    }
  }

  /** As the first two frames of a stream, two frames whose heights differ
      by less than THRESHOLD give a height-only callback exactly once, for
      the first of them. */
  lemma NearDuplicateDispatchedOnce(a: Reading, b: Reading)
    requires IsU16(a.heightCounter)
    requires Abs(b.Height() - a.Height()) < THRESHOLD
    ensures Dispatched(false, [SampleOf(a), SampleOf(b)]) == [SampleOf(a)]
  {
    var xs := [SampleOf(a), SampleOf(b)];
    assert xs[..1] == [SampleOf(a)];
    assert [SampleOf(a)][..0] == [];
    StartNeverSuppresses(a, false);
    assert Dispatched(false, [SampleOf(a)]) == [SampleOf(a)];
  }

  /** The state of output_listener: the "previous" values it compares
      against, and the callbacks it made (a callback with one parameter
      receives calls[i].height, one with two also calls[i].speed). */
  class OutputListener {
    const returnSpeed: bool
    var previousHeight: real
    var previousSpeed: real
    var calls: seq<Sample>
    /** Every frame that decoded, in arrival order. */
    ghost var received: seq<Sample>

    /** The callbacks are the dispatch filter applied to what was received,
        and the previous values are those of the last callback. */
    ghost predicate Valid()
      reads this
    {
      && calls == Dispatched(returnSpeed, received)
      && Sample(previousHeight, previousSpeed) == Last(calls)
    }

    constructor (returnSpeed: bool)
      ensures Valid() && this.returnSpeed == returnSpeed
      ensures previousHeight == 0.0 && previousSpeed == 0.0
      ensures calls == [] && received == []
    {
      this.returnSpeed := returnSpeed;
      previousHeight, previousSpeed := 0.0, 0.0;
      calls, received := [], [];
    }

    /** output_listener on one pushed frame. A frame that does not decode
        raises inside the listener and changes nothing. */
    method OnFrame(data: seq<byte>) returns (r: Outcome)
      requires Valid()
      modifies this
      ensures Valid()
      ensures var d := BytesToMetersAndSpeed(data);
        && (d.Err? ==> r == Fail(d.exception) && unchanged(this))
        && (d.Ok? ==> r == Pass && received == old(received) + [SampleOf(d.value)])
        && (d.Ok? ==>
              var s := SampleOf(d.value);
              calls == old(calls) + if Suppressed(Sample(old(previousHeight), old(previousSpeed)), s, returnSpeed) then [] else [s])
    {
      var d := BytesToMetersAndSpeed(data);
      if d.Err? {
        return Fail(d.exception);
      }
      var height, speed := d.value.Height(), d.value.Speed();
      received := received + [Sample(height, speed)];
      assert received[..|received| - 1] == old(received);
      r := Pass;
      if Abs(height - previousHeight) < THRESHOLD
         && (!returnSpeed || Abs(speed - previousSpeed) < THRESHOLD) {
        return;
      }
      previousHeight := height;
      previousSpeed := speed;
      calls := calls + [Sample(height, speed)];
    }
  }
}
