/** The shoot latch: a two-state, edge-triggered machine per hand. Its state
    is the previous frame's shoot value together with the colour its joint
    material shows. On a rising edge the colour turns to the active colour; on
    a falling edge it returns to the hand's resting colour; every frame on
    which the gesture is held fires one bolt. */
module Latch {

  /** The joint colour while shooting, as a 24-bit RGB integer. */
  const ActiveColour: int := 0xFFCC00

  /** The transition a frame makes: the gesture began, ended, or neither. */
  datatype Edge = Began | Ended | Steady

  datatype LatchState = LatchState(wasHeld: bool, colour: int)

  /** The outcome of one frame: the next state, the edge taken and whether a
      bolt is fired. */
  datatype Transition = Transition(next: LatchState, edge: Edge, fire: bool)

  /** The latch before any frame: not held, resting colour. */
  function Initial(resting: int): (s: LatchState)
    ensures !s.wasHeld && s.colour == resting
  {
    LatchState(false, resting)
  }

  /** One frame of the latch for the freshly classified value `held`. */
  function Step(s: LatchState, resting: int, held: bool): (t: Transition)
    ensures t.next.wasHeld == held
    ensures t.fire == held
    ensures t.edge == Began <==> held && !s.wasHeld
    ensures t.edge == Ended <==> !held && s.wasHeld
    ensures t.edge == Began ==> t.next.colour == ActiveColour
    ensures t.edge == Ended ==> t.next.colour == resting
    ensures t.edge == Steady ==> t.next == s
  {
    if held then
      if !s.wasHeld then Transition(LatchState(true, ActiveColour), Began, true)
      else Transition(s, Steady, true)
    else if s.wasHeld then Transition(LatchState(false, resting), Ended, false)
    else Transition(s, Steady, false)
  }

  /** The colour shown is the active colour exactly while the latch is held,
      and the resting colour otherwise. */
  predicate ColourAgrees(s: LatchState, resting: int) {
    s.colour == if s.wasHeld then ActiveColour else resting
  }

  /** Reference definition of the edge a frame takes, from the previous and
      the current classifier value alone. */
  function EdgeOf(previous: bool, current: bool): Edge {
    if current && !previous then Began
    else if !current && previous then Ended
    else Steady
  }

  /** What a run of frames produces: the final state, one edge per frame and
      the number of bolts fired. */
  datatype Trace = Trace(final: LatchState, edges: seq<Edge>, fired: nat)

  /** The latch driven by the classifier values `held`, one per frame. */
  function Run(s: LatchState, resting: int, held: seq<bool>): (t: Trace)
    ensures |t.edges| == |held|
    decreases |held|
  {
    if held == [] then Trace(s, [], 0)
    else
      var st := Step(s, resting, held[0]);
      var rest := Run(st.next, resting, held[1..]);
      Trace(rest.final, [st.edge] + rest.edges, (if st.fire then 1 else 0) + rest.fired)
  }

  function CountHeld(held: seq<bool>): nat {
    if held == [] then 0 else (if held[0] then 1 else 0) + CountHeld(held[1..])
  }

  function CountEdge(edges: seq<Edge>, e: Edge): nat {
    if edges == [] then 0 else (if edges[0] == e then 1 else 0) + CountEdge(edges[1..], e)
  }

  /** Frame `k` of a run takes exactly the edge the reference definition
      gives for the value before it (the latch state for the first frame) and
      its own value. */
  lemma {:induction false} RunEdgesFollowReference(s: LatchState, resting: int, held: seq<bool>)
    ensures forall k :: 0 <= k < |held| ==>
      Run(s, resting, held).edges[k] == EdgeOf(if k == 0 then s.wasHeld else held[k - 1], held[k])
    decreases |held|
  {
    if held != [] {
      var st := Step(s, resting, held[0]);
      RunEdgesFollowReference(st.next, resting, held[1..]);
      forall k | 0 <= k < |held|
        ensures Run(s, resting, held).edges[k] == EdgeOf(if k == 0 then s.wasHeld else held[k - 1], held[k])
      {
        if k > 0 {
          assert Run(s, resting, held).edges[k] == Run(st.next, resting, held[1..]).edges[k - 1];
          assert held[1..][k - 1] == held[k];
          if k > 1 {
            assert held[1..][k - 2] == held[k - 1];
          }
        }
      }
    }
  }

  /** After a run the latch remembers the last value it saw, or is unchanged
      when it saw none. */
  lemma {:induction false} RunFinalIsLastValue(s: LatchState, resting: int, held: seq<bool>)
    ensures held == [] ==> Run(s, resting, held).final == s
    ensures held != [] ==> Run(s, resting, held).final.wasHeld == held[|held| - 1]
    decreases |held|
  {
    if held != [] {
      RunFinalIsLastValue(Step(s, resting, held[0]).next, resting, held[1..]);
      if |held| > 1 {
        assert held[1..][|held[1..]| - 1] == held[|held| - 1];
      }
    }
  }

  /** A run fires exactly one bolt per frame on which the gesture is held. */
  lemma {:induction false} RunFiresOncePerHeldFrame(s: LatchState, resting: int, held: seq<bool>)
    ensures Run(s, resting, held).fired == CountHeld(held)
    decreases |held|
  {
    if held != [] {
      RunFiresOncePerHeldFrame(Step(s, resting, held[0]).next, resting, held[1..]);
    }
  }

  /** Began and ended edges balance: their difference is how the held state
      moved over the run, so a run from an idle latch to an idle latch has as
      many "ended" edges as "began" edges. Which frame takes which edge is
      `RunEdgesFollowReference`. */
  lemma {:induction false} RunEdgesBalance(s: LatchState, resting: int, held: seq<bool>)
    ensures CountEdge(Run(s, resting, held).edges, Began) - CountEdge(Run(s, resting, held).edges, Ended)
         == (if Run(s, resting, held).final.wasHeld then 1 else 0) - (if s.wasHeld then 1 else 0)
    decreases |held|
  {
    if held != [] {
      var st := Step(s, resting, held[0]);
      RunEdgesBalance(st.next, resting, held[1..]);
      var t := Run(s, resting, held);
      assert t.edges[1..] == Run(st.next, resting, held[1..]).edges;
    }
  }

  /** The colour agreement holds after every frame of a run that starts with
      it, so the colour changes exactly on began and ended edges. */
  lemma {:induction false} RunKeepsColourAgreement(s: LatchState, resting: int, held: seq<bool>)
    requires ColourAgrees(s, resting)
    ensures ColourAgrees(Run(s, resting, held).final, resting)
    decreases |held|
  {
    if held != [] {
      RunKeepsColourAgreement(Step(s, resting, held[0]).next, resting, held[1..]);
    }
  }

  /** Holding for two frames then letting go yields one began edge on the
      second frame and one ended edge on the fourth, and two bolts. */
  lemma HoldAndRelease(resting: int)
    ensures Run(Initial(resting), resting, [false, true, true, false]).edges == [Steady, Began, Steady, Ended]
    ensures Run(Initial(resting), resting, [false, true, true, false]).fired == 2
  {
    var s0 := Initial(resting);
    var s2 := LatchState(true, ActiveColour);
    assert [false, true, true, false][1..] == [true, true, false];
    assert [true, true, false][1..] == [true, false];
    assert [true, false][1..] == [false];
    assert Run(s2, resting, [false]).edges == [Ended];
    assert Run(s2, resting, [true, false]).edges == [Steady, Ended];
  }

  /** A one-frame flicker gives a began edge followed at once by an ended
      edge, and leaves the colour at rest. */
  lemma Flicker(resting: int)
    ensures Run(Initial(resting), resting, [false, true, false]).edges == [Steady, Began, Ended]
    ensures Run(Initial(resting), resting, [false, true, false]).final == Initial(resting)
  {
    assert [false, true, false][1..] == [true, false];
    assert [true, false][1..] == [false];
    assert Run(LatchState(true, ActiveColour), resting, [false]).edges == [Ended];
  }
}
