/** The per-frame driver (`loop`): when hand tracking is available it refreshes
    both hands from the session's input sources, classifies Shoot on each hand
    and runs that hand's shoot latch; on every frame it advances the clock.
    Bolts are emitted as events, left hand first. */
module FrameLoop {

  import opened Optional
  import opened Skeleton
  import opened Hands
  import opened Sampler
  import opened Gestures
  import opened Latch
  import opened Clock

  /** A projectile spawned from a hand at its wrist slot, with effect variant 0. */
  datatype Bolt = Bolt(side: Side, origin: Joint, variant: int)

  /** What a frame is given: its timestamp in milliseconds, whether hand
      tracking is available (VR and hands enabled, an XR frame, a reference
      space and a session with input sources), and the input sources. */
  datatype FrameInput = FrameInput(timeNow: real, tracking: bool, sources: seq<InputSource>)

  /** What a frame hands to its collaborators: the bolts to spawn and the
      elapsed seconds for the bolt animation. */
  datatype FrameOutput = FrameOutput(bolts: seq<Bolt>, timeDelta: real)

  /** The viewer's state: both hands and the previous frame's timestamp. */
  datatype App = App(hands: HandPair, timePrevious: Option<real>)

  /** The module-level state before boot: no frame seen, hands without
      slots, all flags false, resting colours. */
  function Start(): (a: App)
    ensures a.timePrevious == None
    ensures forall s, g :: a.hands.Get(s).flags.Get(g) == GestureFlag(false, false)
    ensures forall s :: a.hands.Get(s).colour == RestingColour(s) && a.hands.Get(s).joints == []
  {
    App(NewHands(), None)
  }

  /** The state once the page has loaded: the boot handler registers the
      frame loop and then runs `setupHands`, all before any frame can run, so
      the first frame already finds both hands with 25 hidden, indexed slots. */
  function Boot(): (a: App)
    ensures a.timePrevious == None
    ensures forall s :: Ready(a.hands.Get(s)) && SlotsIndexed(a.hands.Get(s))
    ensures forall s, i :: 0 <= i < |a.hands.Get(s).joints| ==> !a.hands.Get(s).joints[i].visible
    ensures forall s, g :: a.hands.Get(s).flags.Get(g) == GestureFlag(false, false)
    ensures forall s :: a.hands.Get(s).colour == RestingColour(s)
  {
    SessionStarted(Start())
  }

  /** A tracking session started: both hands get fresh slot tables. */
  function SessionStarted(a: App): (r: App)
    ensures forall s :: Ready(r.hands.Get(s)) && SlotsIndexed(r.hands.Get(s))
    ensures forall s, i :: 0 <= i < |r.hands.Get(s).joints| ==> !r.hands.Get(s).joints[i].visible
    ensures forall s :: r.hands.Get(s).flags == a.hands.Get(s).flags && r.hands.Get(s).colour == a.hands.Get(s).colour
    ensures r.timePrevious == a.timePrevious
  {
    a.(hands := SetupHands(a.hands))
  }

  /** One hand after its shoot latch ran, and the bolts it fired. */
  datatype HandFrame = HandFrame(hand: Hand, bolts: seq<Bolt>)

  /** Classifies Shoot on `h` and runs its latch: the Shoot flag pair becomes
      the fresh value twice over, the colour changes only on an edge, and a
      bolt is fired from the wrist on every frame the gesture is held. */
  function ShootLatch(h: Hand, s: Side): (r: HandFrame)
    requires Ready(h)
    ensures r.hand.flags.Get(Shoot) == GestureFlag(IsShoot(h), IsShoot(h))
    ensures forall g :: g != Shoot ==> r.hand.flags.Get(g) == h.flags.Get(g)
    ensures r.hand == h.(colour := r.hand.colour, flags := r.hand.flags)
    ensures IsShoot(h) && !h.flags.shoot.wasHeld ==> r.hand.colour == ActiveColour
    ensures !IsShoot(h) && h.flags.shoot.wasHeld ==> r.hand.colour == h.restingColour
    ensures IsShoot(h) == h.flags.shoot.wasHeld ==> r.hand.colour == h.colour
    ensures |r.bolts| == (if IsShoot(h) then 1 else 0)
    ensures forall b :: b in r.bolts ==> b == Bolt(s, h.joints[Wrist], 0)
  {
    var held := IsShoot(h);
    var t := Latch.Step(LatchState(h.flags.shoot.wasHeld, h.colour), h.restingColour, held);
    HandFrame(
      h.(colour := t.next.colour, flags := h.flags.Set(Shoot, GestureFlag(held, t.next.wasHeld))),
      if t.fire then [Bolt(s, h.joints[Wrist], 0)] else [])
  }

  /** Both hands have their slot tables. */
  predicate BothReady(p: HandPair) {
    Ready(p.Get(Left)) && Ready(p.Get(Right))
  }

  /** The number of bolts fired from side `s`. */
  function BoltsFrom(bolts: seq<Bolt>, s: Side): nat {
    if bolts == [] then 0 else (if bolts[0].side == s then 1 else 0) + BoltsFrom(bolts[1..], s)
  }

  lemma {:induction false} BoltsFromAppend(xs: seq<Bolt>, ys: seq<Bolt>, s: Side)
    ensures BoltsFrom(xs + ys, s) == BoltsFrom(xs, s) + BoltsFrom(ys, s)
    decreases |xs|
  {
    if xs == [] {
      assert xs + ys == ys;
    } else {
      assert (xs + ys)[1..] == xs[1..] + ys;
      BoltsFromAppend(xs[1..], ys, s);
    }
  }

  /** Runs the shoot latch of both hands, left first, collecting the bolts:
      each hand fires exactly one bolt from its wrist slot when it shoots and
      none otherwise. */
  function LatchBoth(p: HandPair): (r: (HandPair, seq<Bolt>))
    requires BothReady(p)
    ensures forall s :: r.0.Get(s) == ShootLatch(p.Get(s), s).hand
    ensures forall s :: BoltsFrom(r.1, s) == (if IsShoot(p.Get(s)) then 1 else 0)
    ensures forall b :: b in r.1 ==> b.variant == 0 && b.origin == p.Get(b.side).joints[Wrist]
  {
    var l := ShootLatch(p.Get(Left), Left);
    var rt := ShootLatch(p.Get(Right), Right);
    SingleSideBolts(l.bolts, Left);
    SingleSideBolts(rt.bolts, Right);
    BoltsFromAppend(l.bolts, rt.bolts, Left);
    BoltsFromAppend(l.bolts, rt.bolts, Right);
    (HandPair(l.hand, rt.hand), l.bolts + rt.bolts)
  }

  lemma SingleSideBolts(bolts: seq<Bolt>, s: Side)
    requires |bolts| <= 1
    requires forall b :: b in bolts ==> b.side == s
    ensures forall s' :: BoltsFrom(bolts, s') == (if s' == s then |bolts| else 0)
  {
    if |bolts| == 1 {
      assert bolts[0] in bolts;
      assert bolts[1..] == [];
    }
  }

  /** One frame. The classifiers run on the hands as refreshed by this
      frame's input sources; a frame without tracking leaves both hands
      alone and fires nothing. */
  function Loop(a: App, input: FrameInput): (r: (App, FrameOutput))
    requires input.tracking ==> BothReady(a.hands)
    ensures r.0.timePrevious == Some(input.timeNow)
    ensures a.timePrevious.None? ==> r.1.timeDelta == 0.0
    ensures a.timePrevious.Some? ==> r.1.timeDelta * 1000.0 == input.timeNow - a.timePrevious.value
    ensures forall s :: |r.0.hands.Get(s).joints| == |a.hands.Get(s).joints|
    ensures BothReady(r.0.hands) == BothReady(a.hands)
    ensures !input.tracking ==> r.0.hands == a.hands && r.1.bolts == []
    ensures input.tracking ==> BothReady(UpdateInputSources(a.hands, input.sources))
    ensures input.tracking ==> (r.0.hands, r.1.bolts) == LatchBoth(UpdateInputSources(a.hands, input.sources))
  {
    var clock := Advance(a.timePrevious, input.timeNow);
    if !input.tracking then
      (a.(timePrevious := clock.previous), FrameOutput([], clock.delta))
    else
      var p := UpdateInputSources(a.hands, input.sources);
      var latched := LatchBoth(p);
      assert |latched.0.Get(Left).joints| == |p.Get(Left).joints|;
      assert |latched.0.Get(Right).joints| == |p.Get(Right).joints|;
      (App(latched.0, clock.previous), FrameOutput(latched.1, clock.delta))
  }

  /** On a frame with tracking, each hand's Shoot flags end equal to the
      fresh classification of the refreshed hand, its slots are the
      refreshed slots, and it fires one bolt exactly when it shoots. */
  lemma TrackedFrame(a: App, input: FrameInput, s: Side)
    requires input.tracking && BothReady(a.hands)
    ensures var sampled := UpdateInputSources(a.hands, input.sources).Get(s);
      && Ready(sampled)
      && Loop(a, input).0.hands.Get(s).flags.Get(Shoot) == GestureFlag(IsShoot(sampled), IsShoot(sampled))
      && Loop(a, input).0.hands.Get(s).joints == sampled.joints
      && BoltsFrom(Loop(a, input).1.bolts, s) == (if IsShoot(sampled) then 1 else 0)
  {
    var p := UpdateInputSources(a.hands, input.sources);
    assert Loop(a, input).0.hands.Get(s) == ShootLatch(p.Get(s), s).hand;
  }

  /** What the viewer sees over its lifetime: session starts and frames. */
  datatype Event = SessionStart | Frame(input: FrameInput)

  /** Every frame with tracking comes when both hands have slot tables:
      either they had them at the outset or a session start came first. */
  predicate Safe(ready: bool, events: seq<Event>)
    decreases |events|
  {
    if events == [] then true
    else match events[0]
      case SessionStart => Safe(true, events[1..])
      case Frame(input) => (input.tracking ==> ready) && Safe(ready, events[1..])
  }

  /** A run of events from state `a`: the final state and one output per frame. */
  function Run(a: App, events: seq<Event>): (r: (App, seq<FrameOutput>))
    requires Safe(BothReady(a.hands), events)
    ensures BothReady(r.0.hands) <==> BothReady(a.hands) || SessionStart in events
    decreases |events|
  {
    if events == [] then (a, [])
    else match events[0]
      case SessionStart =>
        var rest := Run(SessionStarted(a), events[1..]);
        (rest.0, rest.1)
      case Frame(input) =>
        var step := Loop(a, input);
        var rest := Run(step.0, events[1..]);
        assert SessionStart in events <==> SessionStart in events[1..];
        (rest.0, [step.1] + rest.1)
  }

  /** The timestamps of the frames among `events`. */
  function FrameTimes(events: seq<Event>): (ts: seq<real>) {
    if events == [] then []
    else match events[0]
      case SessionStart => FrameTimes(events[1..])
      case Frame(input) => [input.timeNow] + FrameTimes(events[1..])
  }

  function TimeDeltas(outs: seq<FrameOutput>): (ds: seq<real>)
    ensures |ds| == |outs|
  {
    if outs == [] then [] else [outs[0].timeDelta] + TimeDeltas(outs[1..])
  }

  /** The elapsed times a run reports are exactly the clock's deltas over its
      frame timestamps; session starts do not disturb the clock. */
  lemma {:induction false} RunTiming(a: App, events: seq<Event>)
    requires Safe(BothReady(a.hands), events)
    ensures TimeDeltas(Run(a, events).1) == Deltas(a.timePrevious, FrameTimes(events))
    decreases |events|
  {
    if events != [] {
      match events[0]
      case SessionStart =>
        RunTiming(SessionStarted(a), events[1..]);
      case Frame(input) =>
        var step := Loop(a, input);
        RunTiming(step.0, events[1..]);
        var outs := Run(a, events).1;
        assert outs == [step.1] + Run(step.0, events[1..]).1;
        assert outs[1..] == Run(step.0, events[1..]).1;
        assert FrameTimes(events)[1..] == FrameTimes(events[1..]);
    }
  }

  /** The invariant the viewer keeps over its lifetime, per hand: it sits on
      its own side with its own resting colour; Fist, Pinch and Point are
      never set; the Shoot pair holds one value twice over; and the colour
      is the active colour exactly while Shoot is latched. */
  predicate Coherent(a: App) {
    forall s :: HandCoherent(a.hands.Get(s), s)
  }

  predicate HandCoherent(h: Hand, s: Side) {
    && h.restingColour == RestingColour(s)
    && h.flags.fist == Idle && h.flags.pinch == Idle && h.flags.point == Idle
    && h.flags.shoot.isHeld == h.flags.shoot.wasHeld
    && ColourAgrees(LatchState(h.flags.shoot.wasHeld, h.colour), h.restingColour)
  }

  /** A frame keeps the invariant. */
  lemma LoopKeepsCoherent(a: App, input: FrameInput)
    requires input.tracking ==> BothReady(a.hands)
    requires Coherent(a)
    ensures Coherent(Loop(a, input).0)
  {
    if input.tracking {
      var p := UpdateInputSources(a.hands, input.sources);
      forall s ensures HandCoherent(Loop(a, input).0.hands.Get(s), s) {
        assert p.Get(s) == a.hands.Get(s).(joints := p.Get(s).joints);
        assert HandCoherent(p.Get(s), s);
        assert Loop(a, input).0.hands.Get(s) == ShootLatch(p.Get(s), s).hand;
      }
    }
  }

  /** Every run from a coherent state ends coherent. */
  lemma {:induction false} RunKeepsCoherent(a: App, events: seq<Event>)
    requires Safe(BothReady(a.hands), events)
    requires Coherent(a)
    ensures Coherent(Run(a, events).0)
    decreases |events|
  {
    if events != [] {
      match events[0]
      case SessionStart =>
        RunKeepsCoherent(SessionStarted(a), events[1..]);
      case Frame(input) =>
        var step := Loop(a, input);
        LoopKeepsCoherent(a, input);
        RunKeepsCoherent(step.0, events[1..]);
    }
  }

  /** Once both hands have slot tables every event sequence is safe: a
      frame never shrinks them and a session start rebuilds them. */
  lemma {:induction false} ReadyIsSafe(events: seq<Event>)
    ensures Safe(true, events)
    decreases |events|
  {
    if events != [] {
      ReadyIsSafe(events[1..]);
    }
  }

  /** From boot, whatever sequence of frames and session starts follows:
      Fist, Pinch and Point flags stay false on both hands, and each hand
      shows the active colour exactly while its Shoot latch is held. */
  lemma LifetimeInvariant(events: seq<Event>)
    ensures Safe(BothReady(Boot().hands), events)
    ensures forall s, g :: g != Shoot ==> Run(Boot(), events).0.hands.Get(s).flags.Get(g) == Idle
    ensures forall s :: var h := Run(Boot(), events).0.hands.Get(s);
      h.colour == (if h.flags.shoot.wasHeld then ActiveColour else RestingColour(s))
  {
    ReadyIsSafe(events);
    assert BothReady(Boot().hands);
    assert Coherent(Boot());
    RunKeepsCoherent(Boot(), events);
  }

  /** A hand that was shooting and whose input source vanishes is not
      refreshed and is still classified on its last positions, so it keeps
      firing a bolt every frame with tracking, in its active colour. */
  lemma UntrackedShooterKeepsFiring(a: App, input: FrameInput, s: Side)
    requires input.tracking && BothReady(a.hands) && Coherent(a)
    requires forall k :: 0 <= k < |input.sources| && input.sources[k].hand.Some? ==> input.sources[k].handedness != s
    requires IsShoot(a.hands.Get(s))
    ensures BoltsFrom(Loop(a, input).1.bolts, s) == 1
    ensures Loop(a, input).0.hands.Get(s).joints == a.hands.Get(s).joints
    ensures Loop(a, input).0.hands.Get(s).flags.shoot.wasHeld
    ensures Loop(a, input).0.hands.Get(s).colour == ActiveColour
  {
    UntrackedHandUnchanged(a.hands, input.sources, s);
    TrackedFrame(a, input, s);
    LoopKeepsCoherent(a, input);
    assert HandCoherent(Loop(a, input).0.hands.Get(s), s);
  }
}
