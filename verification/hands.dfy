/** The two hands of the viewer: their joint slot tables, their gesture flags
    and the colour of their joint material, and the rebuild that runs when a
    tracking session starts (`setupHands`). */
module Hands {

  import opened Geometry
  import opened Skeleton

  datatype Side = Left | Right

  /** The gesture vocabulary for which each hand carries a flag pair. */
  datatype Gesture = Fist | Pinch | Point | Shoot

  /** The current (`isHeld`) and previous-frame (`wasHeld`) value of one
      gesture on one hand. */
  datatype GestureFlag = GestureFlag(isHeld: bool, wasHeld: bool)

  const Idle: GestureFlag := GestureFlag(false, false)

  /** One flag pair per gesture, addressed by the gesture. */
  datatype Flags = Flags(fist: GestureFlag, pinch: GestureFlag, point: GestureFlag, shoot: GestureFlag) {

    function Get(g: Gesture): GestureFlag {
      match g
      case Fist => fist
      case Pinch => pinch
      case Point => point
      case Shoot => shoot
    }

    /** Replaces the pair of `g`; every other gesture keeps its pair. */
    function Set(g: Gesture, f: GestureFlag): (r: Flags)
      ensures r.Get(g) == f
      ensures forall g' :: g' != g ==> r.Get(g') == Get(g')
    {
      match g
      case Fist => this.(fist := f)
      case Pinch => this.(pinch := f)
      case Point => this.(point := f)
      case Shoot => this.(shoot := f)
    }
  }

  /** One joint slot (a joint mesh in the source): the layout index it reads
      from, whether it is drawn, and its transform. The scale is uniform. */
  datatype Joint = Joint(index: int, visible: bool, position: Vec3, orientation: Quat, scale: real)

  /** A hand: its resting joint colour (`jointMaterialColor`), the colour its
      joint material currently shows, its joint slots and flags. Which side a
      hand is on is given by its place in a `HandPair`. */
  datatype Hand = Hand(restingColour: int, colour: int, joints: seq<Joint>, flags: Flags)

  /** Both hands, addressed by side. */
  datatype HandPair = HandPair(left: Hand, right: Hand) {

    function Get(s: Side): Hand {
      match s
      case Left => left
      case Right => right
    }

    /** Replaces the hand on side `s`; the other hand is untouched. */
    function With(s: Side, h: Hand): (r: HandPair)
      ensures r.Get(s) == h
      ensures forall s' :: s' != s ==> r.Get(s') == Get(s')
    {
      match s
      case Left => this.(left := h)
      case Right => this.(right := h)
    }
  }

  /** Resting joint colours, as 24-bit RGB integers. */
  const LeftColour: int := 0x00CC33
  const RightColour: int := 0xCC3300

  function RestingColour(s: Side): int {
    match s
    case Left => LeftColour
    case Right => RightColour
  }

  /** A hand as the module-level hands object builds it, before `setupHands`
      first runs at boot: no joint slots yet, its material in its resting
      colour, every flag pair false. */
  function NewHand(s: Side): (h: Hand)
    ensures h.joints == []
    ensures h.colour == h.restingColour == RestingColour(s)
    ensures forall g :: h.flags.Get(g) == Idle
  {
    Hand(RestingColour(s), RestingColour(s), [], Flags(Idle, Idle, Idle, Idle))
  }

  /** Both hands at start-up. */
  function NewHands(): (p: HandPair)
    ensures forall s, g :: p.Get(s).flags.Get(g).isHeld == false && p.Get(s).flags.Get(g).wasHeld == false
    ensures p.left.colour == 0x00CC33 && p.right.colour == 0xCC3300
    ensures forall s :: p.Get(s).restingColour == RestingColour(s)
  {
    HandPair(NewHand(Left), NewHand(Right))
  }

  /** The joint mesh made for slot `i`: hidden, at the origin, unrotated and
      at unit scale, remembering its slot index. */
  function FreshJoint(i: nat): Joint {
    Joint(i, false, Origin, Identity, 1.0)
  }

  /** Slots `0 .. n-1`, created in index order. */
  function CreateSlots(n: nat): (s: seq<Joint>)
    ensures |s| == n
    ensures forall i :: 0 <= i < n ==> s[i].index == i && !s[i].visible
    ensures forall i :: 0 <= i < n ==> s[i].position == Origin && s[i].orientation == Identity && s[i].scale == 1.0
  {
    if n == 0 then [] else CreateSlots(n - 1) + [FreshJoint(n - 1)]
  }

  /** The hand has its full table of joint slots. */
  predicate Ready(h: Hand) {
    |h.joints| == JointCount
  }

  /** Every slot reads the layout index equal to its own position. */
  predicate SlotsIndexed(h: Hand) {
    forall i :: 0 <= i < |h.joints| ==> h.joints[i].index == i
  }

  /** Discards the hand's joint slots and builds a fresh table of 25 hidden
      slots; flags and material colour carry over unchanged. */
  function SetupHand(h: Hand): (r: Hand)
    ensures Ready(r) && SlotsIndexed(r)
    ensures forall i :: 0 <= i < |r.joints| ==> !r.joints[i].visible
    ensures r.restingColour == h.restingColour
    ensures r.colour == h.colour && r.flags == h.flags
  {
    h.(joints := CreateSlots(JointCount))
  }

  /** Rebuilding both hands, as a session start does. */
  function SetupHands(p: HandPair): (r: HandPair)
    ensures forall s :: Ready(r.Get(s)) && SlotsIndexed(r.Get(s))
    ensures forall s :: r.Get(s).flags == p.Get(s).flags && r.Get(s).colour == p.Get(s).colour
  {
    HandPair(SetupHand(p.left), SetupHand(p.right))
  }

  /** The rebuilt table does not depend on the slots that were there before:
      nothing of an earlier table survives a rebuild. */
  lemma SetupDiscardsOldSlots(h1: Hand, h2: Hand)
    requires h1.(joints := h2.joints) == h2
    ensures SetupHand(h1) == SetupHand(h2)
  {
  }

  /** Rebuilding twice is the same as rebuilding once. */
  lemma SetupIdempotent(h: Hand)
    ensures SetupHand(SetupHand(h)) == SetupHand(h)
  {
  }
}
