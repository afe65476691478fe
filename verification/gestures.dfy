/** The gesture classifiers: pure threshold tests on distances between joint
    positions of one hand. They read every referenced slot's position whether
    or not the slot is visible this frame, so a hidden joint contributes its
    last (stale) position. */
module Gestures {

  import opened Geometry
  import opened Skeleton
  import opened Hands
  import opened Sampler

  /** Thresholds, in metres. */
  const PinchReach: real := 0.02
  const IndexExtension: real := 0.05
  const CurlReach: real := 0.06

  /** Position of slot `k`. */
  function At(h: Hand, k: nat): Vec3
    requires Ready(h) && k < JointCount
  {
    h.joints[k].position
  }

  /** Index tip and thumb tip touch. */
  predicate IsPinch(h: Hand)
    requires Ready(h)
  {
    Within(At(h, IndexTip), At(h, ThumbTip), PinchReach)
  }

  /** Index finger extended, middle finger curled toward the thumb's base,
      little finger curled toward its own base. */
  predicate IsPoint(h: Hand)
    requires Ready(h)
  {
    && Beyond(At(h, IndexTip), At(h, IndexProximal), IndexExtension)
    && Within(At(h, MiddleTip), At(h, ThumbMetacarpal), CurlReach)
    && Within(At(h, LittleTip), At(h, LittleMetacarpal), CurlReach)
  }

  /** A point whose thumb tip rests near the middle of the middle finger. */
  predicate IsShoot(h: Hand)
    requires Ready(h)
  {
    IsPoint(h) && Within(At(h, ThumbTip), At(h, MiddleIntermediate), CurlReach)
  }

  /** Pinch, stated on the Euclidean distance `d` between the two tips: it
      holds exactly when `d` is strictly below 2 cm. */
  lemma PinchByDistance(h: Hand, d: real)
    requires Ready(h)
    requires IsDistance(d, At(h, IndexTip), At(h, ThumbTip))
    ensures IsPinch(h) <==> d < 0.02
  {
    ThresholdOnDistance(At(h, IndexTip), At(h, ThumbTip), d, PinchReach);
  }

  /** Point, stated on the three Euclidean distances it tests. */
  lemma PointByDistances(h: Hand, extension: real, middle: real, little: real)
    requires Ready(h)
    requires IsDistance(extension, At(h, IndexTip), At(h, IndexProximal))
    requires IsDistance(middle, At(h, MiddleTip), At(h, ThumbMetacarpal))
    requires IsDistance(little, At(h, LittleTip), At(h, LittleMetacarpal))
    ensures IsPoint(h) <==> extension > 0.05 && middle < 0.06 && little < 0.06
  {
    ThresholdOnDistance(At(h, IndexTip), At(h, IndexProximal), extension, IndexExtension);
    ThresholdOnDistance(At(h, MiddleTip), At(h, ThumbMetacarpal), middle, CurlReach);
    ThresholdOnDistance(At(h, LittleTip), At(h, LittleMetacarpal), little, CurlReach);
  }

  /** Shoot, stated on the Euclidean distance `thumb` from thumb tip to middle
      intermediate: exactly a point with `thumb` below 6 cm. */
  lemma ShootByDistance(h: Hand, thumb: real)
    requires Ready(h)
    requires IsDistance(thumb, At(h, ThumbTip), At(h, MiddleIntermediate))
    ensures IsShoot(h) <==> IsPoint(h) && thumb < 0.06
  {
    ThresholdOnDistance(At(h, ThumbTip), At(h, MiddleIntermediate), thumb, CurlReach);
  }

  /** Every shoot is a point. */
  lemma ShootImpliesPoint(h: Hand)
    requires Ready(h)
    ensures IsShoot(h) ==> IsPoint(h)
  {
  }

  /** The classifiers look at positions only, never at visibility: two hands
      whose referenced slots sit at the same positions classify alike, even if
      one of them has every slot hidden. */
  lemma ClassifiersIgnoreVisibility(h1: Hand, h2: Hand)
    requires Ready(h1) && Ready(h2)
    requires forall k :: 0 <= k < JointCount ==> h1.joints[k].position == h2.joints[k].position
    ensures IsPinch(h1) == IsPinch(h2)
    ensures IsPoint(h1) == IsPoint(h2)
    ensures IsShoot(h1) == IsShoot(h2)
  {
    assert At(h1, IndexTip) == At(h2, IndexTip);
    assert At(h1, ThumbTip) == At(h2, ThumbTip);
    assert At(h1, IndexProximal) == At(h2, IndexProximal);
    assert At(h1, MiddleTip) == At(h2, MiddleTip);
    assert At(h1, ThumbMetacarpal) == At(h2, ThumbMetacarpal);
    assert At(h1, LittleTip) == At(h2, LittleTip);
    assert At(h1, LittleMetacarpal) == At(h2, LittleMetacarpal);
    assert At(h1, MiddleIntermediate) == At(h2, MiddleIntermediate);
  }

  /** A freshly rebuilt hand has every slot hidden at the origin, and the
      classifiers read those stale positions: it pinches (distance 0) but
      neither points nor shoots. */
  lemma FreshHandPinches(h: Hand)
    ensures Ready(SetupHand(h))
    ensures forall i :: 0 <= i < JointCount ==> !SetupHand(h).joints[i].visible
    ensures IsPinch(SetupHand(h))
    ensures !IsPoint(SetupHand(h)) && !IsShoot(SetupHand(h))
  {
    var r := SetupHand(h);
    assert At(r, IndexTip) == Origin && At(r, ThumbTip) == Origin && At(r, IndexProximal) == Origin;
  }

  /** The slots every classifier reads. */
  predicate PosesClassifierJoints(skeleton: seq<JointSample>) {
    && SampleAt(skeleton, ThumbMetacarpal).Posed?
    && SampleAt(skeleton, ThumbTip).Posed?
    && SampleAt(skeleton, IndexProximal).Posed?
    && SampleAt(skeleton, IndexTip).Posed?
    && SampleAt(skeleton, MiddleIntermediate).Posed?
    && SampleAt(skeleton, MiddleTip).Posed?
    && SampleAt(skeleton, LittleMetacarpal).Posed?
    && SampleAt(skeleton, LittleTip).Posed?
  }

  /** The reported position of joint `k`. */
  function Reported(skeleton: seq<JointSample>, k: nat): Vec3
    requires SampleAt(skeleton, k).Posed?
  {
    SampleAt(skeleton, k).pose.position
  }

  /** When the skeleton poses every joint the classifiers read, the gestures
      of the refreshed hand are decided by the reported positions alone: the
      earlier slot contents do not matter and the eye-height offset cancels. */
  lemma SampledGestures(h: Hand, skeleton: seq<JointSample>)
    requires Ready(h) && SlotsIndexed(h)
    requires PosesClassifierJoints(skeleton)
    ensures Ready(SampleHand(h, skeleton))
    ensures IsPinch(SampleHand(h, skeleton))
        <==> Within(Reported(skeleton, IndexTip), Reported(skeleton, ThumbTip), PinchReach)
    ensures IsPoint(SampleHand(h, skeleton)) <==>
        && Beyond(Reported(skeleton, IndexTip), Reported(skeleton, IndexProximal), IndexExtension)
        && Within(Reported(skeleton, MiddleTip), Reported(skeleton, ThumbMetacarpal), CurlReach)
        && Within(Reported(skeleton, LittleTip), Reported(skeleton, LittleMetacarpal), CurlReach)
    ensures IsShoot(SampleHand(h, skeleton)) <==>
        && IsPoint(SampleHand(h, skeleton))
        && Within(Reported(skeleton, ThumbTip), Reported(skeleton, MiddleIntermediate), CurlReach)
  {
    var r := SampleHand(h, skeleton);
    forall a: nat, b: nat | a < JointCount && b < JointCount && SampleAt(skeleton, a).Posed? && SampleAt(skeleton, b).Posed?
      ensures SqDist(At(r, a), At(r, b)) == SqDist(Reported(skeleton, a), Reported(skeleton, b))
    {
      assert At(r, a) == Raise(Reported(skeleton, a), UserHeight);
      assert At(r, b) == Raise(Reported(skeleton, b), UserHeight);
      RaisePreservesSqDist(Reported(skeleton, a), Reported(skeleton, b), UserHeight);
    }
  }

  /** The pinch examples: tips 1 cm apart pinch, tips 5 cm apart do not. */
  lemma PinchScenario(h: Hand)
    requires Ready(h)
    requires At(h, IndexTip) == Vec3(0.0, 0.0, 0.0)
    ensures At(h, ThumbTip) == Vec3(0.0, 0.0, 0.01) ==> IsPinch(h)
    ensures At(h, ThumbTip) == Vec3(0.0, 0.0, 0.05) ==> !IsPinch(h)
  {
  }
}
