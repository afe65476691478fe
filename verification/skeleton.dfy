/** The fixed 25-joint layout of a tracked hand in the hand-input API the
    viewer targets. Only the joints the classifiers and the bolt spawner read
    are named; every slot from `Wrist` to `LittleTip` exists. */
module Skeleton {

  /** Number of joint slots per hand: indices 0 (wrist) to 24 (little tip). */
  const JointCount: nat := 25

  const Wrist: nat := 0
  const ThumbMetacarpal: nat := 1
  const ThumbTip: nat := 4
  const IndexProximal: nat := 6
  const IndexTip: nat := 9
  const MiddleIntermediate: nat := 12
  const MiddleTip: nat := 14
  const LittleMetacarpal: nat := 20
  const LittleTip: nat := 24

  /** `i` addresses a slot of the layout. */
  predicate IsJointIndex(i: int) {
    0 <= i < JointCount
  }
}
