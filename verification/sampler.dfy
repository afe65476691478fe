/** The pose sampler (`updateInputSources`): each frame, every input source
    that carries a hand skeleton refreshes the joint slots of the hand on its
    side from that skeleton's per-joint poses. */
module Sampler {

  import opened Optional
  import opened Geometry
  import opened Skeleton
  import opened Hands

  /** A joint pose reported in the tracking reference space. */
  datatype Pose = Pose(position: Vec3, orientation: Quat)

  /** What the runtime gives for one joint this frame: no joint handle at all,
      a handle whose pose lookup returned nothing, or a pose. */
  datatype JointSample = Untracked | Unposed | Posed(pose: Pose)

  /** One input source of the session. `hand` is None for a source that is
      not a tracked hand (a controller, a gaze pointer). */
  datatype InputSource = InputSource(handedness: Side, hand: Option<seq<JointSample>>)

  /** The configured eye height, added to every sampled joint's y. */
  const UserHeight: real := 1.65

  /** The uniform scale given to every visible joint mesh. */
  const JointRadius: real := 0.007

  /** The skeleton's entry for a layout index; an index the skeleton does not
      cover reads as no joint handle. */
  function SampleAt(skeleton: seq<JointSample>, index: int): (r: JointSample)
    ensures 0 <= index < |skeleton| ==> r == skeleton[index]
    ensures !(0 <= index < |skeleton|) ==> r == Untracked
  {
    if 0 <= index < |skeleton| then skeleton[index] else Untracked
  }

  /** Refreshes one slot. A slot is shown only when the skeleton has both a
      joint handle and a pose for the slot's index; then it takes the pose,
      raised by the eye height, and the joint radius as scale. Otherwise it
      is hidden and keeps its last transform. */
  function SampleJoint(j: Joint, skeleton: seq<JointSample>): (r: Joint)
    ensures r.index == j.index
    ensures r.visible <==> SampleAt(skeleton, j.index).Posed?
    ensures r.visible ==>
      && r.position == Raise(SampleAt(skeleton, j.index).pose.position, UserHeight)
      && r.orientation == SampleAt(skeleton, j.index).pose.orientation
      && r.scale == JointRadius
    ensures !r.visible ==>
      r.position == j.position && r.orientation == j.orientation && r.scale == j.scale
  {
    match SampleAt(skeleton, j.index)
    case Posed(p) =>
      j.(visible := true, position := Raise(p.position, UserHeight), orientation := p.orientation, scale := JointRadius)
    case Unposed => j.(visible := false)
    case Untracked => j.(visible := false)
  }

  /** Refreshes every slot of `h` from one skeleton; nothing but the slots
      changes and the table keeps its size. */
  function SampleHand(h: Hand, skeleton: seq<JointSample>): (r: Hand)
    ensures |r.joints| == |h.joints|
    ensures r == h.(joints := r.joints)
    ensures forall i :: 0 <= i < |h.joints| ==> r.joints[i] == SampleJoint(h.joints[i], skeleton)
  {
    h.(joints := seq(|h.joints|, i requires 0 <= i < |h.joints| => SampleJoint(h.joints[i], skeleton)))
  }

  /** Processes the session's input sources in order. A source without a hand
      is skipped; a later source for the same side refreshes the same hand
      again. */
  function UpdateInputSources(p: HandPair, sources: seq<InputSource>): (r: HandPair)
    ensures forall s :: |r.Get(s).joints| == |p.Get(s).joints|
    ensures forall s :: r.Get(s) == p.Get(s).(joints := r.Get(s).joints)
    ensures forall s, i :: 0 <= i < |p.Get(s).joints| ==> r.Get(s).joints[i].index == p.Get(s).joints[i].index
    decreases |sources|
  {
    if sources == [] then p
    else
      var src := sources[0];
      var p' := if src.hand.Some? then p.With(src.handedness, SampleHand(p.Get(src.handedness), src.hand.value)) else p;
      UpdateInputSources(p', sources[1..])
  }

  /** The skeletons that address side `s`, in source order. */
  function SkeletonsFor(sources: seq<InputSource>, s: Side): (r: seq<seq<JointSample>>)
    ensures |r| <= |sources|
  {
    if sources == [] then []
    else
      var rest := SkeletonsFor(sources[1..], s);
      if sources[0].hand.Some? && sources[0].handedness == s then [sources[0].hand.value] + rest else rest
  }

  /** Refreshing one hand from several skeletons, first to last. */
  function SampleAll(h: Hand, skeletons: seq<seq<JointSample>>): (r: Hand)
    ensures |r.joints| == |h.joints|
    ensures r == h.(joints := r.joints)
    ensures forall i :: 0 <= i < |h.joints| ==> r.joints[i].index == h.joints[i].index
    decreases |skeletons|
  {
    if skeletons == [] then h else SampleAll(SampleHand(h, skeletons[0]), skeletons[1..])
  }

  /** Each hand ends as if refreshed, in order, from exactly the skeletons
      addressed to its side; the other side's sources do not touch it. */
  lemma {:induction false} UpdateIsPerSide(p: HandPair, sources: seq<InputSource>, s: Side)
    ensures UpdateInputSources(p, sources).Get(s) == SampleAll(p.Get(s), SkeletonsFor(sources, s))
    decreases |sources|
  {
    if sources != [] {
      var src := sources[0];
      var p' := if src.hand.Some? then p.With(src.handedness, SampleHand(p.Get(src.handedness), src.hand.value)) else p;
      UpdateIsPerSide(p', sources[1..], s);
      if src.hand.Some? && src.handedness == s {
        assert p'.Get(s) == SampleHand(p.Get(s), src.hand.value);
        assert SkeletonsFor(sources, s) == [src.hand.value] + SkeletonsFor(sources[1..], s);
        assert ([src.hand.value] + SkeletonsFor(sources[1..], s))[1..] == SkeletonsFor(sources[1..], s);
      } else {
        assert p'.Get(s) == p.Get(s);
      }
    }
  }

  /** A hand with no hand-bearing input source for its side this frame is
      left exactly as it was: its slots are neither refreshed nor hidden. */
  lemma {:induction false} UntrackedHandUnchanged(p: HandPair, sources: seq<InputSource>, s: Side)
    requires forall k :: 0 <= k < |sources| && sources[k].hand.Some? ==> sources[k].handedness != s
    ensures UpdateInputSources(p, sources).Get(s) == p.Get(s)
  {
    UpdateIsPerSide(p, sources, s);
    NoSkeletonsFor(sources, s);
  }

  lemma {:induction false} NoSkeletonsFor(sources: seq<InputSource>, s: Side)
    requires forall k :: 0 <= k < |sources| && sources[k].hand.Some? ==> sources[k].handedness != s
    ensures SkeletonsFor(sources, s) == []
  {
    if sources != [] {
      assert forall k :: 0 <= k < |sources[1..]| ==> sources[1..][k] == sources[k + 1];
      NoSkeletonsFor(sources[1..], s);
    }
  }

  /** After a run of refreshes, a slot is visible exactly when the last
      skeleton posed its joint, and then holds that skeleton's pose raised
      by the eye height. */
  lemma {:induction false} LastSkeletonDecides(h: Hand, skeletons: seq<seq<JointSample>>, i: int)
    requires skeletons != []
    requires 0 <= i < |h.joints|
    ensures SampleAll(h, skeletons).joints[i] == SampleJoint(SampleAll(h, skeletons[..|skeletons| - 1]).joints[i], skeletons[|skeletons| - 1])
    ensures SampleAll(h, skeletons).joints[i].visible <==> SampleAt(skeletons[|skeletons| - 1], h.joints[i].index).Posed?
    decreases |skeletons|
  {
    var n := |skeletons|;
    SampleAllSnoc(h, skeletons[..n - 1], skeletons[n - 1]);
    assert skeletons[..n - 1] + [skeletons[n - 1]] == skeletons;
  }

  /** Refreshing from `ks` and then from `k` is refreshing from `ks + [k]`. */
  lemma {:induction false} SampleAllSnoc(h: Hand, ks: seq<seq<JointSample>>, k: seq<JointSample>)
    ensures SampleAll(h, ks + [k]) == SampleHand(SampleAll(h, ks), k)
    decreases |ks|
  {
    if ks == [] {
      assert ([] + [k])[1..] == [];
    } else {
      assert (ks + [k])[1..] == ks[1..] + [k];
      SampleAllSnoc(SampleHand(h, ks[0]), ks[1..], k);
    }
  }

  /** Sampling the same skeleton twice is the same as sampling it once. */
  lemma SampleJointIdempotent(j: Joint, skeleton: seq<JointSample>)
    ensures SampleJoint(SampleJoint(j, skeleton), skeleton) == SampleJoint(j, skeleton)
  {
  }

  /** A hand with one hand-bearing source for its side ends with slot `i`
      visible exactly when that source has a handle and a pose for slot
      `i`'s index. */
  lemma SingleSourceVisibility(p: HandPair, src: InputSource, i: int)
    requires src.hand.Some?
    requires 0 <= i < |p.Get(src.handedness).joints|
    ensures UpdateInputSources(p, [src]).Get(src.handedness).joints[i].visible
        <==> SampleAt(src.hand.value, p.Get(src.handedness).joints[i].index).Posed?
  {
    assert [src][1..] == [];
  }
}
