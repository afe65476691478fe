# Hand-gesture core of the VR hands viewer

This project models the per-frame hand-gesture pipeline of a browser VR scene
viewer (`scripts/main.js`) and proves properties of it in Dafny. Each frame,
the pipeline refreshes the 25 joint slots of each tracked hand from the XR
runtime's joint poses. It then classifies a "shoot" gesture (a pointing index
finger with the thumb resting on the middle finger). A per-hand edge-triggered
latch turns that gesture into a colour change of the hand and one projectile
("Bolt") per frame.

Modules, one per file:

- `Optional` (`optional.dfy`): the `Option` wrapper.
- `Geometry` (`geometry.dfy`): real 3-vectors and quaternions. It also holds the
  sqrt-free distance comparisons `Within` and `Beyond`, and the lemma tying them
  to real Euclidean distances.
- `Skeleton` (`skeleton.dfy`): the 25-slot joint layout. It names the joints
  the classifiers read.
- `Hands` (`hands.dfy`): joints, hands, gesture flag pairs, start-up hands and
  the slot-table rebuild `setupHands`.
- `Sampler` (`sampler.dfy`): `updateInputSources`. A slot is shown only when
  the runtime gives both a joint handle and a pose. A shown slot takes the pose,
  raised by the 1.65 m eye height, and scale 0.007. A slot without a pose is
  hidden and keeps its last transform.
- `Gestures` (`gestures.dfy`): `isPinchGesture`, `isPointGesture` and
  `isShootGesture`.
- `Latch` (`latch.dfy`): the shoot latch as a pure two-state machine. It has a
  reference edge definition and lemmas over runs of frames.
- `Clock` (`clock.dfy`): the elapsed-time computation of `loop`.
- `FrameLoop` (`frame_loop.dfy`): `loop`, session starts, the event-trace run
  and the lifetime invariant.

Abstractions:

- Numbers are Dafny reals. A comparison `distanceTo(a, b) < t` is modelled as
  `SqDist(a, b) < t * t`. `Geometry.ThresholdOnDistance` proves that this
  agrees with the comparison on the Euclidean distance for every positive
  threshold. The classifier lemmas (`PinchByDistance` and the others) restate
  each rule on the real distances. IEEE rounding is not modelled.
- Colours are 24-bit RGB integers. A hand's colour is the colour of its shared
  joint material. Joint meshes are `Joint` records.
- A Bolt spawn is an output event carrying:
  - the hand's side;
  - the wrist slot as it is at spawn time;
  - the effect variant 0.
- Per joint, the XR runtime's input is a `JointSample`, which is one of:
  - `Untracked`: the skeleton entry is falsy. An index past the end of the
    skeleton also reads as `Untracked`.
  - `Unposed`: `getJointPose` returned nothing.
  - `Posed(pose)`.
- The loop's gate (lines 593-599) is the boolean `FrameInput.tracking`.
- Boot is modelled by `FrameLoop.Boot`. The page-load handler registers the
  frame loop and then runs `setupHands`, all before any frame can run. So the
  first frame already finds both hands with 25 hidden, indexed slots, and every
  later session start rebuilds them.
- The classifiers require the hand's 25 slots (`Ready`). The source
  dereferences `hand.joints[k].position` and would throw without them.
  `FrameLoop.Safe` records when a run meets that demand. From the boot state
  every event sequence meets it (`FrameLoop.ReadyIsSafe`).

The model keeps these behaviours of the code as written:

- Nothing guards against hidden joints: the classifiers read the last (stale)
  position of a hidden joint. `Gestures.FreshHandPinches` shows this on a freshly
  rebuilt hand: every slot is hidden at the origin, and Pinch holds.
- A hand with no hand-bearing input source in a frame is not modified at all;
  its joints are not hidden. So a hand that was shooting keeps firing a bolt
  every frame after its source disappears (`FrameLoop.UntrackedShooterKeepsFiring`).
- The Pinch threshold is exactly 0.02 m, with a strict inequality. The visible
  joint scale is 0.007.
- In the code, "Point" is the three-distance rule and "Shoot" is Point plus the
  thumb test. `isFistGesture` has an empty body. Only the Shoot flags are ever
  written after start-up.
- `setupHands` rebuilds the slots only. The gesture flags and the material
  colour carry over into the new session.

## Model

| member | source | states |
|---|---|---|
| Hands.NewHand | scripts/main.js:253-318 | a hand as built before boot has no joint slots, shows its resting colour, and has all four gesture flag pairs false |
| Hands.NewHands | scripts/main.js:267-318 | before any frame, every is/was flag of Fist, Pinch, Point and Shoot is false on both hands; left rests at 0x00CC33, right at 0xCC3300 |
| FrameLoop.Start | scripts/main.js:253-278 | the module-level state before boot has no previous timestamp, all flags false, resting colours and empty slot tables |
| FrameLoop.Boot | scripts/main.js:653-659 | once the page has loaded, before any frame, both hands have 25 hidden indexed slots, all flags false and resting colours, and no timestamp has been seen |
| Hands.CreateSlots | scripts/main.js:353-366 | building n slots gives exactly n slots; slot i reads index i, is hidden, and sits at the origin, unrotated, at unit scale |
| Hands.SetupHand | scripts/main.js:330-396 | after a rebuild the hand has exactly 25 slots, slot i carries index i, and every slot is hidden; flags and colour carry over |
| Hands.SetupHands | scripts/main.js:323-402 | a rebuild gives both hands indexed 25-slot tables and keeps their flags and colours |
| Hands.SetupDiscardsOldSlots | scripts/main.js:337-349 | the rebuilt table does not depend on the previous slot list: hands that differ only in their slots rebuild to the same hand |
| Hands.SetupIdempotent | scripts/main.js:323-402 | rebuilding twice equals rebuilding once |
| FrameLoop.SessionStarted | scripts/main.js:141-143 | a session start leaves both hands with 25 hidden indexed slots, the same flags and colours, and the clock untouched |
| Sampler.SampleJoint | scripts/main.js:551-571 | a slot ends visible iff the skeleton has both a handle and a pose for its index; if visible, it takes the pose raised by 1.65 on y, the pose's orientation and scale 0.007; otherwise its transform is unchanged; its index never changes |
| Sampler.SampleHand | scripts/main.js:551-572 | refreshing a hand changes only its slots, keeps their number, and refreshes every slot from the same skeleton |
| Sampler.UpdateInputSources | scripts/main.js:532-575 | processing the input sources keeps each hand's slot count, slot indices, flags and colours |
| Sampler.SampleAll | scripts/main.js:534-572 | refreshing from several skeletons in turn changes only the slots and keeps their number and indices |
| Sampler.UpdateIsPerSide | scripts/main.js:534-553 | each hand ends as if refreshed, in source order, from exactly the hand-bearing sources of its side; other sources do not touch it |
| Sampler.UntrackedHandUnchanged | scripts/main.js:534-548 | a hand with no hand-bearing source for its side this frame is not modified at all |
| Sampler.LastSkeletonDecides | scripts/main.js:534-572 | after several sources for one side, a slot is visible iff the last of them posed its joint |
| Sampler.SampleAllSnoc | scripts/main.js:534-572 | refreshing from one more source is one more refresh applied to the result |
| Sampler.SampleJointIdempotent | scripts/main.js:553-571 | sampling the same skeleton twice equals sampling it once |
| Sampler.SingleSourceVisibility | scripts/main.js:548-571 | with one hand-bearing source, slot i ends visible iff that source has a handle and a pose for slot i's index |
| Geometry.SqDist | scripts/main.js:468 | the squared distance is non-negative and zero between equal points |
| Geometry.SquareMonotone | scripts/main.js:468-470 | squaring preserves strict order on non-negative reals, which justifies comparing squared distances |
| Geometry.ThresholdOnDistance | scripts/main.js:468-470 | for a positive threshold t, the squared comparisons agree exactly with "distance < t" and "distance > t" on the Euclidean distance |
| Geometry.SqDistSymmetric | scripts/main.js:468 | distance is symmetric in its two joints, so every "closer than" and "farther than" test is too, for every threshold |
| Geometry.RaisePreservesSqDist | scripts/main.js:560-561 | adding the same height to two joints leaves their distance unchanged |
| Gestures.PinchByDistance | scripts/main.js:463-471 | Pinch holds iff the Euclidean distance from index tip (joint 9) to thumb tip (joint 4) is strictly below 0.02 |
| Gestures.PointByDistances | scripts/main.js:472-509 | Point holds iff index tip to index proximal > 0.05, middle tip to thumb metacarpal < 0.06, and little tip to little metacarpal < 0.06 |
| Gestures.ShootByDistance | scripts/main.js:510-527 | Shoot holds iff Point holds and thumb tip to middle intermediate < 0.06 |
| Gestures.ShootImpliesPoint | scripts/main.js:517-519 | every shoot is a point |
| Gestures.ClassifiersIgnoreVisibility | scripts/main.js:463-527 | hands whose slots sit at the same positions classify alike whatever their visibility: nothing guards against hidden joints |
| Gestures.FreshHandPinches | scripts/main.js:463-471 | a freshly rebuilt hand has all slots hidden, yet pinches on their stale origin positions, and neither points nor shoots |
| Gestures.SampledGestures | scripts/main.js:556-562 | when a skeleton poses every classifier joint, the refreshed hand's Pinch, Point and Shoot are decided by the reported positions alone; earlier slot contents and the eye-height offset do not matter |
| Gestures.PinchScenario | scripts/main.js:463-471 | tips 1 cm apart pinch and tips 5 cm apart do not |
| Latch.Step | scripts/main.js:605-623 | after a frame the latch holds the fresh value; it fires iff the value is true; the colour becomes 0xFFCC00 only on a false-to-true edge and the resting colour only on a true-to-false edge; a repeated value changes nothing |
| Latch.RunEdgesFollowReference | scripts/main.js:606-623 | in any run, frame k takes exactly the edge the reference definition gives for the previous value and the current one |
| Latch.RunFinalIsLastValue | scripts/main.js:605-623 | after any run the latch holds the last value it saw |
| Latch.RunFiresOncePerHeldFrame | scripts/main.js:606-613 | a run fires exactly one bolt per frame on which the gesture is held, the rising-edge frame included |
| Latch.RunEdgesBalance | scripts/main.js:606-623 | began edges minus ended edges equals the change of the held state over the run |
| Latch.RunKeepsColourAgreement | scripts/main.js:608-622 | the colour is the active colour exactly while the latch is held, in every state of a run that starts so |
| Latch.HoldAndRelease | scripts/main.js:605-623 | the input false, true, true, false gives one began edge at frame 2, one ended edge at frame 4, and two bolts |
| Latch.Flicker | scripts/main.js:605-623 | the input false, true, false gives a began edge and then an ended edge, and returns to rest |
| Clock.Advance | scripts/main.js:632-634 | the first frame has delta 0; a later frame has delta (now - previous)/1000; the previous time becomes now |
| Clock.DeltasTelescopeFrom | scripts/main.js:632-634 | after a frame stamped p, the deltas of a run add up to (last - p)/1000 |
| Clock.DeltasTelescope | scripts/main.js:632-634 | from the first frame on, the deltas start with 0 and add up to (last - first)/1000 |
| FrameLoop.ShootLatch | scripts/main.js:602-623 | per hand, the Shoot pair becomes the fresh classification twice over; other flags and the slots are kept; the colour changes only on an edge; one wrist bolt with variant 0 is fired iff the hand shoots |
| FrameLoop.BoltsFromAppend | scripts/main.js:602-624 | bolt counts per side add up over the left and right hands |
| FrameLoop.LatchBoth | scripts/main.js:602-624 | each hand fires exactly one bolt from its wrist slot when it shoots and none otherwise |
| FrameLoop.Loop | scripts/main.js:591-639 | a frame without tracking changes no hand and fires nothing; a frame with tracking latches both refreshed hands; every frame advances the clock and keeps slot counts |
| FrameLoop.TrackedFrame | scripts/main.js:601-613 | on a tracked frame each hand's Shoot flags equal the fresh classification of the refreshed hand, and it fires one bolt iff it shoots |
| FrameLoop.Run | scripts/main.js:141-143 | after a run both hands have slot tables iff they had them before or a session started |
| FrameLoop.RunTiming | scripts/main.js:632-634 | the elapsed times of a run are the clock's deltas over its frame timestamps; session starts do not disturb the clock |
| FrameLoop.LoopKeepsCoherent | scripts/main.js:602-623 | a frame keeps the invariant: Fist, Pinch and Point unset, both Shoot values equal, and the colour active exactly while Shoot is latched |
| FrameLoop.RunKeepsCoherent | scripts/main.js:591-634 | every run from a coherent state ends coherent |
| FrameLoop.ReadyIsSafe | scripts/main.js:653-659 | once both hands have slot tables, every sequence of frames and session starts can be run without a missing slot |
| FrameLoop.LifetimeInvariant | scripts/main.js:591-659 | from boot, for every sequence of frames and session starts, Fist, Pinch and Point flags stay false, and each hand shows 0xFFCC00 exactly while its Shoot latch is held |
| FrameLoop.UntrackedShooterKeepsFiring | scripts/main.js:548-623 | a shooting hand whose source disappears keeps its slots, stays latched, keeps the active colour and fires one bolt on the next tracked frame |

## Left out

- Scene, camera, renderer, orbit controls, VR button, resize handling, background, floor, lights and lensflare (scripts/main.js:57-239): configuration of the external rendering library.
- Bolt internals, `Bolt.update` and `renderer.render`: foreign visual effects. A spawn is an output event, and the elapsed time is an output value.
- Adding meshes to and removing them from the scene: scene membership belongs to the rendering library. Only the slot table is modelled.
- Requesting the XR reference space (an asynchronous promise) and reading the session: the whole loop gate is the input flag `tracking`. The source's test `xrReferenceSpace !== null` also passes while the variable is still `undefined`. The model cannot see what the runtime then does with an undefined reference space, so a frame with tracking assumes a usable one.
- `isFistGesture`: its body is empty and it returns `undefined`, so no Fist rule is modelled. Its flag pair exists and is never written.
- Bone meshes, bone materials and bone geometry: the bone-creating code is commented out, so the bone list is always empty.
- The `Object.assign` construction of the right hand from the left, and the hands' `name` strings: each hand gets its own resting colour, and a hand's side is its place in the pair.
- Material roughness and metalness, shadow flags, and the joint geometry: rendering details with no effect on the gesture logic.
- IEEE floating point: the model uses reals and squared distances, as described above.
- Input sources with handedness `none`: the source would index a missing hand and throw; the model has only left and right.
- `console.log` diagnostics: not part of the behaviour.
