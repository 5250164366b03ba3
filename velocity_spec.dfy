/** What one frame of the velocity pass does to one velocity material, as functions
    on values, and the properties that follow across frames. */
module VelocitySpec {
  import opened Matrices
  import opened Three

  /** Two define dictionaries agree on every key outside `keys`. */
  ghost predicate SameOutside(a: map<Define, string>, b: map<Define, string>, keys: set<Define>)
  {
    forall k | k !in keys :: (k in a <==> k in b) && (k in a ==> k in b && a[k] == b[k])
  }

  /** The object is not well approximated by rigid motion: it depends on dynamic
      reflections or its original material shows a video. */
  predicate WantsFullMovement(needsUpdatedReflections: bool, mapKind: MapKind)
  {
    needsUpdatedReflections || mapKind == VideoMap
  }

  /** The full-movement hint applied to a velocity material's defines: the new
      defines and whether `needsUpdate` was set. */
  function ApplyHint(defines: map<Define, string>, fullMovement: bool): (r: (map<Define, string>, bool))
    ensures (FullMovement in r.0) == fullMovement
    ensures r.1 <==> (FullMovement in defines) != fullMovement
    ensures SameOutside(r.0, defines, {FullMovement})
  {
    if fullMovement then
      (defines[FullMovement := ""], FullMovement !in defines)
    else if FullMovement in defines then
      (defines - {FullMovement}, true)
    else
      (defines, false)
  }

  /** The two skinning defines a skinned mesh's velocity material carries. */
  function WithSkinning(defines: map<Define, string>): map<Define, string>
  {
    defines[UseSkinning := ""][BoneTexture := ""]
  }

  /** Install for one material: the current clip matrix goes into `velocityMatrix`,
      the hint into the defines (bumping `version` only on a change), the three
      flags are copied and a skinned mesh's bone texture is bound. */
  function BeginFrame(s: MaterialState, clip: Matrix, fullMovement: bool, flags: RenderFlags,
                      skeleton: DataTexture?): (r: MaterialState)
    ensures r.velocityMatrix == clip && r.flags == flags
    ensures r.prevVelocityMatrix == s.prevVelocityMatrix && r.lastMatrixWorld == s.lastMatrixWorld
    ensures (FullMovement in r.defines) == fullMovement
    ensures r.version == s.version + if (FullMovement in s.defines) != fullMovement then 1 else 0
    ensures skeleton != null ==>
              UseSkinning in r.defines && BoneTexture in r.defines && r.boneTexture == skeleton
              && SameOutside(r.defines, s.defines, {FullMovement, UseSkinning, BoneTexture})
    ensures skeleton == null ==>
              r.boneTexture == s.boneTexture && SameOutside(r.defines, s.defines, {FullMovement})
  {
    var (defines, rebuild) := ApplyHint(s.defines, fullMovement);
    s.(defines := if skeleton != null then WithSkinning(defines) else defines,
       version := if rebuild then s.version + 1 else s.version,
       velocityMatrix := clip,
       flags := flags,
       boneTexture := if skeleton != null then skeleton else s.boneTexture)
  }

  /** Restore for one material: this frame's clip and world matrices become "previous". */
  function EndFrame(s: MaterialState, clip: Matrix, world: Matrix): (r: MaterialState)
    ensures r.prevVelocityMatrix == clip && r.lastMatrixWorld == world
    ensures r.defines == s.defines && r.version == s.version && r.velocityMatrix == s.velocityMatrix
    ensures r.flags == s.flags && r.boneTexture == s.boneTexture
  {
    s.(prevVelocityMatrix := clip, lastMatrixWorld := world)
  }

  /** After a whole frame the previous clip matrix is the one written at install. */
  lemma OneFrameLag(s: MaterialState, clip: Matrix, fullMovement: bool, flags: RenderFlags,
                    skeleton: DataTexture?, world: Matrix)
    ensures var installed := BeginFrame(s, clip, fullMovement, flags, skeleton);
            var restored := EndFrame(installed, clip, world);
            restored.prevVelocityMatrix == installed.velocityMatrix == clip
            && restored.lastMatrixWorld == world
  {
  }

  /** An object whose clip matrix does not change between two frames has equal
      current and previous clip matrices in the second: its motion is zero. */
  lemma StaticObjectHasNoMotion(s: MaterialState, clip: Matrix, fullMovement: bool, flags: RenderFlags,
                                skeleton: DataTexture?, world: Matrix, fullMovement2: bool,
                                flags2: RenderFlags)
    ensures var next := EndFrame(BeginFrame(s, clip, fullMovement, flags, skeleton), clip, world);
            var second := BeginFrame(next, clip, fullMovement2, flags2, skeleton);
            second.velocityMatrix == second.prevVelocityMatrix
  {
  }

  /** A hint repeated on the next frame requests no rebuild. */
  lemma RepeatedHintRequestsNoRebuild(s: MaterialState, clip: Matrix, clip2: Matrix, fullMovement: bool,
                                      flags: RenderFlags, flags2: RenderFlags, skeleton: DataTexture?,
                                      world: Matrix)
    ensures var first := EndFrame(BeginFrame(s, clip, fullMovement, flags, skeleton), clip, world);
            BeginFrame(first, clip2, fullMovement, flags2, skeleton).version == first.version
  {
  }

  /** How many frames of a run of hints set `needsUpdate`, starting from `defines`. */
  function RebuildsOver(defines: map<Define, string>, hints: seq<bool>): nat
    decreases |hints|
  {
    if hints == [] then 0
    else
      var (next, rebuild) := ApplyHint(defines, hints[0]);
      (if rebuild then 1 else 0) + RebuildsOver(next, hints[1..])
  }

  /** How many hints differ from the hint before them (the first from `start`). */
  function Transitions(start: bool, hints: seq<bool>): nat
    decreases |hints|
  {
    if hints == [] then 0
    else (if hints[0] != start then 1 else 0) + Transitions(hints[0], hints[1..])
  }

  /** Exactly one rebuild per actual change of the full-movement hint. */
  lemma {:induction false} RebuildsAreTransitions(defines: map<Define, string>, hints: seq<bool>)
    ensures RebuildsOver(defines, hints) == Transitions(FullMovement in defines, hints)
    decreases |hints|
  {
    if hints != [] {
      RebuildsAreTransitions(ApplyHint(defines, hints[0]).0, hints[1..]);
    }
  }

  /** The bone snapshot is kept when it exists and has the skeleton texture's width. */
  predicate ReusesSnapshot(previous: DataTexture?, skeleton: DataTexture)
  {
    previous != null && previous.width == skeleton.width
  }

  /** `boneTexture.image.width`: a texture's image width, absent without a texture. */
  function ImageWidth(t: DataTexture?): Option<nat>
  {
    if t == null then None else Some(t.width)
  }

  /** `skeleton.boneTexture.width`: a three.js `DataTexture` keeps its size under
      `image` and has no `width` property of its own. */
  const UndefinedWidthProperty: Option<nat> := None

  /** Line 90 as written: the snapshot's `image.width` against the skeleton texture's
      own `width` property, both possibly undefined. */
  predicate ReusesSnapshotAsWritten(previousImageWidth: Option<nat>, skeletonWidthProperty: Option<nat>)
  {
    previousImageWidth.Some? && skeletonWidthProperty.Some?
    && previousImageWidth.value == skeletonWidthProperty.value
  }

  /** A snapshot exactly as wide as the skeleton texture is one to keep, yet the test
      as written, reading the undefined property, discards it. */
  lemma AsWrittenDiscardsMatchingSnapshot(previous: DataTexture, skeleton: DataTexture)
    requires previous.width == skeleton.width
    ensures ReusesSnapshot(previous, skeleton)
    ensures !ReusesSnapshotAsWritten(ImageWidth(previous), UndefinedWidthProperty)
  {
  }
}
