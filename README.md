# Velocity and HBAO passes, modelled in Dafny

This project models the host-side logic of two post-processing passes of a three.js
effects library.

**The velocity pass** renders a per-pixel motion buffer. On every frame it does three things:

- **Install.** Each visible mesh is dressed in a velocity material cached for that mesh.
  That material gets the current clip matrix (`projection × modelView`), a
  `FULL_MOVEMENT` define for meshes that depend on reflections or show a video, the
  mesh's `visible`/`wireframe`/`side` flags and, for a skinned mesh, the skinning
  defines and the skeleton's bone texture.
- **Render.** The scene is drawn once into the pass's target, over a neutral background.
- **Restore.** Each mesh gets its own material back. Before that, the clip and world
  matrices of this frame become the "previous" ones, and a skinned mesh's bones are
  copied into the velocity material's `prevBoneTexture` snapshot. The evident intent
  is to keep that snapshot when it has the skeleton texture's width, and to replace it
  otherwise. As written, the width test compares against a property a three.js
  `DataTexture` does not define, so the snapshot is replaced at every restore (see
  "## Findings"). The model follows the intended test.

**The HBAO pass** keeps a frame counter. Each render advances it by 16, modulo 2^16.
On every render the pass writes its camera uniforms and, once the blue-noise texture
has loaded, the noise repeat. `setSize` sets the `texSize` uniform.

## Files

- `matrices.dfy` (module `Matrices`) keeps matrices symbolic: a matrix is the term that
  built it, so every property about matrices is an identity between terms.
- `three.dfy` (module `Three`) holds the three.js objects the passes touch, as classes
  reduced to the fields the passes read or write. These are `DataTexture`, `Material`,
  `Mesh`, `Camera`, `Scene`, `RenderTarget` and `Renderer`.
- `velocity_spec.dfy` (module `VelocitySpec`) describes what one frame does to a single
  velocity material, as functions on values. It holds the lemmas that follow across
  frames and the bone-snapshot reuse rule.
- `velocity_pass.dfy` (module `Velocity`) holds the class `VelocityPass`. Its fields are
  the cache `cachedMaterials` (mesh ↦ `[original, velocity]`) and the visible list. Two
  maps hold what the pass has written on the velocity materials it made:
  `velocityStates`, and `boneSnapshots` for the `prevBoneTexture` uniforms.

  Each operation is proved against a per-mesh view `MeshView`, which holds the worn
  material, the cache entry, the velocity state and the snapshot. Three predicates
  relate the view before an operation to the view after it:
  - `Installed` for install;
  - `Restored` for restore;
  - `Rendered` for a whole frame.

  The loops carry a progress predicate: the meshes handled so far satisfy the relation,
  and the others are unchanged. A two-state lemma proves one loop step.
- `hbao.dfy` (module `Hbao`) holds the class `HBAOPass`, its uniforms
  (`HbaoUniforms`), the counter function `NextFrame` with its closed form and period,
  and the noise-repeat guard.

## Model

| member | source | states |
|---|---|---|
| VelocitySpec.WantsFullMovement | src/SSR/temporal-resolve/pass/VelocityPass.js:64 | a mesh wants full movement exactly when it needs updated reflections or its original material's map is a video |
| VelocitySpec.ApplyHint | src/SSR/temporal-resolve/pass/VelocityPass.js:64-72 | `FULL_MOVEMENT` is present afterwards exactly when the hint asks for it; `needsUpdate` is set exactly when its presence changes; every other define is kept |
| VelocitySpec.BeginFrame | src/SSR/temporal-resolve/pass/VelocityPass.js:60-83 | install on one material sets `velocityMatrix` to the clip matrix and copies the three flags; the hint decides `FULL_MOVEMENT` and the version bump; a skinned mesh gets `USE_SKINNING`, `BONE_TEXTURE` and its bone texture; the previous matrices and all other defines are untouched |
| VelocitySpec.EndFrame | src/SSR/temporal-resolve/pass/VelocityPass.js:109-110 | restore on one material sets `prevVelocityMatrix` to the clip matrix and `lastMatrixWorld` to the world matrix; nothing else changes |
| VelocitySpec.OneFrameLag | src/SSR/temporal-resolve/pass/VelocityPass.js:62-110 | after a whole frame, the previous clip matrix equals the one written at install |
| VelocitySpec.StaticObjectHasNoMotion | src/SSR/temporal-resolve/pass/VelocityPass.js:62-110 | when a mesh's clip matrix does not change between two frames, the second frame's current and previous clip matrices are equal |
| VelocitySpec.RepeatedHintRequestsNoRebuild | src/SSR/temporal-resolve/pass/VelocityPass.js:64-72 | the same hint on the next frame does not set `needsUpdate` |
| VelocitySpec.RebuildsAreTransitions | src/SSR/temporal-resolve/pass/VelocityPass.js:64-72 | over any run of frames, the number of `needsUpdate`s equals the number of changes of the hint |
| VelocitySpec.ReusesSnapshot | src/SSR/temporal-resolve/pass/VelocityPass.js:90 | the intended reuse test: a snapshot exists and is as wide as the skeleton texture |
| VelocitySpec.ImageWidth | src/SSR/temporal-resolve/pass/VelocityPass.js:90 | the left side of line 90's test, `boneTexture && boneTexture.image.width`: no width without a texture, else its image's width |
| VelocitySpec.ReusesSnapshotAsWritten | src/SSR/temporal-resolve/pass/VelocityPass.js:90 | the reuse test as written: both widths are defined and equal |
| VelocitySpec.AsWrittenDiscardsMatchingSnapshot | src/SSR/temporal-resolve/pass/VelocityPass.js:90 | a snapshot exactly as wide as the skeleton texture passes the intended test and fails the test as written |
| Velocity.Resolve | src/SSR/temporal-resolve/pass/VelocityPass.js:47-51 | the identity test of line 51: the cached velocity material is reused, with its state and snapshot, exactly when the mesh still wears the cached original; otherwise a new one is made |
| Velocity.VelocityPass.Clip | src/SSR/temporal-resolve/pass/VelocityPass.js:62 | the clip matrix is `projectionMatrix × modelViewMatrix`, the product line 110 computes too |
| Velocity.VelocityPass.constructor | src/SSR/temporal-resolve/pass/VelocityPass.js:20-39 | the cache and visible list start empty; the target is a new 1×1 render target |
| Velocity.VelocityPass.SaveBoneTexture | src/SSR/temporal-resolve/pass/VelocityPass.js:87-104 | with the intended width test: the snapshot afterwards holds the bones and is square at the skeleton texture's width; the old texture is overwritten in place exactly when it exists with that width, and is then marked for upload once and not disposed; otherwise the old one is disposed once and a new one is marked for upload once; only that material's snapshot changes, and every snapshot is kept or new |
| Velocity.VelocityPass.SaveBoneTextureAsWritten | src/SSR/temporal-resolve/pass/VelocityPass.js:87-104 | as written, the snapshot is kept only when its image width equals the skeleton texture's `width` property, and then is not marked for upload; whenever that property is undefined, a snapshot exactly as wide as the skeleton texture is disposed and replaced |
| Velocity.VelocityPass.CreateVelocityMaterial | src/SSR/temporal-resolve/pass/VelocityPass.js:50-59 | a new velocity material is worn by the mesh and cached with the original material; it starts from the fresh state and, for a skinned mesh, holds a new snapshot of the bones |
| Velocity.VelocityPass.ResolveVelocityMaterial | src/SSR/temporal-resolve/pass/VelocityPass.js:45-59 | a mesh still wearing its cached original reuses the cached velocity material, with its state and snapshot; otherwise a new one is made; the cache entry pairs the original with the result |
| Velocity.VelocityPass.BeginVelocityFrame | src/SSR/temporal-resolve/pass/VelocityPass.js:60-83 | the material's state becomes `BeginFrame` of its old state, for this mesh and original material; no other material changes |
| Velocity.VelocityPass.EntriesStep | src/SSR/temporal-resolve/pass/VelocityPass.js:45-59 | installing one mesh keeps every other cache entry, and keeps that mesh's entry too unless a new velocity material was made |
| Velocity.VelocityPass.InstallMesh | src/SSR/temporal-resolve/pass/VelocityPass.js:45-83 | the mesh wears the resolved velocity material, cached with its original; that material's state is `BeginFrame` of its prior state; no other cache entry, state or snapshot changes |
| Velocity.VelocityPass.InstallProgressStep | src/SSR/temporal-resolve/pass/VelocityPass.js:45-84 | installing one mesh satisfies `Installed` for it and leaves every other mesh's view unchanged; since no texture that existed before changes, the first snapshots made so far are kept and that of a mesh given a new material is added |
| Velocity.VelocityPass.FirstSnapshotsStep | src/SSR/temporal-resolve/pass/VelocityPass.js:50-59 | an install step that changes no texture that existed before and no other mesh's view keeps every first snapshot made so far, and adds that of the mesh it handled when it made a new material |
| Velocity.VelocityPass.InstallStep | src/SSR/temporal-resolve/pass/VelocityPass.js:45-84 | one loop iteration extends install's progress and its first snapshots by that mesh; every cache entry and snapshot is kept or new |
| Velocity.VelocityPass.InstallAll | src/SSR/temporal-resolve/pass/VelocityPass.js:45-84 | the loop installs every visible mesh, and each one given a new velocity material holds the first snapshot of its bones; every cache entry and snapshot is kept or new |
| Velocity.VelocityPass.SetVelocityMaterialInScene | src/SSR/temporal-resolve/pass/VelocityPass.js:41-85 | every visible mesh is `Installed`; a mesh whose cached pair is not reused wears a newly made velocity material; a reused material keeps its snapshot with its bones, version and disposal count, and a new one holds either no snapshot (unskinned mesh) or a copy of the skeleton's bones marked for upload once; the visible list is stored and the frame count reset; the cache gains exactly the visible meshes; no other cached mesh changes its view; every cache entry and snapshot is kept or new |
| Velocity.VelocityPass.InstallDone | src/SSR/temporal-resolve/pass/VelocityPass.js:45-84 | once the loop has handled every visible mesh: each is `Installed` from the view it had; a new velocity material is made wherever the cached pair is not reused, and its snapshot is the first copy of the bones; a reused one keeps its snapshot's bones and counts; the cache gains exactly the visible meshes; no other cached mesh changes its view |
| Velocity.VelocityPass.RestoreMesh | src/SSR/temporal-resolve/pass/VelocityPass.js:108-115 | the mesh wears its cached original again; its velocity material's state is `EndFrame` of the old one; a skinned mesh's snapshot is saved as in `SaveBoneTexture` (a kept snapshot marked for upload once, or the old one disposed once and a new one made); an unskinned mesh's snapshot is untouched; no other state or snapshot changes |
| Velocity.VelocityPass.RestoreProgressStep | src/SSR/temporal-resolve/pass/VelocityPass.js:107-116 | restoring one mesh satisfies `Restored` and copies its bones; no other mesh's view changes, and no other mesh's copied bones change |
| Velocity.VelocityPass.RestoreStep | src/SSR/temporal-resolve/pass/VelocityPass.js:107-116 | one loop iteration restores a mesh that wears a velocity material and skips any other mesh; restore's progress and its snapshot counts (`Recounted`: a kept snapshot's version up by one with the same disposals, a replaced one disposed once and its successor at version 1) grow by that mesh; the cache is unchanged; every snapshot is kept or new |
| Velocity.VelocityPass.RecountStep | src/SSR/temporal-resolve/pass/VelocityPass.js:108-115 | a restore step that changes no other mesh's view and the counts of no texture but the old snapshot of the restored mesh recounts that mesh's snapshot as `RestoreMesh` states, and keeps every other count |
| Velocity.VelocityPass.RestoreTracked | src/SSR/temporal-resolve/pass/VelocityPass.js:108-115 | restoring a mesh that wears its cached velocity material extends restore's progress by it, leaves other views and the cache unchanged, and gives its snapshot `RestoreMesh`'s version and disposal counts |
| Velocity.VelocityPass.SkipStep | src/SSR/temporal-resolve/pass/VelocityPass.js:108 | a mesh that wears no velocity material is passed over: restore's progress and counts grow by it with its view unchanged |
| Velocity.VelocityPass.RestoreAll | src/SSR/temporal-resolve/pass/VelocityPass.js:106-117 | the loop restores every listed mesh and recounts its snapshot as `RestoreMesh` states; the cache is unchanged; every snapshot is kept or new |
| Velocity.VelocityPass.UnsetVelocityMaterialInScene | src/SSR/temporal-resolve/pass/VelocityPass.js:106-117 | every visible mesh is `Restored`; each one that wore a velocity material holds a copy of its bones; each visible mesh's snapshot is `Recounted` from the counts it had (kept: version + 1, same disposals; replaced: the old one disposed once, the new one at version 1); the cache and the other cached meshes are unchanged; no texture but the visible meshes' snapshots is modified, and every snapshot is kept or new |
| Velocity.VelocityPass.RestoreDone | src/SSR/temporal-resolve/pass/VelocityPass.js:106-117 | once the loop has handled every visible mesh: each is `Restored` from the view it had and `Recounted` from its snapshot's counts, the skinned ones hold a copy of their bones, and no other cached mesh changes its view |
| Velocity.VelocityPass.InstallThenRestore | src/SSR/temporal-resolve/pass/VelocityPass.js:135-141 | install followed by restore is a whole frame (`Rendered`), and what the mesh wore in between is the velocity material it resolved to, with this frame's clip matrix as current and the prior frame's as previous (`DrawnInFrame`) |
| Velocity.VelocityPass.RenderAndRestore | src/SSR/temporal-resolve/pass/VelocityPass.js:138-140 | one render over the neutral background records what each visible mesh wears at that moment, including its `prevBoneTexture` snapshot and that snapshot's bone data before restore; then every visible mesh is `Restored` and `Recounted`, and no texture but their snapshots is modified |
| Velocity.VelocityPass.Render | src/SSR/temporal-resolve/pass/VelocityPass.js:135-141 | the cache gains exactly the visible meshes, and a mesh whose cached pair is not reused gets a new velocity material; every cache entry and snapshot is kept or new; at the single draw, every visible mesh wears the velocity material it resolved to, holding this frame's clip matrix and the prior frame's, and a `prevBoneTexture` whose data is what the reused snapshot held before the frame, or, for a new material, the copy install made of the skeleton's bones; afterwards it has gone through a whole frame (`Rendered`): it wears its own material again, its velocity material moved from `BeginFrame` to `EndFrame`, and the bones are copied; for a skinned mesh, a kept snapshot of a reused material has its version up by one and the same disposals, a replaced one is disposed once and its successor is at version 1, and a new material's snapshot is at version 1 after install and 2 after restore; the draw goes into the pass's target over the neutral background; the scene's background is put back; no other cached mesh changes its view and no texture but the visible meshes' snapshots is modified |
| Velocity.VelocityPass.FrameDone | src/SSR/temporal-resolve/pass/VelocityPass.js:135-141 | install, a draw in the installed view and restore make a whole frame (`WholeFrame`), given that install kept a reused snapshot's bones and counts and gave a new material a first snapshot at version 1 |
| Velocity.VelocityPass.FinishFrame | src/SSR/temporal-resolve/pass/VelocityPass.js:138-140 | after install, the draw and restore complete a whole frame (`WholeFrame`) for every visible mesh from the start it had before install, and copy its bones; the renderer, background and cache facts are those of `Render` |
| Velocity.VelocityPass.SetSize | src/SSR/temporal-resolve/pass/VelocityPass.js:119-121 | the render target takes the given size |
| Velocity.VelocityPass.RenderVelocity | src/SSR/temporal-resolve/pass/VelocityPass.js:123-133 | the renderer is bound to the pass's target; exactly one render happens, over the neutral background, and it draws each visible mesh in the material it wears with what the pass wrote on it and the bone data of its snapshot; the scene's own background is restored; no mesh's view and no texture changes |
| Hbao.NextFrame | src/hbao/HBAOPass.js:88-89 | the counter stays below 2^16; it grows by 16, or wraps past 2^16 |
| Hbao.NextFrameValid | src/hbao/HBAOPass.js:88-89 | a counter that is a multiple of 16 below 2^16 stays one after a render |
| Hbao.FrameAfterClosedForm | src/hbao/HBAOPass.js:88-89 | starting from the initial 0, after `n` renders the counter is `16 n mod 2^16` |
| Hbao.FrameAfterValid | src/hbao/HBAOPass.js:88-89 | starting from the initial 0, the counter is always a multiple of 16 below 2^16 |
| Hbao.FrameAfterPeriodic | src/hbao/HBAOPass.js:88-89 | the counter repeats after 4096 renders |
| Hbao.FrameAfterDistinct | src/hbao/HBAOPass.js:88-89 | within 4096 renders the counter never repeats |
| Hbao.NoiseRepeat | src/hbao/HBAOPass.js:100-108 | without a noise texture the repeat is left as it was; with one, repeat × noise size equals the target size on both axes |
| Hbao.HbaoUniforms.constructor | src/hbao/HBAOPass.js:37-64 | the uniforms start at zero, identity and no noise; the view, inverse-projection and camera-world uniforms are the camera's own matrices |
| Hbao.HBAOPass.constructor | src/hbao/HBAOPass.js:19-65 | the counter starts at 0; the camera and the world scene are stored; the pass's own quad scene is new and has no background; the target is a new 1×1 render target; the uniforms are new and bound to the camera's matrices |
| Hbao.HBAOPass.OnNoiseLoaded | src/hbao/HBAOPass.js:70-78 | the loaded texture becomes the `blueNoiseTexture` uniform |
| Hbao.HBAOPass.SetSize | src/hbao/HBAOPass.js:81-85 | the target takes the size, and `texSize` equals the target's width and height |
| Hbao.HBAOPass.Render | src/hbao/HBAOPass.js:87-112 | the counter becomes `NextFrame` of its old value and stays a multiple of 16 below 2^16; the `frame`, `cameraNear` and `cameraFar` uniforms equal the new counter and the camera's near and far; `projectionViewMatrix` is projection × world-inverse; the noise repeat follows `NoiseRepeat`; the pass's own quad scene is drawn into the pass's target, with no mesh of the world scene |

## Left out

- Drawing itself is not modelled. `renderer.render` only records the background it drew
  behind and what each drawn mesh wore, and shader code (`VelocityMaterial`, `hbao.frag`, `basic.vert`) is not part
  of this model.
- Matrix arithmetic is left uninterpreted. `multiplyMatrices` builds the term
  `Product(a, b)`.
- Several fields are constant, fixed for the object's whole lifetime:
  - a mesh's and a camera's matrices;
  - a mesh's `needsUpdatedReflections` hint and bone texture;
  - a texture's width and height;
  - a material's `Three.Material.flags` (`visible`, `wireframe`, `side`) and
    `Three.Material.mapKind` (whether its `map` is a video).

  The classes therefore cannot show a mesh moving between two renders, a hint being
  toggled, an original material's flags or map changing, or a skeleton texture being
  resized. Part of this is covered on values:
  - `VelocitySpec.BeginFrame` takes the flags as an argument, and one combined
    `fullMovement` flag. The hint and the map kind enter only through
    `VelocitySpec.WantsFullMovement`, which computes that flag.
  - The lemmas of `VelocitySpec` follow a changing clip matrix and a changing
    `fullMovement` flag over successive frames.
  - No lemma follows a skeleton texture that is resized. Only the contract of
    `Velocity.VelocityPass.SaveBoneTexture`, which holds for a prior snapshot of any
    width, covers a snapshot whose width differs from the skeleton texture's.
- The draw is assumed to change neither a mesh's `modelViewMatrix` nor its skeleton's
  bone data. Install and restore read the same `modelViewMatrix`, which three.js
  recomputes during `renderer.render` from the same world and camera matrices.
  Restore copies the same bone data install saw, although three.js `skeleton.update()`
  rewrites the bone texture during `renderer.render` from the bones' world matrices,
  which are not part of this model.
- The HBAO uniforms `viewMatrix`, `inverseProjectionMatrix` and `cameraMatrixWorld`
  share the camera's matrix objects in the source. Here they hold equal values, which
  stands for the sharing only because the camera's matrices never change.
- `Three.DataTexture.SetData`: replaces the whole buffer. The typed array's `set` keeps
  its own length: a longer source throws a `RangeError`, and a shorter one leaves a
  stale tail. Neither is modelled, because the length of texture data is not tracked.
- Floating point is not modelled. Bone data is a sequence of reals. The noise repeat is
  an exact division of reals, and the loaded noise image has a positive size.
- `getVisibleChildren(scene)` is not part of this model. Install takes its result as the
  parameter `visible`.
- `Velocity.VelocityPass.SetVelocityMaterialInScene`: requires the visible meshes to be
  distinct, as a traversal of the scene graph returns them. It also requires them to
  wear their own materials, as they do between frames. A second install without a
  restore in between is not modelled.
- `Velocity.VelocityPass.UnsetVelocityMaterialInScene`: requires the visible meshes to be
  distinct, and a velocity material worn by one of them to be its cached one. In the
  source, a mesh that wears a velocity material but has no cache entry makes
  `cachedMaterials.get(c)[0]` throw. A cached mesh that wears some other velocity
  material is restored, and lines 109-110 then write onto that other material. Neither
  case is modelled.
- The `WeakMap` cache is a map. Entries are never dropped, because garbage collection
  is not modelled. The snapshot of a velocity material whose cache entry is replaced is
  not disposed, and the model follows the code in this.
- What the pass writes on a velocity material lives in the pass's maps `velocityStates`
  and `boneSnapshots`, keyed by the material, not in fields of the material. This
  covers the defines, the `needsUpdate` count, the copied flags, the uniforms and
  `lastMatrixWorld`. It keeps each method's frame small.
- The ghost links `madeFor` are proof devices only. They tell which mesh a velocity
  material was made for and which material a snapshot was made for.
- A velocity material's own `flags` and `mapKind` fields stand for nothing. What the
  pass copies onto it is part of its state in `velocityStates`.
- The source of `VelocityMaterial` is not part of this model. The state a new one
  starts in, `Three.FreshVelocityState`, is assumed: no defines, a version count of 0,
  identity `velocityMatrix`, `prevVelocityMatrix` and `lastMatrixWorld`, no bone
  texture, and three.js's default flags (visible, not wireframe, front side).
- The HBAO pass stores the world scene it is given, which its host code never reads.
- `lastCameraTransform` is never read or written by the pass's methods.
- `renderedMeshesThisFrame` is only reset, as in the source.
- `needsUpdate` is a version counter, as three.js turns it into a version bump. GPU
  upload and shader recompilation are not modelled.
- `c.skeleton?.boneTexture` is flattened into the mesh's `boneTexture`.
- The asynchronous `TextureLoader` (lines 67-79 of the HBAO pass) is modelled only
  through `OnNoiseLoaded`, which sets the uniform. The sampling settings it puts on the
  texture (filters, wrapping, encoding) are not modelled.
- The HBAO uniforms that the host code never writes (`depthTexture`, `aoDistance`,
  `distancePower`, `bias`, `thickness`, `power`) are not modelled. Neither are the
  material's blending and depth flags.

## Findings

| source | as written | input that shows it | evidently intended | confidence | as-written member | corrected member |
|---|---|---|---|---|---|---|
| src/SSR/temporal-resolve/pass/VelocityPass.js:90 | compares the snapshot's `image.width` with the skeleton texture's own `width` property, which a three.js `DataTexture` does not define (its size is under `image`, as line 97 reads it) | any skinned mesh, at every restore, from the first frame on: its snapshot `t` has `t.width` equal to the skeleton texture's width, yet the test compares against an undefined width, so `t` is disposed and a new texture allocated | compare against `skeleton.boneTexture.image.width`, overwrite the snapshot in place, and set `needsUpdate` on it so the new data is uploaded (lines 91-92 do not) | not executed | Velocity.VelocityPass.SaveBoneTextureAsWritten | Velocity.VelocityPass.SaveBoneTexture |

As written, the snapshot is therefore disposed and reallocated on every restore; the
lemma `VelocitySpec.AsWrittenDiscardsMatchingSnapshot` states the discrepancy for one
texture. The rest of the model uses the intended test, `VelocitySpec.ReusesSnapshot`,
through `Velocity.VelocityPass.SaveBoneTexture`.
