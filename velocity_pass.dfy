/** The velocity pass: each frame it puts a velocity material on every visible mesh,
    renders once over a neutral background, and puts the original materials back. */
module Velocity {
  import opened Matrices
  import opened Three
  import opened VelocitySpec

  /** `backgroundColor = new Color(0)`: drawn behind the scene, it encodes "no motion". */
  const NeutralBackground := ColorBackground(0)

  /** A `cachedMaterials` value: `[originalMaterial, velocityMaterial]`. */
  datatype CacheEntry = CacheEntry(original: Material, velocity: Material)

  /** What the pass keeps for one mesh, as a value: the material the mesh wears, its
      cache entry, and the state and bone snapshot of the cached velocity material. */
  datatype MeshView = MeshView(material: Material, entry: Option<CacheEntry>, state: MaterialState,
                               snapshot: DataTexture?)

  /** How install resolves a mesh: the cached velocity material, with the state and
      snapshot it had, when the mesh still wears the cached original; else a new one. */
  datatype Resolution = Reused(velocity: Material, state: MaterialState, snapshot: DataTexture?) | Created

  /** Lines 47-51 on a mesh's view: the cached pair is reused exactly when the mesh
      still wears the cached original, and then with its state and snapshot. */
  function Resolve(w: MeshView): Resolution
  {
    if w.entry.Some? && w.entry.value.original == w.material then
      Reused(w.entry.value.velocity, w.state, w.snapshot)
    else
      Created
  }

  /** The state a resolved velocity material starts the frame from. */
  function Prior(res: Resolution): MaterialState
  {
    match res
    case Reused(_, state, _) => state
    case Created => FreshVelocityState
  }

  /** Where restore's loop stands: the views `views` of the meshes and the counts
      `counts` of their snapshots at its start, and the meshes `done` it has handled. */
  datatype Progress = Progress(views: map<Mesh, MeshView>, counts: map<Mesh, Counts>, done: set<Mesh>)

  /** A texture's `needsUpdate` count and `dispose()` count. */
  datatype Counts = Counts(version: nat, disposals: nat)

  /** What a frame starts from for one mesh: its view, the counts and the data of
      its snapshot, and the data of its skeleton's bone texture. */
  datatype Start = Start(view: MeshView, counts: Counts, bones: seq<real>, skeleton: seq<real>)

  /** The data of `t` (none for no texture). */
  ghost function BonesOf(t: DataTexture?): seq<real>
    reads t
  {
    if t == null then [] else t.data
  }

  /** The counts of `t` (none for no texture). */
  ghost function CountsOf(t: DataTexture?): Counts
    reads t
  {
    if t == null then Counts(0, 0) else Counts(t.version, t.disposals)
  }

  /** A view as restore expects it: a velocity material worn is the cached one. */
  predicate DressedView(w: MeshView)
  {
    w.material.isVelocityMaterial ==> w.entry.Some? && w.entry.value.velocity == w.material
  }

  /** A view of `c` as the pass keeps it: its cached velocity material was made for
      `c`, and its snapshot for that material. */
  ghost predicate OwnedView(c: Mesh, w: MeshView)
  {
    (w.entry.Some? ==> w.entry.value.velocity.madeFor == c)
    && (w.snapshot != null ==> w.entry.Some? && w.snapshot.madeFor == w.entry.value.velocity)
  }

  /** The counts restore leaves on the snapshots of `c`, from its view `w0` before,
      whose snapshot had the counts `n`, to its snapshot `t` after: for a mesh not
      wearing a velocity material or without skeleton the old snapshot keeps them;
      a kept snapshot is flagged once more; otherwise the old snapshot is disposed
      once and `t` is a new one flagged once. */
  ghost predicate Recounted(c: Mesh, w0: MeshView, n: Counts, t: DataTexture?)
    reads w0.snapshot, t
  {
    var was := w0.snapshot;
    if !w0.material.isVelocityMaterial || c.boneTexture == null then CountsOf(was) == n
    else if ReusesSnapshot(was, c.boneTexture) then t != null && CountsOf(t) == Counts(n.version + 1, n.disposals)
    else t != null && CountsOf(t) == Counts(1, 0) && (was != null ==> was.disposals == n.disposals + 1)
  }

  /** No two meshes of the visible list are the same object. */
  predicate Distinct(meshes: seq<Mesh>)
  {
    forall i, j | 0 <= i < j < |meshes| :: meshes[i] != meshes[j]
  }

  /** `done` holds the first `i` meshes of `meshes`. */
  predicate Prefix(meshes: seq<Mesh>, i: nat, done: set<Mesh>)
  {
    i <= |meshes| && (forall j | 0 <= j < |meshes| :: meshes[j] in done <==> j < i)
    && (forall k | k in done :: k in meshes)
  }

  /** The next mesh is not among the first `i`, and adding it gives the first `i + 1`. */
  lemma PrefixStep(meshes: seq<Mesh>, i: nat, done: set<Mesh>)
    requires Distinct(meshes) && Prefix(meshes, i, done) && i < |meshes|
    ensures meshes[i] !in done && Prefix(meshes, i + 1, done + {meshes[i]})
  {
  }

  /** A snapshot of a skeleton's bone texture: a square texture of the same width
      holding the same data. */
  ghost predicate Snapshot(t: DataTexture, skeleton: DataTexture)
    reads t`data, skeleton`data
  {
    t.width == t.height == skeleton.width && t.data == skeleton.data
  }

  /** The shape of the snapshot `t` a velocity material for `c` holds: none for a
      mesh without skeleton, else a square texture as wide as the skeleton texture. */
  predicate SnapshotShape(c: Mesh, t: DataTexture?)
  {
    if c.boneTexture == null then t == null
    else t != null && t.width == t.height == c.boneTexture.width
  }

  /** A mesh's bone texture is the skeleton's, not a snapshot made by the pass. */
  ghost predicate ForeignSkeleton(c: Mesh)
  {
    c.boneTexture != null ==> c.boneTexture.madeFor == null
  }

  class VelocityPass {
    const scene: Scene
    const camera: Camera
    const renderTarget: RenderTarget
    var cachedMaterials: map<Mesh, CacheEntry>
    /** What the pass has written on each velocity material it made: its defines,
        `needsUpdate` count, copied properties and uniforms. */
    var velocityStates: map<Material, MaterialState>
    /** The `prevBoneTexture` uniform of each velocity material that has one. */
    var boneSnapshots: map<Material, DataTexture>
    var visibleMeshes: seq<Mesh>
    var renderedMeshesThisFrame: nat

    /** The pass's invariant: a bone snapshot is square and was made for the velocity
        material holding it; every cache entry pairs an ordinary original with a
        velocity material made for that very mesh. */
    ghost predicate Valid()
      reads this`velocityStates, this`boneSnapshots, this`cachedMaterials
    {
      (forall m | m in boneSnapshots ::
         boneSnapshots[m].width == boneSnapshots[m].height && boneSnapshots[m].madeFor == m)
      && (forall k | k in cachedMaterials ::
            !cachedMaterials[k].original.isVelocityMaterial && cachedMaterials[k].velocity.isVelocityMaterial
            && cachedMaterials[k].velocity.madeFor == k && cachedMaterials[k].velocity in velocityStates)
    }

    /** What the pass has written on `m` (nothing, for a material it did not make). */
    ghost function StateOf(m: Material): MaterialState
      reads this`velocityStates
    {
      Written(velocityStates, m)
    }

    /** The `prevBoneTexture` uniform of `m` (`null` when it has none). */
    ghost function Snap(m: Material): DataTexture?
      reads this`boneSnapshots
    {
      if m in boneSnapshots then boneSnapshots[m] else null
    }

    /** What the pass keeps for `c`. */
    ghost function View(c: Mesh): MeshView
      reads this`cachedMaterials, this`velocityStates, this`boneSnapshots, c`material
    {
      if c in cachedMaterials then
        MeshView(c.material, Some(cachedMaterials[c]), StateOf(cachedMaterials[c].velocity),
                 Snap(cachedMaterials[c].velocity))
      else
        MeshView(c.material, None, FreshVelocityState, null)
    }

    /** Where a frame starts from for `c`. */
    ghost function StartOf(c: Mesh): Start
      reads this`cachedMaterials, this`velocityStates, this`boneSnapshots, c`material, c.boneTexture
      reads if c in cachedMaterials then {Snap(cachedMaterials[c].velocity)} else {}
    {
      Start(View(c), CountsOf(View(c).snapshot), BonesOf(View(c).snapshot), BonesOf(c.boneTexture))
    }

    /** The snapshot of the velocity material cached for `c` holds the data of the
        skeleton's bone texture. */
    ghost predicate BonesCopied(c: Mesh)
      reads this`cachedMaterials, this`boneSnapshots, c.boneTexture
      reads if c in cachedMaterials then {Snap(cachedMaterials[c].velocity)} else {}
    {
      c.boneTexture != null ==>
        c in cachedMaterials && Snap(cachedMaterials[c].velocity) != null
        && Snap(cachedMaterials[c].velocity).data == c.boneTexture.data
    }

    /** A mesh as the scene hands it to the pass: wearing one of its own materials. */
    ghost predicate SceneMesh(c: Mesh)
      reads c`material
    {
      !c.material.isVelocityMaterial && ForeignSkeleton(c)
    }

    /** A mesh as restore expects it: a velocity material on it is its cached one. */
    ghost predicate Dressed(c: Mesh)
      reads this`cachedMaterials, c`material
    {
      ForeignSkeleton(c)
      && (c.material.isVelocityMaterial ==> c in cachedMaterials && cachedMaterials[c].velocity == c.material)
    }

    /** `camera.projectionMatrix × c.modelViewMatrix` */
    function Clip(c: Mesh): Matrix
    {
      Multiply(camera.projectionMatrix, c.modelViewMatrix)
    }

    /** The state install gives the velocity material of `c`, from its prior state
        and the material `original` the mesh had. */
    ghost function Begun(c: Mesh, original: Material, prior: MaterialState): MaterialState
    {
      BeginFrame(prior, Clip(c), WantsFullMovement(c.needsUpdatedReflections, original.mapKind),
                 original.flags, c.boneTexture)
    }

    /** `c` after install (view `w`) against its view `w0` before: the cache pairs the
        material it had with the velocity material it now wears, whose state is
        BeginFrame of its prior state; a reused material keeps its snapshot, a new one
        has the snapshot shape for `c`. */
    ghost predicate Installed(c: Mesh, w0: MeshView, w: MeshView)
    {
      var res := Resolve(w0);
      w.entry == Some(CacheEntry(w0.material, w.material)) && w.state == Begun(c, w0.material, Prior(res))
      && match res
         case Reused(v, _, snapshot) => w.material == v && w.snapshot == snapshot
         case Created => SnapshotShape(c, w.snapshot)
    }

    /** `c` after restore (view `w`) against its view `w0` before: a mesh that wore a
        velocity material wears its cached original again, and that material has moved
        this frame's matrices to "previous" and, for a skinned mesh, holds a snapshot
        of the right shape, the old texture kept exactly when it had the skeleton
        texture's width; any other mesh is untouched. */
    ghost predicate Restored(c: Mesh, w0: MeshView, w: MeshView)
    {
      if w0.material.isVelocityMaterial then
        w.entry == w0.entry == Some(CacheEntry(w.material, w0.material))
        && w.state == EndFrame(w0.state, Clip(c), c.matrixWorld)
        && if c.boneTexture == null then w.snapshot == w0.snapshot
           else SnapshotShape(c, w.snapshot) && (w.snapshot == w0.snapshot <==> ReusesSnapshot(w0.snapshot, c.boneTexture))
      else
        w == w0
    }

    /** `c` after a whole frame (view `w`) against its view `w0` before: it wears its
        own material again, cached with a velocity material (the same one when it was
        reused) whose state went through BeginFrame and then EndFrame, and which holds
        a snapshot of the right shape. */
    ghost predicate Rendered(c: Mesh, w0: MeshView, w: MeshView)
    {
      var res := Resolve(w0);
      w.material == w0.material && w.entry.Some? && w.entry.value.original == w0.material
      && w.state == EndFrame(Begun(c, w0.material, Prior(res)), Clip(c), c.matrixWorld)
      && (res.Reused? ==> w.entry.value.velocity == res.velocity)
      && if c.boneTexture == null then w.snapshot == (if res.Reused? then res.snapshot else null)
         else SnapshotShape(c, w.snapshot)
              && (res.Reused? && ReusesSnapshot(res.snapshot, c.boneTexture) ==> w.snapshot == res.snapshot)
    }

    /** What `c` wears at the draw (`d`) of a frame that took it from view `w0` to
        view `w`: the velocity material cached for it, which it resolved to, with
        this frame's clip matrix as current and the prior frame's as previous, and as
        bone snapshot the one the reused material held, or else the one it holds
        after the frame. */
    ghost predicate DrawnInFrame(c: Mesh, w0: MeshView, w: MeshView, d: DrawnMesh)
    {
      var res := Resolve(w0);
      d.material.isVelocityMaterial && w.entry.Some? && d.material == w.entry.value.velocity
      && (res.Reused? ==> d.material == res.velocity)
      && d.state == Begun(c, w0.material, Prior(res))
      && d.state.velocityMatrix == Clip(c) && d.state.prevVelocityMatrix == Prior(res).prevVelocityMatrix
      && d.prevBoneTexture == (if res.Reused? then res.snapshot else w.snapshot)
    }

    /** A mesh drawn as `d` with the view `w`: its material, the state of its cached
        velocity material and that material's bone snapshot. */
    predicate DrawnAs(d: DrawnMesh, w: MeshView)
    {
      d.material == w.material && d.state == w.state && d.prevBoneTexture == w.snapshot
    }

    /** Install followed by restore is a whole frame, and what the mesh wore in
        between (`d`) is what it wore at the draw. */
    lemma InstallThenRestore(c: Mesh, w0: MeshView, w1: MeshView, w2: MeshView, d: DrawnMesh)
      requires Installed(c, w0, w1) && w1.material.isVelocityMaterial && Restored(c, w1, w2)
      requires DrawnAs(d, w1)
      ensures Rendered(c, w0, w2)
      ensures DrawnInFrame(c, w0, w2, d)
    {
    }

    /** A new velocity material holds a fresh snapshot of a skinned mesh's bones. */
    ghost predicate FirstSnapshot(c: Mesh, t: DataTexture?)
      reads t, c.boneTexture
    {
      if c.boneTexture == null then t == null
      else t != null && Snapshot(t, c.boneTexture) && t.version == 1 && t.disposals == 0
    }

    /** The snapshot `t` that restore leaves for `c`, given the one it held before: for
        a skinned mesh a copy of the bones, the old texture kept exactly when it had
        the same width; otherwise the old one. */
    ghost predicate Resnapshot(c: Mesh, was: DataTexture?, t: DataTexture?)
      reads t, c.boneTexture
    {
      if c.boneTexture == null then t == was
      else t != null && Snapshot(t, c.boneTexture) && (t == was <==> ReusesSnapshot(was, c.boneTexture))
    }

    /** Every bone snapshot the pass holds it held before under the same material, or
        it was made since. */
    twostate predicate SnapshotsKeptOrFresh()
      reads this`boneSnapshots
    {
      forall m | m in boneSnapshots ::
        (m in old(boneSnapshots) && boneSnapshots[m] == old(boneSnapshots)[m]) || fresh(boneSnapshots[m])
    }

    /** Every cache entry the pass holds it held before, or its velocity material
        was made since. */
    twostate predicate EntriesKeptOrFresh()
      reads this`cachedMaterials
    {
      forall k | k in cachedMaterials ::
        (k in old(cachedMaterials) && cachedMaterials[k] == old(cachedMaterials)[k])
        || fresh(cachedMaterials[k].velocity)
    }

    constructor (scene: Scene, camera: Camera)
      ensures Valid() && this.scene == scene && this.camera == camera
      ensures cachedMaterials == map[] && velocityStates == map[] && boneSnapshots == map[]
      ensures visibleMeshes == []
      ensures fresh(renderTarget) && renderTarget.width == 1 && renderTarget.height == 1
    {
      this.scene := scene;
      this.camera := camera;
      renderTarget := new RenderTarget(1, 1);
      cachedMaterials := map[];
      velocityStates := map[];
      boneSnapshots := map[];
      visibleMeshes := [];
      renderedMeshesThisFrame := 0;
    }

    /** `saveBoneTexture(object)` as evidently intended: overwrite the snapshot in place
        and flag it for upload when it has the skeleton texture's width, else dispose
        it (if any) and install a fresh copy. */
    method SaveBoneTexture(c: Mesh)
      requires Valid() && c.boneTexture != null && ForeignSkeleton(c)
      modifies this`boneSnapshots, Snap(c.material)
      ensures Valid()
      ensures c.material in boneSnapshots && boneSnapshots == old(boneSnapshots)[c.material := boneSnapshots[c.material]]
      ensures Resnapshot(c, old(Snap(c.material)), Snap(c.material))
      ensures var was := old(Snap(c.material));
              var t := Snap(c.material);
              if ReusesSnapshot(was, c.boneTexture) then
                t.version == old(was.version) + 1 && t.disposals == old(was.disposals)
              else
                fresh(t) && t.version == 1 && t.disposals == 0
                && (was != null ==> was.disposals == old(was.disposals) + 1)
      ensures SnapshotsKeptOrFresh()
    {
      var boneTexture: DataTexture? := if c.material in boneSnapshots then boneSnapshots[c.material] else null;
      if boneTexture != null && boneTexture.width == c.boneTexture.width {
        boneTexture.SetData(c.boneTexture.data);
        boneTexture.MarkNeedsUpdate();
      } else {
        if boneTexture != null {
          boneTexture.Dispose();
        }
        var boneMatrices := c.boneTexture.data;
        var size := c.boneTexture.width;
        var t := new DataTexture(boneMatrices, size, size, c.material);
        boneSnapshots := boneSnapshots[c.material := t];
        t.MarkNeedsUpdate();
      }
    }

    /** Lines 87-104 as written, with `widthProperty` standing for what
        `object.skeleton.boneTexture.width` evaluates to (`UndefinedWidthProperty` for
        a three.js texture): the snapshot is kept only when its image width equals
        that property, so a snapshot exactly as wide as the skeleton texture is still
        disposed and replaced. */
    method SaveBoneTextureAsWritten(c: Mesh, widthProperty: Option<nat>)
      requires Valid() && c.boneTexture != null && ForeignSkeleton(c)
      modifies this`boneSnapshots, Snap(c.material)
      ensures Valid()
      ensures c.material in boneSnapshots && boneSnapshots == old(boneSnapshots)[c.material := boneSnapshots[c.material]]
      ensures var was := old(Snap(c.material));
              var t := Snap(c.material);
              if ReusesSnapshotAsWritten(ImageWidth(was), widthProperty) then
                t == was && t.data == c.boneTexture.data
                && t.version == old(was.version) && t.disposals == old(was.disposals)
              else
                fresh(t) && Snapshot(t, c.boneTexture) && t.version == 1 && t.disposals == 0
                && (was != null ==> was.disposals == old(was.disposals) + 1)
      ensures var was := old(Snap(c.material));
              widthProperty == UndefinedWidthProperty && ReusesSnapshot(was, c.boneTexture) ==>
                Snap(c.material) != was && was.disposals == old(was.disposals) + 1
    {
      var boneTexture: DataTexture? := if c.material in boneSnapshots then boneSnapshots[c.material] else null;
      if ReusesSnapshotAsWritten(ImageWidth(boneTexture), widthProperty) {
        boneTexture.SetData(c.boneTexture.data);
      } else {
        if boneTexture != null {
          boneTexture.Dispose();
        }
        var boneMatrices := c.boneTexture.data;
        var size := c.boneTexture.width;
        var t := new DataTexture(boneMatrices, size, size, c.material);
        boneSnapshots := boneSnapshots[c.material := t];
        t.MarkNeedsUpdate();
      }
    }

    /** Lines 52-58 for `c`: a new velocity material, worn by `c`, holding a snapshot
        of a skinned mesh's bones, cached with the original material. */
    method CreateVelocityMaterial(c: Mesh) returns (v: Material)
      requires Valid() && SceneMesh(c)
      modifies this`cachedMaterials, this`velocityStates, this`boneSnapshots, c`material
      ensures Valid() && fresh(v) && v.isVelocityMaterial && v.madeFor == c && c.material == v
      ensures cachedMaterials == old(cachedMaterials)[c := CacheEntry(old(c.material), v)]
      ensures velocityStates == old(velocityStates)[v := FreshVelocityState]
      ensures boneSnapshots - {v} == old(boneSnapshots) - {v}
      ensures FirstSnapshot(c, Snap(v))
      ensures SnapshotsKeptOrFresh()
    {
      var originalMaterial := c.material;
      v := new Material.Velocity(c);
      velocityStates := velocityStates[v := FreshVelocityState];
      c.material := v;
      if c.boneTexture != null {
        SaveBoneTexture(c);
      }
      cachedMaterials := cachedMaterials[c := CacheEntry(originalMaterial, v)];
    }

    /** Lines 45-59 for `c`: the cached velocity material when `c` still wears the
        cached original, else a new one (which `c` then wears). */
    method ResolveVelocityMaterial(c: Mesh) returns (v: Material)
      requires Valid() && SceneMesh(c)
      modifies this`cachedMaterials, this`velocityStates, this`boneSnapshots, c`material
      ensures Valid() && v.madeFor == c && v in velocityStates
      ensures velocityStates == old(velocityStates)[v := Prior(old(Resolve(View(c))))]
      ensures boneSnapshots - {v} == old(boneSnapshots) - {v}
      ensures cachedMaterials == old(cachedMaterials)[c := CacheEntry(old(c.material), v)]
      ensures match old(Resolve(View(c)))
              case Reused(u, _, snapshot) => v == u && Snap(v) == snapshot && c.material == old(c.material)
              case Created => fresh(v) && c.material == v && FirstSnapshot(c, Snap(v))
      ensures SnapshotsKeptOrFresh()
    {
      if c in cachedMaterials && c.material == cachedMaterials[c].original {
        v := cachedMaterials[c].velocity;
      } else {
        v := CreateVelocityMaterial(c);
      }
    }

    /** Lines 60-83 on the velocity material `v` resolved for `c`: the current clip
        matrix, the full-movement define (`needsUpdate` only when its presence
        changes), the three properties of `original` and the skinning binding. */
    method BeginVelocityFrame(v: Material, c: Mesh, original: Material)
      requires v in velocityStates
      modifies this`velocityStates
      ensures velocityStates == old(velocityStates)[v := Begun(c, original, old(velocityStates[v]))]
    {
      var s := velocityStates[v];
      s := s.(velocityMatrix := Multiply(camera.projectionMatrix, c.modelViewMatrix));
      if c.needsUpdatedReflections || original.mapKind == VideoMap {
        if FullMovement !in s.defines {
          s := s.(version := s.version + 1);
        }
        s := s.(defines := s.defines[FullMovement := ""]);
      } else if FullMovement in s.defines {
        s := s.(defines := s.defines - {FullMovement});
        s := s.(version := s.version + 1);
      }
      s := s.(flags := original.flags);
      if c.boneTexture != null {
        s := s.(defines := s.defines[UseSkinning := ""][BoneTexture := ""]);
        s := s.(boneTexture := c.boneTexture);
      }
      velocityStates := velocityStates[v := s];
    }

    /** Install has handled the meshes `done` of the views `view0` it started from,
        and left every other one of them as it was. */
    ghost predicate InstallProgress(view0: map<Mesh, MeshView>, done: set<Mesh>)
      reads this`cachedMaterials, this`velocityStates, this`boneSnapshots, view0.Keys`material
    {
      done <= view0.Keys && cachedMaterials.Keys <= view0.Keys
      && (forall k | k in view0 && k !in done :: View(k) == view0[k])
      && (forall k | k in done :: Installed(k, view0[k], View(k)))
    }

    /** An install step on `c`, seen through the views: `c` is installed and no other
        mesh of `view0` changes its view, so install's progress grows by `c`; as no
        texture allocated before changes, so do the first snapshots install made. */
    twostate lemma InstallProgressStep(view0: map<Mesh, MeshView>, new c: Mesh, new done: set<Mesh>)
      requires old(allocated(done)) && old(FirstSnapshots(view0, done))
      requires c in view0 && c !in done && done <= view0.Keys && old(cachedMaterials).Keys <= view0.Keys
      requires forall k | k in view0 && k !in done :: old(View(k)) == view0[k]
      requires forall k | k in done :: Installed(k, view0[k], old(View(k)))
      requires old(Valid()) && Valid() && c.material.madeFor == c
      requires cachedMaterials == old(cachedMaterials)[c := CacheEntry(old(c.material), c.material)]
      requires velocityStates == old(velocityStates)[c.material := Begun(c, old(c.material), Prior(old(Resolve(View(c)))))]
      requires boneSnapshots - {c.material} == old(boneSnapshots) - {c.material}
      requires match old(Resolve(View(c)))
               case Reused(v, _, snapshot) => c.material == v && Snap(v) == snapshot
               case Created => SnapshotShape(c, Snap(c.material))
      requires forall k | k in view0 && k != c :: k.material == old(k.material)
      requires old(Resolve(View(c))).Created? ==> FirstSnapshot(c, Snap(c.material))
      requires forall t: DataTexture | old(allocated(t)) ::
                 t.data == old(t.data) && t.version == old(t.version) && t.disposals == old(t.disposals)
      ensures InstallProgress(view0, done + {c}) && FirstSnapshots(view0, done + {c})
      ensures forall k | k in view0 && k != c :: View(k) == old(View(k))
    {
      var v := c.material;
      forall k | k in view0 && k != c
        ensures View(k) == old(View(k))
      {
        if k in cachedMaterials {
          var m := cachedMaterials[k].velocity;
          assert m == old(cachedMaterials[k].velocity) && m.madeFor == k && m != v;
          assert (m in boneSnapshots - {v}) == (m in old(boneSnapshots) - {v});
          assert (m in velocityStates - {v}) == (m in old(velocityStates) - {v});
        }
      }
      FirstSnapshotsStep(view0, c, done);
    }

    /** Lines 45-83 for `c`: the cache pairs the original material of `c` with the
        velocity material `c` now wears, whose state is begun from its prior one. */
    method InstallMesh(c: Mesh)
      requires Valid() && SceneMesh(c)
      modifies this`cachedMaterials, this`velocityStates, this`boneSnapshots, c`material
      ensures Valid() && c.material.madeFor == c
      ensures cachedMaterials == old(cachedMaterials)[c := CacheEntry(old(c.material), c.material)]
      ensures velocityStates == old(velocityStates)[c.material := Begun(c, old(c.material), Prior(old(Resolve(View(c)))))]
      ensures boneSnapshots - {c.material} == old(boneSnapshots) - {c.material}
      ensures match old(Resolve(View(c)))
              case Reused(v, _, snapshot) => c.material == v && Snap(v) == snapshot
              case Created => fresh(c.material) && FirstSnapshot(c, Snap(c.material))
      ensures SnapshotsKeptOrFresh()
    {
      var originalMaterial := c.material;
      ghost var res := Resolve(View(c));
      var velocityMaterial := ResolveVelocityMaterial(c);
      assert velocityStates[velocityMaterial] == Prior(res);
      BeginVelocityFrame(velocityMaterial, c, originalMaterial);
      c.material := velocityMaterial;
    }

    /** An install step on `c` keeps every cache entry but that of `c`, which it keeps
        too when the cached pair was reused. */
    twostate lemma EntriesStep(new c: Mesh)
      requires old(allocated(c))
      requires cachedMaterials == old(cachedMaterials)[c := CacheEntry(old(c.material), c.material)]
      requires old(Resolve(View(c))).Reused? ==> c.material == old(Resolve(View(c))).velocity
      requires old(Resolve(View(c))).Created? ==> fresh(c.material)
      ensures EntriesKeptOrFresh()
    {
    }

    /** Every mesh of `done` for which install made a new velocity material holds the
        first snapshot of its bones made then. */
    ghost predicate FirstSnapshots(view0: map<Mesh, MeshView>, done: set<Mesh>)
      reads *
    {
      forall k | k in done && k in view0 && Resolve(view0[k]).Created? :: FirstSnapshot(k, View(k).snapshot)
    }

    /** An install step on `c` that changes no texture allocated before it and no
        other mesh's view keeps the first snapshots made before, and adds that of `c`. */
    twostate lemma FirstSnapshotsStep(view0: map<Mesh, MeshView>, new c: Mesh, new done: set<Mesh>)
      requires old(allocated(c)) && old(allocated(done)) && c in view0 && old(View(c)) == view0[c]
      requires old(FirstSnapshots(view0, done))
      requires forall k | k in view0 && k != c :: View(k) == old(View(k))
      requires c in cachedMaterials && cachedMaterials[c].velocity == c.material
      requires old(Resolve(View(c))).Created? ==> FirstSnapshot(c, Snap(c.material))
      requires forall t: DataTexture | old(allocated(t)) ::
                 t.data == old(t.data) && t.version == old(t.version) && t.disposals == old(t.disposals)
      ensures FirstSnapshots(view0, done + {c})
    {
    }

    /** The body of install's loop for one mesh: install's progress grows by `c`, and
        so do the first snapshots it made. */
    method InstallStep(c: Mesh, ghost view0: map<Mesh, MeshView>, ghost done: set<Mesh>)
      requires Valid() && SceneMesh(c) && InstallProgress(view0, done) && c in view0 && c !in done
      requires FirstSnapshots(view0, done)
      modifies this`cachedMaterials, this`velocityStates, this`boneSnapshots, c`material
      ensures Valid() && InstallProgress(view0, done + {c}) && FirstSnapshots(view0, done + {c})
      ensures SnapshotsKeptOrFresh() && EntriesKeptOrFresh()
    {
      InstallMesh(c);
      InstallProgressStep(view0, c, done);
      EntriesStep(c);
    }

    /** Install's loop over the visible meshes (lines 45-84), extending its progress
        from none of them to all of them. */
    method InstallAll(visible: seq<Mesh>, ghost view0: map<Mesh, MeshView>)
      requires Valid() && Distinct(visible) && (set c | c in visible) <= view0.Keys
      requires forall c | c in visible :: SceneMesh(c)
      requires InstallProgress(view0, {})
      modifies this`cachedMaterials, this`velocityStates, this`boneSnapshots, (set c | c in visible)`material
      ensures Valid() && InstallProgress(view0, set c | c in visible) && FirstSnapshots(view0, set c | c in visible)
      ensures SnapshotsKeptOrFresh() && EntriesKeptOrFresh()
    {
      ghost var done: set<Mesh> := {};
      for i := 0 to |visible|
        invariant Valid() && Prefix(visible, i, done) && SnapshotsKeptOrFresh() && EntriesKeptOrFresh()
        invariant InstallProgress(view0, done) && FirstSnapshots(view0, done)
      {
        var c := visible[i];
        PrefixStep(visible, i, done);
        InstallStep(c, view0, done);
        done := done + {c};
      }
    }

    /** The snapshot `t` that `c` holds after install, from `s0`: a reused material's
        snapshot as it was; for a new material none without skeleton, else a first
        copy of the bones, flagged once. */
    ghost predicate InstalledSnapshot(c: Mesh, s0: Start, t: DataTexture?)
      reads t
    {
      match Resolve(s0.view)
      case Reused(_, _, s) => t == s && CountsOf(t) == s0.counts && BonesOf(t) == s0.bones
      case Created =>
        if c.boneTexture == null then t == null
        else t != null && CountsOf(t) == Counts(1, 0) && BonesOf(t) == s0.skeleton
    }

    /** Install's loop having handled all of `visible`, from the views `view0` the
        meshes had before: each visible mesh is installed, a new velocity material and
        its first snapshot are made wherever the cached pair is not reused, the cache
        gains exactly the visible meshes and no other cached mesh changes its view. */
    twostate lemma InstallDone(view0: map<Mesh, MeshView>, new visible: set<Mesh>)
      requires old(allocated(visible)) && visible <= view0.Keys && old(cachedMaterials).Keys <= view0.Keys
      requires forall k | k in view0 :: view0[k] == old(View(k))
      requires Valid() && InstallProgress(view0, visible) && FirstSnapshots(view0, visible)
      requires SnapshotsKeptOrFresh() && EntriesKeptOrFresh()
      requires forall t: DataTexture | old(allocated(t)) ::
                 t.data == old(t.data) && t.version == old(t.version) && t.disposals == old(t.disposals)
      ensures forall c | c in visible :: Installed(c, old(View(c)), View(c))
      ensures forall k | k in old(cachedMaterials) && k !in visible :: View(k) == old(View(k))
      ensures cachedMaterials.Keys == old(cachedMaterials).Keys + visible
      ensures forall c | c in visible && old(Resolve(View(c))).Created? :: fresh(c.material)
      ensures forall c | c in visible ::
                InstalledSnapshot(c, old(StartOf(c)), View(c).snapshot)
      ensures forall c | c in visible ::
                View(c).snapshot == null || View(c).snapshot == old(View(c).snapshot) || fresh(View(c).snapshot)
    {
      forall k | k in visible
        ensures k in cachedMaterials && (view0[k].entry != View(k).entry ==> fresh(k.material))
        ensures View(k).snapshot == null || View(k).snapshot == view0[k].snapshot || fresh(View(k).snapshot)
      {
        assert Installed(k, view0[k], View(k));
      }
      forall k | k in old(cachedMaterials) && k !in visible
        ensures k in cachedMaterials
      {
        assert View(k) == view0[k];
      }
      forall k | k in visible
        ensures InstalledSnapshot(k, old(StartOf(k)), View(k).snapshot)
      {
        assert Installed(k, view0[k], View(k));
        if Resolve(view0[k]).Created? {
          assert FirstSnapshot(k, View(k).snapshot);
        }
      }
    }

    /** `setVelocityMaterialInScene()`, with `visible` standing for what
        `getVisibleChildren(scene)` returns: every visible mesh is installed (with a
        new velocity material and its first snapshot where its cached pair is not
        reused), the cache gains exactly the visible meshes, and no other cached mesh
        changes its view. */
    method SetVelocityMaterialInScene(visible: seq<Mesh>)
      requires Valid() && Distinct(visible)
      requires forall c | c in visible :: SceneMesh(c)
      modifies this`cachedMaterials, this`velocityStates, this`boneSnapshots
      modifies this`visibleMeshes, this`renderedMeshesThisFrame, (set c | c in visible)`material
      ensures Valid() && visibleMeshes == visible && renderedMeshesThisFrame == 0
      ensures forall c | c in visible :: Installed(c, old(View(c)), View(c))
      ensures forall k | k in old(cachedMaterials) && k !in visible :: View(k) == old(View(k))
      ensures cachedMaterials.Keys == old(cachedMaterials).Keys + (set c | c in visible)
      ensures forall c | c in visible && old(Resolve(View(c))).Created? :: fresh(c.material)
      ensures forall c | c in visible ::
                InstalledSnapshot(c, old(StartOf(c)), View(c).snapshot)
      ensures forall c | c in visible ::
                View(c).snapshot == null || View(c).snapshot == old(View(c).snapshot) || fresh(View(c).snapshot)
      ensures SnapshotsKeptOrFresh() && EntriesKeptOrFresh()
    {
      ghost var view0: map<Mesh, MeshView> := map k | k in visible || k in cachedMaterials :: View(k);
      renderedMeshesThisFrame := 0;
      visibleMeshes := visible;
      InstallAll(visible, view0);
      InstallDone(view0, set c | c in visible);
    }

    /** Lines 108-115 for a mesh `c` wearing its cached velocity material: this frame's
        world and clip matrices become "previous", a skinned mesh's bones are saved
        (the kept snapshot flagged once, or the old one disposed once and a fresh one
        made), an unskinned mesh's snapshot is not touched, and `c` wears its original
        material again. */
    method RestoreMesh(c: Mesh)
      requires Valid() && Dressed(c) && c.material.isVelocityMaterial
      modifies this`velocityStates, this`boneSnapshots, c`material, Snap(c.material)
      ensures Valid() && c.material == cachedMaterials[c].original
      ensures velocityStates == old(velocityStates)[old(c.material) := EndFrame(old(StateOf(c.material)), Clip(c), c.matrixWorld)]
      ensures boneSnapshots - {old(c.material)} == old(boneSnapshots) - {old(c.material)}
      ensures Resnapshot(c, old(Snap(c.material)), Snap(old(c.material)))
      ensures var was := old(Snap(c.material));
              var t := Snap(old(c.material));
              if c.boneTexture == null then
                was != null ==> was.data == old(was.data) && was.version == old(was.version)
                                && was.disposals == old(was.disposals)
              else if ReusesSnapshot(was, c.boneTexture) then
                t.version == old(was.version) + 1 && t.disposals == old(was.disposals)
              else
                fresh(t) && t.version == 1 && t.disposals == 0
                && (was != null ==> was.disposals == old(was.disposals) + 1)
      ensures SnapshotsKeptOrFresh()
    {
      var v := c.material;
      var s := velocityStates[v];
      s := s.(lastMatrixWorld := c.matrixWorld);
      s := s.(prevVelocityMatrix := Multiply(camera.projectionMatrix, c.modelViewMatrix));
      velocityStates := velocityStates[v := s];
      if c.boneTexture != null {
        SaveBoneTexture(c);
      }
      c.material := cachedMaterials[c].original;
    }

    /** Restore has handled the meshes `done` of the views `views` it started from, has
        left every other one of them as it was, and the skinned meshes it restored
        hold a copy of their bones. */
    ghost predicate RestoreProgress(views: map<Mesh, MeshView>, done: set<Mesh>)
      reads *
    {
      done <= views.Keys
      && (forall k | k in views && k !in done :: View(k) == views[k])
      && (forall k | k in done :: Restored(k, views[k], View(k)) && ForeignSkeleton(k))
      && (forall k | k in done && views[k].material.isVelocityMaterial :: BonesCopied(k))
    }

    /** A restore step on `c`, seen through the views: `c` is restored, no other mesh
        of the views changes, and no bone data but that of the snapshot of `c`
        changes, so restore's progress grows by `c`. */
    twostate lemma RestoreProgressStep(p: Progress, new c: Mesh)
      requires old(allocated(c)) && c in p.views && c !in p.done && ForeignSkeleton(c)
      requires old(RestoreProgress(p.views, p.done))
      requires old(Valid()) && Valid() && old(Dressed(c)) && old(c.material).isVelocityMaterial
      requires cachedMaterials == old(cachedMaterials) && c.material == cachedMaterials[c].original
      requires velocityStates == old(velocityStates)[old(c.material) := EndFrame(old(StateOf(c.material)), Clip(c), c.matrixWorld)]
      requires boneSnapshots - {old(c.material)} == old(boneSnapshots) - {old(c.material)}
      requires Resnapshot(c, old(Snap(c.material)), Snap(old(c.material)))
      requires forall k | k in p.views && k != c :: k.material == old(k.material)
      requires forall t: DataTexture | old(allocated(t)) && t != old(Snap(c.material)) :: t.data == old(t.data)
      ensures RestoreProgress(p.views, p.done + {c})
      ensures forall k | k in p.views && k != c :: View(k) == old(View(k))
    {
      var v := old(c.material);
      forall k | k in p.views && k != c
        ensures View(k) == old(View(k))
      {
        if k in cachedMaterials {
          var m := cachedMaterials[k].velocity;
          assert m.madeFor == k && m != v;
          assert (m in boneSnapshots - {v}) == (m in old(boneSnapshots) - {v});
          assert (m in velocityStates) == (m in old(velocityStates));
        }
      }
      forall k | k in p.done && p.views[k].material.isVelocityMaterial
        ensures BonesCopied(k)
      {
        assert old(BonesCopied(k));
        if k.boneTexture != null {
          var m := cachedMaterials[k].velocity;
          assert m.madeFor == k && m != v;
          assert (m in boneSnapshots - {v}) == (m in old(boneSnapshots) - {v});
          var t := old(Snap(m));
          assert t.madeFor == m;
          assert t != old(Snap(v)) && k.boneTexture != old(Snap(v));
        }
      }
    }

    /** The counts restore has left on the snapshots: the views' snapshots were made
        for their cached velocity materials; the snapshots of a mesh of `done` are
        recounted from the counts `counts` they had, and those of any other mesh of
        the views still have them. */
    ghost predicate RestoreCounted(views: map<Mesh, MeshView>, counts: map<Mesh, Counts>, done: set<Mesh>)
      reads *
    {
      (forall k | k in views :: OwnedView(k, views[k]))
      && (forall k | k in views && k !in done :: k in counts && CountsOf(views[k].snapshot) == counts[k])
      && (forall k | k in done && k in views :: k in counts && Recounted(k, views[k], counts[k], View(k).snapshot))
    }

    /** A restore step on `c` that changes no other mesh's view and the counts of no
        texture but the snapshot `c` had: `c` has its snapshots recounted as
        `RestoreMesh` states, so restore's counts grow by `c`. */
    twostate lemma RecountStep(p: Progress, new c: Mesh)
      requires old(allocated(c)) && c in p.views && c !in p.done && old(View(c)) == p.views[c]
      requires old(RestoreCounted(p.views, p.counts, p.done))
      requires old(Valid()) && Valid() && old(Dressed(c)) && old(c.material).isVelocityMaterial
      requires cachedMaterials == old(cachedMaterials)
      requires forall k | k in p.views && k != c :: View(k) == old(View(k))
      requires var was := old(Snap(c.material));
               var t := Snap(old(c.material));
               if c.boneTexture == null then
                 was != null ==> was.version == old(was.version) && was.disposals == old(was.disposals)
               else if ReusesSnapshot(was, c.boneTexture) then
                 t != null && t.version == old(was.version) + 1 && t.disposals == old(was.disposals)
               else
                 t != null && t.version == 1 && t.disposals == 0
                 && (was != null ==> was.disposals == old(was.disposals) + 1)
      requires forall t: DataTexture | old(allocated(t)) && t != old(Snap(c.material)) ::
                 t.version == old(t.version) && t.disposals == old(t.disposals)
      ensures RestoreCounted(p.views, p.counts, p.done + {c})
    {
      var v := old(c.material);
      forall k | k in p.done && k in p.views
        ensures Recounted(k, p.views[k], p.counts[k], View(k).snapshot)
      {
        assert old(Recounted(k, p.views[k], p.counts[k], View(k).snapshot));
        if k in cachedMaterials {
          var m := cachedMaterials[k].velocity;
          assert m.madeFor == k && m != v;
        }
      }
      forall k | k in p.views && k !in p.done && k != c
        ensures CountsOf(p.views[k].snapshot) == p.counts[k]
      {
        assert old(CountsOf(p.views[k].snapshot)) == p.counts[k];
        if k in cachedMaterials {
          var m := cachedMaterials[k].velocity;
          assert m.madeFor == k && m != v;
        }
      }
    }

    /** Restore on a mesh `c` wearing its cached velocity material, seen from restore's
        loop: restore's progress grows by `c`, no other mesh's view changes, and the
        snapshots of `c` are counted as `RestoreMesh` states. */
    method RestoreTracked(c: Mesh, ghost p: Progress)
      requires Valid() && ForeignSkeleton(c) && c in p.views && c !in p.done
      requires RestoreProgress(p.views, p.done) && Dressed(c) && c.material.isVelocityMaterial
      modifies this`velocityStates, this`boneSnapshots, c`material, Snap(c.material)
      ensures Valid() && RestoreProgress(p.views, p.done + {c}) && SnapshotsKeptOrFresh()
      ensures cachedMaterials == old(cachedMaterials)
      ensures forall k | k in p.views && k != c :: View(k) == old(View(k))
      ensures var was := old(Snap(c.material));
              var t := Snap(old(c.material));
              if c.boneTexture == null then
                was != null ==> was.version == old(was.version) && was.disposals == old(was.disposals)
              else if ReusesSnapshot(was, c.boneTexture) then
                t != null && t.version == old(was.version) + 1 && t.disposals == old(was.disposals)
              else
                t != null && t.version == 1 && t.disposals == 0
                && (was != null ==> was.disposals == old(was.disposals) + 1)
    {
      RestoreMesh(c);
      RestoreProgressStep(p, c);
    }

    /** Restore passes over a mesh wearing no velocity material: its view and counts
        stay, so restore's progress and counts grow by it. */
    lemma SkipStep(p: Progress, c: Mesh)
      requires c in p.views && c !in p.done && ForeignSkeleton(c) && !c.material.isVelocityMaterial
      requires RestoreProgress(p.views, p.done) && RestoreCounted(p.views, p.counts, p.done)
      ensures RestoreProgress(p.views, p.done + {c}) && RestoreCounted(p.views, p.counts, p.done + {c})
    {
      assert View(c) == p.views[c];
    }

    /** The body of restore's loop for one mesh (lines 108-116): restore's progress
        and counts grow by `c`. */
    method RestoreStep(c: Mesh, ghost p: Progress)
      requires Valid() && ForeignSkeleton(c) && c in p.views && c !in p.done
      requires RestoreProgress(p.views, p.done) && RestoreCounted(p.views, p.counts, p.done)
      requires DressedView(p.views[c])
      modifies this`velocityStates, this`boneSnapshots, c`material, p.views[c].snapshot
      ensures Valid() && RestoreProgress(p.views, p.done + {c}) && SnapshotsKeptOrFresh()
      ensures RestoreCounted(p.views, p.counts, p.done + {c}) && cachedMaterials == old(cachedMaterials)
    {
      if c.material.isVelocityMaterial {
        RestoreTracked(c, p);
        RecountStep(p, c);
      } else {
        SkipStep(p, c);
      }
    }

    /** Restore's loop over the visible meshes (lines 107-117), extending its
        progress and counts from none of them to all of them. */
    method RestoreAll(meshes: seq<Mesh>, ghost views: map<Mesh, MeshView>, ghost counts: map<Mesh, Counts>)
      requires Valid() && Distinct(meshes) && (set c | c in meshes) <= views.Keys
      requires forall c | c in meshes :: ForeignSkeleton(c) && DressedView(views[c])
      requires RestoreProgress(views, {}) && RestoreCounted(views, counts, {})
      modifies this`velocityStates, this`boneSnapshots, (set c | c in meshes)`material
      modifies set c | c in meshes :: views[c].snapshot
      ensures Valid() && RestoreProgress(views, set c | c in meshes) && SnapshotsKeptOrFresh()
      ensures RestoreCounted(views, counts, set c | c in meshes) && cachedMaterials == old(cachedMaterials)
    {
      ghost var done: set<Mesh> := {};
      for i := 0 to |meshes|
        invariant Valid() && Prefix(meshes, i, done) && SnapshotsKeptOrFresh() && cachedMaterials == old(cachedMaterials)
        invariant RestoreProgress(views, done) && RestoreCounted(views, counts, done)
      {
        var c := meshes[i];
        PrefixStep(meshes, i, done);
        RestoreStep(c, Progress(views, counts, done));
        done := done + {c};
      }
    }

    /** Restore's loop having handled all of `visible`, from the views `views` and the
        snapshot counts `counts` the meshes had before: each visible mesh is restored
        and recounted, the skinned ones holding a copy of their bones, and no other
        cached mesh changes its view. */
    twostate lemma RestoreDone(views: map<Mesh, MeshView>, new counts: map<Mesh, Counts>, new visible: set<Mesh>)
      requires old(allocated(visible)) && visible <= views.Keys && cachedMaterials.Keys <= views.Keys
      requires forall k | k in views ::
                 k in counts && views[k] == old(View(k)) && counts[k] == old(CountsOf(View(k).snapshot))
      requires RestoreProgress(views, visible) && RestoreCounted(views, counts, visible)
      ensures forall c | c in visible :: Restored(c, old(View(c)), View(c))
      ensures forall c | c in visible && old(c.material).isVelocityMaterial :: BonesCopied(c)
      ensures forall k | k in cachedMaterials && k !in visible :: View(k) == old(View(k))
      ensures forall c | c in visible :: Recounted(c, old(View(c)), old(CountsOf(View(c).snapshot)), View(c).snapshot)
    {
    }

    /** `unsetVelocityMaterialInScene()`: every visible mesh wearing a velocity material
        is restored, the skinned ones holding a copy of their bones; no other mesh
        changes its view, and no texture but the visible meshes' snapshots changes. */
    method UnsetVelocityMaterialInScene()
      requires Valid() && Distinct(visibleMeshes)
      requires forall c | c in visibleMeshes :: Dressed(c)
      modifies this`velocityStates, this`boneSnapshots, (set c | c in visibleMeshes)`material
      modifies set c | c in visibleMeshes :: View(c).snapshot
      ensures Valid() && cachedMaterials == old(cachedMaterials) && visibleMeshes == old(visibleMeshes)
      ensures forall c | c in visibleMeshes :: Restored(c, old(View(c)), View(c))
      ensures forall c | c in visibleMeshes && old(c.material).isVelocityMaterial :: BonesCopied(c)
      ensures forall k | k in cachedMaterials && k !in visibleMeshes :: View(k) == old(View(k))
      ensures forall c | c in visibleMeshes :: Recounted(c, old(View(c)), old(CountsOf(View(c).snapshot)), View(c).snapshot)
      ensures SnapshotsKeptOrFresh()
    {
      ghost var views := map k | k in visibleMeshes || k in cachedMaterials :: View(k);
      ghost var counts := map k | k in views :: CountsOf(views[k].snapshot);
      ghost var visible := set c | c in visibleMeshes;
      RestoreAll(visibleMeshes, views, counts);
      RestoreDone(views, counts, visible);
    }

    /** Lines 138-140, the last two steps of `render(renderer)`: one render in which
        every visible mesh is drawn in what it wears, then restore. */
    method RenderAndRestore(renderer: Renderer)
      requires Valid() && Distinct(visibleMeshes)
      requires forall c | c in visibleMeshes :: Dressed(c)
      modifies this`velocityStates, this`boneSnapshots, (set c | c in visibleMeshes)`material
      modifies (set c | c in visibleMeshes :: View(c).snapshot), renderer, scene`background
      ensures Valid() && cachedMaterials == old(cachedMaterials) && visibleMeshes == old(visibleMeshes)
      ensures forall c | c in visibleMeshes :: Restored(c, old(View(c)), View(c))
      ensures forall c | c in visibleMeshes && old(c.material).isVelocityMaterial :: BonesCopied(c)
      ensures forall k | k in cachedMaterials && k !in visibleMeshes :: View(k) == old(View(k))
      ensures renderer.target == renderTarget
      ensures renderer.drawnBackgrounds == old(renderer.drawnBackgrounds) + [NeutralBackground]
      ensures |renderer.draws| == |old(renderer.draws)| + 1
      ensures renderer.draws[..|old(renderer.draws)|] == old(renderer.draws)
      ensures var d := renderer.draws[|old(renderer.draws)|];
              d.Keys == (set c | c in visibleMeshes)
              && forall c | c in visibleMeshes && old(c.material).isVelocityMaterial ::
                   DrawnAs(d[c], old(View(c))) && d[c].prevBones == old(BonesOf(View(c).snapshot))
      ensures scene.background == old(scene.background)
      ensures forall c | c in visibleMeshes ::
                View(c).snapshot == null || View(c).snapshot == old(View(c).snapshot) || fresh(View(c).snapshot)
      ensures forall c | c in visibleMeshes :: Recounted(c, old(View(c)), old(CountsOf(View(c).snapshot)), View(c).snapshot)
      ensures SnapshotsKeptOrFresh()
    {
      RenderVelocity(renderer);
      UnsetVelocityMaterialInScene();
    }

    /** The bone data `c` was drawn with (`d`) in a frame from its view `w0`, when its
        skeleton texture held `bones` and its snapshot `snapshotBones`: a reused
        material's snapshot as it was, a new material's first copy of the bones. */
    ghost predicate FrameBones(c: Mesh, w0: MeshView, bones: seq<real>, snapshotBones: seq<real>, d: DrawnMesh)
    {
      match Resolve(w0)
      case Reused(_, _, s) => s != null ==> d.prevBones == snapshotBones
      case Created => c.boneTexture != null ==> d.prevBones == bones
    }

    /** The counts a whole frame leaves on the snapshot `t` of a skinned mesh `c`, from
        its view `w0`, whose snapshot had the counts `n`: a reused material's snapshot
        of the right width is kept and flagged once more; another one is disposed once
        and replaced by a new one flagged once; a new material's first snapshot is
        flagged at install and again at restore. */
    ghost predicate FrameCounts(c: Mesh, w0: MeshView, n: Counts, t: DataTexture?)
      reads w0.snapshot, t
    {
      c.boneTexture != null ==>
        t != null
        && match Resolve(w0)
           case Reused(_, _, s) =>
             if ReusesSnapshot(s, c.boneTexture) then t == s && CountsOf(t) == Counts(n.version + 1, n.disposals)
             else t != s && CountsOf(t) == Counts(1, 0) && (s != null ==> s.disposals == n.disposals + 1)
           case Created => CountsOf(t) == Counts(2, 0)
    }

    /** Install (from `w0`, counts `n0`, snapshot bones `b0`, skeleton bones `bones`, to
        `w1`, `n1`, `b1`), the draw `d` and restore (to `w2`) make a whole frame whose
        draw saw the snapshot the frame started with, or the first copy of the bones,
        and whose snapshot counts are `FrameCounts`. */
    lemma FrameDone(c: Mesh, w0: MeshView, w1: MeshView, w2: MeshView, n0: Counts, n1: Counts,
                    b0: seq<real>, b1: seq<real>, bones: seq<real>, d: DrawnMesh)
      requires Installed(c, w0, w1) && w1.material.isVelocityMaterial && Restored(c, w1, w2)
      requires DrawnAs(d, w1) && d.prevBones == b1 && Recounted(c, w1, n1, w2.snapshot)
      requires Resolve(w0).Reused? ==> n1 == n0 && b1 == b0
      requires Resolve(w0).Created? && c.boneTexture != null ==> n1 == Counts(1, 0) && b1 == bones
      ensures WholeFrame(c, Start(w0, n0, b0, bones), w2, d)
    {
      InstallThenRestore(c, w0, w1, w2, d);
    }

    /** `c` went through a whole frame from `s0` to the view `w`, drawn as `d`. */
    ghost predicate WholeFrame(c: Mesh, s0: Start, w: MeshView, d: DrawnMesh)
      reads s0.view.snapshot, w.snapshot
    {
      Rendered(c, s0.view, w) && DrawnInFrame(c, s0.view, w, d)
      && FrameBones(c, s0.view, s0.skeleton, s0.bones, d) && FrameCounts(c, s0.view, s0.counts, w.snapshot)
    }

    /** Lines 138-140 after install, from the starts `s0` the visible meshes had
        before it: the draw and restore complete a whole frame from those. */
    method FinishFrame(renderer: Renderer, ghost s0: map<Mesh, Start>)
      requires Valid() && Distinct(visibleMeshes)
      requires forall c | c in visibleMeshes ::
                 c in s0 && ForeignSkeleton(c)
                 && Installed(c, s0[c].view, View(c)) && InstalledSnapshot(c, s0[c], View(c).snapshot)
      modifies this`velocityStates, this`boneSnapshots, (set c | c in visibleMeshes)`material
      modifies (set c | c in visibleMeshes :: View(c).snapshot), renderer, scene`background
      ensures Valid() && cachedMaterials == old(cachedMaterials) && visibleMeshes == old(visibleMeshes)
      ensures forall k | k in cachedMaterials && k !in visibleMeshes :: View(k) == old(View(k))
      ensures renderer.target == renderTarget
      ensures renderer.drawnBackgrounds == old(renderer.drawnBackgrounds) + [NeutralBackground]
      ensures |renderer.draws| == |old(renderer.draws)| + 1
      ensures renderer.draws[..|old(renderer.draws)|] == old(renderer.draws)
      ensures var d := renderer.draws[|old(renderer.draws)|];
              d.Keys == (set c | c in visibleMeshes)
              && forall c | c in visibleMeshes ::
                   WholeFrame(c, s0[c], View(c), d[c]) && BonesCopied(c)
      ensures scene.background == old(scene.background)
      ensures forall c | c in visibleMeshes ::
                View(c).snapshot == null || View(c).snapshot == old(View(c).snapshot) || fresh(View(c).snapshot)
      ensures SnapshotsKeptOrFresh()
    {
      forall c | c in visibleMeshes
        ensures Dressed(c) && View(c).material.isVelocityMaterial
      {
        assert Installed(c, s0[c].view, View(c));
      }
      RenderAndRestore(renderer);
      forall c | c in visibleMeshes
        ensures WholeFrame(c, s0[c], View(c), renderer.draws[|old(renderer.draws)|][c])
      {
        var s := s0[c];
        FrameDone(c, s.view, old(View(c)), View(c), s.counts, old(CountsOf(View(c).snapshot)), s.bones,
                  old(BonesOf(View(c).snapshot)), s.skeleton, renderer.draws[|old(renderer.draws)|][c]);
      }
    }

    /** `render(renderer)`: install, one render over the neutral background, restore.
        The cache gains exactly the visible meshes, and a mesh whose cached pair is
        not reused gets a new velocity material. At the draw every visible mesh wears
        the velocity material it resolved to,
        holding this frame's clip matrix and the prior frame's; after it, the mesh has
        gone through a whole frame and its snapshot holds a copy of its bones. No other
        cached mesh changes its view and no texture but the visible meshes' snapshots
        changes. */
    method Render(renderer: Renderer, visible: seq<Mesh>)
      requires Valid() && Distinct(visible)
      requires forall c | c in visible :: SceneMesh(c)
      modifies this`cachedMaterials, this`velocityStates, this`boneSnapshots
      modifies this`visibleMeshes, this`renderedMeshesThisFrame, (set c | c in visible)`material
      modifies (set c | c in visible :: View(c).snapshot), renderer, scene`background
      ensures Valid() && visibleMeshes == visible
      ensures cachedMaterials.Keys == old(cachedMaterials).Keys + (set c | c in visible)
      ensures forall c | c in visible && old(Resolve(View(c))).Created? :: fresh(cachedMaterials[c].velocity)
      ensures forall k | k in old(cachedMaterials) && k !in visible :: View(k) == old(View(k))
      ensures renderer.target == renderTarget
      ensures renderer.drawnBackgrounds == old(renderer.drawnBackgrounds) + [NeutralBackground]
      ensures |renderer.draws| == |old(renderer.draws)| + 1
      ensures renderer.draws[..|old(renderer.draws)|] == old(renderer.draws)
      ensures var d := renderer.draws[|old(renderer.draws)|];
              d.Keys == (set c | c in visible)
              && forall c | c in visible ::
                   WholeFrame(c, old(StartOf(c)), View(c), d[c]) && BonesCopied(c)
      ensures scene.background == old(scene.background)
      ensures forall c | c in visible ::
                View(c).snapshot == null || View(c).snapshot == old(View(c).snapshot) || fresh(View(c).snapshot)
      ensures SnapshotsKeptOrFresh() && EntriesKeptOrFresh()
    {
      ghost var s0 := map c | c in visible :: StartOf(c);
      SetVelocityMaterialInScene(visible);
      FinishFrame(renderer, s0);
    }

    /** `setSize(width, height)` */
    method SetSize(width: nat, height: nat)
      modifies renderTarget
      ensures renderTarget.width == width && renderTarget.height == height
    {
      renderTarget.SetSize(width, height);
    }

    /** `renderVelocity(renderer)`: one render into the pass's target over the neutral
        background, the scene's own background put back afterwards; the visible
        meshes are drawn in what they wear. */
    method RenderVelocity(renderer: Renderer)
      modifies renderer, scene`background
      ensures renderer.target == renderTarget
      ensures renderer.drawnBackgrounds == old(renderer.drawnBackgrounds) + [NeutralBackground]
      ensures renderer.draws == old(renderer.draws) + [Wearing((set c | c in visibleMeshes), velocityStates, boneSnapshots)]
      ensures forall c | c in visibleMeshes ::
                renderer.draws[|old(renderer.draws)|][c] == Drawn(c.material, velocityStates, boneSnapshots)
      ensures forall c | c in visibleMeshes && Dressed(c) && c.material.isVelocityMaterial ::
                var d := renderer.draws[|old(renderer.draws)|][c];
                DrawnAs(d, View(c)) && d.prevBones == BonesOf(View(c).snapshot)
      ensures scene.background == old(scene.background)
      ensures forall c | c in visibleMeshes :: View(c) == old(View(c))
      ensures forall t: DataTexture | old(allocated(t)) ::
                t.data == old(t.data) && t.version == old(t.version) && t.disposals == old(t.disposals)
    {
      renderer.SetRenderTarget(renderTarget);
      var background := scene.background;
      scene.background := NeutralBackground;
      renderer.Render(scene, (set c | c in visibleMeshes), velocityStates, boneSnapshots);
      scene.background := background;
    }
  }
}
