/** The three.js objects the two passes read and write, reduced to the fields the
    passes touch. Their own behaviour (GPU upload, compilation) is not modelled. */
module Three {
  import opened Matrices

  /** A value that may be absent (`null` or `undefined` in the source). */
  datatype Option<T> = None | Some(value: T)

  /** What `written` holds for `m`; a material nothing was written on has the state
      of a fresh velocity material. */
  function Written(written: map<Material, MaterialState>, m: Material): MaterialState
  {
    if m in written then written[m] else FreshVelocityState
  }

  /** What a mesh wearing `m` is drawn with: `m`, what `written` holds for it, and
      the texture `bones` holds for it with the data in that texture. */
  ghost function Drawn(m: Material, written: map<Material, MaterialState>, bones: map<Material, DataTexture>): DrawnMesh
    reads bones.Values
  {
    if m in bones then DrawnMesh(m, Written(written, m), bones[m], bones[m].data)
    else DrawnMesh(m, Written(written, m), null, [])
  }

  /** What the meshes `meshes` wear, as `Drawn` gives it for their materials. */
  ghost function Wearing(meshes: set<Mesh>, written: map<Material, MaterialState>,
                         bones: map<Material, DataTexture>): map<Mesh, DrawnMesh>
    reads meshes`material, bones.Values
  {
    map c | c in meshes :: Drawn(c.material, written, bones)
  }

  /** `material.side` */
  datatype Side = FrontSide | BackSide | DoubleSide

  /** What `material.map` holds; only "is it a VideoTexture" matters to the passes. */
  datatype MapKind = NoMap | ImageMap | VideoMap

  /** `scene.background`: nothing, a colour, or some texture. */
  datatype Background = NoBackground | ColorBackground(hex: nat) | TextureBackground(id: nat)

  /** The three material properties the velocity pass copies from the original material. */
  datatype RenderFlags = RenderFlags(visible: bool, wireframe: bool, side: Side)

  /** The name of a define other than the three the passes use; those three have
      constructors of their own in `Define`, so no other define may carry their name. */
  type OtherDefineName = name: string | name !in {"FULL_MOVEMENT", "USE_SKINNING", "BONE_TEXTURE"} witness ""

  /** A shader preprocessor define's name; the passes use three of them. */
  datatype Define = FullMovement | UseSkinning | BoneTexture | OtherDefine(name: OtherDefineName)

  /** What the velocity pass writes on a velocity material: its defines, its
      `needsUpdate` count (`version`), the three copied properties and its uniforms
      other than the bone snapshot (`lastMatrixWorld` is the matrix the pass
      attaches to it). */
  datatype MaterialState = MaterialState(
    defines: map<Define, string>,
    version: nat,
    velocityMatrix: Matrix,
    prevVelocityMatrix: Matrix,
    lastMatrixWorld: Matrix,
    flags: RenderFlags,
    boneTexture: DataTexture?)

  /** A freshly made velocity material: no defines, identity matrices, default flags. */
  const FreshVelocityState: MaterialState :=
    MaterialState(map[], 0, Identity, Identity, Identity, RenderFlags(true, false, FrontSide), null)

  /** A `DataTexture`: its `image.data` typed array (as the sequence of its values),
      `image.width`, `image.height`, how often `needsUpdate = true` was assigned
      (three.js turns that into a version bump) and how often `dispose()` was called. */
  class DataTexture {
    var data: seq<real>
    const width: nat
    const height: nat
    var version: nat
    var disposals: nat
    /** The velocity material a bone snapshot was made for; `null` for any other texture. */
    ghost const madeFor: Material?

    constructor (data: seq<real>, width: nat, height: nat, ghost madeFor: Material?)
      ensures this.data == data && this.width == width && this.height == height
      ensures version == 0 && disposals == 0 && this.madeFor == madeFor
    {
      this.data := data;
      this.width := width;
      this.height := height;
      version := 0;
      disposals := 0;
      this.madeFor := madeFor;
    }

    /** `image.data.set(src)`: the values of `src` overwrite the texture's own buffer.
        The typed array's fixed length is not modelled: the whole buffer is replaced. */
    method SetData(src: seq<real>)
      modifies this`data
      ensures data == src
    {
      data := src;
    }

    /** `texture.dispose()` */
    method Dispose()
      modifies this`disposals
      ensures disposals == old(disposals) + 1
    {
      disposals := disposals + 1;
    }

    /** `texture.needsUpdate = true` */
    method MarkNeedsUpdate()
      modifies this`version
      ensures version == old(version) + 1
    {
      version := version + 1;
    }
  }

  /** A material: which kind it is and the properties the velocity pass reads from
      a scene material (`visible`, `wireframe`, `side` and what `map` holds). What
      the pass writes on a velocity material it made, the copied properties among
      it, is kept by the pass; a velocity material's own `flags` and `mapKind` are
      never read. */
  class Material {
    const isVelocityMaterial: bool
    const flags: RenderFlags
    const mapKind: MapKind
    /** The mesh a velocity material was made for; `null` for a scene material. */
    ghost const madeFor: Mesh?

    /** An ordinary material of the scene. */
    constructor (flags: RenderFlags, mapKind: MapKind)
      ensures !isVelocityMaterial && this.flags == flags && this.mapKind == mapKind && madeFor == null
    {
      isVelocityMaterial := false;
      this.flags := flags;
      this.mapKind := mapKind;
      madeFor := null;
    }

    /** `new VelocityMaterial()`, made for the mesh `owner`. */
    constructor Velocity(ghost owner: Mesh)
      ensures isVelocityMaterial && madeFor == owner
    {
      isVelocityMaterial := true;
      flags := FreshVelocityState.flags;
      mapKind := NoMap;
      madeFor := owner;
    }
  }

  /** A renderable mesh: its material binding, transforms, `userData.needsUpdatedReflections`
      and `skeleton?.boneTexture`. */
  class Mesh {
    var material: Material
    const matrixWorld: Matrix
    const modelViewMatrix: Matrix
    const needsUpdatedReflections: bool
    const boneTexture: DataTexture?

    constructor (material: Material, matrixWorld: Matrix, modelViewMatrix: Matrix,
                 needsUpdatedReflections: bool, boneTexture: DataTexture?)
      ensures this.material == material && this.matrixWorld == matrixWorld
      ensures this.modelViewMatrix == modelViewMatrix
      ensures this.needsUpdatedReflections == needsUpdatedReflections && this.boneTexture == boneTexture
    {
      this.material := material;
      this.matrixWorld := matrixWorld;
      this.modelViewMatrix := modelViewMatrix;
      this.needsUpdatedReflections := needsUpdatedReflections;
      this.boneTexture := boneTexture;
    }
  }

  class Camera {
    const projectionMatrix: Matrix
    const projectionMatrixInverse: Matrix
    const matrixWorld: Matrix
    const matrixWorldInverse: Matrix
    const near: real
    const far: real

    constructor (projectionMatrix: Matrix, projectionMatrixInverse: Matrix, matrixWorld: Matrix,
                 matrixWorldInverse: Matrix, near: real, far: real)
      ensures this.projectionMatrix == projectionMatrix && this.projectionMatrixInverse == projectionMatrixInverse
      ensures this.matrixWorld == matrixWorld && this.matrixWorldInverse == matrixWorldInverse
      ensures this.near == near && this.far == far
    {
      this.projectionMatrix, this.projectionMatrixInverse := projectionMatrix, projectionMatrixInverse;
      this.matrixWorld, this.matrixWorldInverse := matrixWorld, matrixWorldInverse;
      this.near, this.far := near, far;
    }
  }

  class Scene {
    var background: Background

    constructor (background: Background)
      ensures this.background == background
    {
      this.background := background;
    }
  }

  class RenderTarget {
    var width: nat
    var height: nat

    constructor (width: nat, height: nat)
      ensures this.width == width && this.height == height
    {
      this.width, this.height := width, height;
    }

    /** `renderTarget.setSize(width, height)` */
    method SetSize(width: nat, height: nat)
      modifies this
      ensures this.width == width && this.height == height
    {
      this.width, this.height := width, height;
    }
  }

  /** What a drawn mesh wore at the draw: its material, what is written on it, its
      `prevBoneTexture` uniform and the data that texture held (`[]` without one). */
  datatype DrawnMesh = DrawnMesh(material: Material, state: MaterialState, prevBoneTexture: DataTexture?,
                                 prevBones: seq<real>)

  /** The renderer, reduced to its bound target, the backgrounds it has drawn behind
      and, per draw, what each drawn mesh wore. */
  class Renderer {
    var target: RenderTarget?
    var drawnBackgrounds: seq<Background>
    ghost var draws: seq<map<Mesh, DrawnMesh>>

    constructor ()
      ensures target == null && drawnBackgrounds == [] && draws == []
    {
      target, drawnBackgrounds := null, [];
      draws := [];
    }

    /** `renderer.setRenderTarget(target)` */
    method SetRenderTarget(target: RenderTarget)
      modifies this`target
      ensures this.target == target
    {
      this.target := target;
    }

    /** `renderer.render(scene, camera)`: the drawing itself is not modelled; the
        renderer records the background it drew behind and what the meshes it drew,
        `meshes`, wore: their materials with what `written` holds for them and the
        bone textures `bones` holds for them. */
    method Render(scene: Scene, ghost meshes: set<Mesh>, ghost written: map<Material, MaterialState>,
                  ghost bones: map<Material, DataTexture>)
      modifies this`drawnBackgrounds, this`draws
      ensures drawnBackgrounds == old(drawnBackgrounds) + [scene.background]
      ensures draws == old(draws) + [Wearing(meshes, written, bones)]
    {
      drawnBackgrounds := drawnBackgrounds + [scene.background];
      draws := draws + [Wearing(meshes, written, bones)];
    }
  }
}
