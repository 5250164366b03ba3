/** The host side of the HBAO pass: the frame counter that steps the noise pattern,
    the shader uniforms it writes before each draw, and the texture-size uniform. */
module Hbao {
  import opened Matrices
  import opened Three

  /** `spp`: samples per pixel; each render advances the frame counter by this much. */
  const SamplesPerPixel: nat := 16

  /** The frame counter wraps at 2^16. */
  const FrameModulus: nat := 65536

  /** The number of renders after which the frame counter comes back to the same value. */
  const FramePeriod: nat := FrameModulus / SamplesPerPixel

  /** Line 89: the counter after one more render. */
  function NextFrame(frame: nat): (r: nat)
    ensures r < FrameModulus
    ensures frame < FrameModulus ==>
              r == if frame + SamplesPerPixel < FrameModulus then frame + SamplesPerPixel
                   else frame + SamplesPerPixel - FrameModulus
  {
    (frame + SamplesPerPixel) % FrameModulus
  }

  /** The counter of a pass after `n` renders, starting from the initial `frame = 0`. */
  function FrameAfter(n: nat): nat
  {
    if n == 0 then 0 else NextFrame(FrameAfter(n - 1))
  }

  /** What the counter always is: a multiple of the step below the modulus. */
  predicate ValidFrame(frame: nat)
  {
    frame < FrameModulus && frame % SamplesPerPixel == 0
  }

  /** One render keeps the counter a multiple of the step below the modulus. */
  lemma NextFrameValid(frame: nat)
    requires ValidFrame(frame)
    ensures ValidFrame(NextFrame(frame))
  {
    var k := frame / SamplesPerPixel;
    assert frame == SamplesPerPixel * k;
    if frame + SamplesPerPixel < FrameModulus {
      assert NextFrame(frame) == SamplesPerPixel * (k + 1);
    } else {
      assert k == FramePeriod - 1;
      assert NextFrame(frame) == 0;
    }
  }

  /** After `n` renders the counter is `16 n` reduced modulo 2^16. */
  lemma {:induction false} FrameAfterClosedForm(n: nat)
    ensures FrameAfter(n) == (SamplesPerPixel * n) % FrameModulus
  {
    if n > 0 {
      FrameAfterClosedForm(n - 1);
      var a := SamplesPerPixel * (n - 1);
      var q := a / FrameModulus;
      assert a == FrameModulus * q + a % FrameModulus;
      assert SamplesPerPixel * n == FrameModulus * q + (a % FrameModulus + SamplesPerPixel);
      ModuloShift(a % FrameModulus + SamplesPerPixel, q);
    }
  }

  /** Adding whole multiples of the modulus does not change the residue. */
  lemma {:induction false} ModuloShift(x: nat, q: nat)
    ensures (FrameModulus * q + x) % FrameModulus == x % FrameModulus
  {
    if q > 0 {
      ModuloShift(x, q - 1);
      assert FrameModulus * q + x == FrameModulus * (q - 1) + x + FrameModulus;
    }
  }

  /** Every counter value a pass ever shows is a multiple of the step below the modulus. */
  lemma {:induction false} FrameAfterValid(n: nat)
    ensures ValidFrame(FrameAfter(n))
  {
    if n > 0 {
      FrameAfterValid(n - 1);
      NextFrameValid(FrameAfter(n - 1));
    }
  }

  /** The counter comes back to the same value after 4096 renders... */
  lemma FrameAfterPeriodic(n: nat)
    ensures FrameAfter(n + FramePeriod) == FrameAfter(n)
  {
    FrameAfterClosedForm(n);
    FrameAfterClosedForm(n + FramePeriod);
    assert SamplesPerPixel * (n + FramePeriod) == FrameModulus * 1 + SamplesPerPixel * n;
    ModuloShift(SamplesPerPixel * n, 1);
  }

  /** ...and not before: the first 4096 renders all show different counter values. */
  lemma FrameAfterDistinct(i: nat, j: nat)
    requires i < j < FramePeriod
    ensures FrameAfter(i) != FrameAfter(j)
  {
    FrameAfterClosedForm(i);
    FrameAfterClosedForm(j);
    assert SamplesPerPixel * i < SamplesPerPixel * j < FrameModulus;
  }

  /** A two-component `Vector2` uniform. */
  datatype Vector2 = Vector2(x: real, y: real)

  /** A positive pixel count, as the loaded noise image has. */
  type PixelCount = n: nat | n > 0 witness 1

  /** The loaded blue-noise texture, reduced to the size of its image. */
  datatype NoiseTexture = NoiseTexture(width: PixelCount, height: PixelCount)

  /** Lines 100-108: how often the noise tiles across a target of the given size, or
      the old value when no noise texture has loaded yet. */
  function NoiseRepeat(noise: Option<NoiseTexture>, targetWidth: nat, targetHeight: nat,
                       previous: Vector2): (r: Vector2)
    ensures noise.None? ==> r == previous
    ensures noise.Some? ==> r.x * (noise.value.width as real) == targetWidth as real
                            && r.y * (noise.value.height as real) == targetHeight as real
  {
    match noise
    case None => previous
    case Some(t) => Vector2(targetWidth as real / t.width as real, targetHeight as real / t.height as real)
  }

  /** The uniform slots of the pass's fullscreen material that the host code writes.
      The other ones (`aoDistance`, `bias`, ...) are set from outside and not modelled. */
  class HbaoUniforms {
    var frame: nat
    var cameraNear: real
    var cameraFar: real
    var projectionViewMatrix: Matrix
    var texSize: Vector2
    var blueNoiseTexture: Option<NoiseTexture>
    var blueNoiseRepeat: Vector2
    /** Lines 62-64: bound once to the camera's own matrices. */
    const viewMatrix: Matrix
    const inverseProjectionMatrix: Matrix
    const cameraMatrixWorld: Matrix

    /** Lines 37-54 and 62-64. */
    constructor (camera: Camera)
      ensures frame == 0 && cameraNear == 0.0 && cameraFar == 0.0
      ensures projectionViewMatrix == Identity && texSize == Vector2(0.0, 0.0)
      ensures blueNoiseTexture == None && blueNoiseRepeat == Vector2(0.0, 0.0)
      ensures viewMatrix == camera.matrixWorldInverse
      ensures inverseProjectionMatrix == camera.projectionMatrixInverse
      ensures cameraMatrixWorld == camera.matrixWorld
    {
      frame, cameraNear, cameraFar := 0, 0.0, 0.0;
      projectionViewMatrix, texSize := Identity, Vector2(0.0, 0.0);
      blueNoiseTexture, blueNoiseRepeat := None, Vector2(0.0, 0.0);
      viewMatrix := camera.matrixWorldInverse;
      inverseProjectionMatrix := camera.projectionMatrixInverse;
      cameraMatrixWorld := camera.matrixWorld;
    }
  }

  class HBAOPass {
    const camera: Camera
    const renderTarget: RenderTarget
    const uniforms: HbaoUniforms
    /** `_scene`: the world scene the pass is given; the host code never reads it. */
    const worldScene: Scene
    /** The pass's own fullscreen-quad scene (`this.scene` of the pass base class),
        which `render` draws. */
    const quad: Scene
    var frame: nat

    /** The counter is a multiple of the step below the modulus. */
    predicate Valid()
      reads this`frame
    {
      ValidFrame(frame)
    }

    /** Lines 23-65: a 1x1 target and fresh uniforms bound to the camera; the base
        class gives the pass its own quad scene, which has no background. */
    constructor (camera: Camera, scene: Scene)
      ensures Valid() && frame == 0 && this.camera == camera && worldScene == scene
      ensures fresh(quad) && quad.background == NoBackground
      ensures fresh(renderTarget) && renderTarget.width == 1 && renderTarget.height == 1
      ensures fresh(uniforms) && uniforms.frame == 0 && uniforms.blueNoiseTexture == None
      ensures uniforms.viewMatrix == camera.matrixWorldInverse
      ensures uniforms.inverseProjectionMatrix == camera.projectionMatrixInverse
      ensures uniforms.cameraMatrixWorld == camera.matrixWorld
    {
      this.camera := camera;
      worldScene := scene;
      quad := new Scene(NoBackground);
      frame := 0;
      renderTarget := new RenderTarget(1, 1);
      uniforms := new HbaoUniforms(camera);
    }

    /** Line 77: the loader's callback installs the blue-noise texture. */
    method OnNoiseLoaded(texture: NoiseTexture)
      modifies uniforms`blueNoiseTexture
      ensures uniforms.blueNoiseTexture == Some(texture)
    {
      uniforms.blueNoiseTexture := Some(texture);
    }

    /** `setSize(width, height)`: the target takes the size, and `texSize` follows it. */
    method SetSize(width: nat, height: nat)
      modifies renderTarget, uniforms`texSize
      ensures renderTarget.width == width && renderTarget.height == height
      ensures uniforms.texSize == Vector2(width as real, height as real)
    {
      renderTarget.SetSize(width, height);
      uniforms.texSize := Vector2(renderTarget.width as real, renderTarget.height as real);
    }

    /** `render(renderer)`: the counter steps on (and stays a multiple of the step
        below the modulus), the uniforms take this frame's values, the noise repeat
        is updated only once the noise has loaded, and the quad is drawn into the
        pass's target. */
    method Render(renderer: Renderer)
      requires Valid()
      modifies this`frame, uniforms`frame, uniforms`cameraNear, uniforms`cameraFar
      modifies uniforms`projectionViewMatrix, uniforms`blueNoiseRepeat, renderer
      ensures Valid() && frame == NextFrame(old(frame))
      ensures uniforms.frame == frame
      ensures uniforms.cameraNear == camera.near && uniforms.cameraFar == camera.far
      ensures uniforms.projectionViewMatrix == Multiply(camera.projectionMatrix, camera.matrixWorldInverse)
      ensures uniforms.blueNoiseRepeat
              == NoiseRepeat(uniforms.blueNoiseTexture, renderTarget.width, renderTarget.height,
                             old(uniforms.blueNoiseRepeat))
      ensures renderer.target == renderTarget
      ensures renderer.drawnBackgrounds == old(renderer.drawnBackgrounds) + [quad.background]
      ensures renderer.draws == old(renderer.draws) + [map[]]
    {
      NextFrameValid(frame);
      var spp := SamplesPerPixel;
      frame := (frame + spp) % FrameModulus;
      uniforms.frame := frame;
      uniforms.cameraNear := camera.near;
      uniforms.cameraFar := camera.far;
      uniforms.projectionViewMatrix := Multiply(camera.projectionMatrix, camera.matrixWorldInverse);
      var noiseTexture := uniforms.blueNoiseTexture;
      if noiseTexture.Some? {
        var width := noiseTexture.value.width;
        var height := noiseTexture.value.height;
        uniforms.blueNoiseRepeat :=
          Vector2(renderTarget.width as real / width as real, renderTarget.height as real / height as real);
      }
      renderer.SetRenderTarget(renderTarget);
      renderer.Render(quad, {}, map[], map[]);
    }
  }
}
