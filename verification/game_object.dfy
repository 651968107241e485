/** `GameObject`: a renderable and the position it is drawn at. */
module GameObjects {
  import opened Bytes
  import opened VertexFormat
  import opened Driver
  import opened MeshResource
  import opened EffectResource
  import opened Renderables

  class GameObject {
    const renderable: Renderable
    var position: Vector

    /** `GameObject()`: a new renderable, which has not been initialised, and
        the position (0, 0). */
    constructor (backend: Backend)
      ensures fresh(renderable) && fresh(renderable.mesh) && fresh(renderable.effect)
      ensures renderable.backend == backend && renderable.Valid() && !renderable.deleted
      ensures renderable.mesh.Unloaded()
      ensures !renderable.mesh.deleted && !renderable.effect.deleted && renderable.effect.Held() == {}
      ensures position == Vector(Zero, Zero)
    {
      renderable := new Renderable(backend);
      position := Vector(Zero, Zero);
    }

    /** `Initialize`: initialises the renderable and, when that fails, shuts
        the game object down. The renderable has then shut itself down
        already, so its effect and mesh are shut down and deleted a second
        time: four undefined operations, after which the renderable itself
        is deleted. */
    method Initialize(dev: Device, fails: set<Step>, file: seq<Byte>, files: ShaderFiles, location: nat)
      returns (ok: bool)
      requires renderable.Valid() && dev.Valid() && renderable.mesh.Unloaded()
      requires !renderable.deleted && !renderable.mesh.deleted && !renderable.effect.deleted
      requires renderable.effect.Held() == {}
      requires renderable.backend == D3D ==> dev.attached
      modifies renderable`deleted, renderable.mesh, renderable.effect, dev
      ensures dev.Valid()
      ensures ok <==> InitializeSucceeds(renderable.backend, fails)
      ensures ok <==> !renderable.deleted
      ensures dev.blocks == old(dev.blocks)
      ensures dev.danglingUses ==
        old(dev.danglingUses) + (if ReadsThroughNull(fails) then 1 else 0) + (if ok then 0 else 4)
      ensures ok ==>
        && old(dev.live) !! (renderable.mesh.Held() + renderable.effect.Held())
        && old(dev.live) + renderable.mesh.Held() + renderable.effect.Held() <= dev.live
    {
      ok := renderable.Initialize(dev, fails, file, files, location);
      if !ok {
        ShutDown(dev);
      }
    }

    /** `Update`: the renderable's offset becomes the position. */
    method Update()
      modifies renderable`offset
      ensures renderable.offset == position
    {
      renderable.SetPositionOffset(position);
    }

    /** `ShutDown`: shuts down and deletes the renderable without forgetting
        it. A second call goes through the deleted renderable, once to call
        `ShutDown` and once to delete it, besides what that `ShutDown` does
        to the effect and the mesh it deleted before. */
    method ShutDown(dev: Device)
      requires renderable.Valid() && dev.Valid()
      modifies renderable`deleted, renderable.effect`programId, renderable.effect`vertexShader
      modifies renderable.effect`fragmentShader, renderable.effect`deleted
      modifies renderable.mesh`vertexArrayId, renderable.mesh`vertexDeclaration, renderable.mesh`vertexBuffer
      modifies renderable.mesh`indexBuffer, renderable.mesh`deleted
      modifies dev`live, dev`log, dev`danglingUses
      ensures dev.Valid() && renderable.deleted && renderable.effect.deleted && renderable.mesh.deleted
      ensures dev.danglingUses == old(dev.danglingUses) + (if old(renderable.deleted) then 2 else 0)
        + (if old(renderable.effect.deleted) then 2 else 0) + (if old(renderable.mesh.deleted) then 2 else 0)
      ensures renderable.effect.Held() == {}
      ensures dev.live == old(dev.live) - old(renderable.effect.Held())
        - (if renderable.backend == D3D && !dev.attached then {} else old(renderable.mesh.Held()))
    {
      if renderable.deleted {
        dev.UseDangling(2);
      }
      renderable.ShutDown(dev);
      renderable.deleted := true;
    }
  }
}
