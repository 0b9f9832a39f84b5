/** The engine's `Transform` component: the one mutable pose an entity's
    components share (a rigid body, a portable object, a slider or a rotator
    all write it through their `trans` field). */
module Scene {
  import opened Math3D

  class Transform {
    var position: Vector3
    var rotation: Quaternion

    constructor(p: Vector3, q: Quaternion)
      ensures position == p && rotation == q
    {
      position := p;
      rotation := q;
    }
  }
}
