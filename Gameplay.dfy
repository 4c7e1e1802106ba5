/**
 * The collaborators the movement component touches: the rigid body it pushes
 * and the game object it asks for that body.
 */
module Gameplay {
  import opened Vectors

  /** A physics body, reduced to the log of the impulses applied to it. */
  class RigidBody {
    var impulses: seq<Vec3>

    constructor ()
      ensures impulses == []
    {
      impulses := [];
    }

    /** Records one impulse; the physics that integrates it is not modelled. */
    method ApplyImpulse(impulse: Vec3)
      modifies this
      ensures impulses == old(impulses) + [impulse]
    {
      impulses := impulses + [impulse];
    }
  }

  /** A game object, reduced to its RigidBody components in attachment order. */
  class GameObject {
    var rigidBodies: seq<RigidBody>

    constructor (bodies: seq<RigidBody>)
      ensures rigidBodies == bodies
    {
      rigidBodies := bodies;
    }

    /** GetComponent<RigidBody>(): the first RigidBody attached, or null when there is none. */
    function GetRigidBody(): (r: RigidBody?)
      reads this
      ensures r == null <==> rigidBodies == []
      ensures r != null ==> r == rigidBodies[0]
    {
      if rigidBodies == [] then null else rigidBodies[0]
    }
  }
}
