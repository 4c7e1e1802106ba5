/**
 * The MovementBehaviour component: it finds its owner's rigid body when it
 * wakes, turns the W/A/S/D keys into impulses in the X/Y plane every frame
 * (unless the left mouse button is held), and saves and loads its speed as
 * a one-field JSON object.
 */
module Movement {
  import opened Wrappers
  import opened Vectors
  import opened InputEngine
  import opened Gameplay

  /** A JSON object whose members are numbers; the only shape this component reads or writes. */
  type Json = map<string, real>

  const SpeedKey: string := "speed"

  /** The speed a newly constructed component starts with (0.05f in the source). */
  const DefaultSpeed: real := 0.05

  /** The movement keys, highest priority first. */
  const Priority: seq<KeyCode> := [KeyW, KeyA, KeyS, KeyD]

  /** The unit direction each key of Priority pushes towards, at the same index. */
  const Directions: seq<Vec3> := [Vec3(0.0, 1.0, 0.0), Vec3(-1.0, 0.0, 0.0), Vec3(0.0, -1.0, 0.0), Vec3(1.0, 0.0, 0.0)]

  predicate IsDown(input: Snapshot, key: KeyCode)
  {
    input.GetKeyState(key) == Down
  }

  /**
   * The impulse one frame applies, following the component's if/else-if
   * chain: nothing while the left mouse button is held, otherwise the
   * impulse of the first of W, A, S, D that is Down, otherwise nothing.
   */
  function SelectImpulse(input: Snapshot, speed: real): (r: Option<Vec3>)
    ensures r.None? <==>
      input.IsMouseButtonDown(MouseButtonLeft) || forall i :: 0 <= i < |Priority| ==> !IsDown(input, Priority[i])
    ensures r.Some? ==>
      r.value.z == 0.0 && (r.value.x == 0.0 || r.value.y == 0.0) && SquaredLength(r.value) == speed * speed
  {
    assert Priority[0] == KeyW && Priority[1] == KeyA && Priority[2] == KeyS && Priority[3] == KeyD;
    AxisLengths(speed);
    if input.IsMouseButtonDown(MouseButtonLeft) then None
    else if IsDown(input, KeyW) then Some(Vec3(0.0, speed, 0.0))
    else if IsDown(input, KeyA) then Some(Vec3(-speed, 0.0, 0.0))
    else if IsDown(input, KeyS) then Some(Vec3(0.0, -speed, 0.0))
    else if IsDown(input, KeyD) then Some(Vec3(speed, 0.0, 0.0))
    else None
  }

  /** Each of the four axis impulses has squared length speed * speed. */
  lemma AxisLengths(speed: real)
    ensures SquaredLength(Vec3(0.0, speed, 0.0)) == speed * speed
    ensures SquaredLength(Vec3(-speed, 0.0, 0.0)) == speed * speed
    ensures SquaredLength(Vec3(0.0, -speed, 0.0)) == speed * speed
    ensures SquaredLength(Vec3(speed, 0.0, 0.0)) == speed * speed
  {
  }

  /** The index of the first key of keys that is Down, if any. */
  function FirstDownIndex(keys: seq<KeyCode>, input: Snapshot): (r: Option<nat>)
    ensures r.Some? ==>
      r.value < |keys| && IsDown(input, keys[r.value]) &&
      forall j :: 0 <= j < r.value ==> !IsDown(input, keys[j])
    ensures r.None? ==> forall j :: 0 <= j < |keys| ==> !IsDown(input, keys[j])
  {
    if keys == [] then None
    else if IsDown(input, keys[0]) then Some(0)
    else match FirstDownIndex(keys[1..], input)
      case None => None
      case Some(i) => Some(i + 1)
  }

  /**
   * A reference reading of the priority rule, written as a table rather than
   * a chain: the first Down key of Priority moves the body by speed along
   * that key's direction.
   */
  function ReferenceImpulse(input: Snapshot, speed: real): Option<Vec3>
  {
    if input.IsMouseButtonDown(MouseButtonLeft) then None
    else match FirstDownIndex(Priority, input)
      case None => None
      case Some(i) => Some(Scale(Directions[i], speed))
  }

  /** The chain and the table agree on every input and every speed. */
  lemma SelectImpulseIsReference(input: Snapshot, speed: real)
    ensures SelectImpulse(input, speed) == ReferenceImpulse(input, speed)
  {
    var first := FirstDownIndex(Priority, input);
    assert Priority[0] == KeyW && Priority[1] == KeyA && Priority[2] == KeyS && Priority[3] == KeyD;
    if !input.IsMouseButtonDown(MouseButtonLeft) {
      if IsDown(input, KeyW) {
        assert first == Some(0);
      } else if IsDown(input, KeyA) {
        assert first == Some(1);
      } else if IsDown(input, KeyS) {
        assert first == Some(2);
      } else if IsDown(input, KeyD) {
        assert first == Some(3);
      } else {
        assert forall j :: 0 <= j < |Priority| ==> !IsDown(input, Priority[j]);
        assert first == None;
      }
    }
  }

  /**
   * Priority exclusivity: when the i-th key of Priority is Down and no key
   * before it is, the frame applies exactly that key's impulse, whatever the
   * keys after it are doing.
   */
  lemma FirstHeldKeyWins(input: Snapshot, speed: real, i: nat)
    requires !input.IsMouseButtonDown(MouseButtonLeft)
    requires i < |Priority| && IsDown(input, Priority[i])
    requires forall j :: 0 <= j < i ==> !IsDown(input, Priority[j])
    ensures SelectImpulse(input, speed) == Some(Scale(Directions[i], speed))
  {
    SelectImpulseIsReference(input, speed);
    var first := FirstDownIndex(Priority, input);
    assert first.Some?;
    assert first.value == i;
  }

  /** Holding W and A together moves only forward. */
  lemma ForwardBeatsLeft(input: Snapshot, speed: real)
    requires !input.IsMouseButtonDown(MouseButtonLeft)
    requires IsDown(input, KeyW) && IsDown(input, KeyA)
    ensures SelectImpulse(input, speed) == Some(Vec3(0.0, speed, 0.0))
  {
  }

  /**
   * Keys further down the priority list than a held key cannot change the
   * frame's impulse: two snapshots that agree on the mouse and on the keys up
   * to a Down key give the same impulse.
   */
  lemma LaterKeysIgnored(input: Snapshot, other: Snapshot, speed: real, i: nat)
    requires input.IsMouseButtonDown(MouseButtonLeft) == other.IsMouseButtonDown(MouseButtonLeft)
    requires i < |Priority| && IsDown(input, Priority[i])
    requires forall j :: 0 <= j <= i ==> input.GetKeyState(Priority[j]) == other.GetKeyState(Priority[j])
    ensures SelectImpulse(input, speed) == SelectImpulse(other, speed)
  {
    if !input.IsMouseButtonDown(MouseButtonLeft) {
      var first := FirstDownIndex(Priority, input);
      assert first.Some? && first.value <= i;
      var k := first.value;
      FirstHeldKeyWins(input, speed, k);
      FirstHeldKeyWins(other, speed, k);
    }
  }

  /**
   * Only Down moves the body: Up, Pressed and Released are indistinguishable,
   * so snapshots that agree on the mouse and on which movement keys are Down
   * give the same impulse.
   */
  lemma OnlyDownMatters(input: Snapshot, other: Snapshot, speed: real)
    requires input.IsMouseButtonDown(MouseButtonLeft) == other.IsMouseButtonDown(MouseButtonLeft)
    requires forall j :: 0 <= j < |Priority| ==> (IsDown(input, Priority[j]) <==> IsDown(other, Priority[j]))
    ensures SelectImpulse(input, speed) == SelectImpulse(other, speed)
  {
    assert IsDown(input, KeyW) == IsDown(other, KeyW) by { assert Priority[0] == KeyW; }
    assert IsDown(input, KeyA) == IsDown(other, KeyA) by { assert Priority[1] == KeyA; }
    assert IsDown(input, KeyS) == IsDown(other, KeyS) by { assert Priority[2] == KeyS; }
    assert IsDown(input, KeyD) == IsDown(other, KeyD) by { assert Priority[3] == KeyD; }
  }

  /** A JSON object of the shape ToJson writes: exactly one member, "speed". */
  predicate IsSpeedObject(blob: Json)
  {
    blob.Keys == {SpeedKey}
  }

  /** The component: its tunable speed, IComponent's enabled flag, and the body resolved at Awake. */
  class MovementBehaviour {
    var speed: real
    var enabled: bool
    var body: RigidBody?

    /** A new component has the default speed, is enabled (IComponent's default) and has no body yet. */
    constructor ()
      ensures speed == DefaultSpeed && enabled && body == null
    {
      speed := DefaultSpeed;
      enabled := true;
      body := null;
    }

    /**
     * Resolves the owner's RigidBody (the owner is the object IComponent's
     * back-reference points to); disables the component when there is none.
     */
    method Awake(owner: GameObject)
      modifies this
      ensures body == owner.GetRigidBody()
      ensures body == null ==> !enabled
      ensures body != null ==> enabled == old(enabled)
      ensures speed == old(speed)
    {
      body := owner.GetRigidBody();
      if body == null {
        enabled := false;
      }
    }

    /** Serialises the component as the object {"speed": speed}. */
    function ToJson(): (blob: Json)
      reads this
      ensures IsSpeedObject(blob) && blob[SpeedKey] == speed
    {
      map[SpeedKey := speed]
    }

    /**
     * Builds a new component from a JSON object: only speed is read, every
     * other field keeps the constructor's default.
     */
    static method FromJson(blob: Json) returns (m: MovementBehaviour)
      requires SpeedKey in blob
      ensures fresh(m)
      ensures m.speed == blob[SpeedKey] && m.enabled && m.body == null
    {
      m := new MovementBehaviour();
      m.speed := blob[SpeedKey];
    }

    /**
     * One frame: applies to the body the impulse SelectImpulse chooses, or
     * nothing. deltaTime is accepted and ignored, and the component itself
     * does not change.
     */
    method Update(deltaTime: real, input: Snapshot)
      requires SelectImpulse(input, speed).Some? ==> body != null
      modifies body
      ensures unchanged(this)
      ensures match SelectImpulse(input, speed)
        case None => body != null ==> body.impulses == old(body.impulses)
        case Some(impulse) => body.impulses == old(body.impulses) + [impulse]
    {
      if !input.IsMouseButtonDown(MouseButtonLeft) {
        if input.GetKeyState(KeyW) == Down {
          body.ApplyImpulse(Vec3(0.0, speed, 0.0));
        } else if input.GetKeyState(KeyA) == Down {
          body.ApplyImpulse(Vec3(-speed, 0.0, 0.0));
        } else if input.GetKeyState(KeyS) == Down {
          body.ApplyImpulse(Vec3(0.0, -speed, 0.0));
        } else if input.GetKeyState(KeyD) == Down {
          body.ApplyImpulse(Vec3(speed, 0.0, 0.0));
        }
      }
    }
  }

  /** Saving a component and loading the result gives a fresh component with the same speed. */
  method SpeedSurvivesJson(m: MovementBehaviour) returns (copy: MovementBehaviour)
    ensures fresh(copy)
    ensures copy.speed == m.speed && copy.enabled && copy.body == null
  {
    var blob := m.ToJson();
    copy := MovementBehaviour.FromJson(blob);
  }

  /** Loading an object of the saved shape and saving the component again gives back the same object. */
  method JsonSurvivesComponent(blob: Json) returns (again: Json)
    requires IsSpeedObject(blob)
    ensures again == blob
  {
    var m := MovementBehaviour.FromJson(blob);
    again := m.ToJson();
  }

  /**
   * The frame described for the default speed: W held, no mouse button, one
   * frame on a fresh body logs exactly the impulse (0, 0.05, 0), whatever
   * deltaTime is.
   */
  method ForwardFrameAtDefaultSpeed(deltaTime: real, input: Snapshot) returns (log: seq<Vec3>)
    requires !input.IsMouseButtonDown(MouseButtonLeft) && IsDown(input, KeyW)
    ensures log == [Vec3(0.0, 0.05, 0.0)]
  {
    var body := new RigidBody();
    var owner := new GameObject([body]);
    var m := new MovementBehaviour();
    m.Awake(owner);
    m.Update(deltaTime, input);
    log := body.impulses;
  }
}
