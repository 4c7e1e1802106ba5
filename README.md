# MovementBehaviour, modelled in Dafny

A model of the `MovementBehaviour` game component of a small entity-component
game engine. The component moves its game object with the W/A/S/D keys. It
works like this:

- When it wakes, it looks up its owner's `RigidBody` and disables itself if
  there is none.
- Every frame, unless the left mouse button is held, it applies at most one
  impulse, of magnitude |`speed`|, in the X/Y plane. The impulse belongs to
  the first of W, A, S, D, in that order, that is in state `Down`; with none
  of them `Down`, nothing is applied.
- It saves and loads its speed as the JSON object `{"speed": …}`.

Files:

- `Wrappers.dfy`: the `Option` datatype.
- `Vectors.dfy`: `Vec3`, which stands for `glm::vec3` with real components.
- `InputEngine.dfy`: the button states `Up`, `Down`, `Pressed` and `Released`, GLFW's key codes for W, A, S, D and the left mouse button, and an input `Snapshot`. The snapshot takes the place of the engine's global input singleton. A key it does not list reads as `Up`.
- `Gameplay.dfy`: the collaborators. A `RigidBody` is reduced to the log of the impulses applied to it. A `GameObject` is reduced to its attached rigid bodies, and `GetComponent<RigidBody>()` returns the first of them.
- `MovementBehaviour.dfy`: the `MovementBehaviour` class with `speed`, `enabled` and `body` fields. It also holds the pure impulse rule `SelectImpulse`, a reference version of that rule written as a priority table, and the lemmas and client methods that tie them together.

`Update` is proved to append to the body's log exactly the impulse
`SelectImpulse` picks, or nothing. `SelectImpulse` is the source's
if/else-if chain. The lemma `SelectImpulseIsReference` proves it equal, on
every input, to "the first `Down` key of `[W, A, S, D]` pushes along that
key's unit direction".

Points where the code's behaviour is easy to misread:

- A missing `"speed"` key is not reported as an error: `FromJson` indexes a `const` JSON object, where a missing key is undefined behaviour, so the model requires `"speed" in blob`.
- When `Awake` finds a body it leaves `IsEnabled` as it was; it does not set it to true.
- The header's doc comment (an impulse along Z on the space key) does not match the code and is not used.

## Model

| member | source | states |
|---|---|---|
| Movement.SelectImpulse | projects/IntermediateGraphicsAssignment1/src/Gameplay/Components/MovementBehaviour.cpp:40-53 | no impulse exactly when the mouse is down or none of W, A, S, D is `Down`; any impulse has z = 0, lies on one axis and has squared length speed² |
| Movement.FirstDownIndex | projects/IntermediateGraphicsAssignment1/src/Gameplay/Components/MovementBehaviour.cpp:41-52 | the index found is of a key that is `Down` with no `Down` key before it; none is found only when no key is `Down` |
| Movement.SelectImpulseIsReference | projects/IntermediateGraphicsAssignment1/src/Gameplay/Components/MovementBehaviour.cpp:40-53 | on every input and speed, the if/else-if chain equals the priority table: mouse held gives nothing, otherwise the first `Down` key of [W, A, S, D] gives speed times its unit direction (0,1,0), (-1,0,0), (0,-1,0) or (1,0,0) |
| Movement.FirstHeldKeyWins | projects/IntermediateGraphicsAssignment1/src/Gameplay/Components/MovementBehaviour.cpp:41-52 | when the i-th key of [W, A, S, D] is `Down` and none before it is, the frame's impulse is exactly that key's impulse, whatever the later keys are |
| Movement.ForwardBeatsLeft | projects/IntermediateGraphicsAssignment1/src/Gameplay/Components/MovementBehaviour.cpp:41-45 | W and A held together (no mouse button) give only the forward impulse (0, speed, 0) |
| Movement.LaterKeysIgnored | projects/IntermediateGraphicsAssignment1/src/Gameplay/Components/MovementBehaviour.cpp:41-52 | two snapshots that agree on the mouse and on the keys up to a `Down` key give the same impulse |
| Movement.OnlyDownMatters | projects/IntermediateGraphicsAssignment1/src/Gameplay/Components/MovementBehaviour.cpp:41-50 | only `Down` triggers movement: `Up`, `Pressed` and `Released` cannot be told apart by the impulse rule |
| Movement.MovementBehaviour.constructor | projects/IntermediateGraphicsAssignment1/src/Gameplay/Components/MovementBehaviour.cpp:26-29 | a new component has speed 0.05, is enabled and has no body |
| Movement.MovementBehaviour.Awake | projects/IntermediateGraphicsAssignment1/src/Gameplay/Components/MovementBehaviour.cpp:8-14 | body becomes the owner's first RigidBody; with none, the component is disabled; with one, enabled is unchanged; speed is unchanged; afterwards an enabled component has a body |
| Movement.MovementBehaviour.ToJson | projects/IntermediateGraphicsAssignment1/src/Gameplay/Components/MovementBehaviour.cpp:20-24 | the object's only key is "speed", mapped to the current speed |
| Movement.MovementBehaviour.FromJson | projects/IntermediateGraphicsAssignment1/src/Gameplay/Components/MovementBehaviour.cpp:33-37 | a fresh component whose speed is the blob's "speed" and whose other fields keep the constructor defaults |
| Movement.MovementBehaviour.Update | projects/IntermediateGraphicsAssignment1/src/Gameplay/Components/MovementBehaviour.cpp:39-54 | the component is unchanged; the body's impulse log gains exactly the impulse SelectImpulse picks, or nothing; deltaTime plays no part; the body must be set only on frames that apply an impulse |
| Movement.SpeedSurvivesJson | projects/IntermediateGraphicsAssignment1/src/Gameplay/Components/MovementBehaviour.cpp:20-37 | loading what ToJson saved gives a fresh component with the same speed and default other fields |
| Movement.JsonSurvivesComponent | projects/IntermediateGraphicsAssignment1/src/Gameplay/Components/MovementBehaviour.cpp:20-37 | for an object whose only key is "speed", loading and saving again gives back the same object |
| Movement.ForwardFrameAtDefaultSpeed | projects/IntermediateGraphicsAssignment1/src/Gameplay/Components/MovementBehaviour.cpp:8-54 | a new component woken on an object with a body, with W held and no mouse button, logs exactly one impulse (0, 0.05, 0) in one frame, for every deltaTime |
| Gameplay.GameObject.GetRigidBody | projects/IntermediateGraphicsAssignment1/src/Gameplay/Components/MovementBehaviour.cpp:10 | the first RigidBody attached to the owner, or null when there is none |
| Gameplay.RigidBody.ApplyImpulse | projects/IntermediateGraphicsAssignment1/src/Gameplay/Components/MovementBehaviour.cpp:42-51 | each applied impulse is appended to the body's log |

## Left out

- `RenderImGui` (projects/IntermediateGraphicsAssignment1/src/Gameplay/Components/MovementBehaviour.cpp:16-18): it only draws a debug widget for speed.
- The destructor (projects/IntermediateGraphicsAssignment1/src/Gameplay/Components/MovementBehaviour.cpp:31): it is the default one, with no logic.
- `DefaultSceneLayer`: it only declares scene-building hooks, LUT textures and render flags. There is no logic in it to model.
- The `Panel` and `_isPressed` fields: no part of the component's logic reads or writes them.
- The GLFW and `InputEngine` backend: the process-wide input state is replaced by a `Snapshot` parameter to `Update`.
- Rigid-body physics: `ApplyImpulse` only appends to a log. Nothing is integrated or simulated.
- Float semantics: `speed` and the vector components are reals, so `0.05f` is taken as exactly 0.05, and rounding and NaN are not modelled.
- JSON: an object is a `map<string, real>`. Non-numeric values and nesting under scene or object JSON are not modelled.
- Movement.MovementBehaviour.FromJson: requires `"speed"` in the blob. A missing key is undefined behaviour in the JSON library, not a defined error.
- Movement.MovementBehaviour.Update: requires a non-null body on frames that apply an impulse. The code dereferences `_body` without a null check on exactly those frames, and relies on the scene skipping disabled components; a null dereference is not modelled.
- Movement.JsonSurvivesComponent: holds in the source only for speeds a 32-bit float represents exactly. `FromJson` narrows the JSON number to the float `_speed` and `ToJson` widens it back, so `{"speed": 0.1}` comes back as `{"speed": 0.10000000149011612}`. The opposite direction, `SpeedSurvivesJson`, is exact.
- Movement.MovementBehaviour.Awake: the owning game object is a parameter. In the engine it is reached through IComponent's back-reference, which is not part of this model.
- IComponent, GameObject and Scene are not part of this model beyond the enabled flag and the RigidBody lookup. That includes the scene's per-frame traversal of enabled components.
- IComponent's constructor is not part of this model: a new component is taken to be enabled.
