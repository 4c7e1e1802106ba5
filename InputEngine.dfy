/**
 * The input state a frame sees. The engine keeps it in a process-wide
 * singleton that the windowing layer refreshes once per frame; here it is an
 * explicit, immutable snapshot handed to whoever reads it.
 */
module InputEngine {
  /** The four states a key can be in during one frame. */
  datatype ButtonState = Up | Down | Pressed | Released

  type KeyCode = int
  type MouseButton = int

  // GLFW's codes for the keys and the mouse button the movement component polls.
  const KeyW: KeyCode := 87
  const KeyA: KeyCode := 65
  const KeyS: KeyCode := 83
  const KeyD: KeyCode := 68
  const MouseButtonLeft: MouseButton := 0

  /** The mouse buttons held this frame, and the state of every key the windowing layer reported. */
  datatype Snapshot = Snapshot(mouseButtonsDown: set<MouseButton>, keys: map<KeyCode, ButtonState>)
  {
    predicate IsMouseButtonDown(button: MouseButton)
    {
      button in mouseButtonsDown
    }

    /** A key the windowing layer did not report reads as Up. */
    function GetKeyState(key: KeyCode): ButtonState
    {
      if key in keys then keys[key] else Up
    }
  }
}
