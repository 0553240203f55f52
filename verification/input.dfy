/** The input callbacks' bookkeeping: Escape releases the cursor, a left
    click re-captures it, and mouse motion is turned into look offsets with
    no jump on the first event after a re-capture. The camera's own use of
    the offsets and of the movement keys is not part of this model. */
module Input {
  import opened Geometry
  import opened Sequences
  import opened Interaction
  import opened GameState

  /** GLFW_MOUSE_BUTTON_LEFT, or any other button by its code. */
  datatype MouseButton = LeftButton | OtherButton(code: int)
  datatype ButtonAction = Press | Release

  /** The Escape part of processInput; `escapeDown` is the key's state. */
  function ProcessEscape(s: State, escapeDown: bool): (r: State)
    ensures escapeDown && s.cursorLocked ==> !r.cursorLocked && r.awaitingRelock
    ensures !(escapeDown && s.cursorLocked) ==> r == s
    ensures r.(cursorLocked := s.cursorLocked, awaitingRelock := s.awaitingRelock) == s
  {
    if escapeDown && s.cursorLocked then s.(cursorLocked := false, awaitingRelock := true)
    else s
  }

  /** mouse_button_callback: a left press while waiting for a re-capture
      locks the cursor again and arms the first-mouse reset; every other
      event leaves the state alone. */
  function MouseButtonEvent(s: State, button: MouseButton, action: ButtonAction): (r: State)
    ensures button == LeftButton && action == Press && s.awaitingRelock && !s.cursorLocked ==>
      r == s.(cursorLocked := true, awaitingRelock := false, firstMouse := true)
    ensures !(button == LeftButton && action == Press && s.awaitingRelock && !s.cursorLocked) ==> r == s
  {
    if button == LeftButton && action == Press then
      if s.awaitingRelock && !s.cursorLocked then
        s.(cursorLocked := true, awaitingRelock := false, firstMouse := true)
      else
        s
    else
      s
  }

  /** What mouse_callback does with one cursor position: the new state and
      the offsets handed to the camera (none while the cursor is free). */
  datatype MouseMotion = MouseMotion(state: State, offsets: Option<(real, real)>)

  function MouseMoveEvent(s: State, xpos: real, ypos: real): (r: MouseMotion)
    ensures !s.cursorLocked ==> r.state == s && r.offsets == None
    ensures s.cursorLocked ==> && r.state.lastX == xpos && r.state.lastY == ypos && !r.state.firstMouse
                               && r.offsets.Some?
    ensures s.cursorLocked && s.firstMouse ==> r.offsets == Some((0.0, 0.0))
    ensures s.cursorLocked && !s.firstMouse ==> r.offsets == Some((xpos - s.lastX, s.lastY - ypos))
    ensures r.state.(lastX := s.lastX, lastY := s.lastY, firstMouse := s.firstMouse) == s
  {
    if !s.cursorLocked then MouseMotion(s, None)
    else
      var lastX := if s.firstMouse then xpos else s.lastX;
      var lastY := if s.firstMouse then ypos else s.lastY;
      var xoffset := xpos - lastX;
      var yoffset := lastY - ypos;
      MouseMotion(s.(lastX := xpos, lastY := ypos, firstMouse := false), Some((xoffset, yoffset)))
  }

  /** Escape followed by a left click gets back to a locked cursor with
      nothing pending, and the next mouse event does not make the view jump. */
  lemma EscapeThenClickRelocks(s: State, xpos: real, ypos: real)
    requires s.cursorLocked
    ensures var r := MouseButtonEvent(ProcessEscape(s, true), LeftButton, Press);
      && r.cursorLocked && !r.awaitingRelock
      && MouseMoveEvent(r, xpos, ypos).offsets == Some((0.0, 0.0))
  {
  }

  /** Mouse motion is ignored until the cursor has been re-captured. */
  lemma UnlockedIgnoresMotion(s: State, xpos: real, ypos: real)
    requires s.cursorLocked
    ensures var u := ProcessEscape(s, true);
      MouseMoveEvent(u, xpos, ypos).state == u
  {
  }

  /** awaitingRelock is shared with the "press E" debounce, so a frame of
      the interaction update away from every object, run between Escape and
      the click, cancels the pending re-capture and the click does nothing. */
  lemma InteractionFrameCancelsRelock(s: State, eDown: bool)
    requires s.cursorLocked
    requires forall j :: 0 <= j < |s.interaction.objects| ==> !InReach(s.interaction.objects[j], s.cameraPos)
    ensures var u := UpdateInteraction(ProcessEscape(s, true), eDown).state;
      && !u.cursorLocked && !u.awaitingRelock
      && MouseButtonEvent(u, LeftButton, Press) == u
  {
  }
}
