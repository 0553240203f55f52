/** The per-frame player state and its updates: frame timing, the clamp to
    the square arena, head bob, the footstep cooldown and the debounced
    "press E" interaction. The camera is reduced to its position; the
    windowing library's clock and key state arrive as parameters. */
module GameState {
  import opened Geometry
  import opened Config
  import opened Interaction
  import opened Sequences

  datatype State = State(
    cameraPos: Vec3,
    deltaTime: real,
    lastFrame: real,
    lastX: real,
    lastY: real,
    firstMouse: bool,
    cursorLocked: bool,
    awaitingRelock: bool,
    lastCameraPos: Vec3,
    stepCooldown: real,
    bobTimer: real,
    showInteractionPrompt: bool,
    interactionText: string,
    interaction: InteractionSystem)

  /** Where the camera is constructed. */
  const START_POSITION: Vec3 := Vec3(0.0, 0.0, 3.0)

  /** The constructor: mouse centred on the screen, cursor locked, nothing
      pending, and the sword registered as the one interactable. */
  function Initial(): (s: State)
    ensures s.cursorLocked && !s.awaitingRelock && s.firstMouse
    ensures s.lastX == SCR_WIDTH as real / 2.0 && s.lastY == SCR_HEIGHT as real / 2.0
    ensures s.cameraPos == s.lastCameraPos == START_POSITION
    ensures s.deltaTime == 0.0 && s.lastFrame == 0.0 && s.stepCooldown == 0.0 && s.bobTimer == 0.0
    ensures |s.interaction.objects| == 1 && s.interaction.objects[0].promptText == SWORD_PROMPT
  {
    State(START_POSITION, 0.0, 0.0, SCR_WIDTH as real / 2.0, SCR_HEIGHT as real / 2.0,
          true, true, false, START_POSITION, 0.0, 0.0, false, "",
          Initialize(InteractionSystem([])).0)
  }

  /** `now` is the clock reading for this frame. */
  function UpdateTiming(s: State, now: real): (r: State)
    ensures r.deltaTime == now - s.lastFrame && r.lastFrame == now
    ensures r.(deltaTime := s.deltaTime, lastFrame := s.lastFrame) == s
  {
    s.(deltaTime := now - s.lastFrame, lastFrame := now)
  }

  /** Over consecutive frames the time steps add up to the time elapsed. */
  lemma TimingTelescopes(s: State, t1: real, t2: real)
    ensures var s1 := UpdateTiming(s, t1);
      s1.deltaTime + UpdateTiming(s1, t2).deltaTime == t2 - s.lastFrame
  {
  }

  /** One coordinate pushed back into [-BOUNDARY_LIMIT, BOUNDARY_LIMIT] by
      the two tests of the source, upper bound first. */
  function ClampToArena(v: real): (c: real)
    ensures -BOUNDARY_LIMIT <= c <= BOUNDARY_LIMIT
    ensures -BOUNDARY_LIMIT <= v <= BOUNDARY_LIMIT ==> c == v
    ensures v > BOUNDARY_LIMIT ==> c == BOUNDARY_LIMIT
    ensures v < -BOUNDARY_LIMIT ==> c == -BOUNDARY_LIMIT
  {
    var upper := if v > BOUNDARY_LIMIT then BOUNDARY_LIMIT else v;
    if upper < -BOUNDARY_LIMIT then -BOUNDARY_LIMIT else upper
  }

  /** Clamping never reorders two coordinates. */
  lemma ClampMonotone(a: real, b: real)
    requires a <= b
    ensures ClampToArena(a) <= ClampToArena(b)
  {
  }

  /** The camera position at standing height, clamped to the arena. */
  function BasePosition(p: Vec3): (b: Vec3)
    ensures b.y == CAMERA_HEIGHT
    ensures -BOUNDARY_LIMIT <= b.x <= BOUNDARY_LIMIT && -BOUNDARY_LIMIT <= b.z <= BOUNDARY_LIMIT
  {
    Vec3(ClampToArena(p.x), CAMERA_HEIGHT, ClampToArena(p.z))
  }

  /** The player moved this frame: the clamped position is further than
      MOVEMENT_THRESHOLD from the previous frame's one. */
  predicate MovedThisFrame(s: State) {
    Beyond(BasePosition(s.cameraPos), s.lastCameraPos, MOVEMENT_THRESHOLD)
  }

  /** Clamps the camera, advances or resets the head bob, records the base
      position for the next frame and counts the step cooldown down. */
  function UpdateMovement(s: State, sin: Sine): (r: State)
    ensures -BOUNDARY_LIMIT <= r.cameraPos.x <= BOUNDARY_LIMIT
    ensures -BOUNDARY_LIMIT <= r.cameraPos.z <= BOUNDARY_LIMIT
    ensures -BOUNDARY_LIMIT <= s.cameraPos.x <= BOUNDARY_LIMIT ==> r.cameraPos.x == s.cameraPos.x
    ensures -BOUNDARY_LIMIT <= s.cameraPos.z <= BOUNDARY_LIMIT ==> r.cameraPos.z == s.cameraPos.z
    ensures s.cameraPos.x > BOUNDARY_LIMIT ==> r.cameraPos.x == BOUNDARY_LIMIT
    ensures s.cameraPos.x < -BOUNDARY_LIMIT ==> r.cameraPos.x == -BOUNDARY_LIMIT
    ensures s.cameraPos.z > BOUNDARY_LIMIT ==> r.cameraPos.z == BOUNDARY_LIMIT
    ensures s.cameraPos.z < -BOUNDARY_LIMIT ==> r.cameraPos.z == -BOUNDARY_LIMIT
    ensures r.lastCameraPos == BasePosition(s.cameraPos)
    ensures r.lastCameraPos == Vec3(r.cameraPos.x, CAMERA_HEIGHT, r.cameraPos.z)
    ensures CAMERA_HEIGHT - BOB_AMOUNT <= r.cameraPos.y <= CAMERA_HEIGHT + BOB_AMOUNT
    ensures !MovedThisFrame(s) ==> r.bobTimer == 0.0 && r.cameraPos.y == CAMERA_HEIGHT
    ensures MovedThisFrame(s) ==> r.bobTimer == s.bobTimer + s.deltaTime * BOB_SPEED
                                  && r.cameraPos.y == CAMERA_HEIGHT + sin(r.bobTimer) * BOB_AMOUNT
    ensures s.stepCooldown > 0.0 ==> r.stepCooldown == s.stepCooldown - s.deltaTime
    ensures s.stepCooldown <= 0.0 ==> r.stepCooldown == s.stepCooldown
    ensures r.(cameraPos := s.cameraPos, lastCameraPos := s.lastCameraPos,
               bobTimer := s.bobTimer, stepCooldown := s.stepCooldown) == s
  {
    var base := BasePosition(s.cameraPos);
    var moved := Beyond(base, s.lastCameraPos, MOVEMENT_THRESHOLD);
    var bobTimer := if moved then s.bobTimer + s.deltaTime * BOB_SPEED else 0.0;
    var bobOffset := if moved then sin(bobTimer) * BOB_AMOUNT else 0.0;
    var cooldown := if s.stepCooldown > 0.0 then s.stepCooldown - s.deltaTime else s.stepCooldown;
    s.(cameraPos := base.(y := CAMERA_HEIGHT + bobOffset),
       lastCameraPos := base,
       bobTimer := bobTimer,
       stepCooldown := cooldown)
  }

  /** A state whose recorded base position is where the camera stands
      does not count as moving. */
  lemma AtBaseIsStill(s: State)
    requires s.lastCameraPos == BasePosition(s.cameraPos)
    ensures !MovedThisFrame(s)
  {
    NotBeyondSelf(s.lastCameraPos, MOVEMENT_THRESHOLD);
  }

  /** After an update the camera stands over the recorded base position. */
  lemma UpdateRecordsBase(s: State, sin: Sine)
    ensures var s1 := UpdateMovement(s, sin);
      s1.lastCameraPos == BasePosition(s1.cameraPos)
  {
  }

  /** A second update in the same place sees no movement: the bob settles
      back to standing height and the recorded base position stays. */
  lemma SecondUpdateSettles(s: State, sin: Sine)
    ensures var s1 := UpdateMovement(s, sin);
      var s2 := UpdateMovement(s1, sin);
      && !MovedThisFrame(s1)
      && s2.bobTimer == 0.0 && s2.cameraPos.y == CAMERA_HEIGHT
      && s2.lastCameraPos == s1.lastCameraPos
  {
    var s1 := UpdateMovement(s, sin);
    UpdateRecordsBase(s, sin);
    AtBaseIsStill(s1);
    UpdateRecordsBase(s1, sin);
  }

  /** With a non-negative frame time the cooldown never grows. */
  lemma CooldownNeverGrows(s: State, sin: Sine)
    requires s.deltaTime >= 0.0
    ensures UpdateMovement(s, sin).stepCooldown <= s.stepCooldown
  {
  }

  /** The frame's outcome of the interaction check together with the
      callback HandleInteraction invoked, if any. */
  datatype InteractionFrame = InteractionFrame(state: State, invoked: Callback)

  /** The debounced "press E" machine. `eDown` is the key's state this frame
      (the key query only ever reports pressed or released). */
  function UpdateInteraction(s: State, eDown: bool): (r: InteractionFrame)
    ensures var near := exists j :: 0 <= j < |s.interaction.objects| && InReach(s.interaction.objects[j], s.cameraPos);
      && (!near ==> && !r.state.showInteractionPrompt && r.state.interactionText == ""
                    && !r.state.awaitingRelock && r.state.interaction == s.interaction
                    && r.invoked == NoCallback)
      && (near && eDown && !s.awaitingRelock ==>
            && r.state.awaitingRelock && !r.state.showInteractionPrompt && r.state.interactionText == ""
            && |r.state.interaction.objects| == |s.interaction.objects| - 1
            && exists i :: && IsFirst(s.interaction.objects, ReachTest(s.cameraPos), i)
                           && r.state.interaction.objects == s.interaction.objects[..i] + s.interaction.objects[i + 1..]
                           && r.invoked == s.interaction.objects[i].onInteract)
      && (near && !eDown ==>
            && !r.state.awaitingRelock && r.state.showInteractionPrompt
            && r.state.interaction == s.interaction && r.invoked == NoCallback)
      && (near && eDown && s.awaitingRelock ==>
            && r.state.awaitingRelock && r.state.showInteractionPrompt
            && r.state.interaction == s.interaction && r.invoked == NoCallback)
    ensures r.state.(showInteractionPrompt := s.showInteractionPrompt, interactionText := s.interactionText,
                     awaitingRelock := s.awaitingRelock, interaction := s.interaction) == s
  {
    var check := CheckInteractions(s.interaction, s.cameraPos, "");
    var near := check.0;
    var shown := s.(showInteractionPrompt := near, interactionText := check.1);
    if !near then
      InteractionFrame(shown.(awaitingRelock := false), NoCallback)
    else if eDown && !s.awaitingRelock then
      var h := HandleInteraction(s.interaction, s.cameraPos);
      var after := shown.(interaction := h.system, awaitingRelock := true);
      if h.interacted then
        InteractionFrame(after.(showInteractionPrompt := false, interactionText := ""), h.invoked)
      else
        InteractionFrame(after, h.invoked)
    else if !eDown then
      InteractionFrame(shown.(awaitingRelock := false), NoCallback)
    else
      InteractionFrame(shown, NoCallback)
  }

  /** While an object is in reach the prompt shown is that of the first
      object in reach, unless E has just consumed it. */
  lemma PromptIsFirstInReach(s: State, eDown: bool)
    requires exists j :: 0 <= j < |s.interaction.objects| && InReach(s.interaction.objects[j], s.cameraPos)
    requires !eDown || s.awaitingRelock
    ensures exists i :: IsFirst(s.interaction.objects, ReachTest(s.cameraPos), i)
                        && UpdateInteraction(s, eDown).state.interactionText == s.interaction.objects[i].promptText
  {
    var c := CheckInteractions(s.interaction, s.cameraPos, "");
    assert c.0;
    var i :| IsFirst(s.interaction.objects, ReachTest(s.cameraPos), i)
             && c.1 == s.interaction.objects[i].promptText;
    assert UpdateInteraction(s, eDown).state.interactionText == c.1;
  }

  /** Holding E across two frames uses at most one object: the press sets
      awaitingRelock and the second frame does not interact again. */
  lemma HoldingEUsesOneObject(s: State)
    ensures var f1 := UpdateInteraction(s, true);
      var f2 := UpdateInteraction(f1.state, true);
      && |s.interaction.objects| - 1 <= |f2.state.interaction.objects|
      && f2.invoked == NoCallback
  {
    var f1 := UpdateInteraction(s, true);
    assert f1.state.awaitingRelock || f1.state.interaction == s.interaction;
  }
}
