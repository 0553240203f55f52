/** The engine's footstep logic: which step sounds get loaded, when a step
    plays and how the cooldown is re-armed, and one frame of the main loop
    composed from the pieces it calls in order. Audio playback itself and
    the random number generator are outside the model: buffer ids come from
    a loader function and rand() is a parameter. */
module Engine {
  import opened Geometry
  import opened Sequences
  import opened Config
  import opened GameState
  import opened Input

  /** "sfx/steps/step<i>.wav" for the digits 1 to 3 the loop uses. */
  function StepFileName(i: int): (name: string)
    requires 1 <= i <= 3
    ensures |name| == |"sfx/steps/step"| + 1 + |".wav"|
    ensures name[..|"sfx/steps/step"|] == "sfx/steps/step"
    ensures name[|"sfx/steps/step"| + 1..] == ".wav"
    ensures name[|"sfx/steps/step"|] as int == '0' as int + i
  {
    "sfx/steps/step" + [['1', '2', '3'][i - 1]] + ".wav"
  }

  const AMBIANCE_FILE: string := "sfx/env/ambiance.wav"

  /** The buffer ids that are not the loader's failure value 0, in order. */
  function NonZero(ids: seq<nat>): (r: seq<nat>)
    ensures |r| <= |ids|
    ensures forall k :: 0 <= k < |r| ==> r[k] != 0
    ensures forall b :: b in r <==> b in ids && b != 0
    ensures forall b :: b != 0 ==> multiset(r)[b] == multiset(ids)[b]
    ensures IsSubsequence(r, ids)
  {
    if |ids| == 0 then []
    else
      var rest := NonZero(ids[1..]);
      assert ids == [ids[0]] + ids[1..];
      if ids[0] == 0 then
        SubsequenceOfTail(rest, ids);
        rest
      else
        assert ([ids[0]] + rest)[1..] == rest;
        [ids[0]] + rest
  }

  /** The three loader results the step loop sees, step1 to step3. */
  function StepLoads(load: string -> nat): (ids: seq<nat>)
    ensures |ids| == 3
  {
    [load(StepFileName(1)), load(StepFileName(2)), load(StepFileName(3))]
  }

  /** What loadAudioAssets leaves behind: the step buffers, the ambiance
      buffer and whether the ambiance loop was started. */
  datatype AudioAssets = AudioAssets(stepSounds: seq<nat>, ambianceBuffer: nat, ambiancePlaying: bool)

  /** loadAudioAssets with `load` standing for the audio manager's loader,
      which answers 0 when a file cannot be loaded. The step loop keeps the
      buffers that loaded, in file order; the result is always true, even
      with no step sound at all. */
  method LoadAudioAssets(load: string -> nat) returns (assets: AudioAssets, ok: bool)
    ensures ok
    ensures assets.stepSounds == NonZero(StepLoads(load))
    ensures |assets.stepSounds| <= 3
    ensures forall k :: 0 <= k < |assets.stepSounds| ==> assets.stepSounds[k] != 0
    ensures assets.ambianceBuffer == load(AMBIANCE_FILE)
    ensures assets.ambiancePlaying <==> load(AMBIANCE_FILE) != 0
  {
    var stepSounds: seq<nat> := [];
    var i := 1;
    while i < 4
      invariant 1 <= i <= 4
      invariant stepSounds == NonZero(StepLoads(load)[..i - 1])
    {
      var buffer := load(StepFileName(i));
      NonZeroAppend(StepLoads(load)[..i - 1], buffer);
      assert StepLoads(load)[..i] == StepLoads(load)[..i - 1] + [buffer];
      if buffer != 0 {
        stepSounds := stepSounds + [buffer];
      }
      i := i + 1;
    }
    assert StepLoads(load)[..3] == StepLoads(load);
    var ambiance := load(AMBIANCE_FILE);
    assets := AudioAssets(stepSounds, ambiance, ambiance != 0);
    ok := true;
  }

  lemma {:induction false} NonZeroAppend(ids: seq<nat>, b: nat)
    ensures NonZero(ids + [b]) == NonZero(ids) + (if b != 0 then [b] else [])
  {
    if |ids| == 0 {
      assert ids + [b] == [b];
      assert NonZero([b][1..]) == [];
    } else {
      assert (ids + [b])[1..] == ids[1..] + [b];
      NonZeroAppend(ids[1..], b);
    }
  }

  /** The result of handleMovementAudio: the state and the index of the
      step sound that was played, if one was. */
  datatype StepOutcome = StepOutcome(state: State, played: Option<nat>)

  /** A step sound plays exactly when the camera is more than
      MOVEMENT_THRESHOLD from the recorded position, the cooldown has run
      out and some step sound is loaded; the index is rand() modulo the
      number of sounds and the cooldown is re-armed. Otherwise nothing
      changes. */
  function HandleMovementAudio(s: State, stepSounds: seq<nat>, rand: nat): (r: StepOutcome)
    ensures r.played.Some? <==>
      Beyond(s.cameraPos, s.lastCameraPos, MOVEMENT_THRESHOLD) && s.stepCooldown <= 0.0 && |stepSounds| > 0
    ensures r.played.Some? ==> r.played.value < |stepSounds| && r.state == s.(stepCooldown := STEP_COOLDOWN)
    ensures r.played.None? ==> r.state == s
  {
    if Beyond(s.cameraPos, s.lastCameraPos, MOVEMENT_THRESHOLD) && s.stepCooldown <= 0.0 && |stepSounds| > 0 then
      StepOutcome(s.(stepCooldown := STEP_COOLDOWN), Some(rand % |stepSounds|))
    else
      StepOutcome(s, None)
  }

  /** A step re-arms the cooldown, so the very next call cannot play one. */
  lemma NoTwoStepsInARow(s: State, stepSounds: seq<nat>, r1: nat, r2: nat)
    requires HandleMovementAudio(s, stepSounds, r1).played.Some?
    ensures HandleMovementAudio(HandleMovementAudio(s, stepSounds, r1).state, stepSounds, r2).played.None?
  {
  }

  /** One pass of the main loop up to rendering: timing, input (Escape and
      the camera's keyboard motion, which is given as the position it
      produces), movement and footstep audio. */
  function Frame(s: State, now: real, escapeDown: bool, cameraAfterKeys: Vec3, sin: Sine,
                 stepSounds: seq<nat>, rand: nat): (r: StepOutcome)
    ensures r.state.lastFrame == now && r.state.deltaTime == now - s.lastFrame
    ensures r.state.lastCameraPos == BasePosition(cameraAfterKeys)
    ensures r.state.cameraPos.x == r.state.lastCameraPos.x && r.state.cameraPos.z == r.state.lastCameraPos.z
    ensures CAMERA_HEIGHT - BOB_AMOUNT <= r.state.cameraPos.y <= CAMERA_HEIGHT + BOB_AMOUNT
    ensures escapeDown && s.cursorLocked ==> !r.state.cursorLocked && r.state.awaitingRelock
    ensures !(escapeDown && s.cursorLocked) ==>
      r.state.cursorLocked == s.cursorLocked && r.state.awaitingRelock == s.awaitingRelock
    ensures r.played.Some? ==> r.played.value < |stepSounds| && r.state.stepCooldown == STEP_COOLDOWN
    ensures r.played.None? && s.stepCooldown > 0.0 ==> r.state.stepCooldown == s.stepCooldown - (now - s.lastFrame)
    ensures r.played.None? && s.stepCooldown <= 0.0 ==> r.state.stepCooldown == s.stepCooldown
    ensures r.played.Some? ==> s.stepCooldown <= 0.0 || s.stepCooldown - (now - s.lastFrame) <= 0.0
    ensures r.state.interaction == s.interaction && r.state.firstMouse == s.firstMouse
  {
    var timed := UpdateTiming(s, now);
    var input := ProcessEscape(timed, escapeDown).(cameraPos := cameraAfterKeys);
    var moved := UpdateMovement(input, sin);
    HandleMovementAudio(moved, stepSounds, rand)
  }

  /** Distance from a camera at bob height to its base position. */
  lemma BobDistance(s: State)
    requires s.lastCameraPos == Vec3(s.cameraPos.x, CAMERA_HEIGHT, s.cameraPos.z)
    ensures SqDist(s.cameraPos, s.lastCameraPos) == (s.cameraPos.y - CAMERA_HEIGHT) * (s.cameraPos.y - CAMERA_HEIGHT)
  {
  }

  /** Because movement has already recorded this frame's base position when
      the audio runs, the footstep test measures only the head-bob offset: in
      a frame a step plays exactly when the bob is more than
      MOVEMENT_THRESHOLD from standing height, the cooldown has run out and
      a sound is loaded. A player who stands still never hears a step. */
  lemma StepFollowsBob(s: State, now: real, escapeDown: bool, cameraAfterKeys: Vec3, sin: Sine,
                       stepSounds: seq<nat>, rand: nat)
    ensures var moved := UpdateMovement(ProcessEscape(UpdateTiming(s, now), escapeDown).(cameraPos := cameraAfterKeys), sin);
      var bob := moved.cameraPos.y - CAMERA_HEIGHT;
      Frame(s, now, escapeDown, cameraAfterKeys, sin, stepSounds, rand).played.Some? <==>
        bob * bob > MOVEMENT_THRESHOLD * MOVEMENT_THRESHOLD && moved.stepCooldown <= 0.0 && |stepSounds| > 0
    ensures var input := ProcessEscape(UpdateTiming(s, now), escapeDown).(cameraPos := cameraAfterKeys);
      !MovedThisFrame(input) ==> Frame(s, now, escapeDown, cameraAfterKeys, sin, stepSounds, rand).played.None?
  {
    var input := ProcessEscape(UpdateTiming(s, now), escapeDown).(cameraPos := cameraAfterKeys);
    var moved := UpdateMovement(input, sin);
    assert Frame(s, now, escapeDown, cameraAfterKeys, sin, stepSounds, rand) == HandleMovementAudio(moved, stepSounds, rand);
    BobDistance(moved);
    if !MovedThisFrame(input) {
      assert moved.cameraPos.y - CAMERA_HEIGHT == 0.0;
    }
  }
}
