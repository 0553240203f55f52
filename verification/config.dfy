/** The tunables of config.h as exact reals, the ordering facts the rest of
    the program relies on, and the bonfire flicker and point-light table that
    the renderer builds from them every frame. */
module Config {
  import opened Geometry

  const SCR_WIDTH: nat := 1920
  const SCR_HEIGHT: nat := 1080

  const STEP_COOLDOWN: real := 0.6
  const BOB_AMOUNT: real := 0.05
  const BOB_SPEED: real := 10.0
  const MOVEMENT_THRESHOLD: real := 0.01

  const NUM_POINT_LIGHTS: int := 9
  const BONFIRE_LIGHT_INDEX: int := 8

  const BONFIRE_AMBIENT_BASE: Vec3 := Vec3(0.15, 0.08, 0.03)
  const BONFIRE_DIFFUSE_BASE: Vec3 := Vec3(2.5, 1.3, 0.5)
  const BONFIRE_SPECULAR: Vec3 := Vec3(0.0, 0.0, 0.0)
  const REGULAR_LIGHT_COLOR: Vec3 := Vec3(0.0, 0.0, 0.0)

  const LIGHT_CONSTANT: real := 1.0
  const BONFIRE_LINEAR: real := 0.35
  const BONFIRE_QUADRATIC: real := 1.2
  const REGULAR_LINEAR: real := 0.0
  const REGULAR_QUADRATIC: real := 0.0

  const FLICKER_BASE: real := 0.9
  const FLICKER_AMPLITUDE: real := 0.1
  const FLICKER_FREQ1: real := 8.0
  const FLICKER_FREQ2: real := 15.0
  const FLICKER_PHASE1: real := 1.5
  const FLICKER_PHASE2: real := 0.8

  const FOG_NEAR: real := 4.0
  const FOG_FAR: real := 7.0

  const CAMERA_HEIGHT: real := 1.0
  const BOUNDARY_LIMIT: real := 2.8
  const PITCH_CONSTRAINT_MAX: real := 89.0
  const PITCH_CONSTRAINT_MIN: real := -89.0
  const ZOOM_MIN: real := 1.0
  const ZOOM_MAX: real := 45.0

  /** The ordering facts the movement, audio, fog and camera code depend on. */
  lemma ConfigOrdering()
    ensures 0 <= BONFIRE_LIGHT_INDEX < NUM_POINT_LIGHTS
    ensures FOG_NEAR < FOG_FAR
    ensures BOUNDARY_LIMIT > 0.0 && -BOUNDARY_LIMIT < BOUNDARY_LIMIT
    ensures STEP_COOLDOWN > 0.0 && MOVEMENT_THRESHOLD > 0.0
    ensures ZOOM_MIN < ZOOM_MAX && PITCH_CONSTRAINT_MIN < PITCH_CONSTRAINT_MAX
    ensures BOB_AMOUNT > 0.0 && BOB_SPEED > 0.0
  {
  }

  /** The product of two values of a sine stays in [-1, 1]. */
  lemma UnitProduct(a: real, b: real)
    requires -1.0 <= a <= 1.0 && -1.0 <= b <= 1.0
    ensures -1.0 <= a * b <= 1.0
  {
    if a >= 0.0 {
      if b >= 0.0 {
        assert a * b <= 1.0 * b;
      } else {
        assert a * b >= a * -1.0;
      }
    } else {
      if b >= 0.0 {
        assert a * b >= -1.0 * b;
      } else {
        assert a * b <= -1.0 * b;
      }
    }
  }

  /** The bonfire flicker multiplier: the base plus the amplitude times the
      product of two phase-shifted sines of the frame time. Whatever the
      time, it stays within FLICKER_BASE -/+ FLICKER_AMPLITUDE. */
  function BonfireFlicker(time: real, i: int, sin: Sine): (f: real)
    ensures FLICKER_BASE - FLICKER_AMPLITUDE <= f <= FLICKER_BASE + FLICKER_AMPLITUDE
    ensures 0.8 <= f <= 1.0
  {
    var s1 := sin(time * FLICKER_FREQ1 + i as real * FLICKER_PHASE1);
    var s2 := sin(time * FLICKER_FREQ2 + i as real * FLICKER_PHASE2);
    UnitProduct(s1, s2);
    FLICKER_BASE + FLICKER_AMPLITUDE * (s1 * s2)
  }

  /** The parameters one point light receives in the renderer's light loop. */
  datatype PointLight = PointLight(
    ambient: Vec3, diffuse: Vec3, specular: Vec3,
    constant: real, linear: real, quadratic: real)

  /** The bonfire light's colours scale with the flicker and it has real
      falloff; every other light is a black placeholder with no falloff. */
  function PointLightSetup(i: int, time: real, sin: Sine): (light: PointLight)
    ensures light.constant == 1.0
    ensures i == BONFIRE_LIGHT_INDEX ==>
      && light.linear == 0.35 && light.quadratic == 1.2
      && light.specular == Vec3(0.0, 0.0, 0.0)
      && 2.0 <= light.diffuse.x <= 2.5 && 1.04 <= light.diffuse.y <= 1.3 && 0.4 <= light.diffuse.z <= 0.5
      && 0.12 <= light.ambient.x <= 0.15 && 0.064 <= light.ambient.y <= 0.08 && 0.024 <= light.ambient.z <= 0.03
    ensures i == BONFIRE_LIGHT_INDEX ==>
      var f := BonfireFlicker(time, i, sin);
      light.ambient == Scale(BONFIRE_AMBIENT_BASE, f) && light.diffuse == Scale(BONFIRE_DIFFUSE_BASE, f)
    ensures i != BONFIRE_LIGHT_INDEX ==>
      && light.ambient == light.diffuse == light.specular == Vec3(0.0, 0.0, 0.0)
      && light.linear == 0.0 && light.quadratic == 0.0
  {
    if i == BONFIRE_LIGHT_INDEX then
      var f := BonfireFlicker(time, i, sin);
      PointLight(Scale(BONFIRE_AMBIENT_BASE, f), Scale(BONFIRE_DIFFUSE_BASE, f), BONFIRE_SPECULAR,
                 LIGHT_CONSTANT, BONFIRE_LINEAR, BONFIRE_QUADRATIC)
    else
      PointLight(REGULAR_LIGHT_COLOR, REGULAR_LIGHT_COLOR, REGULAR_LIGHT_COLOR,
                 LIGHT_CONSTANT, REGULAR_LINEAR, REGULAR_QUADRATIC)
  }

  /** The whole loop `for i in [0, NUM_POINT_LIGHTS)`. */
  function LightTable(time: real, sin: Sine): (lights: seq<PointLight>)
    ensures |lights| == NUM_POINT_LIGHTS
    ensures forall i :: 0 <= i < |lights| ==> lights[i] == PointLightSetup(i, time, sin)
  {
    seq(NUM_POINT_LIGHTS, i requires 0 <= i < NUM_POINT_LIGHTS => PointLightSetup(i, time, sin))
  }

  /** The bonfire branch of the loop is taken exactly once: exactly one entry
      of the table has the bonfire falloff, and only that entry can be lit. */
  lemma BonfireBranchTakenOnce(time: real, sin: Sine)
    ensures var lights := LightTable(time, sin);
      && 0 <= BONFIRE_LIGHT_INDEX < |lights|
      && (forall i :: 0 <= i < |lights| ==>
            (lights[i].linear == BONFIRE_LINEAR <==> i == BONFIRE_LIGHT_INDEX))
      && (forall i :: 0 <= i < |lights| && i != BONFIRE_LIGHT_INDEX ==>
            lights[i].ambient == lights[i].diffuse == lights[i].specular == Vec3(0.0, 0.0, 0.0))
      && lights[BONFIRE_LIGHT_INDEX].diffuse.x >= 2.0
  {
    var lights := LightTable(time, sin);
    var f := BonfireFlicker(time, BONFIRE_LIGHT_INDEX, sin);
    assert lights[BONFIRE_LIGHT_INDEX].diffuse.x == 2.5 * f;
  }
}
