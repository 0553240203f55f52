/** The registry of interactable objects: a proximity query, a "use the
    first object in reach" operation that consumes it, and rebinding of an
    object's callback by position. */
module Interaction {
  import opened Geometry
  import opened Sequences

  /** The member initialisers of InteractableObject. */
  const DEFAULT_RADIUS: real := 1.0
  const DEFAULT_PROMPT: string := "E - Interact"
  /** The default `tol` of SetCallbackForPosition. */
  const DEFAULT_TOLERANCE: real := 0.1

  /** A std::function<void()>: empty, or some handler known by a tag. */
  datatype Callback = NoCallback | Handler(tag: string)

  datatype Interactable = Interactable(position: Vec3, radius: real, promptText: string, onInteract: Callback)

  datatype InteractionSystem = InteractionSystem(objects: seq<Interactable>)

  /** The sword the player can pull out of the bonfire. */
  const SWORD_POSITION: Vec3 := Vec3(0.0, 1.0, 0.0)
  const SWORD_PROMPT: string := "E - Pull Out"
  const SWORD_CALLBACK: Callback := Handler("Broken sword acquired...")

  /** `glm::length(playerPos - obj.position) <= obj.radius`. */
  predicate InReach(obj: Interactable, playerPos: Vec3) {
    Within(playerPos, obj.position, obj.radius)
  }

  /** The test of the CheckInteractions/HandleInteraction loops as a value. */
  function ReachTest(playerPos: Vec3): Interactable -> bool {
    o => InReach(o, playerPos)
  }

  /** `glm::length(obj.position - pos) <= tol`. */
  predicate AtPosition(obj: Interactable, pos: Vec3, tol: real) {
    Within(obj.position, pos, tol)
  }

  /** The test of the SetCallbackForPosition loop as a value. */
  function PositionTest(pos: Vec3, tol: real): Interactable -> bool {
    o => AtPosition(o, pos, tol)
  }

  /** Appends one object with the given position, prompt and callback and
      the default radius; the objects already registered stay as they were. */
  function AddInteractable(sys: InteractionSystem, pos: Vec3, text: string, callback: Callback): (r: InteractionSystem)
    ensures |r.objects| == |sys.objects| + 1
    ensures r.objects[..|sys.objects|] == sys.objects
    ensures r.objects[|sys.objects|] == Interactable(pos, DEFAULT_RADIUS, text, callback)
  {
    InteractionSystem(sys.objects + [Interactable(pos, DEFAULT_RADIUS, text, callback)])
  }

  /** Registers the sword at (0, 1, 0) and reports success. */
  function Initialize(sys: InteractionSystem): (r: (InteractionSystem, bool))
    ensures r.1
    ensures |r.0.objects| == |sys.objects| + 1 && r.0.objects[..|sys.objects|] == sys.objects
    ensures var o := r.0.objects[|sys.objects|];
      o.position == Vec3(0.0, 1.0, 0.0) && o.promptText == "E - Pull Out" && o.radius == 1.0
    ensures r.0.objects[|sys.objects|].promptText != DEFAULT_PROMPT
  {
    (AddInteractable(sys, SWORD_POSITION, SWORD_PROMPT, SWORD_CALLBACK), true)
  }

  /** Reports whether some object is within its radius of the player (the
      boundary counts); if so the prompt becomes that of the first such
      object, otherwise the prompt passed in is returned untouched. */
  function CheckInteractions(sys: InteractionSystem, playerPos: Vec3, outText: string): (r: (bool, string))
    ensures r.0 <==> exists j :: 0 <= j < |sys.objects| && InReach(sys.objects[j], playerPos)
    ensures r.0 ==> exists i :: IsFirst(sys.objects, ReachTest(playerPos), i)
                                && r.1 == sys.objects[i].promptText
    ensures !r.0 ==> r.1 == outText
  {
    match Find(sys.objects, ReachTest(playerPos))
    case None => (false, outText)
    case Some(i) => (true, sys.objects[i].promptText)
  }

  /** The outcome of HandleInteraction: the new registry, the return value,
      and the callback it invoked (NoCallback when none was). */
  datatype Handled = Handled(system: InteractionSystem, interacted: bool, invoked: Callback)

  /** Uses and removes the first object in reach; with none in reach the
      registry is unchanged and nothing is invoked. */
  function HandleInteraction(sys: InteractionSystem, playerPos: Vec3): (r: Handled)
    ensures r.interacted <==> exists j :: 0 <= j < |sys.objects| && InReach(sys.objects[j], playerPos)
    ensures r.interacted ==> exists i :: IsFirst(sys.objects, ReachTest(playerPos), i)
                                       && r.system.objects == sys.objects[..i] + sys.objects[i + 1..]
                                       && r.invoked == sys.objects[i].onInteract
    ensures r.interacted ==> |r.system.objects| == |sys.objects| - 1
    ensures !r.interacted ==> r.system == sys && r.invoked == NoCallback
  {
    match Find(sys.objects, ReachTest(playerPos))
    case None => Handled(sys, false, NoCallback)
    case Some(i) =>
      Handled(InteractionSystem(sys.objects[..i] + sys.objects[i + 1..]), true, sys.objects[i].onInteract)
  }

  /** Rebinds the callback of the first object within `tol` of `pos`. Only
      that callback changes: positions, radii and prompts stay put. */
  function SetCallbackForPosition(sys: InteractionSystem, pos: Vec3, callback: Callback, tol: real): (r: (InteractionSystem, bool))
    ensures |r.0.objects| == |sys.objects|
    ensures r.1 <==> exists j :: 0 <= j < |sys.objects| && AtPosition(sys.objects[j], pos, tol)
    ensures r.1 ==> exists i :: IsFirst(sys.objects, PositionTest(pos, tol), i)
                                && r.0.objects[i].onInteract == callback
                                && forall j :: 0 <= j < |sys.objects| && j != i ==> r.0.objects[j] == sys.objects[j]
    ensures !r.1 ==> r.0 == sys
    ensures forall j :: 0 <= j < |sys.objects| ==>
      && r.0.objects[j].position == sys.objects[j].position
      && r.0.objects[j].radius == sys.objects[j].radius
      && r.0.objects[j].promptText == sys.objects[j].promptText
  {
    match Find(sys.objects, PositionTest(pos, tol))
    case None => (sys, false)
    case Some(i) =>
      var updated := sys.objects[i := sys.objects[i].(onInteract := callback)];
      assert updated[i].onInteract == callback;
      (InteractionSystem(updated), true)
  }

  /** HandleInteraction succeeds exactly when CheckInteractions would show a
      prompt, and the object it consumes is the one whose prompt was shown. */
  lemma HandleAgreesWithCheck(sys: InteractionSystem, playerPos: Vec3, outText: string)
    ensures HandleInteraction(sys, playerPos).interacted == CheckInteractions(sys, playerPos, outText).0
    ensures HandleInteraction(sys, playerPos).interacted ==>
      exists i :: 0 <= i < |sys.objects|
        && CheckInteractions(sys, playerPos, outText).1 == sys.objects[i].promptText
        && HandleInteraction(sys, playerPos).system.objects == sys.objects[..i] + sys.objects[i + 1..]
  {
    var h := HandleInteraction(sys, playerPos);
    var c := CheckInteractions(sys, playerPos, outText);
    if h.interacted {
      var f := ReachTest(playerPos);
      var i :| IsFirst(sys.objects, f, i) && h.system.objects == sys.objects[..i] + sys.objects[i + 1..];
      var k :| IsFirst(sys.objects, f, k) && c.1 == sys.objects[k].promptText;
      FirstIsUnique(sys.objects, f, i, k);
    }
  }

  /** An object with a non-negative radius is in reach of its own spot. */
  lemma ReachesOwnPosition(o: Interactable)
    requires o.radius >= 0.0
    ensures InReach(o, o.position)
  {
    WithinSelf(o.position, o.radius);
  }

  /** With a single object in reach, checking shows its prompt and handling
      consumes it and invokes its callback. */
  lemma SingleObjectInReach(o: Interactable, playerPos: Vec3, outText: string)
    requires InReach(o, playerPos)
    ensures CheckInteractions(InteractionSystem([o]), playerPos, outText) == (true, o.promptText)
    ensures HandleInteraction(InteractionSystem([o]), playerPos) == Handled(InteractionSystem([]), true, o.onInteract)
  {
    assert Find([o], ReachTest(playerPos)) == Some(0);
    assert [o][..0] + [o][1..] == [];
  }

  /** A player standing on the sword after start-up sees its prompt, and
      using it consumes the sword and leaves the registry empty. */
  lemma SwordIsReachableFromItsSpot()
    ensures var sys := Initialize(InteractionSystem([])).0;
      && CheckInteractions(sys, SWORD_POSITION, "") == (true, SWORD_PROMPT)
      && HandleInteraction(sys, SWORD_POSITION) == Handled(InteractionSystem([]), true, SWORD_CALLBACK)
  {
    var sword := Interactable(SWORD_POSITION, DEFAULT_RADIUS, SWORD_PROMPT, SWORD_CALLBACK);
    assert Initialize(InteractionSystem([])).0 == InteractionSystem([sword]);
    ReachesOwnPosition(sword);
    SingleObjectInReach(sword, SWORD_POSITION, "");
  }

  /** With a single object at the position, rebinding finds it and changes
      nothing but its callback. */
  lemma SingleObjectAtPosition(o: Interactable, pos: Vec3, callback: Callback, tol: real)
    requires AtPosition(o, pos, tol)
    ensures SetCallbackForPosition(InteractionSystem([o]), pos, callback, tol)
            == (InteractionSystem([o.(onInteract := callback)]), true)
  {
    assert Find([o], PositionTest(pos, tol)) == Some(0);
    assert [o][0 := o.(onInteract := callback)] == [o.(onInteract := callback)];
  }

  /** A caller that omits `tol` and rebinds the callback at the sword's spot
      finds the sword Initialize registered and changes nothing but its
      callback. */
  lemma RebindSwordCallback(callback: Callback)
    ensures var r := SetCallbackForPosition(Initialize(InteractionSystem([])).0, SWORD_POSITION, callback, DEFAULT_TOLERANCE);
      && r.1
      && r.0.objects == [Interactable(SWORD_POSITION, DEFAULT_RADIUS, SWORD_PROMPT, callback)]
  {
    var sword := Interactable(SWORD_POSITION, DEFAULT_RADIUS, SWORD_PROMPT, SWORD_CALLBACK);
    assert Initialize(InteractionSystem([])).0 == InteractionSystem([sword]);
    WithinSelf(SWORD_POSITION, DEFAULT_TOLERANCE);
    SingleObjectAtPosition(sword, SWORD_POSITION, callback, DEFAULT_TOLERANCE);
  }
}
