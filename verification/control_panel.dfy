/** `ControlPanel`: movement flags with "changed" detection driving the
    walking sound, the jump flag, and weapon selection by mouse wheel (with
    wraparound) or number key. */
module ControlPanel {
  import opened Common

  /** The weapon list `['gun', 'block']`. */
  const Weapons: seq<string> := ["gun", "block"]

  /** The panel's state. `walking` is whether the walking sound has been asked
      to play (the `walkAudio` element's state). */
  datatype Panel = Panel(
    moveForward: bool,
    moveBackward: bool,
    moveLeft: bool,
    moveRight: bool,
    jump: bool,
    selectedWeaponIndex: int,
    gun: bool,
    block: bool,
    walking: bool)

  /** The constructor's state: index 0 selected, yet neither weapon flag set. */
  const Initial: Panel := Panel(false, false, false, false, false, 0, false, false, false)

  /** A keyboard event: its physical `code` and its produced `key`. */
  datatype KeyEvent = KeyEvent(code: string, key: string)

  datatype Movement = Forward | Backward | Left | Right

  /** The movement key a `code` names, if any. */
  function MovementOf(code: string): (m: Option<Movement>)
    ensures m == Some(Forward) <==> code in {"ArrowUp", "KeyW"}
    ensures m == Some(Left) <==> code in {"ArrowLeft", "KeyA"}
    ensures m == Some(Backward) <==> code in {"ArrowDown", "KeyS"}
    ensures m == Some(Right) <==> code in {"ArrowRight", "KeyD"}
  {
    if code == "ArrowUp" || code == "KeyW" then Some(Forward)
    else if code == "ArrowLeft" || code == "KeyA" then Some(Left)
    else if code == "ArrowDown" || code == "KeyS" then Some(Backward)
    else if code == "ArrowRight" || code == "KeyD" then Some(Right)
    else None
  }

  function Flag(p: Panel, m: Movement): bool
  {
    match m
    case Forward => p.moveForward
    case Backward => p.moveBackward
    case Left => p.moveLeft
    case Right => p.moveRight
  }

  function WithFlag(p: Panel, m: Movement, v: bool): (r: Panel)
    ensures Flag(r, m) == v
    ensures forall n | n != m :: Flag(r, n) == Flag(p, n)
    ensures r.jump == p.jump && r.walking == p.walking
    ensures r.selectedWeaponIndex == p.selectedWeaponIndex && r.gun == p.gun && r.block == p.block
  {
    match m
    case Forward => p.(moveForward := v)
    case Backward => p.(moveBackward := v)
    case Left => p.(moveLeft := v)
    case Right => p.(moveRight := v)
  }

  /** The `isMoving` test of `_updateWalkingAudio`. */
  predicate IsMoving(p: Panel)
    ensures IsMoving(p) <==> exists m :: Flag(p, m)
  {
    assert Flag(p, Forward) == p.moveForward && Flag(p, Backward) == p.moveBackward;
    assert Flag(p, Left) == p.moveLeft && Flag(p, Right) == p.moveRight;
    p.moveForward || p.moveBackward || p.moveLeft || p.moveRight
  }

  /** `_updateWalkingAudio`: the sound plays while moving and stops otherwise. */
  function UpdateWalkingAudio(p: Panel): (r: Panel)
    ensures r.walking == (Flag(p, Forward) || Flag(p, Backward) || Flag(p, Left) || Flag(p, Right))
    ensures r == p.(walking := r.walking)
  {
    p.(walking := IsMoving(p))
  }

  // ---------------------------------------------------------------------------
  // Weapon selection
  // ---------------------------------------------------------------------------

  /** `_selectWeapon`. */
  function SelectWeapon(p: Panel, index: int): (r: Panel)
    ensures r.selectedWeaponIndex == index
    ensures r.gun <==> index == 0
    ensures r.block <==> index == 1
    ensures forall m :: Flag(r, m) == Flag(p, m)
    ensures r.jump == p.jump && r.walking == p.walking
  {
    p.(selectedWeaponIndex := index, gun := index == 0, block := index == 1)
  }

  /** `Math.sign` of a wheel delta. */
  function Sign(d: real): (s: int)
    ensures s == -1 <==> d < 0.0
    ensures s == 0 <==> d == 0.0
    ensures s == 1 <==> d > 0.0
  {
    if d < 0.0 then -1 else if d > 0.0 then 1 else 0
  }

  /** `_onWheel`: move the selection by the sign of the wheel delta, wrapping
      below 0 to the last weapon and past the last to 0. */
  function OnWheel(p: Panel, deltaY: real): (r: Panel)
    ensures 0 <= r.selectedWeaponIndex < |Weapons|
    ensures 0 <= p.selectedWeaponIndex < |Weapons| ==>
              r.selectedWeaponIndex == (p.selectedWeaponIndex + Sign(deltaY)) % |Weapons|
    ensures r == SelectWeapon(p, r.selectedWeaponIndex)
  {
    var newIndex := p.selectedWeaponIndex + Sign(deltaY);
    var newIndex := if newIndex < 0 then |Weapons| - 1 else newIndex;
    var newIndex := if newIndex >= |Weapons| then 0 else newIndex;
    SelectWeapon(p, newIndex)
  }

  /** Scrolling one notch and then back returns to the same weapon. */
  lemma WheelRoundTrip(p: Panel, deltaY: real)
    requires 0 <= p.selectedWeaponIndex < |Weapons|
    ensures OnWheel(OnWheel(p, deltaY), -deltaY).selectedWeaponIndex == p.selectedWeaponIndex
  {
  }

  // ---------------------------------------------------------------------------
  // Keys
  // ---------------------------------------------------------------------------

  /** A key handler's result: the new state and its local `changed` flag. */
  datatype KeyOutcome = KeyOutcome(panel: Panel, changed: bool)

  /** The weapon a key selects on keydown: `'1'`/`'&'` the gun, `'2'`/`'é'`
      the block tool (the characters of a QWERTY and an AZERTY keyboard). */
  function WeaponKey(key: string): (k: Option<int>)
    ensures k == Some(0) <==> key in {"1", "&"}
    ensures k == Some(1) <==> key in {"2", "é"}
    ensures k.None? <==> key !in {"1", "&", "2", "é"}
  {
    if key == "1" || key == "&" then Some(0)
    else if key == "2" || key == "é" then Some(1)
    else None
  }

  /** The first `switch` of `_onKeyDown`: set a movement flag, reporting
      whether it was clear, or set `jump` on Space. */
  function Press(p: Panel, code: string): (o: KeyOutcome)
    ensures MovementOf(code).Some? ==>
              var m := MovementOf(code).value;
              && Flag(o.panel, m)
              && (o.changed <==> !Flag(p, m))
              && forall n | n != m :: Flag(o.panel, n) == Flag(p, n)
    ensures MovementOf(code).None? ==> !o.changed && forall n :: Flag(o.panel, n) == Flag(p, n)
    ensures o.panel.jump == (code == "Space" || p.jump)
    ensures o.panel.selectedWeaponIndex == p.selectedWeaponIndex && o.panel.gun == p.gun && o.panel.block == p.block
    ensures o.panel.walking == p.walking
  {
    match MovementOf(code)
    case Some(m) => KeyOutcome(WithFlag(p, m, true), !Flag(p, m))
    case None => KeyOutcome(if code == "Space" then p.(jump := true) else p, false)
  }

  /** The second `switch` of `_onKeyDown`: a weapon key selects its weapon. */
  function SelectByKey(p: Panel, key: string): (r: Panel)
    ensures key in {"1", "&"} ==> r == SelectWeapon(p, 0)
    ensures key in {"2", "é"} ==> r == SelectWeapon(p, 1)
    ensures key !in {"1", "&", "2", "é"} ==> r == p
  {
    match WeaponKey(key)
    case Some(i) => SelectWeapon(p, i)
    case None => p
  }

  /** `_onKeyDown`: both switches, then the walking sound only if a movement
      flag changed. */
  function OnKeyDown(p: Panel, e: KeyEvent): (o: KeyOutcome)
    ensures MovementOf(e.code).Some? ==>
              var m := MovementOf(e.code).value;
              && Flag(o.panel, m)
              && (o.changed <==> !Flag(p, m))
              && forall n | n != m :: Flag(o.panel, n) == Flag(p, n)
    ensures MovementOf(e.code).None? ==> !o.changed && forall n :: Flag(o.panel, n) == Flag(p, n)
    ensures o.panel.jump == (e.code == "Space" || p.jump)
    ensures WeaponKey(e.key).Some? ==>
              && o.panel.selectedWeaponIndex == WeaponKey(e.key).value
              && (o.panel.gun <==> WeaponKey(e.key).value == 0)
              && (o.panel.block <==> WeaponKey(e.key).value == 1)
    ensures WeaponKey(e.key).None? ==>
              && o.panel.selectedWeaponIndex == p.selectedWeaponIndex
              && o.panel.gun == p.gun && o.panel.block == p.block
    ensures o.panel.walking == if o.changed then IsMoving(o.panel) else p.walking
  {
    var pressed := Press(p, e.code);
    var selected := SelectByKey(pressed.panel, e.key);
    assert selected == match WeaponKey(e.key)
                       case Some(i) => SelectWeapon(pressed.panel, i)
                       case None => pressed.panel;
    KeyOutcome(if pressed.changed then UpdateWalkingAudio(selected) else selected, pressed.changed)
  }

  /** `_onKeyUp`: clears a movement flag or the jump flag; never touches the
      weapon. */
  function OnKeyUp(p: Panel, e: KeyEvent): (o: KeyOutcome)
    ensures MovementOf(e.code).Some? ==>
              var m := MovementOf(e.code).value;
              && !Flag(o.panel, m)
              && (o.changed <==> Flag(p, m))
              && forall n | n != m :: Flag(o.panel, n) == Flag(p, n)
    ensures MovementOf(e.code).None? ==> !o.changed && forall n :: Flag(o.panel, n) == Flag(p, n)
    ensures o.panel.jump == (e.code != "Space" && p.jump)
    ensures o.panel.selectedWeaponIndex == p.selectedWeaponIndex && o.panel.gun == p.gun && o.panel.block == p.block
    ensures o.panel.walking == if o.changed then IsMoving(o.panel) else p.walking
  {
    var released :=
      match MovementOf(e.code)
      case Some(m) => KeyOutcome(WithFlag(p, m, false), Flag(p, m))
      case None => KeyOutcome(if e.code == "Space" then p.(jump := false) else p, false);
    if released.changed then KeyOutcome(UpdateWalkingAudio(released.panel), true) else released
  }

  /** Pressing and releasing a movement key restores its flag. */
  lemma KeyDownUpRestores(p: Panel, e: KeyEvent)
    requires MovementOf(e.code).Some?
    ensures var m := MovementOf(e.code).value;
            var q := OnKeyUp(OnKeyDown(p, e).panel, e).panel;
            Flag(q, m) == false && (!Flag(p, m) ==> forall n :: Flag(q, n) == Flag(p, n))
  {
  }

  // ---------------------------------------------------------------------------
  // Event traces
  // ---------------------------------------------------------------------------

  datatype Event = KeyDown(e: KeyEvent) | KeyUp(e: KeyEvent) | Wheel(deltaY: real)

  function Step(p: Panel, ev: Event): Panel
  {
    match ev
    case KeyDown(e) => OnKeyDown(p, e).panel
    case KeyUp(e) => OnKeyUp(p, e).panel
    case Wheel(d) => OnWheel(p, d)
  }

  function Run(p: Panel, events: seq<Event>): Panel
    decreases |events|
  {
    if |events| == 0 then p else Run(Step(p, events[0]), events[1..])
  }

  /** The panel's invariant from construction on: the selected index is a
      weapon, each weapon flag implies its index, and the walking sound plays
      exactly while a movement flag is held. */
  predicate Coherent(p: Panel)
  {
    && 0 <= p.selectedWeaponIndex < |Weapons|
    && (p.gun ==> p.selectedWeaponIndex == 0)
    && (p.block ==> p.selectedWeaponIndex == 1)
    && p.walking == IsMoving(p)
  }

  /** `gun` and `block` mirror the index exactly once a weapon was selected. */
  predicate Selected(p: Panel)
  {
    (p.gun <==> p.selectedWeaponIndex == 0) && (p.block <==> p.selectedWeaponIndex == 1)
  }

  lemma KeyDownKeepsCoherent(p: Panel, e: KeyEvent)
    requires Coherent(p)
    ensures Coherent(OnKeyDown(p, e).panel)
    ensures Selected(p) ==> Selected(OnKeyDown(p, e).panel)
  {
    var q := OnKeyDown(p, e).panel;
    assert IsMoving(q) == (Flag(q, Forward) || Flag(q, Backward) || Flag(q, Left) || Flag(q, Right));
    assert IsMoving(p) == (Flag(p, Forward) || Flag(p, Backward) || Flag(p, Left) || Flag(p, Right));
  }

  lemma KeyUpKeepsCoherent(p: Panel, e: KeyEvent)
    requires Coherent(p)
    ensures Coherent(OnKeyUp(p, e).panel)
    ensures Selected(p) ==> Selected(OnKeyUp(p, e).panel)
  {
    var q := OnKeyUp(p, e).panel;
    assert IsMoving(q) == (Flag(q, Forward) || Flag(q, Backward) || Flag(q, Left) || Flag(q, Right));
    assert IsMoving(p) == (Flag(p, Forward) || Flag(p, Backward) || Flag(p, Left) || Flag(p, Right));
  }

  /** Every event keeps the panel coherent, and keeps a selection once made;
      a wheel event always makes one. */
  lemma StepKeepsCoherent(p: Panel, ev: Event)
    requires Coherent(p)
    ensures Coherent(Step(p, ev))
    ensures Selected(p) ==> Selected(Step(p, ev))
    ensures ev.Wheel? ==> Selected(Step(p, ev))
  {
    match ev
    case KeyDown(e) => KeyDownKeepsCoherent(p, e);
    case KeyUp(e) => KeyUpKeepsCoherent(p, e);
    case Wheel(d) =>
      var q := OnWheel(p, d);
      assert forall m :: Flag(q, m) == Flag(p, m);
      assert IsMoving(q) == (Flag(q, Forward) || Flag(q, Backward) || Flag(q, Left) || Flag(q, Right));
      assert IsMoving(p) == (Flag(p, Forward) || Flag(p, Backward) || Flag(p, Left) || Flag(p, Right));
  }

  /** From the constructor's state, any sequence of events leaves the panel
      coherent; the constructor's state itself has index 0 without `gun`. */
  lemma {:induction false} RunKeepsCoherent(p: Panel, events: seq<Event>)
    requires Coherent(p)
    ensures Coherent(Run(p, events))
    ensures Selected(p) ==> Selected(Run(p, events))
    decreases |events|
  {
    if |events| > 0 {
      StepKeepsCoherent(p, events[0]);
      RunKeepsCoherent(Step(p, events[0]), events[1..]);
    }
  }

  lemma InitialIsCoherentButUnselected()
    ensures Coherent(Initial) && !Selected(Initial)
  {
  }
}
