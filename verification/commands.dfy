/**
 * The command button: a momentary button reports each click, a toggle
 * button flips and reports its state. Pressing shows a "clicked" look
 * that a release, leaving the button, or (with auto-reset) a timer
 * undoes. The timer is a pending flag plus an explicit firing event.
 */
module Commands {
  import opened JsValue
  import opened EventBus
  import opened Effects

  /** The rendered button: its text, its `aria-pressed` (toggle buttons
      only) and whether each of the three style classes (`style`,
      `style_active`, `style_clicked`) is on. */
  datatype Button = Button(text: string, ariaPressed: Option<bool>,
                           baseStyle: bool, activeStyle: bool, clickedStyle: bool)

  datatype Command = Command(
    isToggle: bool,
    state: bool,
    styleClass: Value,
    styleActive: Value,
    labelInactive: Value,
    labelActive: Value,
    styleClicked: Value,
    labelClicked: Value,
    autoReset: Value,
    clickDuration: Value,
    tooltip: Value,
    pressed: bool,
    timerPending: bool,
    button: Option<Button>)

  /** `(frontend_props && frontend_props[key]) || d`. */
  function FromProps(fp: Value, key: string, d: Value): (r: Value)
    ensures !Truthy(fp) ==> r == d
    ensures Truthy(fp) && Truthy(Get(fp, key)) ==> r == Get(fp, key)
    ensures Truthy(fp) && !Truthy(Get(fp, key)) ==> r == d
  {
    Or(if Truthy(fp) then Get(fp, key) else fp, d)
  }

  /** The constructor, given the schema and the display name the base
      element derived. */
  function NewCommand(schema: Value, displayName: Value): (r: Command)
    ensures !r.state && !r.pressed && !r.timerPending && r.button.None?
    ensures var fp := Get(schema, "frontend_props");
            r.isToggle <==> Truthy(fp) && Get(fp, "behavior") == Str("toggle")
    ensures r.labelInactive == displayName
    ensures var fp := Get(schema, "frontend_props");
            r.labelActive == (if Truthy(fp) && Truthy(Get(fp, "display_name_active")) then Get(fp, "display_name_active") else displayName)
    ensures var fp := Get(schema, "frontend_props");
            r.clickDuration == (if Truthy(fp) && Truthy(Get(fp, "click_duration")) then Get(fp, "click_duration") else Num(200))
  {
    var fp := Get(schema, "frontend_props");
    Command(
      isToggle := Truthy(fp) && StrictEq(Get(fp, "behavior"), Str("toggle")),
      state := false,
      styleClass := FromProps(fp, "style", Str("")),
      styleActive := FromProps(fp, "style_active", Str("")),
      labelInactive := displayName,
      labelActive := FromProps(fp, "display_name_active", displayName),
      styleClicked := FromProps(fp, "style_clicked", Str("")),
      labelClicked := FromProps(fp, "display_name_clicked", Str("")),
      autoReset := FromProps(fp, "auto_reset", Bool(false)),
      clickDuration := FromProps(fp, "click_duration", Num(200)),
      tooltip := FromProps(fp, "tooltip", Str("")),
      pressed := false,
      timerPending := false,
      button := None)
  }

  /** The label a button at rest shows: by state for a toggle button, the
      inactive one for a momentary button. */
  function RestingText(c: Command): string {
    TextContent(if c.isToggle && c.state then c.labelActive else c.labelInactive)
  }

  /** A pending timer belongs to a press of a rendered button. */
  predicate Wf(c: Command) {
    c.timerPending ==> c.pressed && c.button.Some?
  }

  /** `_updateToggleAppearance`: with an active style, the active class
      replaces the base class while the state is on and gives way to it
      while off; the label follows the state. */
  function ToggleLook(c: Command, b: Button, s: bool): (r: Button)
    ensures r.text == TextContent(if s then c.labelActive else c.labelInactive)
    ensures r.ariaPressed == b.ariaPressed && r.clickedStyle == b.clickedStyle
    ensures Truthy(c.styleActive) ==> r.activeStyle == s
    ensures Truthy(c.styleActive) && s ==> !r.baseStyle
    ensures Truthy(c.styleActive) && !s && Truthy(c.styleClass) ==> r.baseStyle
    ensures !Truthy(c.styleActive) ==> r.activeStyle == b.activeStyle && r.baseStyle == b.baseStyle
  {
    var styled :=
      if !Truthy(c.styleActive) then b
      else if s then b.(baseStyle := false, activeStyle := true)
      else b.(activeStyle := false, baseStyle := b.baseStyle || Truthy(c.styleClass));
    styled.(text := TextContent(if s then c.labelActive else c.labelInactive))
  }

  /** `render()`: the button with the base class when one is given and its
      resting look; a toggle button also shows its state in `aria-pressed`. */
  function Render(c: Command): (r: Command)
    ensures r.button.Some? && r.button.value.text == RestingText(c) && !r.button.value.clickedStyle
    ensures r.button.value.ariaPressed == (if c.isToggle then Some(c.state) else None)
    ensures !c.isToggle ==> r.button.value.baseStyle == Truthy(c.styleClass) && !r.button.value.activeStyle
    ensures c.isToggle && Truthy(c.styleActive) ==>
              r.button.value.activeStyle == c.state && r.button.value.baseStyle == (!c.state && Truthy(c.styleClass))
    ensures r.(button := c.button) == c
  {
    var plain := Button(TextContent(c.labelInactive), None, Truthy(c.styleClass), false, false);
    var b := if c.isToggle then ToggleLook(c, plain.(ariaPressed := Some(c.state)), c.state) else plain;
    c.(button := Some(b))
  }

  /** What a click did: the button after it and the effects, in order. */
  datatype Clicked = Clicked(command: Command, effects: seq<Effect>)

  /** A click. A toggle button flips, updates its look and `aria-pressed`,
      publishes `COMMAND_TOGGLED` with the new state and passes the state to
      `onCommand`; it throws (None) when it has no DOM to update. The code
      flips the state before that throw, but the click listener only exists
      once the button is rendered, so no click reaches that path. A momentary
      button keeps its state, publishes `COMMAND_CLICKED` without a state
      and passes undefined; it does not touch the DOM. */
  function Click(c: Command, o: Owner): (r: Option<Clicked>)
    ensures r.None? <==> c.isToggle && c.button.None?
    ensures r.Some? && !c.isToggle ==> r.value.command == c
    ensures r.Some? ==> r.value.command.state == (if c.isToggle then !c.state else c.state)
    ensures r.Some? ==> r.value.command.pressed == c.pressed && r.value.command.timerPending == c.timerPending
    ensures r.Some? ==> |r.value.effects| == (if o.handlers.onCommand then 2 else 1)
    ensures r.Some? ==> r.value.effects[0].Publish?
                        && r.value.effects[0].topic == (if c.isToggle then CommandToggled else CommandClicked)
                        && Get(r.value.effects[0].payload, "commandId") == o.id
                        && Get(r.value.effects[0].payload, "controllerName") == o.controllerName
    ensures r.Some? ==> Get(r.value.effects[0].payload, "state")
                        == (if c.isToggle then Bool(r.value.command.state) else Undefined)
    ensures r.Some? && o.handlers.onCommand ==>
              r.value.effects[1] == CommandHandler(o.id, if c.isToggle then Bool(!c.state) else Undefined)
  {
    if c.isToggle then
      match c.button
      case None => None
      case Some(b) =>
        var s := !c.state;
        var after := c.(state := s, button := Some(ToggleLook(c, b.(ariaPressed := Some(s)), s)));
        var payload := Obj([Field("commandId", o.id), Field("controllerName", o.controllerName), Field("state", Bool(s))]);
        assert Lookup(payload.fields[1..][1..], "state") == Some(Bool(s));
        assert Lookup(payload.fields[1..], "state") == Some(Bool(s));
        assert Lookup(payload.fields[1..], "controllerName") == Some(o.controllerName);
        Some(Clicked(after, [Publish(CommandToggled, payload)]
                            + (if o.handlers.onCommand then [CommandHandler(o.id, Bool(s))] else [])))
    else
      var payload := Obj([Field("commandId", o.id), Field("controllerName", o.controllerName)]);
      assert Lookup(payload.fields[1..][1..], "state").None?;
      assert Lookup(payload.fields[1..], "state").None?;
      assert Lookup(payload.fields[1..], "controllerName") == Some(o.controllerName);
      Some(Clicked(c, [Publish(CommandClicked, payload)]
                      + (if o.handlers.onCommand then [CommandHandler(o.id, Undefined)] else [])))
  }

  /** Two clicks on a button showing its resting look restore it exactly;
      a momentary button is never changed by a click. */
  lemma ClickTwice(c: Command, o: Owner)
    requires c.button == Render(c).button
    ensures Click(Click(c, o).value.command, o).value.command == c
  {
  }

  /** `mousedown`: pressed, the clicked style and label when given, and with
      auto-reset the pending timer replaced by a new one. Without a DOM the
      source throws right after marking the press (None). */
  function MouseDown(c: Command): (r: Option<Command>)
    ensures r.Some? <==> c.button.Some?
    ensures r.Some? ==> r.value.pressed && r.value.state == c.state
    ensures r.Some? ==> r.value.timerPending == (c.timerPending || Truthy(c.autoReset))
    ensures r.Some? ==> r.value.button.Some?
                        && r.value.button.value.clickedStyle == (c.button.value.clickedStyle || Truthy(c.styleClicked))
    ensures r.Some? && Truthy(c.labelClicked) ==> r.value.button.value.text == TextContent(c.labelClicked)
  {
    match c.button
    case None => None
    case Some(b) =>
      var styled := if Truthy(c.styleClicked) then b.(clickedStyle := true) else b;
      var labelled := if Truthy(c.labelClicked) then styled.(text := TextContent(c.labelClicked)) else styled;
      Some(c.(pressed := true, button := Some(labelled),
              timerPending := c.timerPending || Truthy(c.autoReset)))
  }

  /** `_resetClickAppearance`: only a pressed button is reset; it is
      released, the timer cancelled, the clicked style removed and the
      resting label restored. */
  // A pressed button without a DOM would throw in the source; no listener
  // or timer survives `destroy()`, so that state is never reset.
  function Reset(c: Command): (r: Command)
    ensures !c.pressed ==> r == c
    ensures c.pressed ==> !r.pressed && !r.timerPending && r.state == c.state
    ensures c.pressed && c.button.Some? ==>
              r.button.Some? && r.button.value.text == RestingText(c)
              && r.button.value.clickedStyle == (c.button.value.clickedStyle && !Truthy(c.styleClicked))
              && r.button.value.(text := c.button.value.text, clickedStyle := c.button.value.clickedStyle) == c.button.value
  {
    if !c.pressed then c
    else
      var b := match c.button
               case None => None
               case Some(b) =>
                 Some(if Truthy(c.styleClicked) then b.(clickedStyle := false, text := RestingText(c))
                      else b.(text := RestingText(c)));
      c.(pressed := false, timerPending := false, button := b)
  }

  /** A reset is idempotent: a second one changes nothing. */
  lemma ResetTwice(c: Command)
    ensures Reset(Reset(c)) == Reset(c)
  {
  }

  /** `mouseup` always attempts a reset. */
  function MouseUp(c: Command): (r: Option<Command>)
    ensures r.Some? <==> c.button.Some?
    ensures r.Some? ==> r.value == Reset(c)
  {
    if c.button.Some? then Some(Reset(c)) else None
  }

  /** `mouseleave` resets only a pressed button. */
  function MouseLeave(c: Command): (r: Option<Command>)
    ensures r.Some? <==> c.button.Some?
    ensures r.Some? && !c.pressed ==> r.value == c
    ensures r.Some? && c.pressed ==> r.value == Reset(c)
  {
    if c.button.None? then None
    else if c.pressed then Some(Reset(c))
    else Some(c)
  }

  /** The auto-reset timer fires: the pending reset runs. */
  function TimerFires(c: Command): (r: Option<Command>)
    ensures r.Some? <==> c.timerPending
    ensures r.Some? ==> !r.value.pressed && !r.value.timerPending
  {
    if c.timerPending then
      Some(Reset(c).(timerPending := false))
    else None
  }

  /** `destroy()`: the timer is cleared and the button leaves the page. */
  function Destroy(c: Command): (r: Command)
    ensures !r.timerPending && r.button.None? && r.state == c.state
  {
    c.(timerPending := false, button := None)
  }

  /** Every event keeps a pending timer tied to a press of a rendered
      button, so a firing timer always finds its button. */
  lemma EventsKeepWf(c: Command, o: Owner)
    requires Wf(c)
    ensures Wf(Render(c)) && Wf(Reset(c)) && Wf(Destroy(c))
    ensures Click(c, o).Some? ==> Wf(Click(c, o).value.command)
    ensures MouseDown(c).Some? ==> Wf(MouseDown(c).value)
    ensures MouseUp(c).Some? ==> Wf(MouseUp(c).value)
    ensures MouseLeave(c).Some? ==> Wf(MouseLeave(c).value)
    ensures TimerFires(c).Some? ==> Wf(TimerFires(c).value) && TimerFires(c).value.button.Some?
  {
  }

  /** Without auto-reset no timer is ever pending. */
  lemma NoAutoResetNoTimer(c: Command)
    requires !c.timerPending && !Truthy(c.autoReset)
    ensures MouseDown(c).Some? ==> !MouseDown(c).value.timerPending
  {
  }
}
