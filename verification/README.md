# ui_generator, modelled in Dafny

`ui_generator` builds a control panel for a device controller from a JSON
schema: a controller holds top-level items (tab containers and graphics
containers); tabs hold groups; groups hold parameters (readonly, number,
flags, slider, select, radio) and commands (momentary or toggle buttons).
Widgets talk over a publish/subscribe bus; a registry maps element ids to
widgets and applies value and visibility updates; a schema validator
reports problems; a data connector turns server messages into bus events
and sends commands and parameter changes back over an open socket.

This project models that core as pure functions over immutable data:

- `JsValue` — the JavaScript values the code handles (`undefined`, `null`,
  booleans, integers, `NaN`, strings, arrays, objects in property order),
  property reads that throw on `null`/`undefined`, truthiness, strict
  equality, `String(v)`, `Number(v)`, `parseInt`/`parseFloat` on integer
  text, `trim`, and 32-bit integer conversion.
- `Logging` — the logger's severity table, its level filter and prefix;
  log output is a list of entries in the world.
- `EventBus` — `subscribe`, `unsubscribe` and `publish` with per-listener
  error isolation, generic over the state the listeners change.
- `Effects` — what a widget asks of the world when the user changes it (bus
  events, handler calls) and the text conversions of inputs.
- `Flags` — the flags widget's bit keys (`"N-label"`) and its 32-bit mask.
- `Parameters` — the six parameter kinds: initial values, render, the
  programmatic `updateValue`/`getValue`, and user changes.
- `Commands` — the command button's state machine with its auto-reset
  timer as a pending flag and an explicit "timer fires" step.
- `SchemaValidator` — `SchemaValidator.validate`.
- `Elements` — the element heap, the base element (id and name fallbacks,
  visibility, subscriptions, recursive destroy), container rendering and
  the graphics container's line calls.
- `Registry` — the state manager: registration, value and visibility
  updates, the batch update, the recursive schema-visibility pass, reads
  and clearing.
- `Factory` — `createElement` and `_createParameterElement`, with
  containers building their children first (post-order registration).
- `DataConnector` — `handleMessage`, the message shapes and the send guard.
- `Generator` — the `UIGenerator` composition root: construction, the bus
  routing it sets up, the display name, `generateUI`/`destroyUI` and the
  `itemsMap`, and its delegating mutation API.

Elements live in a map from refs to element records; a ref is allocated
when an element is built, so children always have smaller refs than their
parent. A JavaScript exception is a `TypeError` result, or a `Threw`
completion carrying the state reached when it was thrown.

Where the documentation of the system and its code disagree, the model
follows the code, with one exception: the radio widget's check of which
radio shows the value compares with `===` a string against a value that is
usually not one, which is a defect of the code (see "## Findings"). The
model keeps that comparison as `Parameters.SyncRadiosAsWritten`, and
rendering and updating a radio use the corrected comparison by string form.
The other disagreements:

- `UIGenerator` defines `updateLineData` twice; the later definition is the
  one that exists at run time, so it forwards to every graphics container.
- The graphics container's line calls on a known graph id call methods the
  chart renderer does not have, so they throw; only an unknown graph id
  just warns.
- A top-level item of type `tab` is built, but its `render` returns a pair
  of nodes rather than a node, so `generateUI` throws on it.
- `COMMAND_TOGGLED` is logged by the registry but never sent to the server;
  only `COMMAND_CLICKED` and `PARAMETER_VALUE_CHANGED` are.
- `setControllerDisplayName` writes into the controller without a guard, so
  a nullish or primitive controller throws.

## Model

| member | source | states |
|---|---|---|
| Logging.Severity | src/logger.js:5-10 | every level has a rank in the table, error 0 up to debug 3 |
| Logging.MessagePrefix | src/logger.js:20 | the bracketed prefix is empty exactly when the configured prefix is falsy |
| Logging.Emit | src/logger.js:13-23 | a message is written iff the level passes the filter, on the console method of its level, with the prefix and the message; a level that passes lets every more severe level pass, an unknown configured level writes nothing, and the level 'warn' writes exactly errors and warnings |
| Logging.Emitted | src/logger.js:13-23 | the lines written from a list of entries are exactly the entries whose level passes the filter |
| Logging.EmittedAppend | src/logger.js:17-23 | logging two batches writes the lines of the first, then those of the second |
| Logging.Monotone | src/logger.js:13-15 | if a level is written, every more severe level is written too |
| Logging.ErrorsAlwaysWritten | src/logger.js:13-15 | under any configured level in the table, errors are written |
| Logging.UnknownLevelSilences | src/logger.js:13-15 | a configured level missing from the table silences every level |
| Logging.DefaultLevelIsWarn | src/logger.js:42 | the default logger and the global logger write errors and warnings only, without a prefix |
| EventBus.Subscribe | src/event_manager.js:7-13 | the callback is appended to the topic's list, created if absent; duplicates are kept; other topics are unchanged |
| EventBus.Without | src/event_manager.js:17 | the filtered list holds no occurrence of the callback and every other callback as often as before |
| EventBus.Unsubscribe | src/event_manager.js:15-20 | every occurrence is removed from that topic only; the set of topics is unchanged, so an unknown topic is a no-op |
| EventBus.WithoutAppend | src/event_manager.js:17 | filtering distributes over concatenation, so order is kept |
| EventBus.WithoutAbsent | src/event_manager.js:17 | removing a callback that is not subscribed changes nothing |
| EventBus.SubscribeThenUnsubscribe | src/event_manager.js:7-20 | subscribing a new callback and unsubscribing it restores the topic's list, while the topic entry stays |
| EventBus.Dispatch | src/event_manager.js:32-38 | every listener of the snapshot is called, once per occurrence in order, and failures are recorded by increasing position |
| EventBus.DispatchFailures | src/event_manager.js:32-38 | a listener is recorded as failed iff its call throws in the state left by the listeners before it; later listeners still run |
| EventBus.DispatchAppend | src/event_manager.js:32-38 | dispatching a list in two parts is dispatching the first part, then the second from its state |
| EventBus.Publish | src/event_manager.js:22-40 | no list: nothing is called; a nullish payload throws before any call; otherwise exactly the list read at the start is called, so subscriptions made during a publish only affect later ones |
| EventBus.EmptiedTopicStillThrows | src/event_manager.js:15-29 | after subscribing and unsubscribing, the topic's list is empty but present, so publishing null throws where before it did nothing |
| Effects.ParameterChanged | src/parameter_element.js:76-84 | a user change publishes PARAMETER_VALUE_CHANGED with paramId, value and controllerName, then calls onParameterChange only if it is a function |
| Effects.TextContent | src/parameter_element.js:129 | a display's text is empty for null and undefined and the string form otherwise, so it agrees with an input's text for every value but undefined |
| Effects.InputText | src/parameter_element.js:94 | an input's text is empty for null and the string form otherwise, so undefined shows as "undefined" |
| Effects.ParseNumber | src/parameter_element.js:72-73 | parsing yields a number or NaN, NaN exactly when the text has no leading integer |
| Effects.ParseInputNumber | src/parameter_element.js:93-94 | a number written into an input parses back to itself |
| Flags.DashIndex | src/parameter_element.js:264 | the position of the first '-', or none when the key has none |
| Flags.BitOf | src/parameter_element.js:264-278 | a key without '-' names no bit; with one, it names a bit iff the integer `parseInt` reads before the first '-' is in 0..31, and then it names that bit |
| Flags.KeyNamesBit | src/parameter_element.js:264-278 | a key written as the decimal bit number, '-' and any label names that bit |
| Flags.BitValue | src/parameter_element.js:231 | `1 << n` is 2^n, and negative (-2^31) as a signed number for bit 31 |
| Flags.OrBitValue | src/parameter_element.js:231 | or-ing `1 << n` into the mask adds 2^n to the mask when bit n was clear and leaves it unchanged otherwise |
| Flags.MaskBits | src/parameter_element.js:215-233 | bit n of the published mask is set iff some checked box has a well-formed key naming n; malformed keys are skipped |
| Flags.SetBoxes | src/parameter_element.js:255-285 | setting a mask keeps every box and its key, checks a well-formed box iff its bit is set, and leaves a malformed box as it was |
| Flags.MaskOfSetBoxes | src/parameter_element.js:255-285 | after setting mask m, the mask read back has bit n iff m has it and some box names n |
| Flags.SetBoxesMaskOf | src/parameter_element.js:234-285 | setting the mask the boxes themselves produce leaves consistent boxes unchanged |
| Parameters.KindOf | src/element_factory.js:51-68 | a frontend type selects a kind only when it is that kind's name |
| Parameters.KindNames | src/element_factory.js:52-64 | each of the six names selects its own kind, and a kind is selected by its name and nothing else |
| Parameters.NewParam | src/parameter_element.js:2-9 | a parameter starts unrendered with props `frontend_props || {}` and their default; non-radio kinds start at the default or their own fallback; only a nullish schema, or a radio whose option scan throws, fails |
| Parameters.SomeOptionHas | src/parameter_element.js:475 | with no nullish option, the scan is true iff some option's value strictly equals the default |
| Parameters.RadioInitialChoice | src/parameter_element.js:472-485 | a radio starts at the default if an option has it, else the first option's value, else the empty string |
| Parameters.FirstIndex | src/parameter_element.js:418 | setting a select's value selects the first option with that value, or none when no option has it |
| Parameters.OptionTexts | src/parameter_element.js:410-415 | one option value text per option, in order; a nullish option throws |
| Parameters.BoxesFor | src/parameter_element.js:158-190 | one unchecked box per bit entry, keyed by the entry's key; no bits, no boxes |
| Parameters.UncheckedBoxes | src/parameter_element.js:177-190 | one unchecked box per field, in field order |
| Parameters.LastMatch | src/parameter_element.js:574-583 | with the corrected comparison by string form, the last radio whose value matches, or none iff no radio matches |
| Parameters.SyncRadios | src/parameter_element.js:568-591 | with the corrected comparison by string form, the values stay and exactly the last matching radio is checked |
| Parameters.SyncRadiosAsWritten | src/parameter_element.js:579 | with the strict comparison, a radio is checked iff it strictly equals the value and no later one does |
| Parameters.SyncRadiosSingle | src/parameter_element.js:574-589 | with the corrected comparison, at most one radio is checked, only a matching one, and none when nothing matches; nothing throws |
| Parameters.Render | src/parameter_element.js:47-69 | rendering gives the parameter its input and keeps its kind and cached value; only select and radio can throw; radios are checked by the corrected comparison |
| Parameters.RenderWf | src/parameter_element.js:47-69 | a rendered parameter's input fits its kind |
| Parameters.UpdateValue | src/parameter_element.js:90-98 | an update keeps the kind, is a no-op before render except for radio, sets a radio's value, and leaves the cached value as before or the new one; a rendered number or slider input is left alone when its text already parses to the number and otherwise shows the number's text; radios are checked by the corrected comparison |
| Parameters.GetValue | src/parameter_element.js:100-604 | before render the cached value is read; a rendered number or slider reads its input when that parses to a number and the cached value otherwise; a select reads the selected option's value, or '' when none is selected; readonly, flags and radio read the cached value |
| Parameters.RadioUpdateThenGet | src/parameter_element.js:594-604 | a radio reads back any value it was updated with |
| Parameters.CachedUpdateThenGet | src/parameter_element.js:135-147 | a rendered readonly or flags parameter reads back the value it was updated with |
| Parameters.NumericUpdateThenGet | src/parameter_element.js:359-385 | a rendered number or slider reads back an integer it was updated with |
| Parameters.SelectUpdateThenGet | src/parameter_element.js:438-456 | a rendered select reads back any of its option values it was updated with |
| Parameters.ChangeNumber | src/parameter_element.js:71-88 | a number input's change: NaN restores the input and publishes nothing; a number becomes the cached value and is reported |
| Parameters.MoveSlider | src/parameter_element.js:336-350 | a slider's input becomes the cached value and is reported |
| Parameters.ToggleFlag | src/parameter_element.js:214-243 | toggling a box sets the cached value to the signed mask of the boxes and reports it |
| Parameters.ChooseOption | src/parameter_element.js:420-431 | choosing an option caches and reports its value, which the select then reads back |
| Parameters.ChooseRadio | src/parameter_element.js:538-554 | choosing a radio checks it alone and caches and reports its value |
| Parameters.ReportedIsCached | src/parameter_element.js:76-84 | the value a change publishes and hands to the handler is the cached value |
| Parameters.FlagsEcho | src/parameter_element.js:234-285 | a flags change, fed back through updateValue, leaves consistent boxes as they are |
| Parameters.FlagsUpdateThenRead | src/parameter_element.js:255-287 | after updateValue(v), bit n of the boxes' mask is set iff bit n of v is set and some box names n |
| Parameters.NumericRadioStarts | src/parameter_element.js:475-476 | a radio with numeric options 1 and 2 and default 1 starts at the number 1 |
| Parameters.NumericRadioValues | src/parameter_element.js:505 | such a radio's inputs hold the strings "1" and "2" |
| Parameters.NumericRadioUnchecked | src/parameter_element.js:579 | as written, that radio checks nothing for its own value; with the string comparison it checks "1" |
| Parameters.OptionValueChecks | src/parameter_element.js:568-583 | updating a radio with the value of one of its options checks that option or a later one with the same text |
| Commands.FromProps | src/command_element.js:14-26 | a prop is read when the props object and the prop are truthy, otherwise the default |
| Commands.NewCommand | src/command_element.js:2-28 | a new command is off, not pressed, with no timer; a toggle iff behavior is "toggle"; the active label defaults to the display name and the click duration to 200 |
| Commands.ToggleLook | src/command_element.js:177-190 | the label follows the state and, with an active style, the active class replaces the base class while on |
| Commands.Render | src/command_element.js:30-81 | rendering creates the button with the resting label and aria-pressed for toggles only, and changes nothing else |
| Commands.Click | src/command_element.js:83-114 | a toggle click flips the state and publishes COMMAND_TOGGLED; a momentary click keeps it and publishes COMMAND_CLICKED; onCommand gets the new state or undefined; the event names the controller, and carries the new state for a toggle and undefined for a momentary button |
| Commands.ClickTwice | src/command_element.js:84-101 | two clicks on a rendered button restore the command |
| Commands.MouseDown | src/command_element.js:117-136 | pressing sets pressed, applies the clicked style and label, and with auto-reset leaves one timer pending |
| Commands.Reset | src/command_element.js:153-174 | a reset acts only when pressed: it clears pressed and the timer, restores the resting label and removes the clicked style |
| Commands.ResetTwice | src/command_element.js:153-174 | a second reset is a no-op |
| Commands.MouseUp | src/command_element.js:138-140 | mouseup always attempts a reset |
| Commands.MouseLeave | src/command_element.js:142-147 | mouseleave resets only a pressed button |
| Commands.TimerFires | src/command_element.js:129-135 | the timer fires only when pending and leaves the button released |
| Commands.Destroy | src/command_element.js:192-198 | destroy cancels the timer and drops the button, keeping the state |
| Commands.EventsKeepWf | src/command_element.js:117-198 | every event keeps a pending timer tied to a pressed, rendered button |
| Commands.NoAutoResetNoTimer | src/command_element.js:129-135 | without auto-reset, pressing schedules no timer |
| SchemaValidator.Both | src/schema_validator.js:5 | joined problem lists are empty iff both are, and throw iff either does |
| SchemaValidator.Require | src/schema_validator.js:13 | a required field adds a problem iff it is falsy |
| SchemaValidator.VersionProblems | src/schema_validator.js:12-17 | one problem unless the version is "1.0.0" |
| SchemaValidator.EntryProblems | src/schema_validator.js:60-67 | a group entry adds at most one problem and throws iff it is nullish |
| SchemaValidator.EntriesProblems | src/schema_validator.js:60-68 | a group's entries throw iff one of them is nullish |
| SchemaValidator.GraphicProblems | src/schema_validator.js:83-87 | a graphic entry throws iff it is nullish |
| SchemaValidator.ItemProblems | src/schema_validator.js:31-92 | an item without type, or with an unknown type, adds exactly that one problem; only nullish items and the nested checks of tabs and graphics throw |
| SchemaValidator.Validate | src/schema_validator.js:4-99 | valid iff no errors; a falsy or non-object schema gives exactly the one error; a wrong version is never valid |
| SchemaValidator.EntryAccepts | src/schema_validator.js:60-67 | an entry passes iff it has a type, parameters have param_id and commands have command_id |
| SchemaValidator.EntriesAccept | src/schema_validator.js:60-68 | the entries pass iff each passes |
| SchemaValidator.GroupAccepts | src/schema_validator.js:53-70 | a group passes iff it has an id and an items array whose entries pass |
| SchemaValidator.GroupsAccept | src/schema_validator.js:53-70 | the groups pass iff each passes |
| SchemaValidator.TabAccepts | src/schema_validator.js:46-72 | a tab passes iff it has an id and a groups array whose groups pass |
| SchemaValidator.TabsAccept | src/schema_validator.js:46-72 | the tabs pass iff each passes |
| SchemaValidator.GraphicsAccept | src/schema_validator.js:83-87 | the graphics pass iff each has an id |
| SchemaValidator.ItemAccepts | src/schema_validator.js:31-92 | an item passes iff it is a tabs item with an id and passing tabs, or a graphics item with an id and passing graphics |
| SchemaValidator.ItemsAccept | src/schema_validator.js:30-93 | the items pass iff each passes |
| SchemaValidator.ValidateAccepts | src/schema_validator.js:4-98 | the report is valid with no errors iff the whole schema passes every rule |
| SchemaValidator.NullItemThrows | src/schema_validator.js:30-31 | a null top-level item makes validation throw |
| SchemaValidator.ItemsThrow | src/schema_validator.js:30-31 | any nullish item makes the item pass throw |
| Elements.ElementId | src/base_element.js:4 | the id is `id`, else `param_id`, else `command_id`, by falsy fallthrough |
| Elements.DisplayName | src/base_element.js:5 | the name is `display_name`, else `title`, else the id |
| Elements.NotFalse | src/base_element.js:6-7 | a flag is true unless the schema field is exactly false |
| Elements.NewElement | src/base_element.js:3-16 | a new element has the derived id, name, visibility and enabled flags, no DOM, and nothing recorded |
| Elements.UpdateVisibility | src/base_element.js:22-26 | display becomes '' when visible and 'none' otherwise; nothing happens without a DOM node |
| Elements.UpdateEnabledState | src/base_element.js:28-35 | throws without a DOM node; a group's fieldset is disabled iff not enabled; other elements are unchanged |
| Elements.Update | src/base_element.js:37-40 | update throws iff unrendered, and otherwise applies the visibility |
| Elements.SubscribeToEvent | src/base_element.js:42-45 | the pair is subscribed on the bus and recorded on the element, and nothing else changes |
| Elements.UnsubscribeShrinks | src/base_element.js:59-62 | unsubscribing never adds a listener |
| Elements.UnsubscribeAll | src/base_element.js:59-62 | after destroy's loop no recorded callback is on its topic |
| Elements.Destroy | src/base_element.js:52-73 | destroy clears the element and, recursively, its children, unsubscribes its recorded pairs, and touches nothing else |
| Elements.BaseDestroy | src/base_element.js:52-73 | the base destroy clears the element, including its children, and unsubscribes its recorded pairs |
| Elements.DestroyTabs | src/container_element.js:125-130 | a tabs container destroys each tab and ends with no children |
| Elements.DestroyAll | src/base_element.js:69-70 | every child in the list ends cleared |
| Elements.DestroyClearsChildren | src/base_element.js:69-70 | destroying an element clears each of its children |
| Elements.VisibleTabs | src/container_element.js:109-116 | the tab list holds exactly the child tabs whose visibility is truthy |
| Elements.MapSet | src/container_element.js:160 | setting a key in the renderer map adds it once |
| Elements.Renderers | src/container_element.js:155-162 | rendering the graphics adds each graphic's id to the renderer map, and throws iff a graphic is nullish |
| Elements.Render | src/container_element.js:23-26 | rendering changes only the element and its descendants, never ids, children or visibility, and leaves a fresh DOM node |
| Elements.RenderTab | src/container_element.js:11-29 | a tab renders its groups and gets its DOM node |
| Elements.RenderGroup | src/container_element.js:45-65 | a group renders its items and gets its DOM node |
| Elements.RenderTabs | src/container_element.js:84-123 | a tabs container records exactly its visible tabs in the tab list |
| Elements.RenderGraphics | src/container_element.js:144-166 | a graphics container renders without touching anything outside it |
| Elements.RenderLeaf | src/parameter_element.js:47-69 | a parameter or command renders into a fresh DOM node; a throw changes nothing |
| Elements.RenderAll | src/container_element.js:23-26 | rendering a list of children keeps ids, children and visibility of every element |
| Elements.LineCall | src/container_element.js:168-193 | a line call throws iff the graph id has a renderer and otherwise only warns |
| Elements.RenderedGraphThrows | src/container_element.js:168-172 | after rendering, a line call on any listed graph id throws |
| Elements.TabsListVisible | src/container_element.js:109-116 | after render, a tab is in the tab list iff it is a child and visible |
| Registry.SubscribeRegistry | src/state_manager.js:9-25 | the registry appends its listeners for visibility, parameter, click and toggle events |
| Registry.Find | src/state_manager.js:35 | lookup finds an element iff its id is registered |
| Registry.Register | src/state_manager.js:27-32 | registering overwrites the id's entry and warns iff the id was already there |
| Registry.RegisterThenFind | src/state_manager.js:27-32 | after registering, the id finds the element and other ids find what they did before |
| Registry.UpdateElementValue | src/state_manager.js:34-41 | a known parameter gets updateValue and nothing else changes; otherwise only a warning |
| Registry.UpdateEach | src/state_manager.js:45-47 | each entry update keeps the registry, bus and element structure |
| Registry.UpdateEachAppend | src/state_manager.js:44-48 | updating two lists of entries is updating the first, then the second |
| Registry.UpdateMultipleElementValues | src/state_manager.js:44-48 | a nullish batch throws; otherwise the structure is kept |
| Registry.SingleEntryBatch | src/state_manager.js:44-48 | a batch of one entry is a single updateElementValue |
| Registry.BatchConcat | src/state_manager.js:44-48 | a batch is the per-entry updates in property order |
| Registry.UpdateElementVisibility | src/state_manager.js:50-58 | a known element gets the visibility and its display updated, throwing iff unrendered; other elements are untouched; an unknown id only warns |
| Registry.TargetsOf | src/state_manager.js:60-70 | a nullish node yields no targets and throws |
| Registry.ApplyTargets | src/state_manager.js:63 | applying visibility targets keeps the registry, bus and structure |
| Registry.ApplyTargetsAppend | src/state_manager.js:61-68 | applying two target lists is applying the first, then the second unless it threw |
| Registry.RunThen | src/state_manager.js:65-67 | walking two parts runs the first, then the second unless it threw |
| Registry.ApplySchemaVisibility | src/state_manager.js:60-70 | the recursive pass keeps the structure and throws on a nullish node |
| Registry.ApplyUnder | src/state_manager.js:65-67 | the pass over one child array keeps the structure |
| Registry.ApplyAll | src/state_manager.js:65-67 | the pass over a list of nodes keeps the structure |
| Registry.ApplyMatchesTargets | src/state_manager.js:60-70 | the pass equals applying, in visiting order, the updates of every node that owns both id and visibility, then its tabs, groups and items |
| Registry.ApplyUnderMatches | src/state_manager.js:65-67 | the pass over a child array equals applying that array's targets |
| Registry.ApplyAllMatches | src/state_manager.js:65-67 | the pass over a node list equals applying the list's targets |
| Registry.OnlyOwnersCount | src/state_manager.js:62-67 | a node without own id and visibility and without child arrays updates nothing |
| Registry.GetParameterValue | src/state_manager.js:77-90 | a known parameter yields its getValue with no log; an unknown id yields undefined and warns |
| Registry.RadioValueRoundTrip | src/state_manager.js:77-81 | a radio updated through the registry reads back the same value through it |
| Registry.ClearElements | src/state_manager.js:92-94 | clearing leaves the registry empty and the rest as it was |
| Registry.ClearedFindsNothing | src/state_manager.js:92-94 | after clearing, no id is found |
| Factory.TypeName | src/element_factory.js:16-39 | each kind of element is built for one of the known type names |
| Factory.Add | src/element_factory.js:45-47 | a built element is stored under a fresh ref and registered under its id |
| Factory.Create | src/element_factory.js:9-49 | a nullish schema throws; a missing or unknown type, or an unknown frontend type, warns and builds nothing; otherwise the element is built, registered under its id and typed by its schema |
| Factory.CreateKnown | src/element_factory.js:15-43 | the switch builds one element for every known type except a parameter with an unknown frontend type |
| Factory.CreateContainer | src/element_factory.js:18-33 | a container is always built once its children are; every element built gets the handlers passed down, except a tabs container and a graphics container, which the factory builds without them |
| Factory.CreateLeaf | src/element_factory.js:21-39 | graphics, parameter and command schemas build one element with the schema's id |
| Factory.CreateParameter | src/element_factory.js:51-68 | an unknown frontend type warns and builds nothing; a known one builds a parameter of that kind |
| Factory.KnownParameter | src/element_factory.js:53-64 | a parameter of a known kind is built with that kind and the schema's id, unless its constructor throws, which changes nothing |
| Factory.Container | src/container_element.js:40-42 | a container's child list must be an array, its children are built before it, and it gets the schema's id and its own handlers while its children get the ones passed down |
| Factory.TabsContentsHandled | src/container_element.js:72-78 | a tabs container is built without handlers, yet the tabs, groups and widgets inside it get the handlers passed to the factory |
| Factory.CreateForced | src/container_element.js:6-8 | a nested tab or group is built from its spread copy; a non-object throws |
| Factory.CreateChild | src/container_element.js:40-41 | building one child schema keeps the world well formed and yields a fresh element |
| Factory.CreateAll | src/container_element.js:40-42 | building the children yields at most one fresh element per schema |
| Factory.CreateAllInOrder | src/container_element.js:40-42 | the children keep the order of their schemas |
| Factory.ForcedIsOverriding | src/container_element.js:7 | a nested child is built exactly as createElement builds `{...schema, type}` |
| Factory.CreateNested | src/element_factory.js:28-33 | a tab or group schema builds a container over its groups or items |
| DataConnector.Translate | src/data_connector.js:37-52 | PARAMETER_UPDATE, SCHEMA_UPDATE and VISIBILITY_UPDATE become their bus events with their fields renamed; other types publish nothing; a nullish message throws |
| DataConnector.Send | src/data_connector.js:55-65 | a message is sent iff the socket is open, otherwise an error is logged |
| DataConnector.CommandMessage | src/data_connector.js:56-60 | the COMMAND message carries the command id and controller name |
| DataConnector.ParameterChangeMessage | src/data_connector.js:70-75 | the PARAMETER_CHANGE message carries the parameter id, value and controller name |
| DataConnector.SendCommand | src/data_connector.js:54-66 | a command is sent only over an open socket, otherwise one error is logged |
| DataConnector.SendParameterChange | src/data_connector.js:68-81 | a parameter change is sent only over an open socket, otherwise one error is logged |
| DataConnector.ParameterUpdateRoundTrip | src/data_connector.js:38-43 | a server PARAMETER_UPDATE, read back from its bus event, gives the same change |
| DataConnector.OnMessage | src/data_connector.js:17-25 | a message that makes the handler throw is logged as an error and publishes nothing |
| Generator.ItemRef | src/ui_generator.js:195 | the item map yields the element stored under an id, and nothing iff no item has the id |
| Generator.ItemsSet | src/ui_generator.js:128 | setting an id maps it to the element and leaves every other id as it was |
| Generator.ItemsSetKeeps | src/ui_generator.js:128 | setting adds only the new item and keeps ids distinct |
| Generator.GeneratorBus | src/ui_generator.js:14-39 | after construction the registry's listeners come first, then the generator's parameter, click and schema listeners |
| Generator.NewUi | src/ui_generator.js:2-40 | construction throws only where validation does; an invalid schema logs one error and construction still proceeds |
| Generator.SetDataConnector | src/ui_generator.js:75-77 | the connector is set and nothing else changes |
| Generator.Caught | src/event_manager.js:34-38 | a throwing listener is logged as an error and does not reach the publisher |
| Generator.PublishEvent | src/event_manager.js:22-40 | publishing on the generator's bus: no listeners, nothing; a nullish payload throws; otherwise the topic's listeners run in order; the item map and elements are kept |
| Generator.ServerMessage | src/data_connector.js:17-25 | a server message is translated and published; a nullish one is logged as an error |
| Generator.ControllerDisplayName | src/ui_generator.js:46-48 | the controller's display_name, throwing iff the schema or controller is nullish |
| Generator.WithDisplayName | src/ui_generator.js:57 | the controller's display_name is set and every other field of the controller and schema is kept |
| Generator.SetControllerDisplayName | src/ui_generator.js:54-73 | only a string non-empty after trim is stored; anything else warns and changes nothing; a primitive controller throws |
| Generator.AcceptableIsTrimmed | src/ui_generator.js:55 | a value is accepted as a display name exactly when it is a string that is not empty after trim |
| Generator.RenameController | src/ui_generator.js:57-59 | storing the name throws exactly when the schema's controller is a primitive, writes `display_name` into an object controller, and changes nothing but the schema |
| Generator.DisplayNameRoundTrip | src/ui_generator.js:46-57 | a name set is the name read back |
| Generator.Hide | src/ui_generator.js:123-125 | an item whose schema has visibility false is hidden, and nothing else changes |
| Generator.Place | src/ui_generator.js:121-130 | a created item is rendered; a tab, which renders no node, throws; a hidden item is hidden; the item map gains the element under its id and loses no id |
| Generator.PlaceIds | src/ui_generator.js:121-130 | placing keeps every element's id, and the one entry it may add names the new element under that element's id |
| Generator.BuildItem | src/ui_generator.js:119-131 | one item schema: a throwing creation stops the build, a null creation is skipped, otherwise the item is placed |
| Generator.BuildItemIds | src/ui_generator.js:119-131 | building one item keeps every element's id and adds at most entries naming elements it created |
| Generator.BuildItems | src/ui_generator.js:118-131 | building the items keeps the generator's fields and every id already in the item map |
| Generator.BuildItemsIds | src/ui_generator.js:119-131 | every item added to the map names an element created for it, under that element's id, and existing elements keep their ids |
| Generator.GenerateUI | src/ui_generator.js:79-139 | the previous UI is destroyed first; a missing target logs an error and builds nothing; a nullish schema or controller throws; success attaches the UI |
| Generator.GenerateUIItemsNamed | src/ui_generator.js:119-131 | after generateUI every entry of the item map maps an element's id to that element |
| Generator.Teardown | src/ui_generator.js:80-82 | the destroy at the start of generateUI runs only when attached |
| Generator.DestroyItems | src/ui_generator.js:423 | destroying the items clears each of them and leaves every other element unchanged or cleared |
| Generator.DestroyUI | src/ui_generator.js:419-431 | the items are destroyed and the map cleared only when attached; the registry is always emptied |
| Generator.UpdateItemVisibility | src/ui_generator.js:194-201 | a rendered item's display is set from the flag and nothing else changes; a missing or unrendered item only warns |
| Generator.ItemVisibilityLastWins | src/ui_generator.js:194-201 | showing or hiding a rendered item twice leaves it as the second call alone would |
| Generator.Repeat | src/ui_generator.js:255-263 | n copies of the same warning |
| Generator.ForwardLineCall | src/ui_generator.js:255-263 | forwarding to the items throws iff some graphics item knows the graph id, and otherwise logs one warning per graphics item; only the log changes |
| Generator.UpdateLineData | src/ui_generator.js:255-263 | the later updateLineData forwards to every graphics container; only the log changes |
| Generator.UpdateGraphData | src/ui_generator.js:217-222 | updateGraphData warns it is deprecated, then forwards as updateLineData |
| Generator.UpdateParameter | src/ui_generator.js:433-435 | delegates unchanged to the registry's updateElementValue |
| Generator.UpdateMultipleParameters | src/ui_generator.js:438-440 | delegates unchanged to the registry's batch update, throwing iff the batch is nullish |
| Generator.GetParameterValue | src/ui_generator.js:450-452 | delegates unchanged to the registry's getParameterValue |
| Generator.ApplySchemaVisibility | src/ui_generator.js:446-448 | delegates unchanged to the registry's applySchemaVisibility |
| Generator.VisibilityPayload | src/ui_generator.js:443 | the event payload carries elementId and isVisible |
| Generator.UpdateElementVisibility | src/ui_generator.js:442-444 | publishes ELEMENT_VISIBILITY_CHANGED with elementId and isVisible |
| Generator.VisibilityRoutedToRegistry | src/state_manager.js:14-17 | on the generator's bus, a visibility event is the registry's updateElementVisibility, with a throw caught and logged |
| Generator.ParameterChangeForwarded | src/ui_generator.js:35-39 | a parameter change on the bus is sent to the server over an open socket, with its fields |
| Generator.ServerParameterUpdateEchoes | src/data_connector.js:38-43 | a server PARAMETER_UPDATE goes out again as the same PARAMETER_CHANGE over an open socket |
| Generator.ToggleNotForwarded | src/state_manager.js:22-24 | a toggle event changes nothing and sends nothing |
| Generator.ClickForwarded | src/ui_generator.js:29-33 | a click event is sent to the server as a COMMAND over an open socket |

## Left out

- DOM building and styling: the markup of every `render`, tab switching, the column and flex layout and the ResizeObserver chart resizing (src/ui_generator.js:142-174, 287-416). Rendering is modelled only as each element gaining a DOM node with a display and disabled state, plus each widget's input values.
- The chart renderer (src/chart_renderer.js) and Chart.js: they only build a chart configuration and DOM. A graphics container records only the ids of its renderers.
- The WebSocket transport: `connect`, the reconnect timer, `JSON.parse`/`JSON.stringify` and `ws.send`. The socket is its `readyState`, messages are parsed values, and sent messages are a list.
- Real time: the auto-reset `setTimeout` is a pending flag with an explicit fire step, and `clearTimeout` clears it.
- Floating point: numbers are integers, and `parseFloat` is a parse of the leading integer.
- The flags mask is a sequence of 32 booleans, least significant bit first, with explicit conversions to and from the signed 32-bit value, in place of a bit-vector type.
- Console output and `Date` timestamps: log lines are entries with a level, a message and a subject. The logger's warnings and errors are modelled; the logger's info and debug calls, the direct `console.error` and `console.log` calls of the widgets, and the `console.log` of the payload in `publish` (kept only as the throw on a nullish payload), are left out.
- Parameters.ToggleFlag: a checked box with a malformed key is skipped, but its `console.error` line (src/parameter_element.js:222, 228) is not modelled.
- Parameters.UpdateValue: a flags box with a malformed key keeps its state, but its `console.error` line (src/parameter_element.js:267, 276) is not modelled; radios are checked by the corrected comparison by string form (see "## Findings"), not by the code's `===`.
- Parameters.Render: radios are checked by the corrected comparison by string form (see "## Findings"), not by the code's `===`, which `Parameters.SyncRadiosAsWritten` models.
- Parameters.LastMatch: matches by string form, the corrected comparison, not by the code's `===`.
- Parameters.SyncRadios: checks the radio found by the corrected comparison, not by the code's `===`.
- Parameters.SyncRadiosSingle: states its property of the corrected comparison, not of the code's `===`.
- Parameters.NumericUpdateThenGet: the slider's `min`, `max` and `step` attributes (src/parameter_element.js:318-321; 0 to 100 by default in the browser) are not modelled, so a slider holds any integer written into it, where a browser clamps it to the range and rounds it to the step.
- The number input's browser-side sanitisation of its text; an input holds the string form of the value written into it.
- The flags widget's sorting of boxes by bit number (src/parameter_element.js:167-175): boxes keep the order of the bits object.
- Map keys are compared structurally, where JavaScript compares objects and arrays used as keys by reference.
- Handler callbacks (`onParameterChange`, `onCommand`) are external code: they are effects the model records, not code it runs.
- Named properties written on an array controller by `setControllerDisplayName` are not kept; the model leaves such a schema as it was.
- The validation errors printed with the "invalid schema" log line are not carried in the log entry.
- The unused `displayName` field of `UIGenerator` and the update of the heading text in `setControllerDisplayName`.
- `setControllerHeaderVisibility`, `setControllerTabsVisibility` and `setControllerGraphVisibility`: they only restyle DOM nodes.
- `updateGraphTitleVisibility` and the graphics container's `updateGraphData`/`updateGraphTitleVisibility`, which call `.find` on a `Map`.
- The `getStateManager` and `getEventManager` accessors.
- `generateUI` is given whether the target element exists instead of looking it up in the document.
- Elements.VisibleTabs: states which tabs are in the list, not that they keep their order.
- Factory.CreateAll: states that each child is fresh and that children keep their schemas' order (Factory.CreateAllInOrder), not which schemas produced a child.
- Generator.BuildItems: does not state which items end up in the item map beyond each entry naming the element created for it (Generator.BuildItemsIds).
- The demo script in the repository is not logic and is not modelled.

## Findings

| source | as written | input that shows it | evidently intended | confidence | as-written member | corrected member |
|---|---|---|---|---|---|---|
| src/parameter_element.js:579 | a radio is checked only when its input's string value is strictly equal to the cached value | a radio with options of values 1 and 2 and default 1 starts at the number 1, its inputs hold "1" and "2", and no radio is checked | the radio whose value is the cached value is checked, comparing by string form | not executed | Parameters.NumericRadioUnchecked | Parameters.OptionValueChecks |
