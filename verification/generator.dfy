/**
 * The composition root (`UIGenerator`): it owns the bus, the registry and
 * the factory, builds the top-level items of a schema into its item map,
 * routes bus events to the registry and the server link, and tears the
 * interface down again.
 *
 * The page outside the core is reduced to two facts: whether the target
 * element exists when `generateUI` runs, and whether the root node is
 * attached to the page.
 */
module Generator {
  import opened JsValue
  import opened Logging
  import opened EventBus
  import opened Effects
  import opened Elements
  import Registry
  import Factory
  import SchemaValidator
  import DataConnector

  const InvalidSchema: string := "schema validation failed"
  const BadDisplayName: string := "the controller display name must be a non-empty string"
  const TargetMissing: string := "target element not found"
  const UnknownItem: string := "item not found for a visibility change"
  const GraphDataDeprecated: string := "updateGraphData is deprecated, use updateLineData"
  const HandlerFailed: string := "error in an event handler"

  /** An entry of the item map: a top-level element by its id. */
  datatype Item = Item(id: Value, ref: Ref)

  /** A generator: its controller name (the `controllerId` it was given),
      the schema it holds, the element handlers, the world of elements, the
      item map in insertion order, whether the root node is attached, and
      the server link once one is set. */
  datatype Ui = Ui(
    controllerName: Value,
    schema: Value,
    handlers: Handlers,
    world: World,
    items: seq<Item>,
    attached: bool,
    connector: Option<DataConnector.Connector>)

  // ----- the item map -----

  predicate DistinctIds(items: seq<Item>) {
    forall i, j :: 0 <= i < j < |items| ==> items[i].id != items[j].id
  }

  /** `itemsMap.get(id)`. */
  function ItemRef(items: seq<Item>, id: Value): (r: Option<Ref>)
    ensures r.Some? ==> Item(id, r.value) in items
    ensures r.None? <==> forall i :: 0 <= i < |items| ==> items[i].id != id
  {
    if items == [] then None
    else if items[0].id == id then Some(items[0].ref)
    else ItemRef(items[1..], id)
  }

  /** `itemsMap.set(it.id, it.ref)`: a new id goes last, a known one keeps
      its place and takes the new element. */
  function ItemsSet(items: seq<Item>, it: Item): (r: seq<Item>)
    ensures ItemRef(r, it.id) == Some(it.ref)
    ensures forall k :: k != it.id ==> ItemRef(r, k) == ItemRef(items, k)
    ensures |items| <= |r| <= |items| + 1
    decreases |items|
  {
    if items == [] then [it]
    else if items[0].id == it.id then
      assert ([it] + items[1..])[1..] == items[1..];
      [it] + items[1..]
    else
      var rest := ItemsSet(items[1..], it);
      assert ([items[0]] + rest)[1..] == rest;
      [items[0]] + rest
  }

  /** Setting an entry keeps the ids distinct and adds no entry but `it`. */
  lemma {:induction false} ItemsSetKeeps(items: seq<Item>, it: Item)
    ensures forall x :: x in ItemsSet(items, it) ==> x in items || x == it
    ensures DistinctIds(items) ==> DistinctIds(ItemsSet(items, it))
    decreases |items|
  {
    if items != [] && items[0].id != it.id {
      ItemsSetKeeps(items[1..], it);
      var rest := ItemsSet(items[1..], it);
      assert ItemsSet(items, it) == [items[0]] + rest;
      assert forall x :: x in items[1..] ==> x in items;
      if DistinctIds(items) {
        DistinctTail(items);
        RestAvoidsHead(items, it, rest);
        DistinctCons(items[0], rest);
      }
    } else if items != [] {
      assert ItemsSet(items, it) == [it] + items[1..];
      assert forall x :: x in items[1..] ==> x in items;
      if DistinctIds(items) {
        DistinctTail(items);
        DistinctCons(it, items[1..]);
      }
    }
  }

  lemma DistinctTail(items: seq<Item>)
    requires items != [] && DistinctIds(items)
    ensures DistinctIds(items[1..])
    ensures forall j :: 0 <= j < |items[1..]| ==> items[1..][j].id != items[0].id
  {
    forall i, j | 0 <= i < j < |items[1..]| ensures items[1..][i].id != items[1..][j].id {
      assert items[1..][i] == items[i + 1] && items[1..][j] == items[j + 1];
    }
    forall j | 0 <= j < |items[1..]| ensures items[1..][j].id != items[0].id {
      assert items[1..][j] == items[j + 1];
    }
  }

  lemma RestAvoidsHead(items: seq<Item>, it: Item, rest: seq<Item>)
    requires items != [] && DistinctIds(items) && items[0].id != it.id
    requires forall x :: x in rest ==> x in items[1..] || x == it
    ensures forall j :: 0 <= j < |rest| ==> rest[j].id != items[0].id
  {
    DistinctTail(items);
    forall j | 0 <= j < |rest| ensures rest[j].id != items[0].id {
      assert rest[j] in rest;
      if rest[j] != it {
        var i :| 0 <= i < |items[1..]| && items[1..][i] == rest[j];
      }
    }
  }

  lemma DistinctCons(x: Item, rest: seq<Item>)
    requires DistinctIds(rest)
    requires forall j :: 0 <= j < |rest| ==> rest[j].id != x.id
    ensures DistinctIds([x] + rest)
  {
    var r := [x] + rest;
    forall i, j | 0 <= i < j < |r| ensures r[i].id != r[j].id {
      assert r[j] == rest[j - 1];
      if i > 0 { assert r[i] == rest[i - 1]; }
    }
  }

  /** What every reachable generator satisfies: a well-formed world whose
      item map names elements of the store, each id once. */
  predicate Wf(u: Ui) {
    && Factory.Wf(u.world)
    && (forall x :: x in u.items ==> x.ref in u.world.store)
    && DistinctIds(u.items)
  }

  // ----- construction -----

  /** The bus as the constructor leaves it: the registry's four listeners,
      then the generator's three. */
  function GeneratorBus(): (b: Bus)
    ensures Listeners(b, ParameterValueChanged) == [RegistryLogsParameter, GeneratorSendsParameter]
    ensures Listeners(b, ElementVisibilityChanged) == [RegistryAppliesVisibility]
    ensures Listeners(b, CommandClicked) == [RegistryLogsClick, GeneratorSendsCommand]
    ensures Listeners(b, CommandToggled) == [RegistryLogsToggle]
    ensures Listeners(b, SchemaUpdateReceived) == [GeneratorAppliesSchema]
  {
    var b0 := Registry.SubscribeRegistry(EmptyBus);
    TopicsDistinct();
    var b1 := Subscribe(b0, SchemaUpdateReceived, GeneratorAppliesSchema);
    var b2 := Subscribe(b1, CommandClicked, GeneratorSendsCommand);
    Subscribe(b2, ParameterValueChanged, GeneratorSendsParameter)
  }

  /** `new UIGenerator(controllerId, schema, handlers)`: an invalid schema is
      logged as an error and construction goes on. */
  function NewUi(controllerId: Value, schema: Value, handlers: Handlers): (r: Result<Ui>)
    ensures r.TypeError? <==> SchemaValidator.Validate(schema).TypeError?
    ensures r.Ok? ==> Wf(r.value) && r.value.items == [] && !r.value.attached && r.value.connector.None?
    ensures r.Ok? ==> r.value.controllerName == controllerId && r.value.schema == schema && r.value.handlers == handlers
    ensures r.Ok? ==> r.value.world.store == map[] && r.value.world.registry == map[] && r.value.world.bus == GeneratorBus()
    ensures r.Ok? ==> (r.value.world.log == [] <==> SchemaValidator.Validate(schema).value.valid)
    ensures r.Ok? && !SchemaValidator.Validate(schema).value.valid ==> r.value.world.log == [Entry(Error, InvalidSchema, Undefined)]
  {
    match SchemaValidator.Validate(schema)
    case TypeError => TypeError
    case Ok(report) =>
      var log := if report.valid then [] else [Entry(Error, InvalidSchema, Undefined)];
      Ok(Ui(controllerId, schema, handlers, World(map[], 0, map[], GeneratorBus(), log), [], false, None))
  }

  /** `setDataConnector(connector)`. */
  function SetDataConnector(u: Ui, c: DataConnector.Connector): (r: Ui)
    ensures r.connector == Some(c) && r.(connector := u.connector) == u
  {
    u.(connector := Some(c))
  }

  // ----- bus routing -----

  function Logged(u: Ui, es: seq<Entry>): (r: Ui)
    ensures r == u.(world := u.world.(log := u.world.log + es))
  {
    u.(world := u.world.(log := u.world.log + es))
  }

  /** A listener call inside `publish`: a throw is caught and logged. */
  function Caught(u: Ui, threw: bool): (d: Delivery<Ui>)
    ensures d.threw == threw
    ensures d.state == if threw then Logged(u, [Entry(Error, HandlerFailed, Undefined)]) else u
  {
    if threw then Delivery(Logged(u, [Entry(Error, HandlerFailed, Undefined)]), true) else Delivery(u, false)
  }

  /** What each listener the core subscribes does with an event's payload.
      The registry's debug lines are not modelled; a listener from outside
      the core does nothing the model can see. */
  function Deliver(u: Ui, cb: Callback, data: Value): (d: Delivery<Ui>)
  {
    match cb
    case RegistryAppliesVisibility =>
      var c := Registry.UpdateElementVisibility(u.world, Get(data, "elementId"), Get(data, "isVisible"));
      Caught(u.(world := c.state), c.Threw?)
    case GeneratorAppliesSchema =>
      var c := Registry.ApplySchemaVisibility(u.world, Get(data, "schema"));
      Caught(u.(world := c.state), c.Threw?)
    case GeneratorSendsCommand =>
      if u.connector.None? then Delivery(u, false)
      else
        var (c, es) := DataConnector.SendCommand(u.connector.value, Get(data, "commandId"), Get(data, "controllerName"));
        Delivery(Logged(u.(connector := Some(c)), es), false)
    case GeneratorSendsParameter =>
      if u.connector.None? then Delivery(u, false)
      else
        var (c, es) := DataConnector.SendParameterChange(u.connector.value, Get(data, "paramId"),
                                                         Get(data, "value"), Get(data, "controllerName"));
        Delivery(Logged(u.(connector := Some(c)), es), false)
    case _ => Delivery(u, false)
  }

  /** Every listener keeps the generator well formed and its item map. */
  lemma DeliverWf(u: Ui, cb: Callback, data: Value)
    ensures var r := Deliver(u, cb, data).state;
            r.items == u.items && r.world.store.Keys == u.world.store.Keys && (Wf(u) ==> Wf(r))
  {
    var r := Deliver(u, cb, data).state;
    match cb
    case RegistryAppliesVisibility =>
      var c := Registry.UpdateElementVisibility(u.world, Get(data, "elementId"), Get(data, "isVisible"));
      Registry.PreservesWf(u.world, c.state);
    case GeneratorAppliesSchema =>
      var c := Registry.ApplySchemaVisibility(u.world, Get(data, "schema"));
      Registry.PreservesWf(u.world, c.state);
    case _ =>
  }

  lemma {:induction false} DispatchWf(snapshot: seq<Callback>, data: Value, u: Ui)
    ensures var r := Dispatch(snapshot, data, u, Deliver).state;
            r.items == u.items && r.world.store.Keys == u.world.store.Keys && (Wf(u) ==> Wf(r))
    decreases |snapshot|
  {
    if snapshot != [] {
      var n := |snapshot| - 1;
      DispatchWf(snapshot[..n], data, u);
      DeliverWf(Dispatch(snapshot[..n], data, u, Deliver).state, snapshot[n], data);
    }
  }

  /** `eventManager.publish(topic, data)` on this generator's bus. */
  function PublishEvent(u: Ui, topic: string, data: Value): (c: Completion<Ui>)
    ensures topic !in u.world.bus ==> c == Done(u)
    ensures topic in u.world.bus && Nullish(data) ==> c == Threw(u)
    ensures topic in u.world.bus && !Nullish(data) ==> c == Done(Dispatch(u.world.bus[topic], data, u, Deliver).state)
    ensures c.state.items == u.items && c.state.world.store.Keys == u.world.store.Keys
    ensures Wf(u) ==> Wf(c.state)
  {
    DispatchWf(Listeners(u.world.bus, topic), data, u);
    match EventBus.Publish(u.world.bus, topic, data, u, Deliver)
    case NoTopic(s) => Done(s)
    case Aborted(s) => Threw(s)
    case Delivered(run) => Done(run.state)
  }

  /** A server message: translated, then published; a failure to handle it
      is caught by the socket's message handler and logged. */
  function ServerMessage(u: Ui, data: Value): (r: Ui)
    ensures Nullish(data) ==> r == Logged(u, [Entry(Error, DataConnector.BadMessage, Undefined)])
    ensures r.items == u.items && r.world.store.Keys == u.world.store.Keys
    ensures Wf(u) ==> Wf(r)
  {
    match DataConnector.OnMessage(data)
    case (None, es) => Logged(u, es)
    case (Some(e), _) =>
      match PublishEvent(u, e.topic, e.payload)
      case Done(x) => x
      case Threw(x) => Logged(x, [Entry(Error, DataConnector.BadMessage, Undefined)])
  }

  // ----- the controller's display name -----

  /** `getControllerDisplayName()`. */
  function ControllerDisplayName(u: Ui): (r: Result<Value>)
    ensures r.TypeError? <==> Nullish(u.schema) || Nullish(Get(u.schema, "controller"))
    ensures r.Ok? ==> r.value == Get(Get(u.schema, "controller"), "display_name")
  {
    if Nullish(u.schema) || Nullish(Get(u.schema, "controller")) then TypeError
    else Ok(Get(Get(u.schema, "controller"), "display_name"))
  }

  /** A display name the generator accepts: a string with a character
      that is not white space. */
  predicate Acceptable(v: Value) {
    v.Str? && exists i :: 0 <= i < |v.s| && !IsSpace(v.s[i])
  }

  /** That is the string whose `trim()` is not empty. */
  lemma AcceptableIsTrimmed(v: Value)
    ensures Acceptable(v) <==> v.Str? && Trim(v.s) != ""
  {
    if v.Str? {
      TrimNonEmpty(v.s);
    }
  }

  /** The schema with its controller's `display_name` set to `v`. */
  function WithDisplayName(schema: Value, v: Value): (r: Value)
    requires schema.Obj? && Get(schema, "controller").Obj?
    ensures Get(Get(r, "controller"), "display_name") == v
    ensures forall k :: k != "display_name" ==> Get(Get(r, "controller"), k) == Get(Get(schema, "controller"), k)
    ensures forall k :: k != "controller" ==> Get(r, k) == Get(schema, k)
  {
    var c := Get(schema, "controller");
    var c' := Obj(WithField(c.fields, "display_name", v));
    Obj(WithField(schema.fields, "controller", c'))
  }

  /** Only an object has a property named `controller` that is an object or
      an array. */
  lemma ControllerOnlyInObject(v: Value)
    ensures (Get(v, "controller").Obj? || Get(v, "controller").Arr?) ==> v.Obj?
  {
    assert "controller"[0] == 'c';
    assert IndexKey("controller").None?;
  }

  /** `setControllerDisplayName(v)`: an acceptable name is written into the
      schema's controller; anything else only warns. */
  function SetControllerDisplayName(u: Ui, v: Value): (r: Result<Ui>)
    ensures !Acceptable(v) ==> r == Ok(Logged(u, [Entry(Warn, BadDisplayName, v)]))
    ensures Acceptable(v) ==>
              (r.TypeError? <==> !(Get(u.schema, "controller").Obj? || Get(u.schema, "controller").Arr?))
    ensures Acceptable(v) && r.Ok? ==> r.value.(schema := u.schema) == u
    ensures Acceptable(v) && Get(u.schema, "controller").Obj? ==>
              r.Ok? && r.value.schema == WithDisplayName(u.schema, v)
  {
    if !Acceptable(v) then Ok(Logged(u, [Entry(Warn, BadDisplayName, v)]))
    else RenameController(u, v)
  }

  /** The write itself, in place: writing to a missing controller or to a
      primitive throws, in strict code; an array takes the property but
      keeps no `display_name` the model reads. */
  function RenameController(u: Ui, v: Value): (r: Result<Ui>)
    ensures r.TypeError? <==> !(Get(u.schema, "controller").Obj? || Get(u.schema, "controller").Arr?)
    ensures r.Ok? ==> r.value.(schema := u.schema) == u
    ensures Get(u.schema, "controller").Obj? ==> r.Ok? && r.value.schema == WithDisplayName(u.schema, v)
  {
    var c := Get(u.schema, "controller");
    if c.Obj? then ControllerOnlyInObject(u.schema); Ok(u.(schema := WithDisplayName(u.schema, v)))
    else if c.Arr? then Ok(u)
    else TypeError
  }

  /** Setting an acceptable name and reading it back gives that name. */
  lemma DisplayNameRoundTrip(u: Ui, v: Value)
    requires Acceptable(v) && Get(u.schema, "controller").Obj?
    ensures SetControllerDisplayName(u, v).Ok?
    ensures ControllerDisplayName(SetControllerDisplayName(u, v).value) == Ok(v)
  {
  }

  // ----- generateUI -----

  /** The item's node is hidden (`style.display = 'none'`). */
  function Hide(w: World, r: Ref): (w': World)
    requires r in w.store
    ensures w'.store == w.store[r := w.store[r].(dom := Some(Dom("none", if w.store[r].dom.Some? then w.store[r].dom.value.disabled else false)))]
    ensures w'.registry == w.registry && w'.next == w.next && w'.log == w.log && w'.bus == w.bus
  {
    var e := w.store[r];
    var d := if e.dom.Some? then e.dom.value else Fresh;
    w.(store := w.store[r := e.(dom := Some(d.(display := "none")))])
  }

  /** Building one top-level item either stops (the build threw) or moves
      on with the state it leaves. */
  datatype Step = Stop(state: Ui) | Next(state: Ui)

  /** `b` keeps every element of `a` under its id and allocates no lower. */
  predicate IdsKept(a: World, b: World) {
    && a.next <= b.next
    && (forall q :: q in a.store ==> q in b.store && b.store[q].id == a.store[q].id)
  }

  /** `v` keeps every element of `u` under its id, and each item `v` adds
      names an element allocated after `u`, under that element's id. */
  predicate KeepsIds(u: Ui, v: Ui) {
    && IdsKept(u.world, v.world)
    && (forall x :: x in v.items ==>
          x in u.items || (u.world.next <= x.ref && x.ref in v.world.store && v.world.store[x.ref].id == x.id))
  }

  /** The generator's own fields, which building leaves alone. */
  predicate SameFields(u: Ui, v: Ui) {
    && v.controllerName == u.controllerName && v.schema == u.schema && v.attached == u.attached
    && v.connector == u.connector && v.handlers == u.handlers
  }

  /** A created item, rendered: a tab's render gives no DOM node, so using
      it as one throws; a `hidden` item is hidden; the built item enters the
      item map under its id. */
  function Place(u: Ui, w1: World, r: Ref, hidden: bool): (c: Step)
    requires Factory.Wf(w1) && r in w1.store
    requires (forall x :: x in u.items ==> x.ref in w1.store) && DistinctIds(u.items)
    ensures Wf(c.state) && SameFields(u, c.state)
    ensures forall k :: ItemRef(u.items, k).Some? ==> ItemRef(c.state.items, k).Some?
  {
    match Render(w1, r)
    case Threw(w2) => RenderedWf(w1, w2, r); Stop(u.(world := w2))
    case Done(w2) =>
      RenderedWf(w1, w2, r);
      if w2.store[r].body.TabBody? then Stop(u.(world := w2))
      else
        var w3 := if hidden then Hide(w2, r) else w2;
        HideWf(w2, w3, r);
        ItemsSetKeeps(u.items, Item(w2.store[r].id, r));
        Next(u.(world := w3, items := ItemsSet(u.items, Item(w2.store[r].id, r))))
  }

  /** One top-level item: it is created, and a null creation is skipped;
      an item whose schema has `visibility === false` is hidden. */
  function BuildItem(u: Ui, e: Value): (c: Step)
    requires Wf(u)
    ensures Wf(c.state) && SameFields(u, c.state)
    ensures forall k :: ItemRef(u.items, k).Some? ==> ItemRef(c.state.items, k).Some?
  {
    match Factory.Create(u.world, e, u.controllerName, u.handlers)
    case Failed(w1) => Stop(u.(world := w1))
    case Made(w1, None) => Next(u.(world := w1))
    case Made(w1, Some(r)) => Place(u, w1, r, Get(e, "visibility") == Bool(false))
  }

  /** Placing an item keeps every element's id, and the item it adds maps
      the new element's id to it. */
  lemma PlaceIds(u: Ui, w1: World, r: Ref, hidden: bool)
    requires Factory.Wf(w1) && r in w1.store
    requires (forall x :: x in u.items ==> x.ref in w1.store) && DistinctIds(u.items)
    ensures IdsKept(w1, Place(u, w1, r, hidden).state.world)
    ensures forall x :: x in Place(u, w1, r, hidden).state.items ==>
              x in u.items || (x.ref == r && r in Place(u, w1, r, hidden).state.world.store
                               && Place(u, w1, r, hidden).state.world.store[r].id == x.id)
  {
    match Render(w1, r)
    case Threw(w2) =>
      assert IdsKept(w1, w2);
    case Done(w2) =>
      if !w2.store[r].body.TabBody? {
        var w3 := if hidden then Hide(w2, r) else w2;
        assert IdsKept(w1, w3);
        ItemsSetKeeps(u.items, Item(w2.store[r].id, r));
      }
  }

  /** Building one item keeps every existing element's id, and the item it
      adds maps the id of an element it created to that element. */
  lemma BuildItemIds(u: Ui, e: Value)
    requires Wf(u)
    ensures KeepsIds(u, BuildItem(u, e).state)
  {
    match Factory.Create(u.world, e, u.controllerName, u.handlers)
    case Failed(w1) =>
      assert IdsKept(u.world, w1);
    case Made(w1, None) =>
      assert IdsKept(u.world, w1);
    case Made(w1, Some(r)) =>
      assert IdsKept(u.world, w1) && r !in u.world.store;
      PlaceIds(u, w1, r, Get(e, "visibility") == Bool(false));
  }

  /** The top-level items in order, until one of them throws. */
  function BuildItems(u: Ui, es: seq<Value>): (c: Completion<Ui>)
    requires Wf(u)
    ensures Wf(c.state) && SameFields(u, c.state)
    ensures forall k :: ItemRef(u.items, k).Some? ==> ItemRef(c.state.items, k).Some?
    decreases |es|
  {
    if es == [] then Done(u)
    else
      match BuildItem(u, es[0])
      case Stop(v) => Threw(v)
      case Next(v) => BuildItems(v, es[1..])
  }

  lemma KeepsIdsTrans(u: Ui, v: Ui, c: Ui)
    requires KeepsIds(u, v) && KeepsIds(v, c)
    ensures KeepsIds(u, c)
  {
  }

  /** Building keeps every existing element's id, and each item it adds
      maps the id of an element it created to that element. */
  lemma {:induction false} BuildItemsIds(u: Ui, es: seq<Value>)
    requires Wf(u)
    ensures KeepsIds(u, BuildItems(u, es).state)
    decreases |es|
  {
    if es != [] {
      BuildItemIds(u, es[0]);
      match BuildItem(u, es[0])
      case Stop(v) =>
      case Next(v) =>
        BuildItemsIds(v, es[1..]);
        KeepsIdsTrans(u, v, BuildItems(u, es).state);
    }
  }

  lemma RenderedWf(w1: World, w2: World, r: Ref)
    requires RenderedFrom(w1.store, w2.store, r + 1) && Elements.Wf(w2.store)
    requires w2.registry == w1.registry && w2.next == w1.next
    ensures Factory.Wf(w1) ==> Factory.Wf(w2)
  {
  }

  lemma HideWf(w2: World, w3: World, r: Ref)
    requires r in w2.store
    requires w3 == w2 || w3 == Hide(w2, r)
    ensures w3.store.Keys == w2.store.Keys && w3.registry == w2.registry && w3.next == w2.next
    ensures Factory.Wf(w2) ==> Factory.Wf(w3)
  {
    if w3 != w2 && Factory.Wf(w2) {
      forall q, i | q in w3.store && 0 <= i < |w3.store[q].children|
        ensures w3.store[q].children[i] in w3.store && w3.store[q].children[i] < q
      {
        assert w3.store[q].children == w2.store[q].children;
      }
    }
  }

  /** `generateUI(targetElementId)`: an attached interface is destroyed
      first; a missing target is logged as an error and nothing is built;
      reading the controller's `display_name` throws when there is no
      controller; `items` is built when it is an array; the root is attached
      at the end. */
  function GenerateUI(u: Ui, targetFound: bool): (c: Completion<Ui>)
    requires Wf(u)
    ensures Wf(c.state)
    ensures !targetFound ==> c == Done(Logged(Teardown(u), [Entry(Error, TargetMissing, Undefined)]))
    ensures c.Done? && targetFound ==> c.state.attached
    ensures c.Threw? ==> !c.state.attached
    ensures targetFound && (Nullish(u.schema) || Nullish(Get(u.schema, "controller"))) ==> c == Threw(Teardown(u))
  {
    var u1 := Teardown(u);
    if !targetFound then Done(Logged(u1, [Entry(Error, TargetMissing, Undefined)]))
    else if Nullish(u1.schema) || Nullish(Get(u1.schema, "controller")) then Threw(u1)
    else
      var items := Get(Get(u1.schema, "controller"), "items");
      if items.Arr? then
        match BuildItems(u1, items.elems)
        case Threw(u2) => Threw(u2)
        case Done(u2) => Done(u2.(attached := true))
      else Done(u1.(attached := true))
  }

  /** Starting from an empty item map (a fresh generator, or one whose
      previous UI `generateUI` destroys first), every entry of the item map
      maps an element's id to that element. */
  lemma GenerateUIItemsNamed(u: Ui, targetFound: bool)
    requires Wf(u) && (u.attached || u.items == [])
    ensures var c := GenerateUI(u, targetFound);
            forall x :: x in c.state.items ==> c.state.world.store[x.ref].id == x.id
  {
    var u1 := Teardown(u);
    assert u1.items == [];
    if targetFound && !(Nullish(u1.schema) || Nullish(Get(u1.schema, "controller"))) {
      var items := Get(Get(u1.schema, "controller"), "items");
      if items.Arr? {
        BuildItemsIds(u1, items.elems);
      }
    }
  }

  /** The `destroyUI()` that `generateUI` starts with when the root is
      attached. */
  function Teardown(u: Ui): (r: Ui)
    requires Wf(u)
    ensures Wf(r) && !r.attached
    ensures r.controllerName == u.controllerName && r.schema == u.schema && r.connector == u.connector
    ensures !u.attached ==> r == u
  {
    if u.attached then DestroyUI(u) else u
  }

  // ----- destroyUI -----

  /** Destroys the elements of the item map in insertion order. */
  function DestroyItems(w: World, items: seq<Item>): (w': World)
    requires Elements.Wf(w.store)
    ensures Elements.Wf(w'.store) && w'.store.Keys == w.store.Keys
    ensures w'.registry == w.registry && w'.next == w.next && w'.log == w.log
    ensures forall q :: q in w.store ==> w'.store[q] == w.store[q] || Cleared(w'.store[q])
    ensures forall x :: x in items && x.ref in w.store ==> Cleared(w'.store[x.ref])
    decreases |items|
  {
    if items == [] then w
    else
      var w1 := Destroy(w, items[0].ref);
      var w2 := DestroyItems(w1, items[1..]);
      assert forall x :: x in items ==> x == items[0] || x in items[1..];
      w2
  }

  /** `destroyUI()`: only an attached interface has its items destroyed and
      its item map cleared; the registry is cleared in every case. */
  function DestroyUI(u: Ui): (r: Ui)
    requires Wf(u)
    ensures Wf(r) && !r.attached && r.world.registry == map[]
    ensures r.world.store.Keys == u.world.store.Keys
    ensures u.attached ==> r.items == [] && forall x :: x in u.items ==> Cleared(r.world.store[x.ref])
    ensures !u.attached ==> r == u.(world := Registry.ClearElements(u.world))
    ensures r.controllerName == u.controllerName && r.schema == u.schema && r.connector == u.connector
  {
    if u.attached then
      var w := DestroyItems(u.world, u.items);
      u.(world := Registry.ClearElements(w), items := [], attached := false)
    else u.(world := Registry.ClearElements(u.world))
  }

  // ----- item and graph operations -----

  /** `updateItemVisibility(id, v)`: shows or hides a rendered item of the
      map; a missing id or an item without a node only warns. */
  function UpdateItemVisibility(u: Ui, id: Value, vis: Value): (r: Ui)
    requires Wf(u)
    ensures Wf(r) && r.items == u.items
    ensures r.world.store.Keys == u.world.store.Keys
    ensures ItemRef(u.items, id).Some? && u.world.store[ItemRef(u.items, id).value].dom.Some? ==>
              var q := ItemRef(u.items, id).value;
              && r.world.log == u.world.log
              && r.world.store[q] == u.world.store[q].(dom := Some(u.world.store[q].dom.value.(display := if Truthy(vis) then "" else "none")))
              && (forall p :: p in u.world.store && p != q ==> r.world.store[p] == u.world.store[p])
    ensures !(ItemRef(u.items, id).Some? && u.world.store[ItemRef(u.items, id).value].dom.Some?) ==>
              r == Logged(u, [Entry(Warn, UnknownItem, id)])
  {
    match ItemRef(u.items, id)
    case Some(q) =>
      if u.world.store[q].dom.Some? then
        var r := SetDisplay(u, q, vis);
        HideWfAny(u.world, r.world, q);
        r
      else Logged(u, [Entry(Warn, UnknownItem, id)])
    case None => Logged(u, [Entry(Warn, UnknownItem, id)])
  }

  /** `style.display` of the rendered element `q`: shown for a truthy flag,
      `none` otherwise. */
  function SetDisplay(u: Ui, q: Ref, vis: Value): Ui
    requires q in u.world.store && u.world.store[q].dom.Some?
  {
    var e := u.world.store[q];
    u.(world := u.world.(store := u.world.store[q := e.(dom := Some(e.dom.value.(display := if Truthy(vis) then "" else "none")))]))
  }

  /** Showing or hiding a rendered item twice is the same as doing only the
      second: the display depends on the last flag alone. */
  lemma ItemVisibilityLastWins(u: Ui, id: Value, first: Value, second: Value)
    requires Wf(u) && ItemRef(u.items, id).Some? && u.world.store[ItemRef(u.items, id).value].dom.Some?
    ensures UpdateItemVisibility(UpdateItemVisibility(u, id, first), id, second) == UpdateItemVisibility(u, id, second)
  {
    var q := ItemRef(u.items, id).value;
    var v := UpdateItemVisibility(u, id, first);
    assert v == SetDisplay(u, q, first);
    assert UpdateItemVisibility(v, id, second) == SetDisplay(v, q, second);
    assert SetDisplay(v, q, second).world.store == SetDisplay(u, q, second).world.store;
  }

  lemma HideWfAny(a: World, b: World, q: Ref)
    requires q in a.store && q in b.store && b == a.(store := a.store[q := b.store[q]])
    requires b.store[q].children == a.store[q].children
    ensures Factory.Wf(a) ==> Factory.Wf(b)
  {
    if Factory.Wf(a) {
      forall p, i | p in b.store && 0 <= i < |b.store[p].children|
        ensures b.store[p].children[i] in b.store && b.store[p].children[i] < p
      {
        assert b.store[p].children == a.store[p].children;
      }
    }
  }

  /** Whether element `e` is a graphics container holding a renderer for
      `graphId`. */
  predicate KnowsGraph(e: Element, graphId: Value) {
    e.body.GraphicsBody? && graphId in e.body.renderers
  }

  /** How many items of the map are graphics containers. */
  function GraphicsCount(store: map<Ref, Element>, items: seq<Item>): nat
    requires forall x :: x in items ==> x.ref in store
  {
    if items == [] then 0
    else (if store[items[0].ref].body.GraphicsBody? then 1 else 0) + GraphicsCount(store, items[1..])
  }

  function Repeat(e: Entry, n: nat): (r: seq<Entry>)
    ensures |r| == n && forall i :: 0 <= i < n ==> r[i] == e
  {
    if n == 0 then [] else [e] + Repeat(e, n - 1)
  }

  /** The later `updateLineData` (the one a class keeps), and equally
      `updateFormulaParams` and `updateLineVisibility`: the call goes to
      every graphics container of the item map in order. Each one that does
      not know the graph warns; the first that does throws. */
  function ForwardLineCall(u: Ui, items: seq<Item>, graphId: Value): (c: Completion<Ui>)
    requires forall x :: x in items ==> x.ref in u.world.store
    ensures c.state.(world := u.world) == u && c.state.world.(log := u.world.log) == u.world
    ensures u.world.log <= c.state.world.log
    ensures c.Threw? <==> exists i :: 0 <= i < |items| && KnowsGraph(u.world.store[items[i].ref], graphId)
    ensures c.Done? ==>
              c.state.world.log == u.world.log + Repeat(Entry(Warn, UnknownGraph, graphId), GraphicsCount(u.world.store, items))
    decreases |items|
  {
    if items == [] then Done(u)
    else
      var e := u.world.store[items[0].ref];
      assert forall i :: 1 <= i < |items| ==> items[i] == items[1..][i - 1];
      if e.body.GraphicsBody? then
        match LineCall(e, graphId)
        case TypeError => Threw(u)
        case Ok(es) =>
          var c := ForwardLineCall(Logged(u, es), items[1..], graphId);
          assert c.Done? ==> c.state.world.log == u.world.log + es + Repeat(Entry(Warn, UnknownGraph, graphId), GraphicsCount(u.world.store, items[1..]));
          c
      else ForwardLineCall(u, items[1..], graphId)
  }

  /** `updateLineData(graphId, lineId, data)` on the generator. */
  function UpdateLineData(u: Ui, graphId: Value): (c: Completion<Ui>)
    requires Wf(u)
    ensures Wf(c.state) && c.state.(world := u.world) == u && c.state.world.(log := u.world.log) == u.world
    ensures u.world.log <= c.state.world.log
    ensures c.Threw? <==> exists x :: x in u.items && KnowsGraph(u.world.store[x.ref], graphId)
    ensures c.Done? ==>
              c.state.world.log == u.world.log + Repeat(Entry(Warn, UnknownGraph, graphId), GraphicsCount(u.world.store, u.items))
  {
    var c := ForwardLineCall(u, u.items, graphId);
    assert c.Threw? ==> exists x :: x in u.items && KnowsGraph(u.world.store[x.ref], graphId);
    assert (exists x :: x in u.items && KnowsGraph(u.world.store[x.ref], graphId)) ==> c.Threw?;
    c
  }

  /** `updateGraphData(graphId, data)`: a deprecation warning, then the
      line call for the line `'prakt'`. */
  function UpdateGraphData(u: Ui, graphId: Value): (c: Completion<Ui>)
    requires Wf(u)
    ensures Wf(c.state) && c.state.items == u.items && c.state.world.store == u.world.store
    ensures c.Threw? <==> exists x :: x in u.items && KnowsGraph(u.world.store[x.ref], graphId)
    ensures u.world.log + [Entry(Warn, GraphDataDeprecated, Undefined)] <= c.state.world.log
    ensures c.Done? ==>
              c.state.world.log == u.world.log + [Entry(Warn, GraphDataDeprecated, Undefined)]
                                   + Repeat(Entry(Warn, UnknownGraph, graphId), GraphicsCount(u.world.store, u.items))
  {
    var u1 := Logged(u, [Entry(Warn, GraphDataDeprecated, Undefined)]);
    UpdateLineData(u1, graphId)
  }

  // ----- delegations -----

  /** `updateParameter(id, v)`. */
  function UpdateParameter(u: Ui, id: Value, v: Value): (r: Ui)
    requires Wf(u)
    ensures Wf(r) && r == u.(world := Registry.UpdateElementValue(u.world, id, v))
  {
    var w := Registry.UpdateElementValue(u.world, id, v);
    Registry.PreservesWf(u.world, w);
    u.(world := w)
  }

  /** `updateMultipleParameters(obj)`. */
  function UpdateMultipleParameters(u: Ui, obj: Value): (r: Result<Ui>)
    requires Wf(u)
    ensures r.TypeError? <==> Nullish(obj)
    ensures r.Ok? ==> Wf(r.value) && r.value == u.(world := Registry.UpdateMultipleElementValues(u.world, obj).value)
  {
    match Registry.UpdateMultipleElementValues(u.world, obj)
    case TypeError => TypeError
    case Ok(w) => Registry.PreservesWf(u.world, w); Ok(u.(world := w))
  }

  /** `getParameterValue(id)`, with the warning it may log. */
  function GetParameterValue(u: Ui, id: Value): (r: (Value, Ui))
    ensures r.0 == Registry.GetParameterValue(u.world, id).0
    ensures r.1 == u.(world := u.world.(log := Registry.GetParameterValue(u.world, id).1))
  {
    var (v, log) := Registry.GetParameterValue(u.world, id);
    (v, u.(world := u.world.(log := log)))
  }

  /** `applySchemaVisibility(schema)`. */
  function ApplySchemaVisibility(u: Ui, s: Value): (c: Completion<Ui>)
    requires Wf(u)
    ensures Wf(c.state)
    ensures c.state == u.(world := Registry.ApplySchemaVisibility(u.world, s).state)
    ensures c.Threw? <==> Registry.ApplySchemaVisibility(u.world, s).Threw?
  {
    var x := Registry.ApplySchemaVisibility(u.world, s);
    Registry.PreservesWf(u.world, x.state);
    if x.Threw? then Threw(u.(world := x.state)) else Done(u.(world := x.state))
  }

  function VisibilityPayload(id: Value, vis: Value): (p: Value)
    ensures Get(p, "elementId") == id && Get(p, "isVisible") == vis
  {
    var fs := [Field("elementId", id), Field("isVisible", vis)];
    assert Lookup(fs[1..], "isVisible") == Some(vis);
    Obj(fs)
  }

  /** `updateElementVisibility(id, v)`: published on the bus. */
  function UpdateElementVisibility(u: Ui, id: Value, vis: Value): (c: Completion<Ui>)
    ensures c == PublishEvent(u, ElementVisibilityChanged, VisibilityPayload(id, vis))
    ensures Wf(u) ==> Wf(c.state)
  {
    PublishEvent(u, ElementVisibilityChanged, VisibilityPayload(id, vis))
  }

  // ----- end-to-end properties -----

  /** A generator whose bus is the one its constructor made. */
  predicate Routed(u: Ui) {
    u.world.bus == GeneratorBus()
  }

  /** Dispatching a one-listener snapshot is that listener's call. */
  lemma DispatchOne(cb: Callback, data: Value, u: Ui)
    ensures Dispatch([cb], data, u, Deliver).state == Deliver(u, cb, data).state
  {
    assert [cb][..0] == [];
  }

  /** Dispatching a two-listener snapshot is the second listener's call on
      what the first left. */
  lemma DispatchTwo(a: Callback, b: Callback, data: Value, u: Ui)
    ensures Dispatch([a, b], data, u, Deliver).state
            == Deliver(Deliver(u, a, data).state, b, data).state
  {
    assert [a, b][..1] == [a];
    DispatchOne(a, data, u);
  }

  /** On the generator's bus, a topic with listeners runs exactly those
      listeners on a payload that is not null or undefined. */
  lemma PublishOnBus(u: Ui, topic: string, data: Value, snapshot: seq<Callback>)
    requires Routed(u) && Listeners(GeneratorBus(), topic) == snapshot && snapshot != [] && !Nullish(data)
    ensures PublishEvent(u, topic, data) == Done(Dispatch(snapshot, data, u, Deliver).state)
  {
    assert topic in u.world.bus;
  }

  /** The registry's debug listeners change nothing the model keeps. */
  lemma LogsOnly(u: Ui, cb: Callback, data: Value)
    requires cb == RegistryLogsParameter || cb == RegistryLogsClick || cb == RegistryLogsToggle
    ensures Deliver(u, cb, data).state == u
  {
  }

  /** A visibility change published on the bus reaches the registry's
      `updateElementVisibility`, whose throw is caught and logged. */
  lemma VisibilityRoutedToRegistry(u: Ui, id: Value, vis: Value)
    requires Routed(u)
    ensures var x := Registry.UpdateElementVisibility(u.world, id, vis);
            UpdateElementVisibility(u, id, vis) == Done(Caught(u.(world := x.state), x.Threw?).state)
  {
    var p := VisibilityPayload(id, vis);
    PublishOnBus(u, ElementVisibilityChanged, p, [RegistryAppliesVisibility]);
    DispatchOne(RegistryAppliesVisibility, p, u);
    VisibilityApplied(u, p, id, vis);
  }

  /** The registry's visibility listener applies the event's id and state. */
  lemma VisibilityApplied(u: Ui, p: Value, id: Value, vis: Value)
    requires Get(p, "elementId") == id && Get(p, "isVisible") == vis
    ensures var x := Registry.UpdateElementVisibility(u.world, id, vis);
            Deliver(u, RegistryAppliesVisibility, p).state == Caught(u.(world := x.state), x.Threw?).state
  {
  }

  /** A parameter change published on the bus is sent to the server as a
      `PARAMETER_CHANGE` with the event's fields; no element changes. */
  lemma ParameterChangeForwarded(u: Ui, c: DataConnector.Connector, payload: Value)
    requires Routed(u) && u.connector == Some(c) && DataConnector.IsOpen(c) && !Nullish(payload)
    ensures var r := PublishEvent(u, ParameterValueChanged, payload);
            && r.Done? && r.state.world.store == u.world.store
            && r.state.connector.Some?
            && r.state.connector.value.sent
               == c.sent + [DataConnector.ParameterChangeMessage(Get(payload, "paramId"), Get(payload, "value"),
                                                                 Get(payload, "controllerName"))]
  {
    PublishOnBus(u, ParameterValueChanged, payload, [RegistryLogsParameter, GeneratorSendsParameter]);
    DispatchTwo(RegistryLogsParameter, GeneratorSendsParameter, payload, u);
    LogsOnly(u, RegistryLogsParameter, payload);
    ParameterSent(u, c, payload);
  }

  /** The generator's parameter listener sends the change over an open
      socket and touches no element. */
  lemma ParameterSent(u: Ui, c: DataConnector.Connector, payload: Value)
    requires u.connector == Some(c) && DataConnector.IsOpen(c)
    ensures var r := Deliver(u, GeneratorSendsParameter, payload).state;
            && r.world.store == u.world.store
            && r.connector.Some?
            && r.connector.value.sent
               == c.sent + [DataConnector.ParameterChangeMessage(Get(payload, "paramId"), Get(payload, "value"),
                                                                 Get(payload, "controllerName"))]
  {
  }

  /** A `PARAMETER_UPDATE` from the server changes no element: the
      registry only logs the event, and the generator sends it straight back
      as a `PARAMETER_CHANGE` over an open socket. */
  lemma ServerParameterUpdateEchoes(u: Ui, c: DataConnector.Connector, id: Value, v: Value, cn: Value)
    requires Routed(u) && u.connector == Some(c) && DataConnector.IsOpen(c)
    ensures var r := ServerMessage(u, DataConnector.ParameterUpdateMessage(id, v, cn));
            && r.world.store == u.world.store
            && r.connector.Some?
            && r.connector.value.sent == c.sent + [DataConnector.ParameterChangeMessage(id, v, cn)]
  {
    var m := DataConnector.ParameterUpdateMessage(id, v, cn);
    DataConnector.ParameterUpdateRoundTrip(id, v, cn);
    var e := DataConnector.Translate(m).value.value;
    var p := e.payload;
    assert p.Obj?;
    ParameterChangeForwarded(u, c, p);
  }

  /** A toggle's `COMMAND_TOGGLED` reaches only the registry's debug line:
      nothing is sent and nothing else changes. */
  lemma ToggleNotForwarded(u: Ui, payload: Value)
    requires Routed(u) && !Nullish(payload)
    ensures PublishEvent(u, CommandToggled, payload) == Done(u)
  {
    PublishOnBus(u, CommandToggled, payload, [RegistryLogsToggle]);
    DispatchOne(RegistryLogsToggle, payload, u);
    LogsOnly(u, RegistryLogsToggle, payload);
  }

  /** A momentary command's `COMMAND_CLICKED` is sent to the server as a
      `COMMAND` with the event's command id and controller name. */
  lemma ClickForwarded(u: Ui, c: DataConnector.Connector, payload: Value)
    requires Routed(u) && u.connector == Some(c) && DataConnector.IsOpen(c) && !Nullish(payload)
    ensures var r := PublishEvent(u, CommandClicked, payload);
            && r.Done? && r.state.world.store == u.world.store
            && r.state.connector.Some?
            && r.state.connector.value.sent == c.sent + [DataConnector.CommandMessage(Get(payload, "commandId"), Get(payload, "controllerName"))]
  {
    PublishOnBus(u, CommandClicked, payload, [RegistryLogsClick, GeneratorSendsCommand]);
    DispatchTwo(RegistryLogsClick, GeneratorSendsCommand, payload, u);
    LogsOnly(u, RegistryLogsClick, payload);
    CommandSent(u, c, payload);
  }

  /** The generator's click listener sends the command over an open socket
      and touches no element. */
  lemma CommandSent(u: Ui, c: DataConnector.Connector, payload: Value)
    requires u.connector == Some(c) && DataConnector.IsOpen(c)
    ensures var r := Deliver(u, GeneratorSendsCommand, payload).state;
            && r.world.store == u.world.store
            && r.connector.Some?
            && r.connector.value.sent == c.sent + [DataConnector.CommandMessage(Get(payload, "commandId"), Get(payload, "controllerName"))]
  {
  }
}
