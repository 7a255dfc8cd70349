/**
 * The widget tree. Every element has the base fields derived from its
 * schema, an optional DOM node that exists once it is rendered, its child
 * elements, the bus subscriptions and DOM listeners it recorded, and a body
 * specific to its kind.
 *
 * Elements live in a store indexed by `Ref`, because the tree, the registry
 * and the generator's item map all hold the same objects. A child always has
 * a smaller `Ref` than its parent (children are built first), which is what
 * the recursive walks below decrease on.
 */
module Elements {
  import opened JsValue
  import opened Logging
  import opened EventBus
  import opened Effects
  import Parameters
  import Commands

  type Ref = nat

  /** The part of an element's DOM node the core writes: `style.display`,
      and `disabled` (only ever set on a group's fieldset). */
  datatype Dom = Dom(display: string, disabled: bool)

  datatype Subscription = Subscription(topic: string, callback: Callback)

  datatype Body =
    | TabsBody(width: Value, shown: seq<Ref>)          // shown: the tabs placed in the tab list
    | GraphicsBody(width: Value, graphics: Value, renderers: seq<Value>)
    | TabBody
    | GroupBody
    | ParameterBody(param: Parameters.Param)
    | CommandBody(command: Commands.Command)

  datatype Element = Element(
    id: Value,
    displayName: Value,
    visibility: Value,
    enabled: Value,
    controllerName: Value,
    handlers: Handlers,
    dom: Option<Dom>,
    children: seq<Ref>,
    subscriptions: seq<Subscription>,
    listeners: seq<string>,
    body: Body)

  /** The registry, the bus, the log and the store of elements: everything
      that element operations read and change. */
  datatype World = World(
    store: map<Ref, Element>,
    next: Ref,
    registry: map<Value, Ref>,
    bus: Bus,
    log: seq<Entry>)

  // ----- the base constructor -----

  /** `schema.id || schema.param_id || schema.command_id`. */
  function ElementId(schema: Value): (r: Value)
    ensures Truthy(Get(schema, "id")) ==> r == Get(schema, "id")
    ensures !Truthy(Get(schema, "id")) && Truthy(Get(schema, "param_id")) ==> r == Get(schema, "param_id")
    ensures !Truthy(Get(schema, "id")) && !Truthy(Get(schema, "param_id")) ==> r == Get(schema, "command_id")
  {
    Or(Or(Get(schema, "id"), Get(schema, "param_id")), Get(schema, "command_id"))
  }

  /** `schema.display_name || schema.title || id`. */
  function DisplayName(schema: Value, id: Value): (r: Value)
    ensures Truthy(Get(schema, "display_name")) ==> r == Get(schema, "display_name")
    ensures !Truthy(Get(schema, "display_name")) && Truthy(Get(schema, "title")) ==> r == Get(schema, "title")
    ensures !Truthy(Get(schema, "display_name")) && !Truthy(Get(schema, "title")) ==> r == id
  {
    Or(Or(Get(schema, "display_name"), Get(schema, "title")), id)
  }

  /** `v !== false`: only the boolean false turns a flag off. */
  function NotFalse(v: Value): (r: Value)
    ensures r.Bool? && (r.b <==> v != Bool(false))
  {
    Bool(!StrictEq(v, Bool(false)))
  }

  /** A new element of the given body: the base fields from the schema, no
      DOM, nothing recorded. */
  function NewElement(schema: Value, controllerName: Value, handlers: Handlers,
                      children: seq<Ref>, body: Body): (r: Element)
    ensures r.id == ElementId(schema) && r.displayName == DisplayName(schema, r.id)
    ensures r.visibility == NotFalse(Get(schema, "visibility")) && r.enabled == NotFalse(Get(schema, "enabled"))
    ensures r.dom.None? && r.subscriptions == [] && r.listeners == []
    ensures r.children == children && r.body == body
  {
    var id := ElementId(schema);
    Element(id, DisplayName(schema, id), NotFalse(Get(schema, "visibility")),
            NotFalse(Get(schema, "enabled")), controllerName, handlers,
            None, children, [], [], body)
  }

  /** What a widget reports its events under. */
  function OwnerOf(e: Element): Owner {
    Owner(e.id, e.controllerName, e.handlers)
  }

  // ----- update -----

  /** `updateVisibility()`: a rendered element is shown when its visibility
      is truthy and hidden otherwise; without a DOM node nothing happens. */
  function UpdateVisibility(e: Element): (r: Element)
    ensures e.dom.None? ==> r == e
    ensures e.dom.Some? ==> r.dom.Some? && r.dom.value.display == (if Truthy(e.visibility) then "" else "none")
    ensures e.dom.Some? ==> r.dom.value.disabled == e.dom.value.disabled && r.(dom := e.dom) == e
  {
    match e.dom
    case None => e
    case Some(d) => e.(dom := Some(d.(display := if Truthy(e.visibility) then "" else "none")))
  }

  /** `updateEnabledState()`: the check of `hasOwnProperty('disabled')`
      never holds for a DOM node, so only a group's fieldset is enabled or
      disabled; reading `tagName` of a missing node throws. */
  function UpdateEnabledState(e: Element): (r: Result<Element>)
    ensures r.TypeError? <==> e.dom.None?
    ensures r.Ok? && e.body.GroupBody? ==> r.value.dom == Some(e.dom.value.(disabled := !Truthy(e.enabled)))
    ensures r.Ok? && !e.body.GroupBody? ==> r.value == e
  {
    match e.dom
    case None => TypeError
    case Some(d) =>
      if e.body.GroupBody? then Ok(e.(dom := Some(d.(disabled := !Truthy(e.enabled))))) else Ok(e)
  }

  /** `update()`: visibility, then the enabled state; an element that was
      never rendered throws, keeping what was done before. */
  function Update(e: Element): (r: Completion<Element>)
    ensures r.Threw? <==> e.dom.None?
    ensures r.Threw? ==> r.state == e
    ensures r.state.(dom := e.dom) == e
    ensures r.Done? ==> r.state.dom.Some?
                        && r.state.dom.value.display == (if Truthy(e.visibility) then "" else "none")
  {
    var shown := UpdateVisibility(e);
    match UpdateEnabledState(shown)
    case TypeError => Threw(shown)
    case Ok(x) => Done(x)
  }

  // ----- subscriptions -----

  /** `subscribeToEvent(topic, c)`: subscribes on the bus and records the
      pair so that `destroy()` can take it back. */
  function SubscribeToEvent(w: World, r: Ref, topic: string, c: Callback): (w': World)
    requires r in w.store
    ensures w'.bus == Subscribe(w.bus, topic, c)
    ensures r in w'.store && w'.store[r].subscriptions == w.store[r].subscriptions + [Subscription(topic, c)]
    ensures w'.store[r].(subscriptions := w.store[r].subscriptions) == w.store[r]
    ensures forall q :: q in w.store && q != r ==> q in w'.store && w'.store[q] == w.store[q]
    ensures w'.store.Keys == w.store.Keys && w'.registry == w.registry
  {
    var e := w.store[r];
    w.(bus := Subscribe(w.bus, topic, c),
       store := w.store[r := e.(subscriptions := e.subscriptions + [Subscription(topic, c)])])
  }

  /** A bus that lost listeners and gained none. */
  ghost predicate BusShrinks(a: Bus, b: Bus) {
    forall t, c :: c in Listeners(b, t) ==> c in Listeners(a, t)
  }

  lemma UnsubscribeShrinks(b: Bus, topic: string, c: Callback)
    ensures BusShrinks(b, Unsubscribe(b, topic, c))
  {
    var r := Unsubscribe(b, topic, c);
    forall t, x | x in Listeners(r, t)
      ensures x in Listeners(b, t)
    {
      if t == topic {
        assert multiset(Listeners(r, t))[x] == multiset(Listeners(b, t))[x];
      }
    }
  }

  /** Takes back a list of subscriptions, in order. */
  function UnsubscribeAll(b: Bus, subs: seq<Subscription>): (r: Bus)
    ensures BusShrinks(b, r)
    ensures forall i :: 0 <= i < |subs| ==> subs[i].callback !in Listeners(r, subs[i].topic)
  {
    if subs == [] then b
    else
      var b1 := Unsubscribe(b, subs[0].topic, subs[0].callback);
      UnsubscribeShrinks(b, subs[0].topic, subs[0].callback);
      var r := UnsubscribeAll(b1, subs[1..]);
      assert forall i :: 1 <= i < |subs| ==> subs[i] == subs[1..][i - 1];
      r
  }

  // ----- the store -----

  /** Every child is in the store and was built before its parent. */
  predicate Wf(store: map<Ref, Element>) {
    forall q, i :: q in store && 0 <= i < |store[q].children| ==>
      store[q].children[i] in store && store[q].children[i] < q
  }

  /** An element after `destroy()`: no DOM, no children, nothing recorded,
      no renderers, no pending timer. */
  predicate Cleared(e: Element) {
    && e.dom.None? && e.children == [] && e.subscriptions == [] && e.listeners == []
    && match e.body
       case TabsBody(_, shown) => shown == []
       case GraphicsBody(_, _, renderers) => renderers == []
       case ParameterBody(p) => p.surface.None?
       case CommandBody(c) => !c.timerPending && c.button.None?
       case _ => true
  }

  /** The kind-specific part of `destroy()`, after the children are gone. */
  function ClearBody(b: Body): Body {
    match b
    case TabsBody(width, _) => TabsBody(width, [])
    case GraphicsBody(width, graphics, _) => GraphicsBody(width, graphics, [])
    case ParameterBody(p) => ParameterBody(p.(surface := None))
    case CommandBody(c) => CommandBody(Commands.Destroy(c))
    case _ => b
  }

  /** Every element of `a` is in `b`, unchanged or cleared, and elements
      from `bound` on are unchanged. */
  predicate ClearedOrKept(a: map<Ref, Element>, b: map<Ref, Element>, bound: Ref) {
    && b.Keys == a.Keys
    && (forall q :: q in a ==> b[q] == a[q] || Cleared(b[q]))
    && (forall q :: q in a && q >= bound ==> b[q] == a[q])
  }

  lemma ClearedOrKeptWf(a: map<Ref, Element>, b: map<Ref, Element>, bound: Ref)
    requires Wf(a) && ClearedOrKept(a, b, bound)
    ensures Wf(b)
  {
    forall q, i | q in b && 0 <= i < |b[q].children|
      ensures b[q].children[i] in b && b[q].children[i] < q
    {
      assert b[q] == a[q];
    }
  }

  lemma ClearedOrKeptTrans(a: map<Ref, Element>, b: map<Ref, Element>, c: map<Ref, Element>, bound: Ref)
    requires ClearedOrKept(a, b, bound) && ClearedOrKept(b, c, bound)
    ensures ClearedOrKept(a, c, bound)
  {
  }

  /** Element `r` is set to `x`, the walk below `r` clears or keeps, and
      `r` itself ends cleared. */
  lemma SetKeepSet(a: map<Ref, Element>, r: Ref, x: Element, b: map<Ref, Element>, y: Element)
    requires r in a && ClearedOrKept(a[r := x], b, r) && Cleared(y)
    ensures ClearedOrKept(a, b[r := y], r + 1)
  {
  }

  /** The walk below `r` clears or keeps, `r` is set to `x`, and a walk
      from `r` leaves `r` cleared. */
  lemma KeepSetKeep(a: map<Ref, Element>, b: map<Ref, Element>, r: Ref, x: Element, c: map<Ref, Element>)
    requires r in a && ClearedOrKept(a, b, r) && ClearedOrKept(b[r := x], c, r + 1) && Cleared(c[r])
    ensures ClearedOrKept(a, c, r + 1)
  {
  }

  /** Replacing an element by one with no more children keeps the store
      well formed. */
  lemma SetFewerChildren(a: map<Ref, Element>, r: Ref, x: Element)
    requires Wf(a) && r in a && (x.children == [] || x.children == a[r].children)
    ensures Wf(a[r := x])
  {
    var b := a[r := x];
    forall q, i | q in b && 0 <= i < |b[q].children|
      ensures b[q].children[i] in b && b[q].children[i] < q
    {
      assert b[q].children == a[q].children;
    }
  }

  /** `destroy()` of element `r`: a tabs container destroys its tabs first;
      then the base part takes back the subscriptions, drops the listeners,
      destroys the children and drops the DOM node. A command also cancels
      its timer, a graphics container drops its renderers. */
  function Destroy(w: World, r: Ref): (w': World)
    requires Wf(w.store)
    ensures ClearedOrKept(w.store, w'.store, r + 1) && Wf(w'.store)
    ensures r in w.store ==> Cleared(w'.store[r])
    ensures w'.registry == w.registry && w'.next == w.next && w'.log == w.log
    ensures BusShrinks(w.bus, w'.bus)
    ensures r in w.store ==> forall i :: 0 <= i < |w.store[r].subscriptions| ==>
              w.store[r].subscriptions[i].callback !in Listeners(w'.bus, w.store[r].subscriptions[i].topic)
    decreases r, 2, 0
  {
    if r !in w.store then w
    else
      var e := w.store[r];
      if e.body.TabsBody? then DestroyTabs(w, r) else BaseDestroy(w, r)
  }

  /** A tabs container destroys its tabs before the base part runs. */
  function DestroyTabs(w: World, r: Ref): (w': World)
    requires Wf(w.store) && r in w.store
    ensures ClearedOrKept(w.store, w'.store, r + 1) && Wf(w'.store)
    ensures Cleared(w'.store[r])
    ensures w'.registry == w.registry && w'.next == w.next && w'.log == w.log
    ensures BusShrinks(w.bus, w'.bus)
    ensures forall i :: 0 <= i < |w.store[r].subscriptions| ==>
              w.store[r].subscriptions[i].callback !in Listeners(w'.bus, w.store[r].subscriptions[i].topic)
    decreases r, 1, 1
  {
    var e := w.store[r];
    var w1 := DestroyAll(w, e.children, r);
    assert w1.store[r] == e;
    SetFewerChildren(w1.store, r, e.(children := []));
    var w2 := w1.(store := w1.store[r := e.(children := [])]);
    var w3 := BaseDestroy(w2, r);
    KeepSetKeep(w.store, w1.store, r, e.(children := []), w3.store);
    w3
  }

  function BaseDestroy(w: World, r: Ref): (w': World)
    requires Wf(w.store) && r in w.store
    ensures ClearedOrKept(w.store, w'.store, r + 1) && Wf(w'.store)
    ensures Cleared(w'.store[r])
    ensures w'.registry == w.registry && w'.next == w.next && w'.log == w.log
    ensures BusShrinks(w.bus, w'.bus)
    ensures forall i :: 0 <= i < |w.store[r].subscriptions| ==>
              w.store[r].subscriptions[i].callback !in Listeners(w'.bus, w.store[r].subscriptions[i].topic)
    decreases r, 1, 0
  {
    var e := w.store[r];
    var e1 := e.(subscriptions := [], listeners := []);
    SetFewerChildren(w.store, r, e1);
    var w1 := w.(bus := UnsubscribeAll(w.bus, e.subscriptions), store := w.store[r := e1]);
    var w2 := DestroyAll(w1, e.children, r);
    var y := e1.(children := [], dom := None, body := ClearBody(e.body));
    SetKeepSet(w.store, r, e1, w2.store, y);
    SetFewerChildren(w2.store, r, y);
    w2.(store := w2.store[r := y])
  }

  /** Destroys each of `cs`, in order; all of them are below `bound`. */
  function DestroyAll(w: World, cs: seq<Ref>, bound: Ref): (w': World)
    requires Wf(w.store)
    requires forall i :: 0 <= i < |cs| ==> cs[i] < bound
    ensures ClearedOrKept(w.store, w'.store, bound) && Wf(w'.store)
    ensures forall i :: 0 <= i < |cs| && cs[i] in w.store ==> Cleared(w'.store[cs[i]])
    ensures w'.registry == w.registry && w'.next == w.next && w'.log == w.log
    ensures BusShrinks(w.bus, w'.bus)
    decreases bound, 0, |cs|
  {
    if cs == [] then w
    else
      var w1 := Destroy(w, cs[0]);
      var w2 := DestroyAll(w1, cs[1..], bound);
      ClearedOrKeptTrans(w.store, w1.store, w2.store, bound);
      assert forall i :: 1 <= i < |cs| ==> cs[i] == cs[1..][i - 1];
      w2
  }

  /** Destroying an element destroys its whole subtree: each child is
      cleared as well. */
  lemma DestroyClearsChildren(w: World, r: Ref, i: nat)
    requires Wf(w.store) && r in w.store && i < |w.store[r].children|
    ensures Cleared(Destroy(w, r).store[w.store[r].children[i]])
  {
    var e := w.store[r];
    var c := e.children[i];
    assert c < r;
    if e.body.TabsBody? {
      var w1 := DestroyAll(w, e.children, r);
      assert Cleared(w1.store[c]);
      var w2 := w1.(store := w1.store[r := e.(children := [])]);
      SetFewerChildren(w1.store, r, e.(children := []));
      assert Cleared(w2.store[c]);
    } else {
      var e1 := e.(subscriptions := [], listeners := []);
      SetFewerChildren(w.store, r, e1);
      var w1 := w.(bus := UnsubscribeAll(w.bus, e.subscriptions), store := w.store[r := e1]);
      assert c in w1.store;
      var w2 := DestroyAll(w1, e.children, r);
      assert Cleared(w2.store[c]);
    }
  }

  // ----- render -----

  /** The tabs a tabs container puts in its tab list: the children whose
      visibility is truthy, in order. */
  function VisibleTabs(store: map<Ref, Element>, cs: seq<Ref>): (r: seq<Ref>)
    requires forall i :: 0 <= i < |cs| ==> cs[i] in store
    ensures |r| <= |cs|
    ensures forall x :: x in r <==> x in cs && Truthy(store[x].visibility)
  {
    if cs == [] then []
    else
      var rest := VisibleTabs(store, cs[1..]);
      assert forall x :: x in cs <==> x == cs[0] || x in cs[1..];
      if Truthy(store[cs[0]].visibility) then [cs[0]] + rest else rest
  }

  /** `map.set(key)` on the keys of a `Map`: a new key goes last, an
      existing key keeps its place. */
  function MapSet(keys: seq<Value>, key: Value): (r: seq<Value>)
    ensures forall k :: k in r <==> k in keys || k == key
    ensures key in keys ==> r == keys
  {
    if key in keys then keys else keys + [key]
  }

  /** The renderer ids a graphics container collects while rendering its
      graphics; a missing graphic throws when its id is read. */
  function Renderers(graphics: seq<Value>, keys: seq<Value>): (r: Completion<seq<Value>>)
    ensures forall k :: k in keys ==> k in r.state
    ensures r.Done? <==> forall i :: 0 <= i < |graphics| ==> !Nullish(graphics[i])
    ensures r.Done? ==> forall i :: 0 <= i < |graphics| ==> Get(graphics[i], "id") in r.state
  {
    if graphics == [] then Done(keys)
    else if Nullish(graphics[0]) then Threw(keys)
    else
      var r := Renderers(graphics[1..], MapSet(keys, Get(graphics[0], "id")));
      assert forall i :: 1 <= i < |graphics| ==> graphics[i] == graphics[1..][i - 1];
      r
  }

  /** The DOM listeners a rendered widget records through its own
      `addEventListener`; the slider, select and radio attach theirs
      directly and record none. */
  function RecordedListeners(p: Parameters.Param): seq<string> {
    if p.surface.None? then []
    else if p.surface.value.NumberInput? then ["change"]
    else if p.surface.value.FlagBoxes? then seq(|p.surface.value.boxes|, i => "input")
    else []
  }

  const CommandListeners: seq<string> := ["click", "mousedown", "mouseup", "mouseleave"]

  const Fresh: Dom := Dom("", false)

  /** Two elements agree on what rendering never changes. */
  predicate SameShape(x: Element, y: Element) {
    x.children == y.children && x.id == y.id && x.visibility == y.visibility
    && x.subscriptions == y.subscriptions
  }

  /** What rendering changes: only elements below `bound`, keeping every
      element's children and base fields. */
  predicate RenderedFrom(a: map<Ref, Element>, b: map<Ref, Element>, bound: Ref) {
    && b.Keys == a.Keys
    && (forall q :: q in a ==> SameShape(b[q], a[q]))
    && (forall q :: q in a && q >= bound ==> b[q] == a[q])
  }

  lemma RenderedFromWf(a: map<Ref, Element>, b: map<Ref, Element>, bound: Ref)
    requires Wf(a) && RenderedFrom(a, b, bound)
    ensures Wf(b)
  {
    forall q, i | q in b && 0 <= i < |b[q].children|
      ensures b[q].children[i] in b && b[q].children[i] < q
    {
      assert b[q].children == a[q].children;
    }
  }

  /** Setting element `r` to one of the same shape after a walk below `r`. */
  lemma RenderedSet(a: map<Ref, Element>, b: map<Ref, Element>, r: Ref, x: Element)
    requires r in a && RenderedFrom(a, b, r) && SameShape(x, a[r])
    ensures RenderedFrom(a, b[r := x], r + 1)
  {
  }

  lemma RenderedFromTrans(a: map<Ref, Element>, b: map<Ref, Element>, c: map<Ref, Element>, bound: Ref)
    requires RenderedFrom(a, b, bound) && RenderedFrom(b, c, bound)
    ensures RenderedFrom(a, c, bound)
  {
  }

  /** `render()` of element `r` and, through it, of its subtree. A throw (an
      option list that is not an array, a missing option or graphic) stops
      the walk with what was rendered so far. */
  function Render(w: World, r: Ref): (c: Completion<World>)
    requires Wf(w.store) && r in w.store
    ensures RenderedFrom(w.store, c.state.store, r + 1) && Wf(c.state.store)
    ensures c.state.registry == w.registry && c.state.bus == w.bus && c.state.log == w.log && c.state.next == w.next
    ensures c.Done? ==> c.state.store[r].dom == Some(Fresh)
    decreases r, 2, 0
  {
    var e := w.store[r];
    match e.body
    case TabBody => RenderTab(w, r)
    case GroupBody => RenderGroup(w, r)
    case TabsBody(_, _) => RenderTabs(w, r)
    case GraphicsBody(_, _, _) => RenderGraphics(w, r)
    case ParameterBody(_) => RenderLeaf(w, r)
    case CommandBody(_) => RenderLeaf(w, r)
  }

  /** A tab takes its DOM node before its groups render. */
  function RenderTab(w: World, r: Ref): (c: Completion<World>)
    requires Wf(w.store) && r in w.store
    ensures RenderedFrom(w.store, c.state.store, r + 1) && Wf(c.state.store)
    ensures c.state.registry == w.registry && c.state.bus == w.bus && c.state.log == w.log && c.state.next == w.next
    ensures c.state.store[r].dom == Some(Fresh)
    decreases r, 1, 0
  {
    var e := w.store[r];
    var x := e.(dom := Some(Fresh));
    assert RenderedFrom(w.store, w.store, r);
    RenderedSet(w.store, w.store, r, x);
    var w1 := w.(store := w.store[r := x]);
    RenderedFromWf(w.store, w1.store, r + 1);
    var c := RenderAll(w1, e.children, r);
    RenderedFromTrans(w.store, w1.store, c.state.store, r + 1);
    c
  }

  /** A group takes its fieldset once its items are rendered. */
  function RenderGroup(w: World, r: Ref): (c: Completion<World>)
    requires Wf(w.store) && r in w.store
    ensures RenderedFrom(w.store, c.state.store, r + 1) && Wf(c.state.store)
    ensures c.state.registry == w.registry && c.state.bus == w.bus && c.state.log == w.log && c.state.next == w.next
    ensures c.Done? ==> c.state.store[r].dom == Some(Fresh)
    decreases r, 1, 0
  {
    var e := w.store[r];
    var c := RenderAll(w, e.children, r);
    if c.Threw? then c
    else
      var x := e.(dom := Some(Fresh));
      RenderedSet(w.store, c.state.store, r, x);
      RenderedFromWf(w.store, c.state.store[r := x], r + 1);
      Done(c.state.(store := c.state.store[r := x]))
  }

  /** A tabs container renders all its tabs and lists the visible ones. */
  function RenderTabs(w: World, r: Ref): (c: Completion<World>)
    requires Wf(w.store) && r in w.store && w.store[r].body.TabsBody?
    ensures RenderedFrom(w.store, c.state.store, r + 1) && Wf(c.state.store)
    ensures c.state.registry == w.registry && c.state.bus == w.bus && c.state.log == w.log && c.state.next == w.next
    ensures c.Done? ==> c.state.store[r].dom == Some(Fresh)
    ensures c.Done? ==> c.state.store[r].body == TabsBody(w.store[r].body.width, VisibleTabs(w.store, w.store[r].children))
    decreases r, 1, 0
  {
    var e := w.store[r];
    var c := RenderAll(w, e.children, r);
    if c.Threw? then c
    else
      var shown := VisibleTabs(c.state.store, e.children);
      assert shown == VisibleTabs(w.store, e.children) by {
        VisibleTabsSame(w.store, c.state.store, e.children, r);
      }
      var x := e.(dom := Some(Fresh), body := TabsBody(e.body.width, shown));
      RenderedSet(w.store, c.state.store, r, x);
      RenderedFromWf(w.store, c.state.store[r := x], r + 1);
      Done(c.state.(store := c.state.store[r := x]))
  }

  /** Rendering does not change which tabs are visible. */
  lemma {:induction false} VisibleTabsSame(a: map<Ref, Element>, b: map<Ref, Element>, cs: seq<Ref>, bound: Ref)
    requires RenderedFrom(a, b, bound) && forall i :: 0 <= i < |cs| ==> cs[i] in a
    ensures VisibleTabs(b, cs) == VisibleTabs(a, cs)
  {
    if cs != [] {
      VisibleTabsSame(a, b, cs[1..], bound);
    }
  }

  /** A graphics container builds one renderer per graphic when `graphics`
      is an array. */
  function RenderGraphics(w: World, r: Ref): (c: Completion<World>)
    requires Wf(w.store) && r in w.store && w.store[r].body.GraphicsBody?
    ensures RenderedFrom(w.store, c.state.store, r + 1) && Wf(c.state.store)
    ensures c.state.registry == w.registry && c.state.bus == w.bus && c.state.log == w.log && c.state.next == w.next
    ensures c.Done? ==> c.state.store[r].dom == Some(Fresh)
    decreases r, 1, 0
  {
    var e := w.store[r];
    var b := e.body;
    assert RenderedFrom(w.store, w.store, r);
    if !b.graphics.Arr? then
      var x := e.(dom := Some(Fresh));
      RenderedSet(w.store, w.store, r, x);
      RenderedFromWf(w.store, w.store[r := x], r + 1);
      Done(w.(store := w.store[r := x]))
    else
      var made := Renderers(b.graphics.elems, b.renderers);
      var x := if made.Threw? then e.(body := b.(renderers := made.state))
               else e.(dom := Some(Fresh), body := b.(renderers := made.state));
      RenderedSet(w.store, w.store, r, x);
      RenderedFromWf(w.store, w.store[r := x], r + 1);
      if made.Threw? then Threw(w.(store := w.store[r := x])) else Done(w.(store := w.store[r := x]))
  }

  const UnknownGraph: string := "no chart renderer with that graph id"

  /** `updateLineData`, `updateFormulaParams` or `updateLineVisibility` of a
      graphics container: an unknown graph id only warns; a known one
      reaches a chart renderer, which has no such method, so the call throws. */
  function LineCall(e: Element, graphId: Value): (r: Result<seq<Entry>>)
    requires e.body.GraphicsBody?
    ensures r.TypeError? <==> graphId in e.body.renderers
    ensures r.Ok? ==> r.value == [Entry(Warn, UnknownGraph, graphId)]
  {
    if graphId in e.body.renderers then TypeError else Ok([Entry(Warn, UnknownGraph, graphId)])
  }

  /** Once a graphics container has rendered, a line call naming any of
      its graphs throws. */
  lemma RenderedGraphThrows(w: World, r: Ref, i: nat)
    requires Wf(w.store) && r in w.store && w.store[r].body.GraphicsBody?
    requires w.store[r].body.graphics.Arr? && i < |w.store[r].body.graphics.elems|
    requires RenderGraphics(w, r).Done?
    ensures LineCall(RenderGraphics(w, r).state.store[r], Get(w.store[r].body.graphics.elems[i], "id")).TypeError?
  {
    var b := w.store[r].body;
    var made := Renderers(b.graphics.elems, b.renderers);
    assert made.Done?;
  }

  /** A parameter builds its control (which may throw), a command its
      button; both record their listeners. */
  function RenderLeaf(w: World, r: Ref): (c: Completion<World>)
    requires Wf(w.store) && r in w.store && (w.store[r].body.ParameterBody? || w.store[r].body.CommandBody?)
    ensures RenderedFrom(w.store, c.state.store, r + 1) && Wf(c.state.store)
    ensures c.state.registry == w.registry && c.state.bus == w.bus && c.state.log == w.log && c.state.next == w.next
    ensures c.Done? ==> c.state.store[r].dom == Some(Fresh)
    ensures c.Threw? ==> c.state == w
    decreases r, 1, 0
  {
    var e := w.store[r];
    assert RenderedFrom(w.store, w.store, r);
    var x :=
      if e.body.CommandBody? then
        Some(e.(dom := Some(Fresh), listeners := e.listeners + CommandListeners,
                body := CommandBody(Commands.Render(e.body.command))))
      else
        match Parameters.Render(e.body.param)
        case TypeError => None
        case Ok(q) => Some(e.(dom := Some(Fresh), listeners := e.listeners + RecordedListeners(q),
                              body := ParameterBody(q)));
    if x.None? then Threw(w)
    else
      RenderedSet(w.store, w.store, r, x.value);
      RenderedFromWf(w.store, w.store[r := x.value], r + 1);
      Done(w.(store := w.store[r := x.value]))
  }

  /** Renders each of `cs` in order, stopping at the first throw. */
  function RenderAll(w: World, cs: seq<Ref>, bound: Ref): (c: Completion<World>)
    requires Wf(w.store)
    requires forall i :: 0 <= i < |cs| ==> cs[i] in w.store && cs[i] < bound
    ensures RenderedFrom(w.store, c.state.store, bound) && Wf(c.state.store)
    ensures c.state.registry == w.registry && c.state.bus == w.bus && c.state.log == w.log && c.state.next == w.next
    decreases bound, 0, |cs|
  {
    if cs == [] then
      assert RenderedFrom(w.store, w.store, bound);
      Done(w)
    else
      var c1 := Render(w, cs[0]);
      if c1.Threw? then c1
      else
        assert forall i :: 0 <= i < |cs[1..]| ==> cs[1..][i] in c1.state.store && cs[1..][i] < bound;
        var c2 := RenderAll(c1.state, cs[1..], bound);
        RenderedFromTrans(w.store, c1.state.store, c2.state.store, bound);
        c2
  }

  /** A rendered tabs container lists exactly its visible tabs. */
  lemma TabsListVisible(w: World, r: Ref, x: Ref)
    requires Wf(w.store) && r in w.store && w.store[r].body.TabsBody?
    requires Render(w, r).Done?
    ensures var s := Render(w, r).state.store;
            s[r].body.TabsBody? &&
            (x in s[r].body.shown <==> x in w.store[r].children && Truthy(w.store[x].visibility))
  {
  }
}
