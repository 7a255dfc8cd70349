/**
 * The element factory (`ElementFactory`): it reads a schema's `type`, builds
 * the matching element, and registers it under its id. Containers build
 * their children first, through the same factory, so a whole subtree is
 * allocated bottom-up and registered in post-order.
 */
module Factory {
  import opened JsValue
  import opened Logging
  import opened Effects
  import opened Elements
  import Registry
  import Parameters
  import Commands

  const MissingType: string := "element schema has no type"
  const UnknownType: string := "unknown element type"
  const UnknownFrontendType: string := "unknown parameter frontend_type"

  /** The six `type` names the factory switches on. */
  const TypeNames: seq<string> := ["tabs", "graphics", "tab", "group", "parameter", "command"]

  /** What a creation leaves behind: the world and the value made, or the
      world as it was when a `TypeError` was thrown part-way. */
  datatype Outcome<T> = Made(world: World, value: T) | Failed(world: World)

  /** A tab or group built by its parent, which passes `{ ...schema, type }`. */
  datatype Nested = NestedTab | NestedGroup

  function NestedName(n: Nested): string {
    match n
    case NestedTab => "tab"
    case NestedGroup => "group"
  }

  /** The `type` name each kind of element is built for. */
  function TypeName(b: Body): (r: string)
    ensures r in TypeNames
  {
    match b
    case TabsBody(_, _) => "tabs"
    case GraphicsBody(_, _, _) => "graphics"
    case TabBody => "tab"
    case GroupBody => "group"
    case ParameterBody(_) => "parameter"
    case CommandBody(_) => "command"
  }

  /** A `type` the factory builds something for. */
  predicate KnownType(t: Value) {
    t.Str? && t.s in TypeNames
  }

  // ----- the world the factory keeps -----

  /** Every element has a ref below `next`, so a new ref is always fresh. */
  predicate Allocated(w: World) {
    forall q :: q in w.store ==> q < w.next
  }

  predicate Wf(w: World) {
    Registry.Wf(w) && Allocated(w)
  }

  /** `b` is `a` with elements, registrations and log lines added: every
      element of `a` is kept as it was and the new ones have fresh refs. */
  predicate Grows(a: World, b: World) {
    && a.next <= b.next
    && (forall q :: q in a.store ==> q in b.store && b.store[q] == a.store[q])
    && (forall q :: q in b.store && q !in a.store ==> a.next <= q)
    && a.registry.Keys <= b.registry.Keys
    && a.log <= b.log
    && a.bus == b.bus
  }

  lemma GrowsTrans(a: World, b: World, c: World)
    ensures Grows(a, b) && Grows(b, c) ==> Grows(a, c)
  {
  }

  /** `r` is an element new in `b`, not yet rendered, registered under its
      own id, with children that are new as well. */
  predicate Built(a: World, b: World, r: Ref) {
    && r !in a.store && r in b.store
    && Registry.Find(b, b.store[r].id) == Some(r)
    && b.store[r].dom.None? && b.store[r].subscriptions == [] && b.store[r].listeners == []
    && (forall i :: 0 <= i < |b.store[r].children| ==> b.store[r].children[i] !in a.store)
  }

  /** The element built for a schema is of the kind its `type` names and
      carries the schema's id. */
  predicate TypedBy(w: World, s: Value, o: Outcome<Option<Ref>>) {
    Allocated(w) && o.Made? && o.value.Some? && o.value.value in o.world.store ==>
      Get(s, "type") == Str(TypeName(o.world.store[o.value.value].body))
      && o.world.store[o.value.value].id == ElementId(s)
  }

/** An element carries the factory's handlers, unless it is a tabs or
      graphics container, which are built with none. */
  predicate Handled(e: Element, h: Handlers) {
    e.handlers == h || e.body.TabsBody? || e.body.GraphicsBody?
  }

  /** Every element `b` holds and `a` did not carries the handlers `h`. */
  predicate HandledBy(a: World, b: World, h: Handlers) {
    forall q :: q in b.store && q !in a.store ==> Handled(b.store[q], h)
  }

  lemma HandledByTrans(a: World, b: World, c: World, h: Handlers)
    ensures Grows(b, c) && HandledBy(a, b, h) && HandledBy(b, c, h) ==> HandledBy(a, c, h)
  {
    if Grows(b, c) && HandledBy(a, b, h) && HandledBy(b, c, h) {
      forall q | q in c.store && q !in a.store ensures Handled(c.store[q], h) {
        if q in b.store {
          assert c.store[q] == b.store[q];
        }
      }
    }
  }

  function Warned(w: World, message: string, subject: Value): (w': World)
    ensures w' == w.(log := w.log + [Entry(Warn, message, subject)])
  {
    w.(log := w.log + [Entry(Warn, message, subject)])
  }

  /** Stores `e` under the next ref and registers it under its id. */
  function Add(w: World, e: Element): (w': World)
    ensures w'.store == w.store[w.next := e] && w'.next == w.next + 1
    ensures w'.registry == w.registry[e.id := w.next] && w'.bus == w.bus
    ensures w.log <= w'.log
  {
    Registry.Register(w.(store := w.store[w.next := e], next := w.next + 1), e.id, w.next)
  }

  /** Adding a new element whose children are already in the store keeps
      the world well formed and builds that element. */
  lemma AddBuilds(a: World, w: World, e: Element)
    requires e.dom.None? && e.subscriptions == [] && e.listeners == []
    ensures Allocated(a) && Grows(a, w) && Allocated(w) && NewChildren(a, w, e.children) ==>
              Grows(a, Add(w, e)) && Allocated(Add(w, e)) && Built(a, Add(w, e), w.next)
    ensures Allocated(w) && NewChildren(a, w, e.children) && Wf(w) ==> Wf(Add(w, e))
  {
    var w' := Add(w, e);
    assert w'.store[w.next] == e;
    if Allocated(w) && NewChildren(a, w, e.children) && Wf(w) {
      forall q, i | q in w'.store && 0 <= i < |w'.store[q].children|
        ensures w'.store[q].children[i] in w'.store && w'.store[q].children[i] < q
      {
        if q != w.next {
          assert w'.store[q] == w.store[q];
        }
      }
    }
  }

  lemma AddHandled(a: World, w: World, e: Element, h: Handlers)
    ensures Allocated(w) && HandledBy(a, w, h) && Handled(e, h) ==> HandledBy(a, Add(w, e), h)
  {
  }

  /** Refs that `w` holds and `a` did not. */
  predicate NewChildren(a: World, w: World, refs: seq<Ref>) {
    forall i :: 0 <= i < |refs| ==> refs[i] in w.store && refs[i] !in a.store
  }

  // ----- createElement -----

  /** `createElement(schema, controllerName)`.
      - a null or undefined schema throws at `schema.type`;
      - a falsy `type` only warns, and so does a `type` the switch does not
        know, or a parameter with an unknown `frontend_type`; the result is
        then null;
      - otherwise the element of that type is built and registered under
        its id, after everything built for its children. */
  function Create(w: World, s: Value, cn: Value, h: Handlers): (o: Outcome<Option<Ref>>)
    ensures Nullish(s) ==> o == Failed(w)
    ensures !Nullish(s) && !Truthy(Get(s, "type")) ==> o == Made(Warned(w, MissingType, s), None)
    ensures !Nullish(s) && Truthy(Get(s, "type")) && !KnownType(Get(s, "type")) ==>
              o == Made(Warned(w, UnknownType, Get(s, "type")), None)
    ensures o.Made? && o.value.None? <==>
              !Nullish(s) && (!KnownType(Get(s, "type"))
                              || (Get(s, "type") == Str("parameter") && Parameters.KindOf(Get(s, "frontend_type")).None?))
    ensures o.Made? && o.value.None? ==> o.world.store == w.store && |o.world.log| == |w.log| + 1
    ensures Allocated(w) ==> Grows(w, o.world) && Allocated(o.world)
    ensures Wf(w) ==> Wf(o.world)
    ensures Allocated(w) && o.Made? && o.value.Some? ==> Built(w, o.world, o.value.value)
    ensures TypedBy(w, s, o)
    ensures Allocated(w) ==> HandledBy(w, o.world, h)
    decreases Size(s), 3
  {
    if Nullish(s) then Failed(w)
    else
      var t := Get(s, "type");
      if !Truthy(t) then Made(Warned(w, MissingType, s), None)
      else if !KnownType(t) then Made(Warned(w, UnknownType, t), None)
      else CreateKnown(w, s, cn, h)
  }

  /** The switch on a `type` the factory knows. Tabs and graphics
      containers are given no handlers. */
  function CreateKnown(w: World, s: Value, cn: Value, h: Handlers): (o: Outcome<Option<Ref>>)
    requires !Nullish(s) && KnownType(Get(s, "type"))
    ensures o.Made? && o.value.None? <==>
              Get(s, "type") == Str("parameter") && Parameters.KindOf(Get(s, "frontend_type")).None?
    ensures o.Made? && o.value.None? ==> o.world.store == w.store && |o.world.log| == |w.log| + 1
    ensures Allocated(w) ==> Grows(w, o.world) && Allocated(o.world)
    ensures Wf(w) ==> Wf(o.world)
    ensures Allocated(w) && o.Made? && o.value.Some? ==> Built(w, o.world, o.value.value)
    ensures TypedBy(w, s, o)
    ensures Allocated(w) ==> HandledBy(w, o.world, h)
    decreases Size(s), 2
  {
    var t := Get(s, "type");
    if t == Str("tabs") || t == Str("tab") || t == Str("group") then CreateContainer(w, s, cn, h)
    else CreateLeaf(w, s, cn, h)
  }

  function CreateContainer(w: World, s: Value, cn: Value, h: Handlers): (o: Outcome<Option<Ref>>)
    requires Get(s, "type") in [Str("tabs"), Str("tab"), Str("group")]
    ensures o.Made? ==> o.value.Some?
    ensures Allocated(w) ==> Grows(w, o.world) && Allocated(o.world)
    ensures Wf(w) ==> Wf(o.world)
    ensures Allocated(w) && o.Made? ==> Built(w, o.world, o.value.value)
    ensures TypedBy(w, s, o)
    ensures Allocated(w) ==> HandledBy(w, o.world, h)
    decreases Size(s), 1
  {
    var t := Get(s, "type");
    if t == Str("tabs") then
      Container(w, s, s, "tabs", Some(NestedTab), cn, NoHandlers, h, TabsBody(Or(Get(s, "width"), Str("auto")), []))
    else if t == Str("tab") then Container(w, s, s, "groups", Some(NestedGroup), cn, h, h, TabBody)
    else Container(w, s, s, "items", None, cn, h, h, GroupBody)
  }

  function CreateLeaf(w: World, s: Value, cn: Value, h: Handlers): (o: Outcome<Option<Ref>>)
    requires !Nullish(s) && Get(s, "type") in [Str("graphics"), Str("parameter"), Str("command")]
    ensures o.Made? && o.value.None? <==>
              Get(s, "type") == Str("parameter") && Parameters.KindOf(Get(s, "frontend_type")).None?
    ensures o.Made? && o.value.None? ==> o.world.store == w.store && |o.world.log| == |w.log| + 1
    ensures Allocated(w) ==> Grows(w, o.world) && Allocated(o.world)
    ensures Wf(w) ==> Wf(o.world)
    ensures Allocated(w) && o.Made? && o.value.Some? ==> Built(w, o.world, o.value.value)
    ensures TypedBy(w, s, o)
    ensures Allocated(w) ==> HandledBy(w, o.world, h)
  {
    var t := Get(s, "type");
    if t == Str("graphics") then
      var body := GraphicsBody(Or(Get(s, "width"), Str("auto")), Get(s, "graphics"), []);
      assert TypeName(body) == "graphics";
      Leaf(w, s, cn, NoHandlers, body)
    else if t == Str("parameter") then CreateParameter(w, s, cn, h)
    else
      var body := CommandBody(Commands.NewCommand(s, DisplayName(s, ElementId(s))));
      assert TypeName(body) == "command";
      Leaf(w, s, cn, h, body)
  }

  /** An element without children, which no constructor step can make throw. */
  function Leaf(w: World, s: Value, cn: Value, h: Handlers, body: Body): (o: Outcome<Option<Ref>>)
    ensures o.Made? && o.value == Some(w.next) && w.next in o.world.store
    ensures Allocated(w) ==> Grows(w, o.world) && Allocated(o.world) && Built(w, o.world, w.next)
    ensures Wf(w) ==> Wf(o.world)
    ensures o.world.store[w.next].body == body && o.world.store[w.next].id == ElementId(s)
    ensures Get(s, "type") == Str(TypeName(body)) ==> TypedBy(w, s, o)
    ensures o.world.store == w.store[w.next := o.world.store[w.next]] && o.world.store[w.next].handlers == h
  {
    var e := NewElement(s, cn, h, [], body);
    AddBuilds(w, w, e);
    Made(Add(w, e), Some(w.next))
  }

  /** `_createParameterElement`: the kind named by `frontend_type`; an
      unknown one warns and builds nothing, and a radio whose options cannot
      be searched throws in its constructor. */
  function CreateParameter(w: World, s: Value, cn: Value, h: Handlers): (o: Outcome<Option<Ref>>)
    requires !Nullish(s)
    ensures Parameters.KindOf(Get(s, "frontend_type")).None? ==>
              o == Made(Warned(w, UnknownFrontendType, Get(s, "frontend_type")), None)
    ensures Parameters.KindOf(Get(s, "frontend_type")).Some? ==> !(o.Made? && o.value.None?)
    ensures o.Failed? ==> o.world == w
    ensures Allocated(w) ==> Grows(w, o.world) && Allocated(o.world)
    ensures Wf(w) ==> Wf(o.world)
    ensures Allocated(w) && o.Made? && o.value.Some? ==>
              Built(w, o.world, o.value.value) && o.world.store[o.value.value].body.ParameterBody?
              && Some(o.world.store[o.value.value].body.param.kind) == Parameters.KindOf(Get(s, "frontend_type"))
              && o.world.store[o.value.value].id == ElementId(s)
    ensures Get(s, "type") == Str("parameter") ==> TypedBy(w, s, o)
    ensures Allocated(w) ==> HandledBy(w, o.world, h)
  {
    match Parameters.KindOf(Get(s, "frontend_type"))
    case None => Made(Warned(w, UnknownFrontendType, Get(s, "frontend_type")), None)
    case Some(k) => KnownParameter(w, s, cn, h, k)
  }

  /** A parameter of a known kind; only its constructor can throw. */
  function KnownParameter(w: World, s: Value, cn: Value, h: Handlers, k: Parameters.Kind): (o: Outcome<Option<Ref>>)
    ensures o.Made? ==> o.value.Some?
    ensures o.Failed? ==> o.world == w
    ensures Allocated(w) ==> Grows(w, o.world) && Allocated(o.world)
    ensures Wf(w) ==> Wf(o.world)
    ensures Allocated(w) && o.Made? ==>
              Built(w, o.world, o.value.value) && o.world.store[o.value.value].body.ParameterBody?
              && o.world.store[o.value.value].body.param.kind == k
              && o.world.store[o.value.value].id == ElementId(s)
    ensures Get(s, "type") == Str("parameter") ==> TypedBy(w, s, o)
    ensures Allocated(w) ==> HandledBy(w, o.world, h)
  {
    var made := Parameters.NewParam(k, s);
    if made.TypeError? then Failed(w)
    else
      assert TypeName(ParameterBody(made.value)) == "parameter";
      Leaf(w, s, cn, h, ParameterBody(made.value))
  }

  /** A tab, group or tabs container: the children are built from the array
      `owner[key]` (`.map` throws when it is not an array), the ones that
      come back null are dropped, and the container is built last. */
  function Container(w: World, schema: Value, owner: Value, key: string, nested: Option<Nested>,
                     cn: Value, own: Handlers, h: Handlers, body: Body): (o: Outcome<Option<Ref>>)
    ensures !Get(owner, key).Arr? ==> o == Failed(w)
    ensures o.Made? ==> o.value.Some?
    ensures Allocated(w) ==> Grows(w, o.world) && Allocated(o.world)
    ensures Wf(w) ==> Wf(o.world)
    ensures Allocated(w) && o.Made? ==>
              Built(w, o.world, o.value.value) && o.world.store[o.value.value].body == body
              && o.world.store[o.value.value].id == ElementId(schema)
    ensures Get(schema, "type") == Str(TypeName(body)) ==> TypedBy(w, schema, o)
    ensures Allocated(w) && o.Made? ==> o.world.store[o.value.value].handlers == own
    ensures Allocated(w) && (own == h || body.TabsBody?) ==> HandledBy(w, o.world, h)
    decreases Size(owner), 0
  {
    var src := Get(owner, key);
    if !src.Arr? then Failed(w)
    else
      GetSmaller(owner, key);
      match CreateAll(w, src.elems, nested, cn, h)
      case Failed(w1) => Failed(w1)
      case Made(w1, refs) =>
        var e := NewElement(schema, cn, own, refs, body);
        AddBuilds(w, w1, e);
        AddHandled(w, w1, e, h);
        Made(Add(w1, e), Some(w1.next))
  }

  /** `createElement({ ...g, type })` for a child tab or group. The copy
      always has a truthy `type`; its `groups` or `items` are `g`'s own, and
      the copy of anything but an object has neither, so it throws. */
  function CreateForced(w: World, g: Value, n: Nested, cn: Value, h: Handlers): (o: Outcome<Option<Ref>>)
    ensures !g.Obj? ==> o == Failed(w)
    ensures o.Made? ==> o.value.Some?
    ensures Allocated(w) ==> Grows(w, o.world) && Allocated(o.world)
    ensures Wf(w) ==> Wf(o.world)
    ensures Allocated(w) && o.Made? ==> Built(w, o.world, o.value.value)
    ensures Allocated(w) ==> HandledBy(w, o.world, h)
    decreases Size(g), 3
  {
    var schema := Overriding(g, "type", Str(NestedName(n)));
    if !g.Obj? then Failed(w)
    else
      Container(w, schema, g, NestedKey(n), NestedChildren(n), cn, h, h, NestedBody(n))
  }

  /** One child schema: a nested tab or group is forced to its type. */
  function CreateChild(w: World, e: Value, nested: Option<Nested>, cn: Value, h: Handlers): (o: Outcome<Option<Ref>>)
    ensures Allocated(w) ==> Grows(w, o.world) && Allocated(o.world)
    ensures Wf(w) ==> Wf(o.world)
    ensures Allocated(w) && o.Made? && o.value.Some? ==> o.value.value in o.world.store && o.value.value !in w.store
    ensures Allocated(w) ==> HandledBy(w, o.world, h)
    decreases Size(e), 4
  {
    if nested.Some? then CreateForced(w, e, nested.value, cn, h) else Create(w, e, cn, h)
  }

  /** `schemas.map(createElement).filter(el => el !== null)`: every schema
      in turn, stopping at the first throw; the refs of what was built, in
      order. */
  function CreateAll(w: World, es: seq<Value>, nested: Option<Nested>, cn: Value, h: Handlers): (o: Outcome<seq<Ref>>)
    ensures Allocated(w) ==> Grows(w, o.world) && Allocated(o.world)
    ensures Wf(w) ==> Wf(o.world)
    ensures o.Made? ==> |o.value| <= |es|
    ensures Allocated(w) && o.Made? ==> NewChildren(w, o.world, o.value)
    ensures Allocated(w) ==> HandledBy(w, o.world, h)
    decreases SizeSeq(es), 5
  {
    if es == [] then Made(w, [])
    else
      ElementSmaller(es, 0);
      match CreateChild(w, es[0], nested, cn, h)
      case Failed(w1) => Failed(w1)
      case Made(w1, r) =>
        match CreateAll(w1, es[1..], nested, cn, h)
        case Failed(w2) => Failed(w2)
        case Made(w2, rs) =>
          GrowsTrans(w, w1, w2);
          HandledByTrans(w, w1, w2, h);
          NewChildrenCons(w, w1, w2, r, rs);
          Made(w2, (if r.Some? then [r.value] else []) + rs)
  }

  /** A child built before the rest is as new as they are. */
  lemma NewChildrenCons(w: World, w1: World, w2: World, r: Option<Ref>, rs: seq<Ref>)
    ensures Grows(w, w1) && Grows(w1, w2) && NewChildren(w1, w2, rs)
            && (r.Some? ==> r.value in w1.store && r.value !in w.store) ==>
              NewChildren(w, w2, (if r.Some? then [r.value] else []) + rs)
  {
    var all := (if r.Some? then [r.value] else []) + rs;
    if Grows(w, w1) && Grows(w1, w2) && NewChildren(w1, w2, rs) && (r.Some? ==> r.value in w1.store && r.value !in w.store) {
      forall i | 0 <= i < |all|
        ensures all[i] in w2.store && all[i] !in w.store
      {
        if r.Some? && i == 0 {
        } else {
          assert all[i] == rs[i - |all| + |rs|];
        }
      }
    }
  }

  /** The children keep the order of their schemas: each one built is
      allocated after those before it. */
  lemma {:induction false} CreateAllInOrder(w: World, es: seq<Value>, nested: Option<Nested>, cn: Value, h: Handlers)
    requires Allocated(w)
    ensures var o := CreateAll(w, es, nested, cn, h);
            o.Made? ==> forall i, j :: 0 <= i < j < |o.value| ==> o.value[i] < o.value[j]
    decreases |es|
  {
    if es != [] {
      match CreateChild(w, es[0], nested, cn, h)
      case Failed(w1) =>
      case Made(w1, r) =>
        CreateAllInOrder(w1, es[1..], nested, cn, h);
        match CreateAll(w1, es[1..], nested, cn, h)
        case Failed(w2) =>
        case Made(w2, rs) =>
          if r.Some? {
            assert r.value in w1.store;
            InOrder(w1, w2, r.value, rs);
          }
    }
  }

  /** A ref of `a` comes before every ref new in `b`. */
  lemma InOrder(a: World, b: World, r: Ref, rs: seq<Ref>)
    requires Allocated(a) && r in a.store && Grows(a, b) && NewChildren(a, b, rs)
    requires forall i, j :: 0 <= i < j < |rs| ==> rs[i] < rs[j]
    ensures forall i, j :: 0 <= i < j < |[r] + rs| ==> ([r] + rs)[i] < ([r] + rs)[j]
  {
    forall j | 0 < j < |[r] + rs|
      ensures r < ([r] + rs)[j]
    {
      assert ([r] + rs)[j] == rs[j - 1];
    }
  }

  // ----- properties -----

  /** A child tab or group is built exactly as `createElement` builds the
      spread copy with its `type` set. */
  lemma ForcedIsOverriding(w: World, g: Value, n: Nested, cn: Value, h: Handlers)
    ensures CreateForced(w, g, n, cn, h) == Create(w, Overriding(g, "type", Str(NestedName(n))), cn, h)
  {
    var schema := Overriding(g, "type", Str(NestedName(n)));
    CreateNested(w, schema, n, cn, h);
    if g.Obj? {
      ForcedObject(w, g, n, cn, h);
    } else {
      ForcedOther(w, g, n, cn, h);
    }
  }

  lemma ForcedObject(w: World, g: Value, n: Nested, cn: Value, h: Handlers)
    requires g.Obj?
    ensures var schema := Overriding(g, "type", Str(NestedName(n)));
            CreateForced(w, g, n, cn, h)
            == Container(w, schema, schema, NestedKey(n), NestedChildren(n), cn, h, h, NestedBody(n))
  {
    var schema := Overriding(g, "type", Str(NestedName(n)));
    var key := NestedKey(n);
    assert Get(schema, key) == Get(g, key);
    SameSource(w, schema, schema, g, key, NestedChildren(n), cn, h, h, NestedBody(n));
  }

  lemma ForcedOther(w: World, g: Value, n: Nested, cn: Value, h: Handlers)
    requires !g.Obj?
    ensures var schema := Overriding(g, "type", Str(NestedName(n)));
            Container(w, schema, schema, NestedKey(n), NestedChildren(n), cn, h, h, NestedBody(n)) == Failed(w)
  {
    var key := NestedKey(n);
    assert key[0] == 'g' || key[0] == 'i';
    assert !AllDigits(key);
    SpreadHasNoNamedKeyAs(g, key, Str(NestedName(n)));
  }

  function NestedKey(n: Nested): string {
    if n == NestedTab then "groups" else "items"
  }

  function NestedChildren(n: Nested): Option<Nested> {
    if n == NestedTab then Some(NestedGroup) else None
  }

  function NestedBody(n: Nested): Body {
    if n == NestedTab then TabBody else GroupBody
  }

  lemma CreateNested(w: World, schema: Value, n: Nested, cn: Value, h: Handlers)
    requires Get(schema, "type") == Str(NestedName(n))
    ensures Create(w, schema, cn, h) == Container(w, schema, schema, NestedKey(n), NestedChildren(n), cn, h, h, NestedBody(n))
  {
    assert NestedName(n) in TypeNames;
    CreateIsKnown(w, schema, cn, h);
    KnownIsContainer(w, schema, cn, h);
    if n == NestedTab {
      assert Get(schema, "type") == Str("tab");
    } else {
      assert Get(schema, "type") == Str("group");
    }
  }

  lemma CreateIsKnown(w: World, s: Value, cn: Value, h: Handlers)
    requires KnownType(Get(s, "type"))
    ensures Create(w, s, cn, h) == CreateKnown(w, s, cn, h)
  {
    assert !Nullish(s);
  }

  lemma KnownIsContainer(w: World, s: Value, cn: Value, h: Handlers)
    requires Get(s, "type") in [Str("tabs"), Str("tab"), Str("group")]
    ensures KnownType(Get(s, "type"))
    ensures CreateKnown(w, s, cn, h) == CreateContainer(w, s, cn, h)
  {
  }

  /** A tabs item is built without handlers (`null` in its constructor),
      while what it builds below it gets the factory's handlers, tabs and
      graphics containers apart. */
  lemma TabsContentsHandled(w: World, s: Value, cn: Value, h: Handlers)
    requires Allocated(w) && Get(s, "type") == Str("tabs")
    ensures var o := Create(w, s, cn, h);
            && (o.Made? ==> o.value.Some? && o.value.value in o.world.store
                            && o.world.store[o.value.value].handlers == NoHandlers)
            && HandledBy(w, o.world, h)
  {
    CreateIsKnown(w, s, cn, h);
    KnownIsContainer(w, s, cn, h);
  }

  /** A container depends on where its children come from only through
      the array found there. */
  lemma SameSource(w: World, schema: Value, a: Value, b: Value, key: string, nested: Option<Nested>,
                   cn: Value, own: Handlers, h: Handlers, body: Body)
    requires Get(a, key) == Get(b, key)
    ensures Container(w, schema, a, key, nested, cn, own, h, body) == Container(w, schema, b, key, nested, cn, own, h, body)
  {
  }

  lemma SpreadHasNoNamedKeyAs(g: Value, key: string, x: Value)
    requires !g.Obj? && IndexKey(key).None? && key != "type"
    ensures Get(Overriding(g, "type", x), key).Undefined?
  {
    match g
    case Arr(elems) => IndexedFieldsHaveIndexKeys(elems, 0, key);
    case Str(s) => IndexedFieldsHaveIndexKeys(CharValues(s), 0, key);
    case _ =>
  }
}
