/**
 * The registry of elements by id (`UIStateManager`): registration, value
 * and visibility updates that warn instead of failing on an unknown id,
 * a batch update, the schema-driven visibility pass and value reads.
 */
module Registry {
  import opened JsValue
  import opened Logging
  import opened EventBus
  import opened Elements
  import Parameters

  const DuplicateId: string := "element id already registered, overwriting"
  const UnknownParameter: string := "value update for an unknown or incompatible parameter"
  const UnknownElement: string := "visibility update for an unknown element"
  const UnknownValueRead: string := "value read of an unknown element"

  /** The registry's own subscriptions, made when it is constructed: a
      debug line for parameter changes, clicks and toggles, and the
      visibility handler. */
  function SubscribeRegistry(b: Bus): (r: Bus)
    ensures Listeners(r, ElementVisibilityChanged) == Listeners(b, ElementVisibilityChanged) + [RegistryAppliesVisibility]
    ensures Listeners(r, ParameterValueChanged) == Listeners(b, ParameterValueChanged) + [RegistryLogsParameter]
    ensures Listeners(r, CommandClicked) == Listeners(b, CommandClicked) + [RegistryLogsClick]
    ensures Listeners(r, CommandToggled) == Listeners(b, CommandToggled) + [RegistryLogsToggle]
  {
    var b1 := Subscribe(b, ParameterValueChanged, RegistryLogsParameter);
    var b2 := Subscribe(b1, ElementVisibilityChanged, RegistryAppliesVisibility);
    var b3 := Subscribe(b2, CommandClicked, RegistryLogsClick);
    Subscribe(b3, CommandToggled, RegistryLogsToggle)
  }

  /** Every registered id names an element of the store. */
  predicate Wf(w: World) {
    Elements.Wf(w.store) && forall id :: id in w.registry ==> w.registry[id] in w.store
  }

  /** What every value and visibility update keeps: the registry, the bus,
      the allocation counter, every element's children, and the log so far. */
  predicate Preserves(a: World, b: World) {
    && b.registry == a.registry && b.bus == a.bus && b.next == a.next && a.log <= b.log
    && b.store.Keys == a.store.Keys
    && (forall q :: q in a.store ==> b.store[q].children == a.store[q].children)
  }

  lemma PreservesWf(a: World, b: World)
    requires Preserves(a, b)
    ensures Wf(a) ==> Wf(b)
  {
    if Wf(a) {
      forall q, i | q in b.store && 0 <= i < |b.store[q].children|
        ensures b.store[q].children[i] in b.store && b.store[q].children[i] < q
      {
        assert b.store[q].children == a.store[q].children;
      }
    }
  }

  /** The element registered under `id`, if any. */
  function Find(w: World, id: Value): (r: Option<Ref>)
    ensures r.Some? <==> id in w.registry && w.registry[id] in w.store
    ensures r.Some? ==> r.value == w.registry[id]
  {
    if id in w.registry && w.registry[id] in w.store then Some(w.registry[id]) else None
  }

  /** `registerElement(id, r)`: the id now names `r`; an id that was taken
      is overwritten with a warning. */
  function Register(w: World, id: Value, r: Ref): (w': World)
    ensures w'.registry == w.registry[id := r]
    ensures w'.log == w.log + (if id in w.registry then [Entry(Warn, DuplicateId, id)] else [])
    ensures w'.store == w.store && w'.bus == w.bus && w'.next == w.next
  {
    var warned := if id in w.registry then w.log + [Entry(Warn, DuplicateId, id)] else w.log;
    w.(registry := w.registry[id := r], log := warned)
  }

  /** After registering, the id finds the element just registered. */
  lemma RegisterThenFind(w: World, id: Value, r: Ref, other: Value)
    requires r in w.store && other != id
    ensures Find(Register(w, id, r), id) == Some(r)
    ensures Find(Register(w, id, r), other) == Find(w, other)
  {
  }

  /** `updateElementValue(id, v)`: only a parameter has `updateValue`; an
      unknown id or another kind of element only warns. */
  function UpdateElementValue(w: World, id: Value, v: Value): (w': World)
    ensures Preserves(w, w')
    ensures Find(w, id).Some? && w.store[Find(w, id).value].body.ParameterBody? ==>
              var r := Find(w, id).value;
              w'.log == w.log
              && w'.store == w.store[r := w.store[r].(body := ParameterBody(Parameters.UpdateValue(w.store[r].body.param, v)))]
    ensures !(Find(w, id).Some? && w.store[Find(w, id).value].body.ParameterBody?) ==>
              w'.store == w.store && w'.log == w.log + [Entry(Warn, UnknownParameter, id)]
  {
    match Find(w, id)
    case Some(r) =>
      var e := w.store[r];
      if e.body.ParameterBody? then
        w.(store := w.store[r := e.(body := ParameterBody(Parameters.UpdateValue(e.body.param, v)))])
      else w.(log := w.log + [Entry(Warn, UnknownParameter, id)])
    case None => w.(log := w.log + [Entry(Warn, UnknownParameter, id)])
  }

  /** Updates for each entry in turn. */
  function UpdateEach(w: World, entries: seq<Field>): (w': World)
    ensures Preserves(w, w')
    decreases |entries|
  {
    if entries == [] then w
    else UpdateEach(UpdateElementValue(w, Str(entries[0].key), entries[0].val), entries[1..])
  }

  /** Updating for two lists of entries is updating for one, then the other. */
  lemma {:induction false} UpdateEachAppend(w: World, a: seq<Field>, b: seq<Field>)
    ensures UpdateEach(w, a + b) == UpdateEach(UpdateEach(w, a), b)
    decreases |a|
  {
    if a == [] {
      assert a + b == b;
    } else {
      var w1 := UpdateElementValue(w, Str(a[0].key), a[0].val);
      assert (a + b)[0] == a[0];
      assert (a + b)[1..] == a[1..] + b;
      assert UpdateEach(w, a + b) == UpdateEach(w1, a[1..] + b);
      UpdateEachAppend(w1, a[1..], b);
    }
  }

  /** `updateMultipleElementValues(obj)`: one update per own property, in
      property order (keys are strings); null and undefined throw before
      anything changes. */
  function UpdateMultipleElementValues(w: World, obj: Value): (r: Result<World>)
    ensures r.TypeError? <==> Nullish(obj)
    ensures r.Ok? ==> Preserves(w, r.value)
  {
    match Entries(obj)
    case TypeError => TypeError
    case Ok(entries) => Ok(UpdateEach(w, entries))
  }

  /** A batch of one property is a single update. */
  lemma SingleEntryBatch(w: World, key: string, v: Value)
    ensures UpdateMultipleElementValues(w, Obj([Field(key, v)])) == Ok(UpdateElementValue(w, Str(key), v))
  {
    var w1 := UpdateElementValue(w, Str(key), v);
    assert [Field(key, v)][1..] == [];
    assert UpdateEach(w, [Field(key, v)]) == UpdateEach(w1, []) == w1;
  }

  /** A batch for the properties of `a` and then those of `b` does the
      updates of `a`, then those of `b`. */
  lemma BatchConcat(w: World, a: seq<Field>, b: seq<Field>)
    ensures UpdateMultipleElementValues(w, Obj(a + b)).value
            == UpdateEach(UpdateMultipleElementValues(w, Obj(a)).value, b)
  {
    UpdateEachAppend(w, a, b);
  }

  /** `updateElementVisibility(id, v)`: the raw value becomes the element's
      visibility, then `update()` runs, which throws for an element never
      rendered; an unknown id only warns. */
  function UpdateElementVisibility(w: World, id: Value, vis: Value): (c: Completion<World>)
    ensures Preserves(w, c.state)
    ensures Find(w, id).None? ==> c == Done(w.(log := w.log + [Entry(Warn, UnknownElement, id)]))
    ensures Find(w, id).Some? ==>
              var r := Find(w, id).value;
              && c.state.log == w.log
              && c.state.store[r].visibility == vis
              && (c.Threw? <==> w.store[r].dom.None?)
              && (c.Done? ==> c.state.store[r].dom.Some? && c.state.store[r].dom.value.display == (if Truthy(vis) then "" else "none"))
              && (forall q :: q in w.store && q != r ==> c.state.store[q] == w.store[q])
  {
    match Find(w, id)
    case None => Done(w.(log := w.log + [Entry(Warn, UnknownElement, id)]))
    case Some(r) =>
      var e := w.store[r].(visibility := vis);
      match Update(e)
      case Threw(x) => Threw(w.(store := w.store[r := x]))
      case Done(x) => Done(w.(store := w.store[r := x]))
  }

  // ----- applySchemaVisibility -----

  /** One visibility the schema pass applies. */
  datatype Target = Target(id: Value, visibility: Value)

  /** The visibilities a schema pass finds, in visiting order, and whether
      the walk ran to the end (it throws at a null or undefined node). */
  datatype Walk = Walk(targets: seq<Target>, complete: bool)

  /** `a`, then `b` when `a` ran to the end. */
  function Then(a: Walk, b: Walk): (r: Walk)
    ensures r.complete <==> a.complete && b.complete
  {
    if a.complete then Walk(a.targets + b.targets, b.complete) else a
  }

  /** What the pass visits below a node, under `key`. */
  predicate HasArray(obj: Value, key: string) {
    Get(obj, key).Arr?
  }

  lemma ArraySmaller(obj: Value, key: string)
    requires HasArray(obj, key)
    ensures SizeSeq(Get(obj, key).elems) < Size(obj)
  {
    GetSmaller(obj, key);
  }

  /** The reference for the schema pass: a node that owns both `id` and
      `visibility` contributes its pair, then its tabs, groups and items do
      theirs in order. */
  function TargetsOf(obj: Value): (r: Walk)
    ensures Nullish(obj) ==> r == Walk([], false)
    decreases Size(obj), 2
  {
    if Nullish(obj) then Walk([], false)
    else
      var own := if HasOwn(obj, "id") && HasOwn(obj, "visibility")
                 then [Target(Get(obj, "id"), Get(obj, "visibility"))] else [];
      Then(Walk(own, true), Then(TargetsUnder(obj, "tabs"), Then(TargetsUnder(obj, "groups"), TargetsUnder(obj, "items"))))
  }

  function TargetsUnder(obj: Value, key: string): Walk
    decreases Size(obj), 1
  {
    if HasArray(obj, key) then
      ArraySmaller(obj, key);
      TargetsOfAll(Get(obj, key).elems)
    else Walk([], true)
  }

  function TargetsOfAll(es: seq<Value>): Walk
    decreases SizeSeq(es), 3
  {
    if es == [] then Walk([], true)
    else
      ElementSmaller(es, 0);
      Then(TargetsOf(es[0]), TargetsOfAll(es[1..]))
  }

  /** Applies visibilities in order, stopping at the first throw. */
  function ApplyTargets(w: World, ts: seq<Target>): (c: Completion<World>)
    ensures Preserves(w, c.state)
    decreases |ts|
  {
    if ts == [] then Done(w)
    else
      match UpdateElementVisibility(w, ts[0].id, ts[0].visibility)
      case Threw(x) => Threw(x)
      case Done(x) => ApplyTargets(x, ts[1..])
  }

  lemma {:induction false} ApplyTargetsAppend(w: World, a: seq<Target>, b: seq<Target>)
    ensures ApplyTargets(w, a + b)
            == (var c := ApplyTargets(w, a); if c.Threw? then c else ApplyTargets(c.state, b))
    decreases |a|
  {
    if a == [] {
      assert a + b == b;
    } else {
      assert (a + b)[0] == a[0];
      assert (a + b)[1..] == a[1..] + b;
      match UpdateElementVisibility(w, a[0].id, a[0].visibility)
      case Threw(x) =>
      case Done(x) => ApplyTargetsAppend(x, a[1..], b);
    }
  }

  /** What the walk `t` does: its visibilities in order, and a throw where
      it stopped early. */
  function Run(w: World, t: Walk): Completion<World> {
    var c := ApplyTargets(w, t.targets);
    if !t.complete && c.Done? then Threw(c.state) else c
  }

  lemma RunThen(w: World, a: Walk, b: Walk)
    ensures Run(w, Then(a, b)) == (var c := Run(w, a); if c.Threw? then c else Run(c.state, b))
  {
    if a.complete {
      ApplyTargetsAppend(w, a.targets, b.targets);
    }
  }

  /** `applySchemaVisibility(schema)`: visits a node, then its `tabs`,
      `groups` and `items` arrays; a null or undefined node throws. */
  function ApplySchemaVisibility(w: World, obj: Value): (c: Completion<World>)
    ensures Preserves(w, c.state)
    ensures Nullish(obj) ==> c == Threw(w)
    decreases Size(obj), 2
  {
    if Nullish(obj) then Threw(w)
    else
      var c1 := if HasOwn(obj, "id") && HasOwn(obj, "visibility")
                then UpdateElementVisibility(w, Get(obj, "id"), Get(obj, "visibility")) else Done(w);
      if c1.Threw? then c1
      else
        var c2 := ApplyUnder(c1.state, obj, "tabs");
        if c2.Threw? then c2
        else
          var c3 := ApplyUnder(c2.state, obj, "groups");
          if c3.Threw? then c3 else ApplyUnder(c3.state, obj, "items")
  }

  function ApplyUnder(w: World, obj: Value, key: string): (c: Completion<World>)
    ensures Preserves(w, c.state)
    decreases Size(obj), 1
  {
    if HasArray(obj, key) then
      ArraySmaller(obj, key);
      ApplyAll(w, Get(obj, key).elems)
    else Done(w)
  }

  function ApplyAll(w: World, es: seq<Value>): (c: Completion<World>)
    ensures Preserves(w, c.state)
    decreases SizeSeq(es), 3
  {
    if es == [] then Done(w)
    else
      ElementSmaller(es, 0);
      var c := ApplySchemaVisibility(w, es[0]);
      if c.Threw? then c else ApplyAll(c.state, es[1..])
  }

  /** The schema pass does exactly what its reference says: the visibility
      updates of `TargetsOf`, in order, and a throw where the walk stops. */
  lemma {:induction false} ApplyMatchesTargets(w: World, obj: Value)
    ensures ApplySchemaVisibility(w, obj) == Run(w, TargetsOf(obj))
    decreases Size(obj), 2
  {
    if !Nullish(obj) {
      var own := if HasOwn(obj, "id") && HasOwn(obj, "visibility")
                 then [Target(Get(obj, "id"), Get(obj, "visibility"))] else [];
      var under := Then(TargetsUnder(obj, "tabs"), Then(TargetsUnder(obj, "groups"), TargetsUnder(obj, "items")));
      RunThen(w, Walk(own, true), under);
      var c1 := Run(w, Walk(own, true));
      if own == [] {
        assert c1 == Done(w);
      } else {
        var u := UpdateElementVisibility(w, Get(obj, "id"), Get(obj, "visibility"));
        assert own[1..] == [];
        assert u.Done? ==> ApplyTargets(u.state, own[1..]) == Done(u.state);
        assert c1 == u;
      }
      assert TargetsOf(obj) == Then(Walk(own, true), under);
      if c1.Done? {
        var s1 := c1.state;
        RunThen(s1, TargetsUnder(obj, "tabs"), Then(TargetsUnder(obj, "groups"), TargetsUnder(obj, "items")));
        ApplyUnderMatches(s1, obj, "tabs");
        var c2 := Run(s1, TargetsUnder(obj, "tabs"));
        if c2.Done? {
          RunThen(c2.state, TargetsUnder(obj, "groups"), TargetsUnder(obj, "items"));
          ApplyUnderMatches(c2.state, obj, "groups");
          var c3 := Run(c2.state, TargetsUnder(obj, "groups"));
          if c3.Done? {
            ApplyUnderMatches(c3.state, obj, "items");
          }
        }
      }
    }
  }

  lemma {:induction false} ApplyUnderMatches(w: World, obj: Value, key: string)
    ensures ApplyUnder(w, obj, key) == Run(w, TargetsUnder(obj, key))
    decreases Size(obj), 1
  {
    if HasArray(obj, key) {
      ArraySmaller(obj, key);
      ApplyAllMatches(w, Get(obj, key).elems);
    }
  }

  lemma {:induction false} ApplyAllMatches(w: World, es: seq<Value>)
    ensures ApplyAll(w, es) == Run(w, TargetsOfAll(es))
    decreases SizeSeq(es), 3
  {
    if es != [] {
      ElementSmaller(es, 0);
      ApplyMatchesTargets(w, es[0]);
      RunThen(w, TargetsOf(es[0]), TargetsOfAll(es[1..]));
      var c := ApplySchemaVisibility(w, es[0]);
      if c.Done? {
        ApplyAllMatches(c.state, es[1..]);
      }
    }
  }

  /** A node owning only one of `id` and `visibility` sets nothing. */
  lemma OnlyOwnersCount(obj: Value)
    requires obj.Obj? && !(HasOwn(obj, "id") && HasOwn(obj, "visibility"))
    requires !HasArray(obj, "tabs") && !HasArray(obj, "groups") && !HasArray(obj, "items")
    ensures TargetsOf(obj) == Walk([], true)
  {
  }

  // ----- reads -----

  /** `getParameterValue(id)`: the parameter's `getValue()`; undefined with
      a warning for an unknown id, and undefined silently for an element
      that is not a parameter (no element carries an own `type` field). */
  function GetParameterValue(w: World, id: Value): (r: (Value, seq<Entry>))
    ensures Find(w, id).None? ==> r == (Undefined, w.log + [Entry(Warn, UnknownValueRead, id)])
    ensures Find(w, id).Some? ==> r.1 == w.log
    ensures Find(w, id).Some? && w.store[Find(w, id).value].body.ParameterBody? ==>
              r.0 == Parameters.GetValue(w.store[Find(w, id).value].body.param)
    ensures Find(w, id).Some? && !w.store[Find(w, id).value].body.ParameterBody? ==> r.0 == Undefined
  {
    match Find(w, id)
    case None => (Undefined, w.log + [Entry(Warn, UnknownValueRead, id)])
    case Some(r) =>
      var e := w.store[r];
      if e.body.ParameterBody? then (Parameters.GetValue(e.body.param), w.log) else (Undefined, w.log)
  }

  /** Setting a radio parameter through the registry and reading it back
      gives the value set, whatever it is. */
  lemma RadioValueRoundTrip(w: World, id: Value, v: Value)
    requires Find(w, id).Some?
    requires var e := w.store[Find(w, id).value];
             e.body.ParameterBody? && e.body.param.kind == Parameters.RadioKind && Parameters.Wf(e.body.param)
    ensures GetParameterValue(UpdateElementValue(w, id, v), id).0 == v
  {
    Parameters.RadioUpdateThenGet(w.store[Find(w, id).value].body.param, v);
  }

  /** `clearElements()`. */
  function ClearElements(w: World): (w': World)
    ensures w'.registry == map[] && w'.store == w.store && w'.log == w.log && w'.bus == w.bus
  {
    w.(registry := map[])
  }

  /** After clearing, every id is unknown. */
  lemma ClearedFindsNothing(w: World, id: Value)
    ensures Find(ClearElements(w), id).None?
    ensures GetParameterValue(ClearElements(w), id).0 == Undefined
  {
  }
}
