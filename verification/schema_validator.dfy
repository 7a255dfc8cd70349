/**
 * The schema check run before a generator is built. It walks the schema
 * (controller, its items, a tabs item's tabs, their groups and the groups'
 * entries, a graphics item's graphics) and collects one problem per failed
 * check; the schema is valid when none was collected. A null or undefined
 * node where the walk expects an object makes the check itself throw.
 *
 * Problems are recorded by kind and position; the wording of the messages
 * is not modelled.
 */
module SchemaValidator {
  import opened JsValue

  const SupportedVersion: string := "1.0.0"

  datatype Problem =
    | NotAnObject
    | MissingVersion
    | UnsupportedVersion(version: Value)
    | MissingController
    | MissingControllerName
    | MissingItems
    | ItemWithoutType(item: nat)
    | UnknownItemType(item: nat, kind: Value)
    | TabsWithoutId(item: nat)
    | TabsWithoutList(item: nat)
    | TabWithoutId(item: nat, tab: nat)
    | TabWithoutGroups(item: nat, tab: nat)
    | GroupWithoutId(item: nat, tab: nat, group: nat)
    | GroupWithoutItems(item: nat, tab: nat, group: nat)
    | EntryWithoutType(item: nat, tab: nat, group: nat, entry: nat)
    | ParameterWithoutId(item: nat, tab: nat, group: nat, entry: nat)
    | CommandWithoutId(item: nat, tab: nat, group: nat, entry: nat)
    | GraphicsWithoutId(item: nat)
    | GraphicsWithoutList(item: nat)
    | GraphicWithoutId(item: nat, graphic: nat)

  /** The value `validate` returns. */
  datatype Report = Report(valid: bool, errors: seq<Problem>)

  /** Both parts run; either throwing makes the whole walk throw. */
  function Both(a: Result<seq<Problem>>, b: Result<seq<Problem>>): (r: Result<seq<Problem>>)
    ensures r.TypeError? <==> a.TypeError? || b.TypeError?
    ensures r == Ok([]) <==> a == Ok([]) && b == Ok([])
  {
    if a.TypeError? || b.TypeError? then TypeError
    else
      assert |a.value + b.value| == |a.value| + |b.value|;
      Ok(a.value + b.value)
  }

  /** A problem when `v` is falsy (`if (!v) errors.push(...)`). */
  function Require(v: Value, p: Problem): (r: seq<Problem>)
    ensures r == [] <==> Truthy(v)
  {
    if Truthy(v) then [] else [p]
  }

  // ----- the checks as the walk makes them -----

  /** One entry of a group: a parameter needs `param_id`, a command needs
      `command_id`, anything else only needs a type. */
  function EntryProblems(e: Value, i: nat, t: nat, g: nat, p: nat): (r: Result<seq<Problem>>)
    ensures r.TypeError? <==> Nullish(e)
    ensures r.Ok? ==> |r.value| <= 1
  {
    if Nullish(e) then TypeError
    else
      var kind := Get(e, "type");
      if !Truthy(kind) then Ok([EntryWithoutType(i, t, g, p)])
      else if kind == Str("parameter") && !Truthy(Get(e, "param_id")) then Ok([ParameterWithoutId(i, t, g, p)])
      else if kind == Str("command") && !Truthy(Get(e, "command_id")) then Ok([CommandWithoutId(i, t, g, p)])
      else Ok([])
  }

  function EntriesProblems(es: seq<Value>, i: nat, t: nat, g: nat, from: nat): (r: Result<seq<Problem>>)
    ensures r.TypeError? <==> exists k :: 0 <= k < |es| && Nullish(es[k])
    decreases |es|
  {
    if es == [] then Ok([])
    else
      var rest := EntriesProblems(es[1..], i, t, g, from + 1);
      assert forall k :: 1 <= k < |es| ==> es[k] == es[1..][k - 1];
      Both(EntryProblems(es[0], i, t, g, from), rest)
  }

  function GroupProblems(grp: Value, i: nat, t: nat, g: nat): Result<seq<Problem>> {
    if Nullish(grp) then TypeError
    else
      var idProblems := Require(Get(grp, "id"), GroupWithoutId(i, t, g));
      var entries := Get(grp, "items");
      if !entries.Arr? then Ok(idProblems + [GroupWithoutItems(i, t, g)])
      else Both(Ok(idProblems), EntriesProblems(entries.elems, i, t, g, 0))
  }

  function GroupsProblems(gs: seq<Value>, i: nat, t: nat, from: nat): Result<seq<Problem>>
    decreases |gs|
  {
    if gs == [] then Ok([])
    else Both(GroupProblems(gs[0], i, t, from), GroupsProblems(gs[1..], i, t, from + 1))
  }

  function TabProblems(tab: Value, i: nat, t: nat): Result<seq<Problem>> {
    if Nullish(tab) then TypeError
    else
      var idProblems := Require(Get(tab, "id"), TabWithoutId(i, t));
      var groups := Get(tab, "groups");
      if !groups.Arr? then Ok(idProblems + [TabWithoutGroups(i, t)])
      else Both(Ok(idProblems), GroupsProblems(groups.elems, i, t, 0))
  }

  function TabsProblems(tabs: seq<Value>, i: nat, from: nat): Result<seq<Problem>>
    decreases |tabs|
  {
    if tabs == [] then Ok([])
    else Both(TabProblems(tabs[0], i, from), TabsProblems(tabs[1..], i, from + 1))
  }

  function GraphicProblems(graphic: Value, i: nat, g: nat): (r: Result<seq<Problem>>)
    ensures r.TypeError? <==> Nullish(graphic)
  {
    if Nullish(graphic) then TypeError
    else Ok(Require(Get(graphic, "id"), GraphicWithoutId(i, g)))
  }

  function GraphicsProblems(gs: seq<Value>, i: nat, from: nat): Result<seq<Problem>>
    decreases |gs|
  {
    if gs == [] then Ok([])
    else Both(GraphicProblems(gs[0], i, from), GraphicsProblems(gs[1..], i, from + 1))
  }

  /** One top-level item, dispatched on its type. An item without a type,
      or of a type other than 'tabs' and 'graphics', yields exactly one
      problem and is not examined further. */
  function ItemProblems(item: Value, i: nat): (r: Result<seq<Problem>>)
    ensures r.TypeError? ==> Nullish(item) || Get(item, "type") in {Str("tabs"), Str("graphics")}
    ensures !Nullish(item) && !Truthy(Get(item, "type")) ==> r == Ok([ItemWithoutType(i)])
    ensures !Nullish(item) && Truthy(Get(item, "type")) && Get(item, "type") !in {Str("tabs"), Str("graphics")}
            ==> r == Ok([UnknownItemType(i, Get(item, "type"))])
  {
    if Nullish(item) then TypeError
    else
      var kind := Get(item, "type");
      var idProblems := Require(Get(item, "id"), if kind == Str("tabs") then TabsWithoutId(i) else GraphicsWithoutId(i));
      if !Truthy(kind) then Ok([ItemWithoutType(i)])
      else if kind == Str("tabs") then
        var tabs := Get(item, "tabs");
        if !tabs.Arr? then Ok(idProblems + [TabsWithoutList(i)])
        else Both(Ok(idProblems), TabsProblems(tabs.elems, i, 0))
      else if kind == Str("graphics") then
        var graphics := Get(item, "graphics");
        if !graphics.Arr? then Ok(idProblems + [GraphicsWithoutList(i)])
        else Both(Ok(idProblems), GraphicsProblems(graphics.elems, i, 0))
      else Ok([UnknownItemType(i, kind)])
  }

  function ItemsProblems(items: seq<Value>, from: nat): Result<seq<Problem>>
    decreases |items|
  {
    if items == [] then Ok([])
    else Both(ItemProblems(items[0], from), ItemsProblems(items[1..], from + 1))
  }

  /** `!v || typeof v !== 'object'`: only arrays and objects pass. */
  predicate NotObject(v: Value) {
    !Truthy(v) || !IsObjectType(v)
  }

  function VersionProblems(schema: Value): (r: seq<Problem>)
    ensures r == [] <==> Get(schema, "schema_version") == Str(SupportedVersion)
  {
    var version := Get(schema, "schema_version");
    if !Truthy(version) then [MissingVersion]
    else if version != Str(SupportedVersion) then [UnsupportedVersion(version)]
    else []
  }

  function ControllerProblems(schema: Value): Result<seq<Problem>> {
    var controller := Get(schema, "controller");
    if NotObject(controller) then Ok([MissingController])
    else
      var nameProblems := Require(Get(controller, "name"), MissingControllerName);
      var items := Get(controller, "items");
      if !items.Arr? then Ok(nameProblems + [MissingItems])
      else Both(Ok(nameProblems), ItemsProblems(items.elems, 0))
  }

  /** `SchemaValidator.validate(schema)`. A value that is not an array or an
      object yields exactly the one problem saying so; otherwise the version
      check comes first, then the controller's. */
  function Validate(schema: Value): (r: Result<Report>)
    ensures r.Ok? ==> (r.value.valid <==> r.value.errors == [])
    ensures NotObject(schema) ==> r == Ok(Report(false, [NotAnObject]))
    ensures r.Ok? && Get(schema, "schema_version") != Str(SupportedVersion) ==> !r.value.valid
  {
    if NotObject(schema) then Ok(Report(false, [NotAnObject]))
    else
      var errors := Both(Ok(VersionProblems(schema)), ControllerProblems(schema));
      if errors.TypeError? then TypeError else Ok(Report(errors.value == [], errors.value))
  }

  // ----- what a valid schema is, stated on its own -----

  predicate EntryOk(e: Value) {
    var kind := Get(e, "type");
    && Truthy(kind)
    && (kind == Str("parameter") ==> Truthy(Get(e, "param_id")))
    && (kind == Str("command") ==> Truthy(Get(e, "command_id")))
  }

  predicate GroupOk(g: Value) {
    && Truthy(Get(g, "id"))
    && Get(g, "items").Arr?
    && forall k :: 0 <= k < |Get(g, "items").elems| ==> EntryOk(Get(g, "items").elems[k])
  }

  predicate TabOk(t: Value) {
    && Truthy(Get(t, "id"))
    && Get(t, "groups").Arr?
    && forall k :: 0 <= k < |Get(t, "groups").elems| ==> GroupOk(Get(t, "groups").elems[k])
  }

  predicate GraphicOk(g: Value) {
    Truthy(Get(g, "id"))
  }

  predicate ItemOk(item: Value) {
    var kind := Get(item, "type");
    && Truthy(Get(item, "id"))
    && (|| (kind == Str("tabs") && Get(item, "tabs").Arr?
            && forall k :: 0 <= k < |Get(item, "tabs").elems| ==> TabOk(Get(item, "tabs").elems[k]))
        || (kind == Str("graphics") && Get(item, "graphics").Arr?
            && forall k :: 0 <= k < |Get(item, "graphics").elems| ==> GraphicOk(Get(item, "graphics").elems[k])))
  }

  /** A schema the check accepts: an array or object of the supported
      version whose controller is an object with a name and an array of
      well-formed items. */
  predicate SchemaOk(schema: Value) {
    var controller := Get(schema, "controller");
    && !NotObject(schema)
    && Get(schema, "schema_version") == Str(SupportedVersion)
    && !NotObject(controller)
    && Truthy(Get(controller, "name"))
    && Get(controller, "items").Arr?
    && forall k :: 0 <= k < |Get(controller, "items").elems| ==> ItemOk(Get(controller, "items").elems[k])
  }

  // ----- the walk accepts exactly the well-formed schemas -----

  lemma EntryAccepts(e: Value, i: nat, t: nat, g: nat, p: nat)
    ensures EntryProblems(e, i, t, g, p) == Ok([]) <==> EntryOk(e)
  {
  }

  lemma {:induction false} EntriesAccept(es: seq<Value>, i: nat, t: nat, g: nat, from: nat)
    ensures EntriesProblems(es, i, t, g, from) == Ok([]) <==> forall k :: 0 <= k < |es| ==> EntryOk(es[k])
    decreases |es|
  {
    if es != [] {
      EntryAccepts(es[0], i, t, g, from);
      EntriesAccept(es[1..], i, t, g, from + 1);
      assert forall k :: 1 <= k < |es| ==> es[k] == es[1..][k - 1];
    }
  }

  lemma GroupAccepts(grp: Value, i: nat, t: nat, g: nat)
    ensures GroupProblems(grp, i, t, g) == Ok([]) <==> GroupOk(grp)
  {
    if !Nullish(grp) && Get(grp, "items").Arr? {
      EntriesAccept(Get(grp, "items").elems, i, t, g, 0);
    }
  }

  lemma {:induction false} GroupsAccept(gs: seq<Value>, i: nat, t: nat, from: nat)
    ensures GroupsProblems(gs, i, t, from) == Ok([]) <==> forall k :: 0 <= k < |gs| ==> GroupOk(gs[k])
    decreases |gs|
  {
    if gs != [] {
      GroupAccepts(gs[0], i, t, from);
      GroupsAccept(gs[1..], i, t, from + 1);
      assert forall k :: 1 <= k < |gs| ==> gs[k] == gs[1..][k - 1];
    }
  }

  lemma TabAccepts(tab: Value, i: nat, t: nat)
    ensures TabProblems(tab, i, t) == Ok([]) <==> TabOk(tab)
  {
    if !Nullish(tab) && Get(tab, "groups").Arr? {
      GroupsAccept(Get(tab, "groups").elems, i, t, 0);
    }
  }

  lemma {:induction false} TabsAccept(tabs: seq<Value>, i: nat, from: nat)
    ensures TabsProblems(tabs, i, from) == Ok([]) <==> forall k :: 0 <= k < |tabs| ==> TabOk(tabs[k])
    decreases |tabs|
  {
    if tabs != [] {
      TabAccepts(tabs[0], i, from);
      TabsAccept(tabs[1..], i, from + 1);
      assert forall k :: 1 <= k < |tabs| ==> tabs[k] == tabs[1..][k - 1];
    }
  }

  lemma {:induction false} GraphicsAccept(gs: seq<Value>, i: nat, from: nat)
    ensures GraphicsProblems(gs, i, from) == Ok([]) <==> forall k :: 0 <= k < |gs| ==> GraphicOk(gs[k])
    decreases |gs|
  {
    if gs != [] {
      GraphicsAccept(gs[1..], i, from + 1);
      assert forall k :: 1 <= k < |gs| ==> gs[k] == gs[1..][k - 1];
    }
  }

  lemma ItemAccepts(item: Value, i: nat)
    ensures ItemProblems(item, i) == Ok([]) <==> ItemOk(item)
  {
    if !Nullish(item) {
      if Get(item, "tabs").Arr? {
        TabsAccept(Get(item, "tabs").elems, i, 0);
      }
      if Get(item, "graphics").Arr? {
        GraphicsAccept(Get(item, "graphics").elems, i, 0);
      }
    }
  }

  lemma {:induction false} ItemsAccept(items: seq<Value>, from: nat)
    ensures ItemsProblems(items, from) == Ok([]) <==> forall k :: 0 <= k < |items| ==> ItemOk(items[k])
    decreases |items|
  {
    if items != [] {
      ItemAccepts(items[0], from);
      ItemsAccept(items[1..], from + 1);
      assert forall k :: 1 <= k < |items| ==> items[k] == items[1..][k - 1];
    }
  }

  /** `validate` reports a schema valid exactly when it is well formed; it
      never reports a malformed schema valid and never throws on a valid one. */
  lemma ValidateAccepts(schema: Value)
    ensures Validate(schema) == Ok(Report(true, [])) <==> SchemaOk(schema)
    ensures SchemaOk(schema) ==> Validate(schema).Ok? && Validate(schema).value.valid
  {
    if !NotObject(schema) {
      var controller := Get(schema, "controller");
      if !NotObject(controller) && Get(controller, "items").Arr? {
        ItemsAccept(Get(controller, "items").elems, 0);
      }
    }
  }

  /** A missing item makes the walk throw rather than report a problem. */
  lemma NullItemThrows(schema: Value, items: seq<Value>, k: nat)
    requires !NotObject(schema)
    requires !NotObject(Get(schema, "controller"))
    requires Get(Get(schema, "controller"), "items") == Arr(items)
    requires k < |items| && Nullish(items[k])
    ensures Validate(schema).TypeError?
  {
    ItemsThrow(items, 0, k);
  }

  lemma {:induction false} ItemsThrow(items: seq<Value>, from: nat, k: nat)
    requires k < |items| && Nullish(items[k])
    ensures ItemsProblems(items, from).TypeError?
    decreases |items|
  {
    if k > 0 {
      assert items[1..][k - 1] == items[k];
      ItemsThrow(items[1..], from + 1, k - 1);
    }
  }
}
