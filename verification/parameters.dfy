/**
 * The six parameter widgets: readonly, number, flags, slider, select and
 * radio. Each keeps a cached value; once rendered it also has a control on
 * the page (its "surface"), which the model keeps as the few strings and
 * flags the code reads back. Programmatic `updateValue` only changes the
 * cached value and the surface; user input additionally returns the events
 * the widget publishes and the handler it calls.
 */
module Parameters {
  import opened JsValue
  import opened Flags
  import opened Effects

  datatype Kind = ReadonlyKind | NumberKind | FlagsKind | SliderKind | SelectKind | RadioKind

  /** The `frontend_type` that selects each kind. */
  function KindName(k: Kind): string {
    match k
    case ReadonlyKind => "readonly"
    case NumberKind => "number"
    case FlagsKind => "flags"
    case SliderKind => "slider"
    case SelectKind => "select"
    case RadioKind => "radio"
  }

  /** The factory's switch on `frontend_type` (strict comparison with the six
      names); any other value selects nothing. */
  function KindOf(frontendType: Value): (r: Option<Kind>)
    ensures r.Some? ==> frontendType == Str(KindName(r.value))
  {
    if frontendType == Str("readonly") then Some(ReadonlyKind)
    else if frontendType == Str("number") then Some(NumberKind)
    else if frontendType == Str("flags") then Some(FlagsKind)
    else if frontendType == Str("slider") then Some(SliderKind)
    else if frontendType == Str("select") then Some(SelectKind)
    else if frontendType == Str("radio") then Some(RadioKind)
    else None
  }

  /** Each kind is selected by its own name and by nothing else. */
  lemma KindNames(k: Kind, v: Value)
    ensures KindOf(Str(KindName(k))) == Some(k)
    ensures KindOf(v) == Some(k) <==> v == Str(KindName(k))
  {
  }

  datatype Radio = Radio(value: string, checked: bool)

  /** A rendered control, as far as the widget reads it back. */
  datatype Surface =
    | NumberInput(text: string)
    | ReadonlyDisplay(text: string)
    | FlagBoxes(boxes: seq<Checkbox>)
    | SliderInput(text: string, display: Option<string>)
    | SelectInput(choices: seq<string>, selected: Option<nat>)
    | RadioGroup(radios: seq<Radio>)

  /** A parameter widget: what its constructor reads from the schema, the
      cached value, and the control once rendered. */
  datatype Param = Param(
    kind: Kind,
    units: Value,
    frontendProps: Value,
    defaultValue: Value,
    styleClass: Value,
    options: Value,
    showValueDisplay: bool,
    current: Value,
    surface: Option<Surface>)

  // ----- construction -----

  /** The cached value a widget starts with when the schema gives no
      default; radio has its own rule (`RadioInitial`). */
  function Fallback(k: Kind): Value {
    match k
    case NumberKind => Null
    case ReadonlyKind => Str("---")
    case FlagsKind => Num(0)
    case SliderKind => Num(0)
    case SelectKind => Str("")
    case RadioKind => Str("")
  }

  /** `x > 0` for a value read from the schema. */
  predicate Positive(x: Value) {
    ToNumber(x).Some? && ToNumber(x).value > 0
  }

  /** `options.some(opt => opt.value === d)` over an array: a missing option
      throws when the scan reaches it. */
  function SomeOptionHas(es: seq<Value>, d: Value): (r: Result<bool>)
    ensures r == Ok(true) ==> exists i :: 0 <= i < |es| && StrictEq(Get(es[i], "value"), d)
    ensures (forall i :: 0 <= i < |es| ==> !Nullish(es[i])) ==>
              r.Ok? && (r.value <==> exists i :: 0 <= i < |es| && StrictEq(Get(es[i], "value"), d))
  {
    if es == [] then Ok(false)
    else if Nullish(es[0]) then TypeError
    else if StrictEq(Get(es[0], "value"), d) then Ok(true)
    else
      var rest := SomeOptionHas(es[1..], d);
      assert forall i :: 1 <= i < |es| ==> es[i] == es[1..][i - 1];
      rest
  }

  /** `options.length > 0 ? options[0].value : ''`. */
  function FirstOptionValue(options: Value): Result<Value>
    requires !Nullish(options)
  {
    if Positive(Get(options, "length")) then Prop(Get(options, "0"), "value") else Ok(Str(""))
  }

  /** The radio widget's starting value: the schema default when some
      option has exactly that value, else the first option's value, else ''.
      `some` is only reached with a default, and throws on a non-array. */
  function RadioInitial(options: Value, d: Value): Result<Value>
    requires !Nullish(options)
  {
    if d.Undefined? then FirstOptionValue(options)
    else if !options.Arr? then TypeError
    else
      match SomeOptionHas(options.elems, d)
      case TypeError => TypeError
      case Ok(found) => if found then Ok(d) else FirstOptionValue(options)
  }

  /** For an array of options none of which is missing, the radio widget
      always starts, on the default when an option carries it, on the first
      option otherwise, and on '' without options. */
  lemma RadioInitialChoice(es: seq<Value>, d: Value)
    requires forall i :: 0 <= i < |es| ==> !Nullish(es[i])
    ensures RadioInitial(Arr(es), d).Ok?
    ensures var found := exists i :: 0 <= i < |es| && StrictEq(Get(es[i], "value"), d);
            RadioInitial(Arr(es), d).value
            == if !d.Undefined? && found then d
               else if es != [] then Get(es[0], "value")
               else Str("")
  {
  }

  /** The parameter part of a widget's constructor. Reading the schema
      throws when it is null or undefined; radio may throw while choosing
      its starting value. */
  function NewParam(k: Kind, schema: Value): (r: Result<Param>)
    ensures r.TypeError? <==> Nullish(schema) || (k == RadioKind && RadioInitial(Or(Get(Or(Get(schema, "frontend_props"), Obj([])), "options"), Arr([])), Get(Or(Get(schema, "frontend_props"), Obj([])), "default")).TypeError?)
    ensures r.Ok? ==> r.value.kind == k && r.value.surface.None?
    ensures r.Ok? ==> r.value.frontendProps == Or(Get(schema, "frontend_props"), Obj([]))
    ensures r.Ok? ==> r.value.defaultValue == Get(r.value.frontendProps, "default")
    ensures r.Ok? && k != RadioKind ==>
              r.value.current == if r.value.defaultValue.Undefined? then Fallback(k) else r.value.defaultValue
  {
    if Nullish(schema) then TypeError
    else
      var props := Or(Get(schema, "frontend_props"), Obj([]));
      var d := Get(props, "default");
      var options := Or(Get(props, "options"), Arr([]));
      var show := !StrictEq(Get(props, "show_value_display"), Bool(false));
      var start := if k == RadioKind then RadioInitial(options, d)
                   else Ok(if d.Undefined? then Fallback(k) else d);
      match start
      case TypeError => TypeError
      case Ok(v) =>
        Ok(Param(k, Get(schema, "units"), props, d, Or(Get(props, "style"), Str("")), options, show, v, None))
  }

  // ----- the controls -----

  /** The first position holding `s`, as `select.value = s` selects it. */
  function FirstIndex(xs: seq<string>, s: string): (r: Option<nat>)
    ensures r.None? <==> s !in xs
    ensures r.Some? ==> r.value < |xs| && xs[r.value] == s && s !in xs[..r.value]
  {
    if xs == [] then None
    else if xs[0] == s then Some(0)
    else
      match FirstIndex(xs[1..], s)
      case None => None
      case Some(i) =>
        assert xs[..i + 1] == [xs[0]] + xs[1..][..i];
        Some(i + 1)
  }

  /** `select.value`: the selected option's value, '' when none is. */
  function SelectValue(choices: seq<string>, selected: Option<nat>): string {
    match selected
    case Some(i) => if i < |choices| then choices[i] else ""
    case None => ""
  }

  /** The value one option writes into the page: the string form an
      option's `value` takes for a select, and what an input's `value`
      takes (null as empty) for a radio. */
  function OptionText(e: Value, asInput: bool): string {
    if asInput then InputText(Get(e, "value")) else ToString(Get(e, "value"))
  }

  /** The option values a select or radio writes into the page, one per
      option; a missing option throws. */
  function OptionTexts(es: seq<Value>, asInput: bool): (r: Result<seq<string>>)
    ensures r.Ok? ==> |r.value| == |es|
    ensures r.Ok? <==> forall i :: 0 <= i < |es| ==> !Nullish(es[i])
    ensures r.Ok? ==> forall i :: 0 <= i < |es| ==> r.value[i] == OptionText(es[i], asInput)
  {
    if es == [] then Ok([])
    else if Nullish(es[0]) then TypeError
    else
      assert forall i :: 1 <= i < |es| ==> es[i] == es[1..][i - 1];
      match OptionTexts(es[1..], asInput)
      case TypeError => TypeError
      case Ok(rest) => Ok([OptionText(es[0], asInput)] + rest)
  }

  /** One unchecked box per entry of the `bits` map, keyed by the entry's
      key; no boxes without a truthy `bits`. */
  function BoxesFor(bits: Value): (r: seq<Checkbox>)
    ensures !Truthy(bits) ==> r == []
    ensures Truthy(bits) ==> |r| == |Spread(bits)|
    ensures forall i :: 0 <= i < |r| ==> r[i].key == Spread(bits)[i].key && !r[i].checked
  {
    if Truthy(bits) then UncheckedBoxes(Spread(bits)) else []
  }

  function UncheckedBoxes(fs: seq<Field>): (r: seq<Checkbox>)
    ensures |r| == |fs|
    ensures forall i :: 0 <= i < |r| ==> r[i] == Checkbox(fs[i].key, false)
  {
    if fs == [] then [] else [Checkbox(fs[0].key, false)] + UncheckedBoxes(fs[1..])
  }

  /** A radio is checked when its value matches the cached value.
      The code compares the radio's string value with `===`, so a number
      never matches (see `RadioMatchesAsWritten`); the model compares with
      the string form of the cached value. */
  predicate RadioMatches(radioValue: string, current: Value) {
    radioValue == ToString(current)
  }

  /** The comparison as the code writes it: `radio.value === currentValue`. */
  predicate RadioMatchesAsWritten(radioValue: string, current: Value) {
    StrictEq(Str(radioValue), current)
  }

  /** The last radio whose value matches: checking a radio unchecks the
      others of its group, so when several match the last one stays. */
  function LastMatch(radios: seq<Radio>, current: Value): (r: Option<nat>)
    ensures r.Some? ==> r.value < |radios| && RadioMatches(radios[r.value].value, current)
    ensures r.Some? ==> forall j :: r.value < j < |radios| ==> !RadioMatches(radios[j].value, current)
    ensures r.None? <==> forall j :: 0 <= j < |radios| ==> !RadioMatches(radios[j].value, current)
  {
    if radios == [] then None
    else
      var n := |radios| - 1;
      if RadioMatches(radios[n].value, current) then Some(n)
      else
        var r := LastMatch(radios[..n], current);
        assert forall j :: 0 <= j < n ==> radios[..n][j] == radios[j];
        r
  }

  /** `_updateUIFromState`: all radios are unchecked, then each matching one
      is checked in turn. */
  function SyncRadios(radios: seq<Radio>, current: Value): (r: seq<Radio>)
    ensures |r| == |radios|
    ensures forall j :: 0 <= j < |r| ==> r[j].value == radios[j].value
    ensures forall j :: 0 <= j < |r| ==> (r[j].checked <==> LastMatch(radios, current) == Some(j))
  {
    var m := LastMatch(radios, current);
    seq(|radios|, j requires 0 <= j < |radios| => Radio(radios[j].value, m == Some(j)))
  }

  /** The same pass with the code's own comparison. */
  function SyncRadiosAsWritten(radios: seq<Radio>, current: Value): (r: seq<Radio>)
    ensures |r| == |radios|
    ensures forall j :: 0 <= j < |r| ==> r[j].value == radios[j].value
    ensures forall j :: 0 <= j < |r| ==>
              (r[j].checked <==> RadioMatchesAsWritten(radios[j].value, current)
                                 && forall k :: j < k < |radios| ==> !RadioMatchesAsWritten(radios[k].value, current))
  {
    seq(|radios|, j requires 0 <= j < |radios| =>
      Radio(radios[j].value, RadioMatchesAsWritten(radios[j].value, current)
                             && forall k :: j < k < |radios| ==> !RadioMatchesAsWritten(radios[k].value, current)))
  }

  /** The radio group is single-choice: at most one radio is checked, it
      carries the cached value, and none is checked when no value matches. */
  lemma SyncRadiosSingle(radios: seq<Radio>, current: Value, j: nat, k: nat)
    requires j < |radios| && k < |radios|
    ensures SyncRadios(radios, current)[j].checked && SyncRadios(radios, current)[k].checked ==> j == k
    ensures SyncRadios(radios, current)[j].checked ==> RadioMatches(radios[j].value, current)
    ensures (forall i :: 0 <= i < |radios| ==> !RadioMatches(radios[i].value, current))
            ==> !SyncRadios(radios, current)[j].checked
  {
  }

  /** `render()`: builds the control from the cached value. Select and
      radio walk `options` with `forEach`, which throws on a non-array and
      on a missing option. Flags boxes come from `bits` and are set from the
      cached value only when the schema gives a default. */
  function Render(p: Param): (r: Result<Param>)
    ensures r.Ok? ==> r.value.surface.Some? && r.value.kind == p.kind
    ensures r.Ok? ==> r.value.current == p.current
    ensures r.TypeError? ==> p.kind == SelectKind || p.kind == RadioKind
  {
    match p.kind
    case NumberKind =>
      Ok(p.(surface := Some(NumberInput(if Nullish(p.current) then "" else InputText(p.current)))))
    case ReadonlyKind =>
      Ok(p.(surface := Some(ReadonlyDisplay(TextContent(p.current)))))
    case FlagsKind =>
      var boxes := BoxesFor(Get(p.frontendProps, "bits"));
      var marked := if p.defaultValue.Undefined? then boxes else SetBoxes(boxes, ToInt32Bits(p.current));
      Ok(p.(surface := Some(FlagBoxes(marked))))
    case SliderKind =>
      var text := InputText(p.current);
      Ok(p.(surface := Some(SliderInput(text, if p.showValueDisplay then Some(text) else None))))
    case SelectKind =>
      if !p.options.Arr? then TypeError
      else
        (match OptionTexts(p.options.elems, false)
         case TypeError => TypeError
         case Ok(choices) =>
           Ok(p.(surface := Some(SelectInput(choices, FirstIndex(choices, ToString(p.current)))))))
    case RadioKind =>
      if !p.options.Arr? then TypeError
      else
        (match OptionTexts(p.options.elems, true)
         case TypeError => TypeError
         case Ok(values) =>
           var radios := seq(|values|, j requires 0 <= j < |values| => Radio(values[j], false));
           Ok(p.(surface := Some(RadioGroup(SyncRadios(radios, p.current))))))
  }

  // ----- programmatic access -----

  /** The surface a widget of kind `k` builds. */
  predicate Fits(k: Kind, s: Surface) {
    match k
    case NumberKind => s.NumberInput?
    case ReadonlyKind => s.ReadonlyDisplay?
    case FlagsKind => s.FlagBoxes?
    case SliderKind => s.SliderInput?
    case SelectKind => s.SelectInput?
    case RadioKind => s.RadioGroup?
  }

  predicate Wf(p: Param) {
    p.surface.Some? ==> Fits(p.kind, p.surface.value)
  }

  lemma RenderWf(p: Param)
    requires Render(p).Ok?
    ensures Wf(Render(p).value)
  {
  }

  /** `updateValue(v)`. Number and slider rewrite the input unless it
      already parses to `v`; select unless it already shows `v`; readonly
      and flags always; all five only once rendered. Radio always takes the
      value and re-syncs its radios when rendered. */
  function UpdateValue(p: Param, v: Value): (r: Param)
    ensures r.kind == p.kind && r.surface.Some? == p.surface.Some?
    ensures p.kind != RadioKind && p.surface.None? ==> r == p
    ensures Wf(p) && p.kind == RadioKind ==> r.current == v
    ensures Wf(p) ==> Wf(r)
    ensures r.current == p.current || r.current == v
    ensures p.surface.Some? && (p.surface.value.NumberInput? || p.surface.value.SliderInput?) ==>
              && r.surface.Some? && r.surface.value.NumberInput? == p.surface.value.NumberInput?
              && r.surface.value.SliderInput? == p.surface.value.SliderInput?
              && if ParseNumber(p.surface.value.text) == v && v.Num? then r == p
                 else r.surface.value.text == InputText(v)
  {
    match p.surface
    case None => if p.kind == RadioKind then p.(current := v) else p
    case Some(s) =>
      match s
      case NumberInput(text) =>
        if ParseNumber(text) == v && v.Num? then p
        else p.(current := v, surface := Some(NumberInput(InputText(v))))
      case ReadonlyDisplay(_) =>
        p.(current := v, surface := Some(ReadonlyDisplay(TextContent(v))))
      case FlagBoxes(boxes) =>
        p.(current := v, surface := Some(FlagBoxes(SetBoxes(boxes, ToInt32Bits(v)))))
      case SliderInput(text, display) =>
        if ParseNumber(text) == v && v.Num? then p
        else
          var shown := if p.showValueDisplay && display.Some? then Some(TextContent(v)) else display;
          p.(current := v, surface := Some(SliderInput(InputText(v), shown)))
      case SelectInput(choices, selected) =>
        if v == Str(SelectValue(choices, selected)) then p
        else p.(current := v, surface := Some(SelectInput(choices, FirstIndex(choices, ToString(v)))))
      case RadioGroup(radios) =>
        p.(current := v, surface := Some(RadioGroup(SyncRadios(radios, v))))
  }

  /** `getValue()`: number and slider read the input back when it parses,
      select reads the selection, the others the cached value. */
  function GetValue(p: Param): (r: Value)
    ensures p.surface.None? ==> r == p.current
    ensures p.surface.Some? && (p.surface.value.NumberInput? || p.surface.value.SliderInput?) ==>
              var read := ParseNumber(p.surface.value.text);
              && (read.Num? ==> r == read)
              && (!read.Num? ==> r == p.current)
    ensures p.surface.Some? && p.surface.value.SelectInput? ==>
              var s := p.surface.value;
              && r.Str?
              && (r.s in s.choices || r.s == "")
              && (s.selected.Some? && s.selected.value < |s.choices| ==> r.s == s.choices[s.selected.value])
              && (s.selected.None? ==> r.s == "")
    ensures p.surface.Some? && (p.surface.value.ReadonlyDisplay? || p.surface.value.FlagBoxes? || p.surface.value.RadioGroup?) ==>
              r == p.current
  {
    match p.surface
    case None => p.current
    case Some(s) =>
      match s
      case NumberInput(text) => if ParseNumber(text).Num? then ParseNumber(text) else p.current
      case SliderInput(text, _) => if ParseNumber(text).Num? then ParseNumber(text) else p.current
      case SelectInput(choices, selected) => Str(SelectValue(choices, selected))
      case _ => p.current
  }

  /** The radio widget gives back any value it is set to, rendered or not. */
  lemma RadioUpdateThenGet(p: Param, v: Value)
    requires Wf(p) && p.kind == RadioKind
    ensures GetValue(UpdateValue(p, v)) == v
  {
  }

  /** A rendered readonly or flags widget gives back any value it is set to. */
  lemma CachedUpdateThenGet(p: Param, v: Value)
    requires Wf(p) && p.surface.Some? && (p.kind == ReadonlyKind || p.kind == FlagsKind)
    ensures GetValue(UpdateValue(p, v)) == v
  {
  }

  /** A rendered number or slider widget gives back any integer it is set
      to: either its input already parses to it, or it is rewritten. */
  lemma NumericUpdateThenGet(p: Param, n: int)
    requires Wf(p) && p.surface.Some? && (p.kind == NumberKind || p.kind == SliderKind)
    ensures GetValue(UpdateValue(p, Num(n))) == Num(n)
  {
    ParseInputNumber(n);
    var v := Num(n);
    if !(ParseNumber(p.surface.value.text) == v) {
      InputReads(UpdateValue(p, v), InputText(v), v);
    }
  }

  /** A number or slider input that parses to a number gives that number. */
  lemma InputReads(r: Param, t: string, v: Value)
    requires r.surface.Some? && (r.surface.value.NumberInput? || r.surface.value.SliderInput?) && r.surface.value.text == t
    requires ParseNumber(t) == v && v.Num?
    ensures GetValue(r) == v
  {
  }

  /** A rendered select gives back any option value it is set to. */
  lemma SelectUpdateThenGet(p: Param, s: string)
    requires Wf(p) && p.surface.Some? && p.kind == SelectKind && s in p.surface.value.choices
    ensures GetValue(UpdateValue(p, Str(s))) == Str(s)
  {
  }

  // ----- user input -----

  /** The widget after a user event and the effects the event had, in order. */
  datatype Changed = Changed(param: Param, effects: seq<Effect>)

  /** The number input's `change` with the text the user left in it. Text
      that does not parse is replaced by the cached value (or '') and
      nothing is reported; a number becomes the cached value and is
      reported. None when the widget is not a rendered number input. */
  function ChangeNumber(p: Param, o: Owner, text: string): (r: Option<Changed>)
    ensures r.Some? <==> p.surface.Some? && p.surface.value.NumberInput?
    ensures r.Some? && ParseNumber(text).NaN? ==>
              r.value.effects == [] && r.value.param.current == p.current
              && r.value.param.surface == Some(NumberInput(InputText(Or(p.current, Str("")))))
    ensures r.Some? && ParseNumber(text).Num? ==>
              r.value.param.current == ParseNumber(text) && r.value.effects == ParameterChanged(o, ParseNumber(text))
  {
    if p.surface.Some? && p.surface.value.NumberInput? then
      var v := ParseNumber(text);
      if v.NaN? then Some(Changed(p.(surface := Some(NumberInput(InputText(Or(p.current, Str("")))))), []))
      else Some(Changed(p.(current := v, surface := Some(NumberInput(text))), ParameterChanged(o, v)))
    else None
  }

  /** The slider's `input`: the parsed position is cached, shown and
      reported, without a NaN check. */
  function MoveSlider(p: Param, o: Owner, text: string): (r: Option<Changed>)
    ensures r.Some? <==> p.surface.Some? && p.surface.value.SliderInput?
    ensures r.Some? ==> r.value.param.current == ParseNumber(text)
                        && r.value.effects == ParameterChanged(o, ParseNumber(text))
  {
    match p.surface
    case Some(SliderInput(_, display)) =>
      var v := ParseNumber(text);
      var shown := if display.Some? then Some(ToString(v)) else None;
      Some(Changed(p.(current := v, surface := Some(SliderInput(text, shown))), ParameterChanged(o, v)))
    case _ => None
  }

  /** A click on checkbox `i`: the box flips, the value becomes the mask of
      the checked boxes as a signed 32-bit number, and it is reported. */
  function ToggleFlag(p: Param, o: Owner, i: nat): (r: Option<Changed>)
    ensures r.Some? <==> p.surface.Some? && p.surface.value.FlagBoxes? && i < |p.surface.value.boxes|
    ensures r.Some? ==>
              var boxes := p.surface.value.boxes;
              var after := boxes[i := Checkbox(boxes[i].key, !boxes[i].checked)];
              && r.value.param.surface == Some(FlagBoxes(after))
              && r.value.param.current == Num(Signed(MaskOf(after)))
              && r.value.effects == ParameterChanged(o, Num(Signed(MaskOf(after))))
  {
    match p.surface
    case Some(FlagBoxes(boxes)) =>
      if i < |boxes| then
        var after := boxes[i := Checkbox(boxes[i].key, !boxes[i].checked)];
        var v := Num(Signed(MaskOf(after)));
        Some(Changed(p.(current := v, surface := Some(FlagBoxes(after))), ParameterChanged(o, v)))
      else None
    case _ => None
  }

  /** Choosing option `i` of a select: its value is cached and reported. */
  function ChooseOption(p: Param, o: Owner, i: nat): (r: Option<Changed>)
    ensures r.Some? <==> p.surface.Some? && p.surface.value.SelectInput? && i < |p.surface.value.choices|
    ensures r.Some? ==> r.value.param.current == Str(p.surface.value.choices[i])
                        && GetValue(r.value.param) == r.value.param.current
                        && r.value.effects == ParameterChanged(o, r.value.param.current)
  {
    match p.surface
    case Some(SelectInput(choices, _)) =>
      if i < |choices| then
        var v := Str(choices[i]);
        Some(Changed(p.(current := v, surface := Some(SelectInput(choices, Some(i)))), ParameterChanged(o, v)))
      else None
    case _ => None
  }

  /** Choosing radio `i`: it becomes the only checked radio of the group,
      and its value is cached and reported. */
  function ChooseRadio(p: Param, o: Owner, i: nat): (r: Option<Changed>)
    ensures r.Some? <==> p.surface.Some? && p.surface.value.RadioGroup? && i < |p.surface.value.radios|
    ensures r.Some? ==>
              && r.value.param.surface.Some? && r.value.param.surface.value.RadioGroup?
              && var radios := r.value.param.surface.value.radios;
              && |radios| == |p.surface.value.radios|
              && r.value.param.current == Str(p.surface.value.radios[i].value)
              && (forall j :: 0 <= j < |radios| ==> (radios[j].checked <==> j == i))
              && r.value.effects == ParameterChanged(o, r.value.param.current)
  {
    match p.surface
    case Some(RadioGroup(radios)) =>
      if i < |radios| then
        var v := Str(radios[i].value);
        var after := seq(|radios|, j requires 0 <= j < |radios| => Radio(radios[j].value, j == i));
        Some(Changed(p.(current := v, surface := Some(RadioGroup(after))), ParameterChanged(o, v)))
      else None
    case _ => None
  }

  /** Whatever the user does, the value reported to `onParameterChange` is
      the widget's new cached value. */
  lemma ReportedIsCached(c: Changed, o: Owner)
    requires c.effects == ParameterChanged(o, c.param.current)
    ensures forall e :: e in c.effects && e.ParameterHandler? ==> e.value == c.param.current
    ensures c.effects[0].Publish? && Get(c.effects[0].payload, "value") == c.param.current
  {
  }

  /** The flags value a user click publishes, set back from outside,
      leaves the boxes as the user left them. */
  lemma FlagsEcho(p: Param, o: Owner, i: nat)
    requires ToggleFlag(p, o, i).Some?
    requires Consistent(ToggleFlag(p, o, i).value.param.surface.value.boxes)
    ensures var q := ToggleFlag(p, o, i).value.param;
            UpdateValue(q, q.current).surface == q.surface
  {
    var q := ToggleFlag(p, o, i).value.param;
    var boxes := q.surface.value.boxes;
    BitsRoundTrip(MaskOf(boxes));
    SetBoxesMaskOf(boxes);
  }

  /** After setting `v` on a rendered flags widget, bit `n` of what the
      boxes encode is bit `n` of `v`, for every bit some box names. */
  lemma FlagsUpdateThenRead(p: Param, v: Value, n: nat)
    requires p.surface.Some? && p.surface.value.FlagBoxes?
    requires n < 32
    ensures MaskOf(UpdateValue(p, v).surface.value.boxes)[n]
            <==> ToInt32Bits(v)[n] && exists i :: 0 <= i < |p.surface.value.boxes| && Names(p.surface.value.boxes[i], n)
  {
    var boxes := p.surface.value.boxes;
    assert UpdateValue(p, v).surface == Some(FlagBoxes(SetBoxes(boxes, ToInt32Bits(v))));
    MaskOfSetBoxes(boxes, ToInt32Bits(v), n);
  }

  // ----- numeric radio options -----

  /** A radio parameter whose options have numeric values, with a default
      that one of them carries. */
  const NumericOptions: Value := Arr([Obj([Field("value", Num(1))]), Obj([Field("value", Num(2))])])
  const NumericProps: Value := Obj([Field("options", NumericOptions), Field("default", Num(1))])
  const NumericRadioSchema: Value := Obj([Field("frontend_props", NumericProps)])

  /** The widget built from that schema starts on the numeric default 1. */
  lemma NumericRadioStarts()
    ensures NewParam(RadioKind, NumericRadioSchema)
            == Ok(Param(RadioKind, Undefined, NumericProps, Num(1), Str(""), NumericOptions, true, Num(1), None))
  {
    assert Get(NumericRadioSchema, "frontend_props") == NumericProps;
    assert Lookup(NumericProps.fields[1..], "default") == Some(Num(1));
    assert Get(NumericProps, "default") == Num(1);
    assert Get(NumericProps, "options") == NumericOptions;
    assert StrictEq(Get(NumericOptions.elems[0], "value"), Num(1));
    var top := NumericRadioSchema.fields;
    assert top[0].key != "units" && top[1..] == [];
    assert Lookup(top, "units") == None;
    assert Get(NumericRadioSchema, "units") == Undefined;
    assert Lookup(NumericProps.fields[1..], "style").None?;
    assert Get(NumericProps, "style") == Undefined;
    assert Lookup(NumericProps.fields[1..], "show_value_display").None?;
    assert Get(NumericProps, "show_value_display") == Undefined;
  }

  /** The radios that widget writes into the page carry "1" and "2". */
  lemma NumericRadioValues()
    ensures OptionTexts(NumericOptions.elems, true) == Ok(["1", "2"])
  {
    var es := NumericOptions.elems;
    assert DigitChar(1) == '1' && DigitChar(2) == '2';
    assert InputText(Get(es[0], "value")) == "1";
    assert InputText(Get(es[1], "value")) == "2";
    var texts := OptionTexts(es, true);
    assert texts.Ok? && |texts.value| == 2;
    assert texts.value == ["1", "2"];
  }

  /** As written, no radio of that widget is checked after rendering,
      because the radio's value "1" is compared with `===` to the number 1;
      with the string comparison the radio for 1 is checked. */
  lemma NumericRadioUnchecked()
    ensures SyncRadiosAsWritten([Radio("1", false), Radio("2", false)], Num(1))
            == [Radio("1", false), Radio("2", false)]
    ensures SyncRadios([Radio("1", false), Radio("2", false)], Num(1))
            == [Radio("1", true), Radio("2", false)]
  {
    var radios := [Radio("1", false), Radio("2", false)];
    assert DigitChar(1) == '1';
    assert RadioMatches("1", Num(1)) && !RadioMatches("2", Num(1));
    assert LastMatch(radios, Num(1)) == Some(0);
  }

  /** With the corrected comparison, setting any option's value checks
      that option's radio (the last one, if several carry it). */
  lemma OptionValueChecks(p: Param, v: Value, j: nat)
    requires p.surface.Some? && p.surface.value.RadioGroup?
    requires j < |p.surface.value.radios| && p.surface.value.radios[j].value == ToString(v)
    ensures exists k :: j <= k < |p.surface.value.radios| && UpdateValue(p, v).surface.value.radios[k].checked
  {
    var radios := p.surface.value.radios;
    var m := LastMatch(radios, v);
    assert m.Some? && m.value >= j;
    assert UpdateValue(p, v).surface.value.radios[m.value].checked;
  }
}
