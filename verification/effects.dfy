/**
 * What a widget hands to the rest of the system when the user acts on it:
 * publishes on the event bus and calls of the application's handlers. A
 * widget's own operations return these as values, in the order the widget
 * performs them; the composition root carries them out.
 *
 * Also the conversions the page applies when a value is written into it.
 */
module Effects {
  import opened JsValue
  import opened EventBus

  /** The application's handler object: whether `onParameterChange` and
      `onCommand` are functions. Their bodies are code outside the model. */
  datatype Handlers = Handlers(onParameterChange: bool, onCommand: bool)

  const NoHandlers: Handlers := Handlers(false, false)

  /** The identity a widget reports its events under. */
  datatype Owner = Owner(id: Value, controllerName: Value, handlers: Handlers)

  datatype Effect =
    | Publish(topic: string, payload: Value)
    | ParameterHandler(id: Value, value: Value)   // handlers.onParameterChange(id, value)
    | CommandHandler(id: Value, state: Value)     // handlers.onCommand(id, state)

  /** A user change of a parameter to `v`: `PARAMETER_VALUE_CHANGED` with the
      id, value and controller name, then `onParameterChange` when the
      application supplies it. */
  function ParameterChanged(o: Owner, v: Value): (r: seq<Effect>)
    ensures 1 <= |r| <= 2
    ensures r[0].Publish? && r[0].topic == ParameterValueChanged
    ensures Get(r[0].payload, "paramId") == o.id && Get(r[0].payload, "value") == v
            && Get(r[0].payload, "controllerName") == o.controllerName
    ensures |r| == 2 <==> o.handlers.onParameterChange
    ensures |r| == 2 ==> r[1] == ParameterHandler(o.id, v)
  {
    var payload := Obj([Field("paramId", o.id), Field("value", v), Field("controllerName", o.controllerName)]);
    var fs := payload.fields;
    assert Lookup(fs[1..][1..], "controllerName") == Some(o.controllerName);
    assert Lookup(fs[1..], "controllerName") == Some(o.controllerName);
    assert Lookup(fs[1..], "value") == Some(v);
    [Publish(ParameterValueChanged, payload)]
    + (if o.handlers.onParameterChange then [ParameterHandler(o.id, v)] else [])
  }

  /** `textContent = v`: null and undefined give the empty string. */
  function TextContent(v: Value): (r: string)
    ensures Nullish(v) ==> r == ""
    ensures !Nullish(v) ==> r == ToString(v)
    ensures r == InputText(v) <==> !v.Undefined?
  {
    if Nullish(v) then "" else ToString(v)
  }

  /** `input.value = v`: null gives the empty string, anything else its
      string form. */
  function InputText(v: Value): (r: string)
    ensures v.Null? ==> r == ""
    ensures !v.Null? ==> r == ToString(v)
    ensures v.Undefined? ==> r == "undefined"
  {
    if v.Null? then "" else ToString(v)
  }

  /** `parseFloat(text)` on integer notation; NaN when no digit leads. */
  function ParseNumber(text: string): (r: Value)
    ensures r.Num? || r.NaN?
    ensures r.NaN? <==> ParseLeadingInt(text).None?
  {
    match ParseLeadingInt(text)
    case Some(n) => Num(n)
    case None => NaN
  }

  /** Writing a number into an input and parsing the input back gives the
      number again. */
  lemma ParseInputNumber(n: int)
    ensures ParseNumber(InputText(Num(n))) == Num(n)
  {
    ParseIntString(n);
  }
}
