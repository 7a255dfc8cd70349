/**
 * The server link (`DataConnector`): inbound messages become bus events,
 * and outbound commands and parameter changes are sent only over an open
 * socket. Messages are the parsed JSON values; the socket is its
 * `readyState`, or nothing before `connect`.
 */
module DataConnector {
  import opened JsValue
  import opened Logging
  import opened EventBus
  import opened Effects

  const ParameterUpdate: string := "PARAMETER_UPDATE"
  const SchemaUpdate: string := "SCHEMA_UPDATE"
  const VisibilityUpdate: string := "VISIBILITY_UPDATE"

  /** `WebSocket.OPEN`. */
  const Open: int := 1

  const NotConnected: string := "cannot send: the connection is closed"
  const BadMessage: string := "failed to handle a server message"

  /** The socket, if `connect` made one, by its `readyState`, and the text
      frames sent over it, as the values before `JSON.stringify`. */
  datatype Connector = Connector(ws: Option<int>, sent: seq<Value>)

  const Disconnected: Connector := Connector(None, [])

  /** `handleMessage(data)`: the event a server message is published as.
      Reading `type` from null or undefined throws. */
  function Translate(data: Value): (r: Result<Option<Effect>>)
    ensures r.TypeError? <==> Nullish(data)
    ensures r.Ok? && r.value.Some? ==> r.value.value.Publish?
    ensures r.Ok? && Get(data, "type") == Str(ParameterUpdate) ==>
              r.value.Some? && r.value.value.topic == ParameterValueChanged
              && Get(r.value.value.payload, "paramId") == Get(data, "param_id")
              && Get(r.value.value.payload, "value") == Get(data, "value")
              && Get(r.value.value.payload, "controllerName") == Get(data, "controller_name")
    ensures r.Ok? && Get(data, "type") == Str(SchemaUpdate) ==>
              r.value.Some? && r.value.value.topic == SchemaUpdateReceived
              && Get(r.value.value.payload, "schema") == Get(data, "schema")
    ensures r.Ok? && Get(data, "type") == Str(VisibilityUpdate) ==>
              r.value.Some? && r.value.value.topic == ElementVisibilityChanged
              && Get(r.value.value.payload, "elementId") == Get(data, "element_id")
              && Get(r.value.value.payload, "isVisible") == Get(data, "visible")
    ensures r.Ok? && r.value.Some? ==>
              Get(data, "type") in [Str(ParameterUpdate), Str(SchemaUpdate), Str(VisibilityUpdate)]
  {
    if Nullish(data) then TypeError
    else
      var t := Get(data, "type");
      if t == Str(ParameterUpdate) then
        var fs := [Field("paramId", Get(data, "param_id")), Field("value", Get(data, "value")),
                   Field("controllerName", Get(data, "controller_name"))];
        assert Lookup(fs[1..][1..], "controllerName") == Some(Get(data, "controller_name"));
        assert Lookup(fs[1..], "controllerName") == Some(Get(data, "controller_name"));
        assert Lookup(fs[1..], "value") == Some(Get(data, "value"));
        Ok(Some(Publish(ParameterValueChanged, Obj(fs))))
      else if t == Str(SchemaUpdate) then
        Ok(Some(Publish(SchemaUpdateReceived, Obj([Field("schema", Get(data, "schema"))]))))
      else if t == Str(VisibilityUpdate) then
        var fs := [Field("elementId", Get(data, "element_id")), Field("isVisible", Get(data, "visible"))];
        assert Lookup(fs[1..], "isVisible") == Some(Get(data, "visible"));
        Ok(Some(Publish(ElementVisibilityChanged, Obj(fs))))
      else Ok(None)
  }

  /** `this.ws && this.ws.readyState === WebSocket.OPEN`. */
  predicate IsOpen(c: Connector) {
    c.ws == Some(Open)
  }

  /** Sends `message` over an open socket; otherwise logs an error and
      sends nothing. */
  function Send(c: Connector, message: Value): (r: (Connector, seq<Entry>))
    ensures IsOpen(c) ==> r == (c.(sent := c.sent + [message]), [])
    ensures !IsOpen(c) ==> r.0 == c && r.1 == [Entry(Error, NotConnected, Undefined)]
  {
    if IsOpen(c) then (c.(sent := c.sent + [message]), [])
    else (c, [Entry(Error, NotConnected, Undefined)])
  }

  /** The `COMMAND` message. */
  function CommandMessage(commandId: Value, controllerName: Value): (m: Value)
    ensures Get(m, "type") == Str("COMMAND")
    ensures Get(m, "command_id") == commandId && Get(m, "controller_name") == controllerName
  {
    var fs := [Field("type", Str("COMMAND")), Field("command_id", commandId), Field("controller_name", controllerName)];
    assert Lookup(fs[1..][1..], "controller_name") == Some(controllerName);
    assert Lookup(fs[1..], "controller_name") == Some(controllerName);
    assert Lookup(fs[1..], "command_id") == Some(commandId);
    Obj(fs)
  }

  /** The `PARAMETER_CHANGE` message. */
  function ParameterChangeMessage(paramId: Value, value: Value, controllerName: Value): (m: Value)
    ensures Get(m, "type") == Str("PARAMETER_CHANGE")
    ensures Get(m, "param_id") == paramId && Get(m, "value") == value
            && Get(m, "controller_name") == controllerName
  {
    var fs := [Field("type", Str("PARAMETER_CHANGE")), Field("param_id", paramId), Field("value", value),
               Field("controller_name", controllerName)];
    assert Lookup(fs[1..][1..][1..], "controller_name") == Some(controllerName);
    assert Lookup(fs[1..][1..], "controller_name") == Some(controllerName);
    assert Lookup(fs[1..], "controller_name") == Some(controllerName);
    assert Lookup(fs[1..][1..], "value") == Some(value);
    assert Lookup(fs[1..], "value") == Some(value);
    assert Lookup(fs[1..], "param_id") == Some(paramId);
    Obj(fs)
  }

  /** `sendCommand(commandId, controllerName)`. */
  function SendCommand(c: Connector, commandId: Value, controllerName: Value): (r: (Connector, seq<Entry>))
    ensures IsOpen(c) ==> r.0.sent == c.sent + [CommandMessage(commandId, controllerName)] && r.1 == []
    ensures !IsOpen(c) ==> r.0 == c && |r.1| == 1 && r.1[0].level == Error
    ensures r.0.ws == c.ws
  {
    Send(c, CommandMessage(commandId, controllerName))
  }

  /** `sendParameterChange(paramId, value, controllerName)`. */
  function SendParameterChange(c: Connector, paramId: Value, value: Value, controllerName: Value): (r: (Connector, seq<Entry>))
    ensures IsOpen(c) ==> r.0.sent == c.sent + [ParameterChangeMessage(paramId, value, controllerName)] && r.1 == []
    ensures !IsOpen(c) ==> r.0 == c && |r.1| == 1 && r.1[0].level == Error
    ensures r.0.ws == c.ws
  {
    Send(c, ParameterChangeMessage(paramId, value, controllerName))
  }

  /** The server's `PARAMETER_UPDATE` message. */
  function ParameterUpdateMessage(paramId: Value, value: Value, controllerName: Value): Value {
    Obj([Field("type", Str(ParameterUpdate)), Field("param_id", paramId), Field("value", value),
         Field("controller_name", controllerName)])
  }

  /** The fields of a `PARAMETER_UPDATE` reach the bus event intact, so a
      change read back from that event and sent is the same change. */
  lemma ParameterUpdateRoundTrip(paramId: Value, value: Value, controllerName: Value)
    ensures var r := Translate(ParameterUpdateMessage(paramId, value, controllerName));
            r.Ok? && r.value.Some? && r.value.value.topic == ParameterValueChanged
            && var p := r.value.value.payload;
               ParameterChangeMessage(Get(p, "paramId"), Get(p, "value"), Get(p, "controllerName"))
               == ParameterChangeMessage(paramId, value, controllerName)
  {
    var m := ParameterUpdateMessage(paramId, value, controllerName);
    var fs := m.fields;
    assert Lookup(fs[1..][1..][1..], "controller_name") == Some(controllerName);
    assert Lookup(fs[1..][1..], "controller_name") == Some(controllerName);
    assert Lookup(fs[1..], "controller_name") == Some(controllerName);
    assert Lookup(fs[1..][1..], "value") == Some(value);
    assert Lookup(fs[1..], "value") == Some(value);
    assert Lookup(fs[1..], "param_id") == Some(paramId);
    assert Get(m, "type") == Str(ParameterUpdate);
  }

  /** `ws.onmessage` after parsing: a message that makes `handleMessage`
      throw is caught and logged as an error. */
  function OnMessage(data: Value): (r: (Option<Effect>, seq<Entry>))
    ensures Nullish(data) ==> r == (None, [Entry(Error, BadMessage, Undefined)])
    ensures !Nullish(data) ==> r.1 == [] && Translate(data) == Ok(r.0)
  {
    match Translate(data)
    case TypeError => (None, [Entry(Error, BadMessage, Undefined)])
    case Ok(e) => (e, [])
  }
}
