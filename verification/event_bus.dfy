/**
 * The event bus: a table from event names to lists of listeners, with
 * subscribe, unsubscribe and a synchronous publish that calls every
 * listener subscribed when the publish began, in subscription order, and
 * keeps going when one of them throws.
 *
 * Listeners are not closures here but the `Callback` values below, one per
 * subscription the core makes; what each does is given to `Publish` as a
 * `deliver` function by whoever owns the state the listeners act on.
 */
module EventBus {
  import opened JsValue

  /** Every listener the core subscribes, plus listeners from code outside
      the core (an element's `subscribeToEvent`), told apart by a number. */
  datatype Callback =
    | RegistryLogsParameter      // PARAMETER_VALUE_CHANGED: debug log only
    | RegistryAppliesVisibility  // ELEMENT_VISIBILITY_CHANGED: sets an element's visibility
    | RegistryLogsClick          // COMMAND_CLICKED: debug log only
    | RegistryLogsToggle         // COMMAND_TOGGLED: debug log only
    | GeneratorAppliesSchema     // SCHEMA_UPDATE_RECEIVED: applies the schema's visibilities
    | GeneratorSendsCommand      // COMMAND_CLICKED: forwards to the connector
    | GeneratorSendsParameter    // PARAMETER_VALUE_CHANGED: forwards to the connector
    | External(n: nat)

  /** The event names the core publishes and listens to. */
  const ParameterValueChanged: string := "PARAMETER_VALUE_CHANGED"
  const ElementVisibilityChanged: string := "ELEMENT_VISIBILITY_CHANGED"
  const CommandClicked: string := "COMMAND_CLICKED"
  const CommandToggled: string := "COMMAND_TOGGLED"
  const SchemaUpdateReceived: string := "SCHEMA_UPDATE_RECEIVED"

  /** The five event names are pairwise different. */
  lemma TopicsDistinct()
    ensures ParameterValueChanged != ElementVisibilityChanged && ParameterValueChanged != CommandClicked
    ensures ParameterValueChanged != CommandToggled && ParameterValueChanged != SchemaUpdateReceived
    ensures ElementVisibilityChanged != CommandClicked && ElementVisibilityChanged != CommandToggled
    ensures ElementVisibilityChanged != SchemaUpdateReceived && CommandClicked != CommandToggled
    ensures CommandClicked != SchemaUpdateReceived && CommandToggled != SchemaUpdateReceived
  {
    assert |ParameterValueChanged| == 23 && |ElementVisibilityChanged| == 26 && |SchemaUpdateReceived| == 22;
    assert |CommandClicked| == 15 == |CommandToggled|;
    assert CommandClicked[8] != CommandToggled[8];
  }

  /** The listener table. A name that was ever subscribed keeps its entry,
      even once its list is empty. */
  type Bus = map<string, seq<Callback>>

  const EmptyBus: Bus := map[]

  function Listeners(b: Bus, topic: string): seq<Callback> {
    if topic in b then b[topic] else []
  }

  /** Appends `c` to the list for `topic`, creating the entry if needed. */
  function Subscribe(b: Bus, topic: string, c: Callback): (r: Bus)
    ensures topic in r
    ensures Listeners(r, topic) == Listeners(b, topic) + [c]
    ensures forall u :: u != topic ==> (u in r <==> u in b) && Listeners(r, u) == Listeners(b, u)
  {
    b[topic := Listeners(b, topic) + [c]]
  }

  /** The list with every occurrence of `c` dropped, order kept. */
  function Without(cs: seq<Callback>, c: Callback): (r: seq<Callback>)
    ensures c !in r
    ensures forall x :: x != c ==> multiset(r)[x] == multiset(cs)[x]
  {
    if cs == [] then []
    else
      assert cs == [cs[0]] + cs[1..];
      if cs[0] == c then Without(cs[1..], c) else [cs[0]] + Without(cs[1..], c)
  }

  /** Removes every subscription of `c` to `topic`; the entry itself stays.
      An unknown topic is left alone. */
  function Unsubscribe(b: Bus, topic: string, c: Callback): (r: Bus)
    ensures forall u :: u in r <==> u in b
    ensures Listeners(r, topic) == Without(Listeners(b, topic), c)
    ensures forall u :: u != topic ==> Listeners(r, u) == Listeners(b, u)
  {
    if topic in b then b[topic := Without(b[topic], c)] else b
  }

  /** Dropping distributes over concatenation: together with its contract,
      `Without` keeps the other listeners in their original order. */
  lemma {:induction false} WithoutAppend(a: seq<Callback>, b: seq<Callback>, c: Callback)
    ensures Without(a + b, c) == Without(a, c) + Without(b, c)
  {
    if a == [] {
      assert a + b == b;
    } else {
      assert (a + b)[0] == a[0];
      assert (a + b)[1..] == a[1..] + b;
      WithoutAppend(a[1..], b, c);
    }
  }

  /** A list that never held `c` is unchanged by dropping it. */
  lemma {:induction false} WithoutAbsent(cs: seq<Callback>, c: Callback)
    requires c !in cs
    ensures Without(cs, c) == cs
  {
    if cs != [] {
      assert c !in cs[1..];
      WithoutAbsent(cs[1..], c);
      assert cs == [cs[0]] + cs[1..];
    }
  }

  /** Subscribing a listener and unsubscribing it again restores the list,
      but the entry for the name remains. */
  lemma SubscribeThenUnsubscribe(b: Bus, topic: string, c: Callback)
    requires c !in Listeners(b, topic)
    ensures Listeners(Unsubscribe(Subscribe(b, topic, c), topic, c), topic) == Listeners(b, topic)
    ensures topic in Unsubscribe(Subscribe(b, topic, c), topic, c)
  {
    WithoutAppend(Listeners(b, topic), [c], c);
    WithoutAbsent(Listeners(b, topic), c);
    assert Without([c], c) == [];
  }

  /** What one listener call did: the state it left and whether it threw. */
  datatype Delivery<S> = Delivery(state: S, threw: bool)

  /** A dispatch: the final state, the listeners called in order, and the
      positions of the ones that threw (each is logged as an error). */
  datatype Run<S> = Run(state: S, called: seq<Callback>, failed: seq<nat>)

  /** Calls every listener of the snapshot in order on the same payload,
      each on the state the previous one left; a throw is recorded and the
      loop goes on. */
  function Dispatch<S>(snapshot: seq<Callback>, data: Value, s: S,
                       deliver: (S, Callback, Value) -> Delivery<S>): (r: Run<S>)
    ensures r.called == snapshot
    ensures |r.failed| <= |snapshot|
    ensures forall j :: 0 <= j < |r.failed| ==> r.failed[j] < |snapshot|
    ensures forall j, k :: 0 <= j < k < |r.failed| ==> r.failed[j] < r.failed[k]
    decreases |snapshot|
  {
    if snapshot == [] then Run(s, [], [])
    else
      var n := |snapshot| - 1;
      var prev := Dispatch(snapshot[..n], data, s, deliver);
      var d := deliver(prev.state, snapshot[n], data);
      assert snapshot == snapshot[..n] + [snapshot[n]];
      Run(d.state, prev.called + [snapshot[n]], prev.failed + if d.threw then [n] else [])
  }

  /** The state the i-th listener of a dispatch is called on. */
  function StateBefore<S>(snapshot: seq<Callback>, i: nat, data: Value, s: S,
                          deliver: (S, Callback, Value) -> Delivery<S>): S
    requires i <= |snapshot|
  {
    Dispatch(snapshot[..i], data, s, deliver).state
  }

  /** The i-th listener is reported as failed exactly when its own call
      threw; a failure anywhere does not stop the listeners after it. */
  lemma {:induction false} DispatchFailures<S>(snapshot: seq<Callback>, data: Value, s: S,
                                               deliver: (S, Callback, Value) -> Delivery<S>, i: nat)
    requires i < |snapshot|
    ensures i in Dispatch(snapshot, data, s, deliver).failed
            <==> deliver(StateBefore(snapshot, i, data, s, deliver), snapshot[i], data).threw
    decreases |snapshot|
  {
    var n := |snapshot| - 1;
    var prev := Dispatch(snapshot[..n], data, s, deliver);
    var d := deliver(prev.state, snapshot[n], data);
    var failed := Dispatch(snapshot, data, s, deliver).failed;
    assert failed == prev.failed + if d.threw then [n] else [];
    if i < n {
      assert i in failed <==> i in prev.failed;
      assert snapshot[..n][..i] == snapshot[..i];
      assert snapshot[..n][i] == snapshot[i];
      DispatchFailures(snapshot[..n], data, s, deliver, i);
    } else {
      assert n !in prev.failed;
      assert snapshot[..n] == snapshot[..i];
    }
  }

  /** Dispatching a list is dispatching its first part, then the rest on
      the state the first part left. */
  lemma {:induction false} DispatchAppend<S>(a: seq<Callback>, b: seq<Callback>, data: Value, s: S,
                                             deliver: (S, Callback, Value) -> Delivery<S>)
    ensures Dispatch(a + b, data, s, deliver).state
            == Dispatch(b, data, Dispatch(a, data, s, deliver).state, deliver).state
    decreases |b|
  {
    if b == [] {
      assert a + b == a;
    } else {
      var n := |b| - 1;
      assert (a + b)[..|a + b| - 1] == a + b[..n];
      assert (a + b)[|a + b| - 1] == b[n];
      DispatchAppend(a, b[..n], data, s, deliver);
    }
  }

  /** The outcome of a publish. */
  datatype Published<S> =
    | NoTopic(state: S)      // no entry for the name: nothing happens
    | Aborted(state: S)      // the payload is null or undefined: the trace
                             // line reading its fields throws, to the caller
    | Delivered(run: Run<S>)
  {
    function Final(): S {
      if Delivered? then run.state else state
    }
  }

  /** `publish(topic, data)` on the bus `b`: the listener list is read once,
      so listeners subscribed or unsubscribed while it runs do not change
      which listeners this publish calls. */
  function Publish<S>(b: Bus, topic: string, data: Value, s: S,
                      deliver: (S, Callback, Value) -> Delivery<S>): (r: Published<S>)
    ensures r.NoTopic? <==> topic !in b
    ensures r.Aborted? <==> topic in b && Nullish(data)
    ensures !r.Delivered? ==> r.Final() == s
    ensures r.Delivered? ==> r.run.called == b[topic]
  {
    if topic !in b then NoTopic(s)
    else if Nullish(data) then Aborted(s)
    else Delivered(Dispatch(b[topic], data, s, deliver))
  }

  /** Once a name has been subscribed, publishing a null payload under it
      throws even after every listener has been removed. */
  lemma EmptiedTopicStillThrows<S>(b: Bus, topic: string, c: Callback, s: S,
                                   deliver: (S, Callback, Value) -> Delivery<S>)
    requires topic !in b
    ensures Publish(b, topic, Null, s, deliver).NoTopic?
    ensures Listeners(Unsubscribe(Subscribe(b, topic, c), topic, c), topic) == []
    ensures Publish(Unsubscribe(Subscribe(b, topic, c), topic, c), topic, Null, s, deliver).Aborted?
  {
    SubscribeThenUnsubscribe(b, topic, c);
  }
}
