/**
 The Modbus poller: a connection flag driven by the gateway's callbacks, the
 committed values and events snapshots with their documents, and one
 iteration of the polling loop.

 The poller's worker thread, its mutex and its interval wait are abstracted
 away: `Tick` is one iteration of the loop, the inverter is a `Device`
 oracle, the clock is the `nowMs` parameter, and each installed callback is
 represented by whether it is installed and whether it throws this tick.
 */
module ModbusMaster {
  import opened ModbusTypes
  import opened ValuesUpdate

  datatype Poller = Poller(
    connected: bool,
    running: bool,                    // the shared shutdown flag
    values: Values,                   // last committed values snapshot
    valuesDoc: Option<ValuesDoc>,     // None while the document is still null
    events: Option<Events>,           // None until a first events update commits
    eventsDoc: Option<EventsDoc>,
    updateCallback: bool,             // a values callback is installed
    eventCallback: bool)              // an events callback is installed

  /** The poller as constructed: not connected, zero values, nothing committed, no callbacks. */
  function Init(): Poller {
    Poller(false, true, ZeroValues, None, None, None, false, false)
  }

  /** The committed documents are the documents of the committed snapshots. */
  predicate Coherent(p: Poller, phases: int, inputs: int, hybrid: bool) {
    && (p.valuesDoc.Some? ==> p.valuesDoc.value == BuildValuesDoc(p.values, phases, inputs, hybrid))
    && (p.events.Some? <==> p.eventsDoc.Some?)
    && (p.events.Some? ==> p.eventsDoc.value == BuildEventsDoc(p.events.value))
  }

  // ---------------------------------------------------------------------
  // Gateway callbacks
  // ---------------------------------------------------------------------

  /** The order in which the identity of the inverter is read for the log. */
  const InfoOrder: seq<InfoGetter> := [Manufacturer, DeviceModel, SerialNumber, FwVersion, ModbusDeviceAddress]

  /** Call the identity getters of `order` in turn and stop at the first that fails. */
  function FirstInfoFailure(info: InfoGetter -> Status, order: seq<InfoGetter>): (r: Status)
    ensures r.Done? <==> forall i :: 0 <= i < |order| ==> info(order[i]).Done?
    ensures r.Failed? ==> exists i :: 0 <= i < |order| && info(order[i]) == r
                                      && forall j :: 0 <= j < i ==> info(order[j]).Done?
    decreases |order|
  {
    if order == [] then Done
    else if info(order[0]).Failed? then info(order[0])
    else
      var r := FirstInfoFailure(info, order[1..]);
      assert forall i :: 0 < i < |order| ==> order[i] == order[1..][i - 1];
      r
  }

  /**
   Read the inverter's identity for the log: manufacturer, model, serial
   number, firmware version, slave address, stopping at the first getter
   that fails. A slave address that differs from the configured one is only
   logged.
   */
  function PrintModbusInfo(dev: Device): (r: Status)
    ensures r.Done? <==> forall i :: 0 <= i < |InfoOrder| ==> dev.info(InfoOrder[i]).Done?
    ensures r.Failed? ==> exists i :: 0 <= i < |InfoOrder| && dev.info(InfoOrder[i]) == r
                                      && forall j :: 0 <= j < i ==> dev.info(InfoOrder[j]).Done?
  {
    FirstInfoFailure(dev.info, InfoOrder)
  }

  /**
   Connect callback: the poller is connected exactly when the device passes
   validation. On a valid device the identity is logged first, and the
   outcome of that is discarded.
   */
  function OnConnect(p: Poller, dev: Device): (r: Poller)
    ensures r.connected == dev.valid
    ensures r == p.(connected := dev.valid)
  {
    if !dev.valid then p.(connected := false)
    else
      var info := PrintModbusInfo(dev);
      p.(connected := true)
  }

  /** Whatever the identity getters answer, a connect has the same effect. */
  lemma ConnectIgnoresModbusInfo(p: Poller, dev: Device, info: InfoGetter -> Status)
    ensures OnConnect(p, dev.(info := info)) == OnConnect(p, dev)
  {
  }

  /** Disconnect callback: it only logs; the gateway reconnects by itself. */
  function OnDisconnect(p: Poller, delay: int): (r: Poller)
    ensures r == p
  {
    p
  }

  /** The poller after an error callback, and whether it asked the gateway to reconnect. */
  datatype ErrorReaction = ErrorReaction(poller: Poller, reconnect: bool)

  /**
   Error callback: a FATAL error requests shutdown and leaves the connection
   flag alone; a TRANSIENT error clears the flag and triggers a reconnect;
   any other severity is ignored.
   */
  function OnError(p: Poller, err: ModbusError): (r: ErrorReaction)
    ensures r.reconnect <==> err.severity == Transient
    ensures r.poller.connected == (p.connected && err.severity != Transient)
    ensures r.poller.running == (p.running && err.severity != Fatal)
    ensures r.poller == p.(connected := r.poller.connected, running := r.poller.running)
  {
    match err.severity
    case Fatal => ErrorReaction(p.(running := false), false)
    case Transient => ErrorReaction(p.(connected := false), true)
    case Shutdown => ErrorReaction(p, false)
  }

  /** Install (or clear) the values callback. */
  function SetUpdateCallback(p: Poller, installed: bool): (r: Poller)
    ensures r.updateCallback == installed
    ensures r == p.(updateCallback := installed)
  {
    p.(updateCallback := installed)
  }

  /** Install (or clear) the events callback. */
  function SetEventCallback(p: Poller, installed: bool): (r: Poller)
    ensures r.eventCallback == installed
    ensures r == p.(eventCallback := installed)
  {
    p.(eventCallback := installed)
  }

  // ---------------------------------------------------------------------
  // Updates
  // ---------------------------------------------------------------------

  /** The poller after an update, and the update's success or error. */
  datatype Update = Update(poller: Poller, status: Status)

  /**
   Values update: read a snapshot from the device and, only if every read
   succeeded, commit the snapshot and its document together. A failed update
   commits nothing and reports the first error.
   */
  function UpdateValuesAndJson(p: Poller, dev: Device, nowMs: nat): (r: Update)
    ensures r.status.Done? <==> ValuesReadable(dev)
    ensures r.status.Failed? ==> r.poller == p
    ensures r.status.Failed? && dev.fetch.Failed? ==> r.status.error == dev.fetch.error
    ensures r.status.Failed? && dev.fetch.Done? ==>
      var plan := ValuePlan(dev.phases, dev.inputs, dev.hybrid);
      exists i :: 0 <= i < |plan| && dev.read(plan[i]) == Err(r.status.error)
                  && forall j :: 0 <= j < i ==> dev.read(plan[j]).Ok?
    ensures r.status.Done? ==>
      && ReflectsDevice(r.poller.values, dev, nowMs)
      && r.poller.valuesDoc == Some(BuildValuesDoc(r.poller.values, dev.phases, dev.inputs, dev.hybrid))
      && r.poller == p.(values := r.poller.values, valuesDoc := r.poller.valuesDoc)
  {
    match ReadValues(dev, nowMs)
    case Err(e) => Update(p, Failed(e))
    case Ok(v) => Update(p.(values := v, valuesDoc := Some(BuildValuesDoc(v, dev.phases, dev.inputs, dev.hybrid))), Done)
  }

  /** The events document: the code, the state text and the event list as read. */
  function BuildEventsDoc(e: Events): (d: EventsDoc)
    ensures d.activeCode == e.activeCode && d.state == e.state
    ensures |d.events| == |e.events| && forall i :: 0 <= i < |d.events| ==> d.events[i] == e.events[i]
  {
    EventsDoc(e.activeCode, e.state, e.events)
  }

  /** Both event getters succeed. */
  predicate EventsReadable(dev: Device) {
    dev.state.Ok? && dev.events.Ok?
  }

  /**
   Events update: the active code (which cannot fail), then the state text,
   then the event list; the first failure is reported and nothing is
   committed, otherwise the events and their document are committed together.
   */
  function UpdateEventsAndJson(p: Poller, dev: Device): (r: Update)
    ensures r.status.Done? <==> EventsReadable(dev)
    ensures r.status.Failed? ==> r.poller == p
    ensures r.status.Failed? ==> r.status.error == if dev.state.Err? then dev.state.error else dev.events.error
    ensures r.status.Done? ==>
      && r.poller.events == Some(Events(dev.activeCode, dev.state.value, dev.events.value))
      && r.poller.eventsDoc == Some(BuildEventsDoc(r.poller.events.value))
      && r.poller == p.(events := r.poller.events, eventsDoc := r.poller.eventsDoc)
  {
    match dev.state
    case Err(e) => Update(p, Failed(e))
    case Ok(state) =>
      match dev.events
      case Err(e) => Update(p, Failed(e))
      case Ok(list) =>
        var events := Events(dev.activeCode, state, list);
        Update(p.(events := Some(events), eventsDoc := Some(BuildEventsDoc(events))), Done)
  }

  // ---------------------------------------------------------------------
  // One iteration of the polling loop
  // ---------------------------------------------------------------------

  /** A callback invocation, with the document it was given. */
  datatype Dispatch = ValuesSent(valuesDoc: ValuesDoc) | EventsSent(eventsDoc: EventsDoc)

  /** Whether each callback, if installed and invoked, throws this tick. */
  datatype CallbackFaults = CallbackFaults(valuesThrows: bool, eventsThrows: bool)

  datatype TickResult = TickResult(poller: Poller, dispatched: seq<Dispatch>)

  /**
   One iteration of the loop. Nothing happens unless the loop is running and
   the poller is connected. Then the values update runs and, after it and
   whatever its outcome, the events update. A failed update clears the
   connection flag and skips its callback; a successful one invokes its
   callback, if installed, with the freshly committed document, and a callback
   that throws requests shutdown.
   */
  function Tick(p: Poller, dev: Device, nowMs: nat, faults: CallbackFaults): (r: TickResult)
    ensures !p.running || !p.connected ==> r == TickResult(p, [])
    ensures p.running && p.connected ==>
      var valuesOk, eventsOk := ValuesReadable(dev), EventsReadable(dev);
      && r.poller.connected == (valuesOk && eventsOk)
      && (valuesOk ==> ReflectsDevice(r.poller.values, dev, nowMs)
                       && r.poller.valuesDoc == Some(BuildValuesDoc(r.poller.values, dev.phases, dev.inputs, dev.hybrid)))
      && (!valuesOk ==> r.poller.values == p.values && r.poller.valuesDoc == p.valuesDoc)
      && (eventsOk ==> r.poller.events == Some(Events(dev.activeCode, dev.state.value, dev.events.value))
                       && r.poller.eventsDoc == Some(BuildEventsDoc(r.poller.events.value)))
      && (!eventsOk ==> r.poller.events == p.events && r.poller.eventsDoc == p.eventsDoc)
      && r.dispatched == (if valuesOk && p.updateCallback then [ValuesSent(r.poller.valuesDoc.value)] else [])
                         + (if eventsOk && p.eventCallback then [EventsSent(r.poller.eventsDoc.value)] else [])
      && r.poller.running == (!(valuesOk && p.updateCallback && faults.valuesThrows)
                             && !(eventsOk && p.eventCallback && faults.eventsThrows))
      && r.poller.updateCallback == p.updateCallback && r.poller.eventCallback == p.eventCallback
  {
    if !p.running || !p.connected then TickResult(p, [])
    else
      var v := UpdateValuesAndJson(p, dev, nowMs);
      var p1 := if v.status.Failed? then v.poller.(connected := false)
                else if p.updateCallback && faults.valuesThrows then v.poller.(running := false)
                else v.poller;
      var sent1 := if v.status.Done? && p.updateCallback then [ValuesSent(v.poller.valuesDoc.value)] else [];
      var e := UpdateEventsAndJson(p1, dev);
      var p2 := if e.status.Failed? then e.poller.(connected := false)
                else if p1.eventCallback && faults.eventsThrows then e.poller.(running := false)
                else e.poller;
      var sent2 := if e.status.Done? && p1.eventCallback then [EventsSent(e.poller.eventsDoc.value)] else [];
      TickResult(p2, sent1 + sent2)
  }

  // ---------------------------------------------------------------------
  // Properties over several steps
  // ---------------------------------------------------------------------

  /** Before the gateway reports a validated connect, a tick does nothing. */
  lemma InitialTickIsIdle(dev: Device, nowMs: nat, faults: CallbackFaults)
    ensures !Init().connected && Coherent(Init(), dev.phases, dev.inputs, dev.hybrid)
    ensures Tick(Init(), dev, nowMs, faults) == TickResult(Init(), [])
  {
  }

  /**
   Every step keeps the committed documents those of the committed snapshots,
   for an inverter whose configuration does not change.
   */
  lemma TickKeepsCoherent(p: Poller, dev: Device, nowMs: nat, faults: CallbackFaults)
    requires Coherent(p, dev.phases, dev.inputs, dev.hybrid)
    ensures Coherent(Tick(p, dev, nowMs, faults).poller, dev.phases, dev.inputs, dev.hybrid)
  {
  }

  /**
   After a tick in which any update failed, ticks do nothing until the
   gateway reports a validated connect; then the next tick polls again.
   */
  lemma FailedTickIdlesUntilConnect(p: Poller, dev: Device, later: Device, nowMs: nat, faults: CallbackFaults)
    requires p.running && p.connected
    requires !ValuesReadable(dev) || !EventsReadable(dev)
    ensures var q := Tick(p, dev, nowMs, faults).poller;
      && Tick(q, later, nowMs, faults) == TickResult(q, [])
      && (q.running && later.valid ==>
            Tick(OnConnect(q, later), later, nowMs, faults).poller.connected
              == (ValuesReadable(later) && EventsReadable(later)))
  {
  }

  /**
   A register fetch that fails only spoils the values channel: in the same
   tick the events are still read, committed and handed to their callback,
   and the poller ends disconnected.
   */
  lemma FetchFailureStillDispatchesEvents(p: Poller, dev: Device, nowMs: nat, faults: CallbackFaults)
    requires p.running && p.connected && p.eventCallback
    requires dev.fetch.Failed? && EventsReadable(dev)
    ensures var r := Tick(p, dev, nowMs, faults);
      && !r.poller.connected
      && r.poller.values == p.values && r.poller.valuesDoc == p.valuesDoc
      && r.dispatched == [EventsSent(EventsDoc(dev.activeCode, dev.state.value, dev.events.value))]
  {
  }

  /**
   An inverter reporting more than two inputs gets two input objects, and
   the second one carries zeros: input B is only read on a two-input inverter.
   */
  lemma ExtraInputsEmittedAsZeros(p: Poller, dev: Device, nowMs: nat, faults: CallbackFaults)
    requires p.running && p.connected && ValuesReadable(dev) && dev.inputs > 2
    ensures var doc := Tick(p, dev, nowMs, faults).poller.valuesDoc;
      && doc.Some? && |doc.value.inputs| == 2
      && doc.value.inputs[1] == InputDoc(2, 0.0, 0.0, 0.0, if dev.hybrid then None else Some(0.0))
  {
    var r := Tick(p, dev, nowMs, faults);
    assert r.poller.values.input2 == ZeroInput;
    var doc := r.poller.valuesDoc.value;
    assert InputAt(r.poller.values, 1) == ZeroInput;
    assert doc.inputs[1].dcEnergy.Some? <==> !dev.hybrid;
  }

  /**
   A disconnect reported by the gateway does not stop polling: the next tick
   behaves as if it had not happened, and only a failed read clears the
   connection flag.
   */
  lemma DisconnectKeepsPolling(p: Poller, delay: int, dev: Device, nowMs: nat, faults: CallbackFaults)
    ensures Tick(OnDisconnect(p, delay), dev, nowMs, faults) == Tick(p, dev, nowMs, faults)
  {
  }

  /**
   Without a values callback no values document is handed out; with one, a
   tick whose values update succeeds hands out the committed document first.
   */
  lemma UpdateCallbackGatesValues(p: Poller, dev: Device, nowMs: nat, faults: CallbackFaults)
    ensures var r := Tick(SetUpdateCallback(p, false), dev, nowMs, faults);
      forall i :: 0 <= i < |r.dispatched| ==> !r.dispatched[i].ValuesSent?
    ensures var r := Tick(SetUpdateCallback(p, true), dev, nowMs, faults);
      p.running && p.connected && ValuesReadable(dev) ==>
        && r.poller.valuesDoc.Some?
        && r.dispatched != [] && r.dispatched[0] == ValuesSent(r.poller.valuesDoc.value)
  {
  }

  /**
   Without an events callback no events document is handed out; with one, a
   tick whose events update succeeds hands out the committed document last.
   */
  lemma EventCallbackGatesEvents(p: Poller, dev: Device, nowMs: nat, faults: CallbackFaults)
    ensures var r := Tick(SetEventCallback(p, false), dev, nowMs, faults);
      forall i :: 0 <= i < |r.dispatched| ==> !r.dispatched[i].EventsSent?
    ensures var r := Tick(SetEventCallback(p, true), dev, nowMs, faults);
      p.running && p.connected && EventsReadable(dev) ==>
        && r.poller.eventsDoc.Some?
        && r.dispatched != [] && r.dispatched[|r.dispatched| - 1] == EventsSent(r.poller.eventsDoc.value)
  {
    var q0 := SetEventCallback(p, false);
    var r0 := Tick(q0, dev, nowMs, faults);
    var valuesPart := if q0.running && q0.connected && ValuesReadable(dev) && q0.updateCallback
      then [ValuesSent(r0.poller.valuesDoc.value)] else [];
    assert r0.dispatched == valuesPart;
    var q1 := SetEventCallback(p, true);
    var r1 := Tick(q1, dev, nowMs, faults);
    if q1.running && q1.connected && EventsReadable(dev) {
      var valuesSent := if ValuesReadable(dev) && q1.updateCallback then [ValuesSent(r1.poller.valuesDoc.value)] else [];
      assert r1.dispatched == valuesSent + [EventsSent(r1.poller.eventsDoc.value)];
    }
  }
}
