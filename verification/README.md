# fronius-bridge: outbound MQTT queue and Modbus poller, in Dafny

fronius-bridge polls a Fronius inverter over Modbus (SunSpec registers) and
republishes its state as JSON on an MQTT broker. This project models the two
sequential cores that sit inside the bridge's threads. Each is written as a pure
step function over an explicit state record.

- **The MQTT client's outbound queue** (`mqtt_client.dfy`, module `MqttClient`).
  `Publish` is the producer's bounded drop-oldest enqueue. `DrainCycle` is one
  iteration of the worker loop: it publishes from the head while the client is
  connected, stops at the first failed publish, and clears the drop counter
  once the queue has drained. `OnConnect` and `OnDisconnect` drive the
  `connected` flag. The broker is an oracle: one return code per publish attempt.
- **The Modbus poller** (`modbus_master.dfy`, module `ModbusMaster`). The
  connect, disconnect and error callbacks drive the `connected` flag and the
  shutdown flag. The values update and the events update either fail without
  committing anything, or commit a snapshot together with its document. `Tick`
  is one iteration of the polling loop, including the callback dispatch.
- **The values update** (`values_update.dfy`, module `ValuesUpdate`).
  `ValuePlan` is the ordered list of getters the update calls; it depends on
  the phase count, the input count and the hybrid flag. `ReadPlan` calls them
  and stops at the first failure. `Assemble` builds the snapshot; fields that
  were not read stay zero. `BuildValuesDoc` gives the structure of the JSON
  document: one phase object per phase (clamped to 1..3) and one input object
  per input (clamped to 1..2), numbered from 1, with `dc_energy` only on a
  non-hybrid inverter.
- **Records** (`modbus_types.dfy`, module `ModbusTypes`). This holds `Values`,
  `Phase`, `Input` and `Events` with their zero defaults, plus `ModbusError`
  with its severity. `Status` stands for `std::expected<void, ModbusError>`.
  `Device` is the inverter as an oracle: the validation verdict, the identity
  getters, the register fetch, one `Result` per measurement getter, the
  capability fields, and the event getters.

Numeric quantities are `real`. The JSON documents are records and sequences,
and only their structure is modelled. The clock is the `nowMs` parameter.
Each callback is modelled by two facts: whether it is installed, and whether
it throws this tick.

Notes on the code as written:

- The poller's connection state is the boolean `connected_`.
- The disconnect callback only logs and leaves `connected_` alone.
- The poller has only a values and an events callback.
- Nothing compares or de-duplicates event lists: every successful update
  dispatches its document.
- The events update does not depend on the register fetch. A tick whose
  fetch fails therefore still commits and dispatches the events
  (`FetchFailureStillDispatchesEvents`).
- The MQTT drop counter is cleared at the end of a worker iteration that
  leaves the queue empty.
- Input B is read only when the inverter reports exactly two inputs, but the
  document lists `clamp(inputs, 1, 2)` inputs. An inverter reporting more
  than two inputs therefore gets a second input object full of zeros. This is
  kept as written (`ExtraInputsEmittedAsZeros`).

## Model

| member | source | states |
|---|---|---|
| MqttClient.Publish | src/mqtt_client.cpp:73-98 | the new payload is last; the queue is a suffix of old queue + payload; a full queue loses exactly its oldest payload and the drop counter grows by one; otherwise nothing is removed and the counter is unchanged; flags untouched |
| MqttClient.PublishKeepsNewest | src/mqtt_client.cpp:76-81 | with capacity ≥ 1 and a queue within bounds, one publish leaves exactly the newest `queueSize` of old queue + payload |
| MqttClient.PublishKeepsValid | src/mqtt_client.cpp:76-81 | with capacity ≥ 1, publishing keeps the queue within capacity and never leaves it empty with a non-zero drop counter |
| MqttClient.LastNAppend | src/mqtt_client.cpp:76-81 | truncating to the newest n before appending does not change the newest n afterwards, which is why repeated drop-oldest enqueues keep the newest payloads |
| MqttClient.PublishAll | src/mqtt_client.cpp:76-81 | a batch of publishes never grows the queue beyond the larger of its old length and the capacity, and leaves the flags alone |
| MqttClient.PublishAllKeepsNewest | src/mqtt_client.cpp:76-81 | after any number of publishes the queue is exactly the newest `queueSize` of old queue + batch, in the original order |
| MqttClient.PublishAllCountsDrops | src/mqtt_client.cpp:76-79 | the drop counter grows by exactly the number of payloads that were published but are no longer queued |
| MqttClient.PublishLoop | src/mqtt_client.cpp:115-131 | the inner worker loop pops at most as many payloads as were queued |
| MqttClient.PublishLoopPopsAcceptedPrefix | src/mqtt_client.cpp:115-131 | the inner loop pops exactly the payloads the broker accepted, a prefix of the queue, and stops only at an empty queue or at the first failed return code; a failed payload stays at the head after being attempted |
| MqttClient.DrainCycle | src/mqtt_client.cpp:100-137 | it sends something iff running, connected and non-empty, starting with the head; queue = delivered + remaining; every delivered payload had a success code; a failure ends the cycle with that payload still at the head; the drop counter is cleared iff the queue ends empty; a blocked cycle changes nothing |
| MqttClient.DrainKeepsValid | src/mqtt_client.cpp:133-136 | a worker iteration keeps the queue within capacity and clears the counter whenever it empties the queue |
| MqttClient.FailedHeadIsRetried | src/mqtt_client.cpp:123-130 | a failed first publish leaves the state unchanged, and, with no publish in between, the next iteration that sends starts with the same payload |
| MqttClient.DrainAllAccepted | src/mqtt_client.cpp:115-136 | when every publish succeeds, one iteration delivers the whole queue in order and resets the drop counter |
| MqttClient.OnConnect | src/mqtt_client.cpp:143-154 | rc 0 marks the client connected; any other rc leaves the flag; queue, counter and shutdown flag untouched |
| MqttClient.OnDisconnect | src/mqtt_client.cpp:156-167 | the client is disconnected whatever the rc; queue, counter and shutdown flag untouched |
| MqttClient.DisconnectHaltsDelivery | src/mqtt_client.cpp:105-115 | after a disconnect the worker sends nothing and changes nothing |
| MqttClient.BacklogKeepsNewest | src/mqtt_client.cpp:73-98 | publishing into an empty client keeps the newest `queueSize` payloads and counts max(0, n - queueSize) drops |
| MqttClient.BacklogDeliveredAfterConnect | src/mqtt_client.cpp:100-137 | payloads published while disconnected are delivered after a successful connect, exactly the newest `queueSize` of them in order, and the counter returns to 0 |
| MqttClient.DropOldestScenario | src/mqtt_client.cpp:76-81 | capacity 2 with A, B, C published while disconnected: one drop, then B and C are delivered in that order |
| ModbusMaster.FirstInfoFailure | src/modbus_master.cpp:178-223 | identity getters called in order succeed as a whole iff each one does; a failure is the first failing getter's error |
| ModbusMaster.PrintModbusInfo | src/modbus_master.cpp:176-226 | succeeds iff manufacturer, model, serial, firmware and slave-address getters all succeed; otherwise returns the first failure in that order |
| ModbusMaster.OnConnect | src/modbus_master.cpp:24-35 | the connection flag becomes exactly the validation result; nothing else changes |
| ModbusMaster.ConnectIgnoresModbusInfo | src/modbus_master.cpp:27-34 | the outcome of logging the identity does not influence the connect callback |
| ModbusMaster.OnDisconnect | src/modbus_master.cpp:37-41 | the disconnect callback leaves the poller unchanged |
| ModbusMaster.OnError | src/modbus_master.cpp:43-59 | FATAL requests shutdown and leaves the connection flag; TRANSIENT clears the flag and requests a reconnect; other severities change nothing |
| ModbusMaster.SetUpdateCallback | src/modbus_master.cpp:123-127 | installs or clears the values callback and changes nothing else |
| ModbusMaster.SetEventCallback | src/modbus_master.cpp:129-133 | installs or clears the events callback and changes nothing else |
| ModbusMaster.UpdateValuesAndJson | src/modbus_master.cpp:228-382 | succeeds iff the fetch and every gated getter succeed; on failure the poller is unchanged and the error is the fetch error or the first failing getter's in call order; on success snapshot and document are replaced together, the snapshot reflects the device and the document is built from it |
| ModbusMaster.BuildEventsDoc | src/modbus_master.cpp:396-404 | the events document has the active code, the state and the event list in order and length |
| ModbusMaster.UpdateEventsAndJson | src/modbus_master.cpp:384-416 | succeeds iff the state and events getters succeed; on failure nothing changes and the error is the state getter's, else the events getter's; on success events and document are committed together from the getters' answers |
| ModbusMaster.Tick | src/modbus_master.cpp:74-121 | nothing happens unless running and connected; otherwise the flag ends true iff both updates succeed; a failed channel keeps its committed snapshot and document; the events update runs whatever the values outcome; exactly the succeeded channels with an installed callback are dispatched, in order, with the committed document; a throwing callback requests shutdown |
| ModbusMaster.InitialTickIsIdle | include/modbus_master.h:90 | the poller starts disconnected with coherent (empty) documents, so a tick before a validated connect does nothing |
| ModbusMaster.TickKeepsCoherent | src/modbus_master.cpp:372-377 | every tick keeps the committed documents equal to the documents of the committed snapshots |
| ModbusMaster.FailedTickIdlesUntilConnect | src/modbus_master.cpp:77-112 | after a tick in which an update failed, ticks do nothing until a validated connect; after it the next tick polls again |
| ModbusMaster.FetchFailureStillDispatchesEvents | src/modbus_master.cpp:80-111 | a failed register fetch disconnects the poller and keeps the old values, yet the same tick still dispatches the freshly read events |
| ModbusMaster.ExtraInputsEmittedAsZeros | src/modbus_master.cpp:291-368 | an inverter reporting more than two inputs gets two input objects, the second one all zeros |
| ModbusMaster.DisconnectKeepsPolling | src/modbus_master.cpp:37-41 | a disconnect reported by the gateway changes nothing a tick depends on: the next tick still polls when the poller was connected, and only a failed read clears the flag |
| ModbusMaster.UpdateCallbackGatesValues | src/modbus_master.cpp:83-94 | with no values callback a tick never hands out a values document; with one, a tick whose values update succeeds hands out the committed values document first |
| ModbusMaster.EventCallbackGatesEvents | src/modbus_master.cpp:100-111 | with no events callback a tick never hands out an events document; with one, a tick whose events update succeeds hands out the committed events document last |
| ValuesUpdate.Efficiency | src/modbus_master.cpp:309-313 | with DC power above 1e-12 in magnitude, efficiency × DC power = 100 × AC power; otherwise the efficiency is exactly 0 |
| ValuesUpdate.Clamp | src/modbus_master.cpp:332-333 | the result lies in [lo, hi], equals x inside the range and the nearer bound outside it |
| ValuesUpdate.ValuePlan | src/modbus_master.cpp:240-302 | a getter is called iff `Called` allows it: phase B only with phases > 1, phase C only with phases > 2, input B only with inputs == 2, DC energy only on a non-hybrid inverter |
| ValuesUpdate.ReadPlan | src/modbus_master.cpp:240-307 | succeeds iff every planned getter succeeds, and then records exactly the planned getters with their values; otherwise returns the error of the first failing getter in plan order |
| ValuesUpdate.AssembleReflectsDevice | include/modbus_master.h:26-53 | a snapshot assembled from exactly the called getters holds their values, with zeros for every phase, input and energy that was not read |
| ValuesUpdate.ReadValues | src/modbus_master.cpp:228-313 | succeeds iff the fetch and all gated getters succeed; the snapshot then reflects the device; a failure carries the fetch error or the first failing getter's error |
| ValuesUpdate.PhaseDocs | src/modbus_master.cpp:335-341 | n phase objects with ids 1..n carrying phase i's voltage and current |
| ValuesUpdate.InputDocs | src/modbus_master.cpp:355-368 | n input objects with ids 1..n carrying input i's DC values, with `dc_energy` present iff non-hybrid |
| ValuesUpdate.BuildValuesDoc | src/modbus_master.cpp:315-370 | the scalars are the snapshot's; the phases array has length clamp(phases,1,3) and the inputs array clamp(inputs,1,2), ids from 1, contents from the matching phase or input, `dc_energy` iff non-hybrid |

## Left out

- Threads, mutexes, condition variables and atomics are left out. The queue
  and the poller are modelled as single-threaded step functions. A wait is a
  step that is enabled only when its guard holds, and shutdown is the
  `running` flag. The interval wait of the polling loop, the constructors and
  the destructors are not modelled.
- MqttClient.DrainCycle: the connection and shutdown flags are taken as fixed
  for one worker iteration. In the source, another thread can change them
  while the mutex is released around `mosquitto_publish`, and that would stop
  the loop one payload early. A `publish` in that window is not covered
  either. On a full queue it evicts the in-flight head X. If the broker then
  accepts X, the worker's pop removes the next payload Y, which was never
  sent and is not counted as dropped. With `queueSize == 1` the pop removes
  the new payload, and the counter reset then also forgets X's drop. The
  queue, delivery and drop-count properties of the model hold only when no
  publish runs while the mutex is released.
- MqttClient.Publish: requires a positive capacity or a non-empty queue.
  With capacity 0 and an empty queue, `std::queue::pop` is undefined.
- Mosquitto calls are left out: creation, loop start, connect, the topic,
  QoS 1 and the retain flag. Each publish is modelled only by its return code.
- The `onLog` level mapping and all logging are left out. This includes the
  warnings that `publish` logs while disconnected and the slave-id mismatch
  warning in `printModbusInfo`.
- The initial values of the MQTT client's flags are not modelled, because
  `mqtt_client.h` is not part of this model. The poller's initial shutdown
  flag is taken as "running", because `signal_handler.h` is not part of this
  model either.
- Floating point is left out. Quantities are exact reals. The 1e-3 energy
  scaling and the efficiency quotient are exact. `JsonUtils::roundTo`, the
  `PreciseDouble` formatting and `safeDivide` are not modelled. The document
  fields carry the unrounded snapshot values.
- JSON text is not modelled: no `dump()` and no key order. Documents are
  records, and an absent `dc_energy` key is `None`.
- `values.time` (a `uint64_t`) is a `nat`, so wrap-around is not modelled.
  Milliseconds since the epoch do not come near 2^64.
- The `activeCode` of a default-constructed `Events` is never initialised.
  Before the first events commit, the model has `events == None`.
- `getJsonDump` and `getValues` are left out. They only read the committed
  fields under the mutex.
- `makeModbusConfig` is left out. It only copies configuration fields.
- `modbus_error.h` is not part of this model. Only the error's code, message
  and severity are kept. Severities other than FATAL and TRANSIENT are
  ignored by the source, and the model represents them as `Shutdown`.
- `src/main.cpp` is left out: CLI parsing, configuration loading and callback
  wiring. Its `publishValues` call and two-argument `publish` call are not
  defined in `src/mqtt_client.cpp`.
