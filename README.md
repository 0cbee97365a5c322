# noble `Characteristic` handle, modelled in Dafny

This project models the `Characteristic` object of the noble Bluetooth LE library
(`lib/characteristic.js`): one remote GATT characteristic that turns the transport's
unsolicited events (`read`, `write`, `broadcast`, `notify`, `descriptorsDiscover`) into
completions of the caller's requests.

The model is a sequential state machine:

- **Identity and metadata** (`peripheralId`, `serviceUuid`, `uuid`, `properties`,
  `valueHandle`, `startHandle`, `endHandle`, `name`, `type`) are constant fields of the class
  `NobleCharacteristic.Characteristic`. `name` and `type` are looked up once from a UUID table
  given to the constructor. The JavaScript field `type` is called `typeName`, because `type`
  is a Dafny keyword. `descriptors` starts unset and no operation assigns it.
- **The listener registry** is the part of the inherited `EventEmitter` state that this file's
  operations populate. It is the field `listeners`, a sequence in registration order, and it
  holds only the closures installed at lines 52, 74, 93, 112 and 145. Each element is either the persistent `onRead` closure
  that `read` installs with `on`, or a `once` wrapper for one of the other events. Each
  closure has a fresh identity (`ListenerId`), because `removeListener` finds a closure by
  identity.
- **The transport** (`this._noble`) is the class `NobleTransport.Transport`. It keeps an
  append-only log of the commands it is asked for.
- **The callback log** (`delivered`) records every callback call with its arguments. The
  leading `null` error argument is left implicit. The log `effects` records, in order,
  registrations, transport calls, listener removals and callback calls.
- **`Emit(e)`** is the transport emitting an event on the handle, with Node `EventEmitter`
  semantics. It copies the listeners waiting on the event's kind and visits them in
  registration order. A `once` wrapper removes itself and then calls its callback. `onRead`
  does the same, but only when `isNotification` is false and otherwise stays registered.

The module `Emitter` states the emit semantics as functions on the registry: `Fired`,
`Remaining` and `Invocations`, with the per-kind view `Matching`. The lemmas about them are
the properties the code promises. The methods of the class are proved against these
functions. The module `CharacteristicScenarios` holds request/reply sequences on fresh
handles. For each one it proves what the transport and the callbacks see, from the
operations' contracts alone.

Environment inputs are parameters. `process.title === 'browser'` is the boolean `browser`
of `Write`. `data instanceof Buffer` is the flag `isBuffer` of `WriteData`. The contents
of `characteristics.json` is the map `table` of the constructor.

Two points where the code behaves differently from what one might expect:

- With two reads outstanding, one reply does not satisfy just one of them. `read` registers
  one `onRead` closure per call, and `emit` calls every listener in its copy. So one reply
  calls both callbacks, in registration order
  (`Emitter.OverlappingReadsBothAnswered`, `CharacteristicScenarios.OverlappingReads`).
- `discoverDescriptors` passes `valueHandle` to the transport (line 154). The model's
  `DiscoverDescriptorsCommand` carries it too.

## Model

| member | source | states |
|---|---|---|
| `NobleCharacteristic.Characteristic.constructor` | lib/characteristic.js:6-25 | identity fields are copied; `name`/`type` come from the table when `uuid` is a key and are null otherwise; `descriptors` is null; no listeners; the transport is not touched |
| `NobleCharacteristic.Pending` | lib/characteristic.js:39-148 | at each `if (callback)` guard (lines 39, 73, 92, 111, 144) an operation registers exactly one listener when it has a callback and none otherwise; `onRead` for `read`, a `once` wrapper for every other kind |
| `NobleCharacteristic.Characteristic.Register` | lib/characteristic.js:52-145 | `on` (line 52) and each `once` (lines 74, 93, 112, 145) append the new closure, with a fresh identity, at the end of the registry and keep the registry well formed |
| `NobleCharacteristic.Characteristic.Read` | lib/characteristic.js:38-61 | registers the `onRead` listener only if a callback is given, then issues exactly one `read(peripheralId, serviceUuid, uuid, valueHandle)`; nothing else changes |
| `NobleCharacteristic.Characteristic.Write` | lib/characteristic.js:66-86 | outside a browser, non-Buffer data fails with `DataMustBeBuffer`, leaving handle and transport unchanged; otherwise it registers a `once('write')` listener if given a callback, then issues exactly one `write` with data, `withoutResponse` and `valueHandle` |
| `NobleCharacteristic.Characteristic.Broadcast` | lib/characteristic.js:91-104 | registers a `once('broadcast')` listener if given a callback, then issues exactly one `broadcast(peripheralId, serviceUuid, uuid, broadcast)` |
| `NobleCharacteristic.Characteristic.Notify` | lib/characteristic.js:110-124 | registers a `once('notify')` listener if given a callback, then issues exactly one `notify(..., notify, valueHandle)` |
| `NobleCharacteristic.Characteristic.Subscribe` | lib/characteristic.js:129-131 | the same registry change, transport command and effects as `Notify(true, callback)` |
| `NobleCharacteristic.Characteristic.Unsubscribe` | lib/characteristic.js:136-138 | the same registry change, transport command and effects as `Notify(false, callback)` |
| `NobleCharacteristic.Characteristic.DiscoverDescriptors` | lib/characteristic.js:143-156 | registers a `once('descriptorsDiscover')` listener if given a callback, then issues exactly one `discoverDescriptors(..., valueHandle)`; `descriptors` is not assigned |
| `NobleCharacteristic.Characteristic.Emit` | lib/characteristic.js:40-148 | for the `onRead` closure (40-50) and the `once` closures (74-76, 93-95, 112-114, 145-147), after an event the registry is `Remaining(old registry)`, the callback log grows by `Invocations(old registry)` and the effects by remove-then-call for each fired listener |
| `NobleCharacteristic.Characteristic.Dispatch` | lib/characteristic.js:40-148 | over the `onRead` closure (40-50) and the `once` closures (74-76, 93-95, 112-114, 145-147), the loop over the copied listeners leaves the handle in the state given by `VisitAll` over that copy |
| `NobleCharacteristic.Characteristic.React` | lib/characteristic.js:43-49 | a listener that fires removes itself, then calls its callback with the event's reply; one that does not fire changes nothing |
| `NobleCharacteristic.VisitAllListeners` | lib/characteristic.js:45-45 | visiting a copy removes, by identity, exactly the copied listeners that fire |
| `NobleCharacteristic.VisitAllDelivered` | lib/characteristic.js:48-48 | visiting a copy calls the callbacks of exactly the copied listeners that fire, in order |
| `NobleCharacteristic.VisitAllEffects` | lib/characteristic.js:44-48 | for each listener that fires, its removal comes immediately before its callback call |
| `NobleTransport.Transport.Read` | lib/characteristic.js:55-60 | the transport log grows by exactly this `read` command |
| `NobleTransport.Transport.Write` | lib/characteristic.js:78-85 | the transport log grows by exactly this `write` command |
| `NobleTransport.Transport.Broadcast` | lib/characteristic.js:98-103 | the transport log grows by exactly this `broadcast` command |
| `NobleTransport.Transport.Notify` | lib/characteristic.js:117-123 | the transport log grows by exactly this `notify` command |
| `NobleTransport.Transport.DiscoverDescriptors` | lib/characteristic.js:150-155 | the transport log grows by exactly this `discoverDescriptors` command |
| `Emitter.Fired` | lib/characteristic.js:43-49 | a listener fires exactly when it waits on the event's kind and is not `onRead` facing a notification |
| `Emitter.Remaining` | lib/characteristic.js:45-45 | the registry after an event holds exactly the listeners that did not fire |
| `Emitter.ReplyOf` | lib/characteristic.js:48-146 | a read reply hands on the event's own data and value handle (line 48), a descriptor discovery the event's descriptor sequence (line 146), and write, broadcast and notify completions pass nothing but the null error (lines 75, 94, 113) |
| `Emitter.Fires` | lib/characteristic.js:43-49 | a listener fires only on an event of its own kind; a `once` wrapper fires on every event of its kind; `onRead` fires exactly on a read event that is not a notification (line 43) |
| `Emitter.Invocations` | lib/characteristic.js:43-148 | one `emit` calls exactly the callbacks of the listeners that fire, one call each, in registration order, and every call receives the event's reply |
| `Emitter.Without` | lib/characteristic.js:45-45 | `removeListener` keeps exactly the listeners with another identity |
| `Emitter.Matching` | lib/characteristic.js:52-145 | for the closures registered at lines 52, 74, 93, 112 and 145, the per-event listener list holds exactly the registered listeners of that kind |
| `Emitter.NotificationSkipsReads` | lib/characteristic.js:40-50 | among the handle's own closures, a notification fires nothing and leaves every pending read registered |
| `Emitter.AnswerFiresChannel` | lib/characteristic.js:74-148 | for the `once` closures of lines 74-76, 93-95, 112-114 and 145-147, any other event fires every listener of its kind, in registration order, each with the event's reply, and leaves that kind with no listeners |
| `Emitter.OneShot` | lib/characteristic.js:45-147 | for `onRead`'s self-removal (line 45) and the `once` closures (74-76, 93-95, 112-114, 145-147), after an answer, a later event of the same kind calls no callback and removes nothing |
| `Emitter.OtherChannelsKept` | lib/characteristic.js:52-148 | for every closure registered at lines 52, 74, 93, 112 and 145, listeners waiting on other events stay registered, in the same order |
| `Emitter.ReadReplyDelivers` | lib/characteristic.js:43-49 | a non-notification read event calls every pending read callback with `(data, valueHandle)` and removes them all |
| `Emitter.DescriptorsPassedThrough` | lib/characteristic.js:144-148 | the discovery callbacks receive the event's descriptor sequence unchanged |
| `Emitter.OverlappingReadsBothAnswered` | lib/characteristic.js:38-53 | with two reads pending, one reply calls both callbacks, the earlier first |
| `CharacteristicScenarios.Construct` | lib/characteristic.js:20-24 | the looked-up `name`/`type` match the table, or are null when the UUID is absent; no transport call |
| `CharacteristicScenarios.ReadAcrossNotification` | lib/characteristic.js:40-50 | a notification leaves the read pending; the reply calls the callback once; a later reply calls nothing |
| `CharacteristicScenarios.ReadWithoutCallback` | lib/characteristic.js:39-60 | without a callback nothing is registered and the read command is still issued |
| `CharacteristicScenarios.OverlappingReads` | lib/characteristic.js:38-53 | two pending reads are both answered by one reply |
| `CharacteristicScenarios.WriteNonBuffer` | lib/characteristic.js:66-71 | outside a browser, non-Buffer data fails with no listener and no transport call; in a browser it is sent |
| `CharacteristicScenarios.WriteCompletesOnce` | lib/characteristic.js:73-77 | a write completion calls the callback once; a second completion calls nothing |
| `CharacteristicScenarios.BroadcastAmongOthers` | lib/characteristic.js:91-104 | a broadcast completion answers only the broadcast request; the notify request stays pending |
| `CharacteristicScenarios.SubscribeIsNotify` | lib/characteristic.js:129-138 | subscribe/unsubscribe and notify(true/false) produce the same transport calls and the same callback calls |
| `CharacteristicScenarios.DiscoverThreeDescriptors` | lib/characteristic.js:143-156 | the callback gets the three descriptors in order; `descriptors` stays null |
| `CharacteristicScenarios.ReadEffectsInOrder` | lib/characteristic.js:52-60 | the listener is registered before the transport call, and removed before its callback runs |

## Left out

- Listeners that other code registers on the handle: the handle is a public `EventEmitter` (line 27), so a client may add its own `on('read')` or `once('read')` listener, or call `removeAllListeners`. The registry holds only the closures installed at lines 52, 74, 93, 112 and 145. `ReadsViaOn` and `NotificationSkipsReads` hold for that registry, not for one that foreign listeners have extended.
- `toString` (lines 29-36) is `JSON.stringify` of `uuid`, `name`, `type` and `properties`, a library serialiser. The model has no textual form.
- The promise variants `readAsync`, `writeAsync`, `broadcastAsync`, `notifyAsync`, `subscribeAsync`, `unsubscribeAsync` and `discoverDescriptorsAsync` are built with `util.promisify`, a library wrapper. Only the callback forms are modelled.
- Callbacks are recorded in `delivered`, not run. A callback that calls back into the handle during `emit` is not modelled.
- Of `EventEmitter`, the model keeps only `on`, `once`, `removeListener` and `emit`. It leaves out the `newListener` and `removeListener` events, the max-listeners warning and the special `error` event.
- The real transport is a log of commands. Radio I/O, and whether a completion event is ever emitted (for example for a `withoutResponse` write), are the transport's business. Any event can be fed to `Emit`.
- The contents of `characteristics.json` are a parameter. The JavaScript property lookup `characteristics[uuid]` is a map lookup. Keys inherited from `Object.prototype` (such as `constructor`) are not modelled.
- `process.title` and `instanceof Buffer` are inputs (`browser`, `WriteData.isBuffer`), not runtime inspection. The thrown `Error('data must be a Buffer')` is the result `Fail(DataMustBeBuffer)`. Its message text is not modelled.
- `properties` are stored and never checked, as in the code.
- Assigning `descriptors` is the work of the code that runs discovery. That code is not part of this model.
