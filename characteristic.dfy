/**
 * One remote GATT characteristic: its identity, the listeners its operations leave behind,
 * and the commands it sends to the noble transport.
 */
module NobleCharacteristic {
  import opened Gatt
  import opened Emitter
  import opened NobleTransport

  /** An entry of the UUID table: a standard characteristic's name and type. */
  datatype Metadata = Metadata(name: string, typeName: string)

  /** The one synchronous failure: `write` was handed something other than a `Buffer`. */
  datatype WriteError = DataMustBeBuffer

  datatype Outcome = Pass | Fail(error: WriteError)

  /** Observable steps of the handle, in the order they happen. */
  datatype Effect =
    | Registered(listener: Listener)
    | Issued(command: Command)
    | Removed(listener: Listener)
    | Called(invocation: Invocation)

  /**
   * The listener an operation registers for its completion: nothing without a callback, the
   * persistent `onRead` closure for `read`, a `once` wrapper for the other operations.
   */
  function Pending(id: ListenerId, kind: EventKind, callback: Option<CallbackId>): (r: seq<Listener>)
    ensures |r| == if callback.Some? then 1 else 0
    ensures forall l :: l in r ==> l.id == id && l.Kind() == kind && Some(l.callback) == callback
    ensures forall l :: l in r ==> (l.OnRead? <==> kind == ReadKind)
  {
    match callback
    case None => []
    case Some(c) => [if kind == ReadKind then OnRead(id, c) else Once(id, kind, c)]
  }

  function Registrations(ls: seq<Listener>): seq<Effect> {
    if ls == [] then [] else [Registered(ls[0])] + Registrations(ls[1..])
  }

  /** What `emit` does for each listener that fires: remove it, then call its callback. */
  function RemoveThenCall(fired: seq<Listener>, reply: Reply): seq<Effect> {
    if fired == [] then []
    else [Removed(fired[0]), Called(Invocation(fired[0].callback, reply))] + RemoveThenCall(fired[1..], reply)
  }

  lemma {:induction false} RemoveThenCallAppend(a: seq<Listener>, b: seq<Listener>, reply: Reply)
    ensures RemoveThenCall(a + b, reply) == RemoveThenCall(a, reply) + RemoveThenCall(b, reply)
  {
    if a == [] {
      assert a + b == b;
    } else {
      assert (a + b)[1..] == a[1..] + b;
      RemoveThenCallAppend(a[1..], b, reply);
    }
  }

  /** The part of the handle that `emit` changes. */
  datatype EmitterState = EmitterState(listeners: seq<Listener>, delivered: seq<Invocation>, effects: seq<Effect>)

  /**
   * `emit` calling one listener of its copy: the `once` wrapper, and `onRead` on anything
   * but a notification, first `removeListener` themselves and then call the callback.
   */
  function Visit(s: EmitterState, l: Listener, e: Event): EmitterState {
    if Fires(l, e) then
      EmitterState(Without(s.listeners, l.id),
                   s.delivered + [Invocation(l.callback, ReplyOf(e))],
                   s.effects + [Removed(l), Called(Invocation(l.callback, ReplyOf(e)))])
    else s
  }

  /** `emit` calling the listeners of its copy in turn. */
  function VisitAll(s: EmitterState, copy: seq<Listener>, e: Event): EmitterState
    decreases |copy|
  {
    if copy == [] then s else Visit(VisitAll(s, copy[..|copy| - 1], e), copy[|copy| - 1], e)
  }

  lemma {:induction false} VisitAllListeners(s: EmitterState, copy: seq<Listener>, e: Event)
    requires UniqueIds(s.listeners) && forall m :: m in copy ==> m in s.listeners
    ensures VisitAll(s, copy, e).listeners == Cleared(s.listeners, copy, e)
    decreases |copy|
  {
    if copy == [] {
      ClearedNothing(s.listeners, e);
    } else {
      var init, l := copy[..|copy| - 1], copy[|copy| - 1];
      assert copy == init + [l];
      VisitAllListeners(s, init, e);
      UniqueIdsMember(s.listeners, l);
      ClearedStep(s.listeners, init, l, e);
    }
  }

  lemma {:induction false} VisitAllDelivered(s: EmitterState, copy: seq<Listener>, e: Event)
    ensures VisitAll(s, copy, e).delivered == s.delivered + Invocations(copy, e)
    decreases |copy|
  {
    if copy != [] {
      var init, l := copy[..|copy| - 1], copy[|copy| - 1];
      assert copy == init + [l];
      VisitAllDelivered(s, init, e);
      InvocationsAppend(init, [l], e);
      assert [l][1..] == [];
    }
  }

  lemma {:induction false} VisitAllEffects(s: EmitterState, copy: seq<Listener>, e: Event)
    ensures VisitAll(s, copy, e).effects == s.effects + RemoveThenCall(Fired(copy, e), ReplyOf(e))
    decreases |copy|
  {
    if copy != [] {
      var init, l := copy[..|copy| - 1], copy[|copy| - 1];
      assert copy == init + [l];
      VisitAllEffects(s, init, e);
      FiredAppend(init, [l], e);
      RemoveThenCallAppend(Fired(init, e), Fired([l], e), ReplyOf(e));
      assert [l][1..] == [];
    }
  }

  class Characteristic {
    const noble: Transport
    const peripheralId: Uuid
    const serviceUuid: Uuid
    const uuid: Uuid
    const properties: seq<string>
    const valueHandle: Handle
    const startHandle: Handle
    const endHandle: Handle
    const name: Option<string>
    const typeName: Option<string>

    /** Set by whoever runs descriptor discovery; nothing in this handle assigns it. */
    var descriptors: Option<seq<Descriptor>>

    /** The emitter's registry, in registration order. */
    var listeners: seq<Listener>
    /** Source of fresh closure identities. */
    var nextListenerId: ListenerId
    /** Every callback call made so far, in order. */
    var delivered: seq<Invocation>
    /** Registrations, transport calls, removals and callback calls, in the order they happened. */
    var effects: seq<Effect>

    ghost predicate Valid()
      reads this
    {
      UniqueIds(listeners) && ReadsViaOn(listeners) &&
      forall l :: l in listeners ==> l.id < nextListenerId
    }

    /**
     * Construction: identity fields copied from the arguments, `name`/`type` looked up once in
     * the UUID table, no descriptors, no listeners, and no call into the transport.
     */
    constructor (noble: Transport, peripheralId: Uuid, serviceUuid: Uuid, uuid: Uuid,
                 properties: seq<string>, valueHandle: Handle, startHandle: Handle,
                 endHandle: Handle, table: map<Uuid, Metadata>)
      ensures Valid()
      ensures this.noble == noble && this.peripheralId == peripheralId
      ensures this.serviceUuid == serviceUuid && this.uuid == uuid && this.properties == properties
      ensures this.valueHandle == valueHandle && this.startHandle == startHandle
      ensures this.endHandle == endHandle
      ensures uuid in table ==> name == Some(table[uuid].name) && typeName == Some(table[uuid].typeName)
      ensures uuid !in table ==> name == None && typeName == None
      ensures descriptors == None
      ensures listeners == [] && nextListenerId == 0 && delivered == [] && effects == []
      ensures unchanged(noble)
    {
      this.noble := noble;
      this.peripheralId := peripheralId;
      this.serviceUuid := serviceUuid;
      this.uuid := uuid;
      this.properties := properties;
      this.valueHandle := valueHandle;
      this.startHandle := startHandle;
      this.endHandle := endHandle;
      if uuid in table {
        name := Some(table[uuid].name);
        typeName := Some(table[uuid].typeName);
      } else {
        name := None;
        typeName := None;
      }
      descriptors := None;
      listeners := [];
      nextListenerId := 0;
      delivered := [];
      effects := [];
    }

    /** `on`/`once`: registers the operation's completion listener, if it has a callback. */
    method Register(kind: EventKind, callback: Option<CallbackId>)
      requires Valid()
      modifies this`listeners, this`nextListenerId, this`effects
      ensures Valid()
      ensures listeners == old(listeners) + Pending(old(nextListenerId), kind, callback)
      ensures nextListenerId == old(nextListenerId) + |Pending(old(nextListenerId), kind, callback)|
      ensures effects == old(effects) + Registrations(Pending(old(nextListenerId), kind, callback))
    {
      var added := Pending(nextListenerId, kind, callback);
      assert Registrations(added) == if added == [] then [] else [Registered(added[0])];
      listeners := listeners + added;
      effects := effects + Registrations(added);
      nextListenerId := nextListenerId + |added|;
    }

    method Read(callback: Option<CallbackId>)
      requires Valid()
      modifies this, noble
      ensures Valid()
      ensures listeners == old(listeners) + Pending(old(nextListenerId), ReadKind, callback)
      ensures nextListenerId == old(nextListenerId) + |Pending(old(nextListenerId), ReadKind, callback)|
      ensures noble.commands == old(noble.commands) + [ReadCommand(peripheralId, serviceUuid, uuid, valueHandle)]
      ensures effects == old(effects) + Registrations(Pending(old(nextListenerId), ReadKind, callback))
                           + [Issued(ReadCommand(peripheralId, serviceUuid, uuid, valueHandle))]
      ensures delivered == old(delivered) && descriptors == old(descriptors)
    {
      Register(ReadKind, callback);
      noble.Read(peripheralId, serviceUuid, uuid, valueHandle);
      effects := effects + [Issued(ReadCommand(peripheralId, serviceUuid, uuid, valueHandle))];
    }

    /**
     * Outside a browser, data that is not a `Buffer` is refused before anything happens;
     * otherwise the usual registration and transport call.
     */
    method Write(data: WriteData, withoutResponse: bool, callback: Option<CallbackId>, browser: bool)
      returns (r: Outcome)
      requires Valid()
      modifies this, noble
      ensures Valid()
      ensures r.Fail? <==> !browser && !data.isBuffer
      ensures r.Fail? ==> r.error == DataMustBeBuffer && unchanged(this) && unchanged(noble)
      ensures r.Pass? ==>
        && listeners == old(listeners) + Pending(old(nextListenerId), WriteKind, callback)
        && nextListenerId == old(nextListenerId) + |Pending(old(nextListenerId), WriteKind, callback)|
        && noble.commands == old(noble.commands) +
             [WriteCommand(peripheralId, serviceUuid, uuid, data, withoutResponse, valueHandle)]
        && effects == old(effects) + Registrations(Pending(old(nextListenerId), WriteKind, callback))
             + [Issued(WriteCommand(peripheralId, serviceUuid, uuid, data, withoutResponse, valueHandle))]
        && delivered == old(delivered) && descriptors == old(descriptors)
    {
      if !browser && !data.isBuffer {
        return Fail(DataMustBeBuffer);
      }
      Register(WriteKind, callback);
      noble.Write(peripheralId, serviceUuid, uuid, data, withoutResponse, valueHandle);
      effects := effects + [Issued(WriteCommand(peripheralId, serviceUuid, uuid, data, withoutResponse, valueHandle))];
      r := Pass;
    }

    method Broadcast(broadcast: bool, callback: Option<CallbackId>)
      requires Valid()
      modifies this, noble
      ensures Valid()
      ensures listeners == old(listeners) + Pending(old(nextListenerId), BroadcastKind, callback)
      ensures nextListenerId == old(nextListenerId) + |Pending(old(nextListenerId), BroadcastKind, callback)|
      ensures noble.commands == old(noble.commands) +
                [BroadcastCommand(peripheralId, serviceUuid, uuid, broadcast)]
      ensures effects == old(effects) + Registrations(Pending(old(nextListenerId), BroadcastKind, callback))
                           + [Issued(BroadcastCommand(peripheralId, serviceUuid, uuid, broadcast))]
      ensures delivered == old(delivered) && descriptors == old(descriptors)
    {
      Register(BroadcastKind, callback);
      noble.Broadcast(peripheralId, serviceUuid, uuid, broadcast);
      effects := effects + [Issued(BroadcastCommand(peripheralId, serviceUuid, uuid, broadcast))];
    }

    method Notify(notify: bool, callback: Option<CallbackId>)
      requires Valid()
      modifies this, noble
      ensures Valid()
      ensures listeners == old(listeners) + Pending(old(nextListenerId), NotifyKind, callback)
      ensures nextListenerId == old(nextListenerId) + |Pending(old(nextListenerId), NotifyKind, callback)|
      ensures noble.commands == old(noble.commands) +
                [NotifyCommand(peripheralId, serviceUuid, uuid, notify, valueHandle)]
      ensures effects == old(effects) + Registrations(Pending(old(nextListenerId), NotifyKind, callback))
                           + [Issued(NotifyCommand(peripheralId, serviceUuid, uuid, notify, valueHandle))]
      ensures delivered == old(delivered) && descriptors == old(descriptors)
    {
      Register(NotifyKind, callback);
      noble.Notify(peripheralId, serviceUuid, uuid, notify, valueHandle);
      effects := effects + [Issued(NotifyCommand(peripheralId, serviceUuid, uuid, notify, valueHandle))];
    }

    /** Exactly `Notify(true, callback)`. */
    method Subscribe(callback: Option<CallbackId>)
      requires Valid()
      modifies this, noble
      ensures Valid()
      ensures listeners == old(listeners) + Pending(old(nextListenerId), NotifyKind, callback)
      ensures nextListenerId == old(nextListenerId) + |Pending(old(nextListenerId), NotifyKind, callback)|
      ensures noble.commands == old(noble.commands) +
                [NotifyCommand(peripheralId, serviceUuid, uuid, true, valueHandle)]
      ensures effects == old(effects) + Registrations(Pending(old(nextListenerId), NotifyKind, callback))
                           + [Issued(NotifyCommand(peripheralId, serviceUuid, uuid, true, valueHandle))]
      ensures delivered == old(delivered) && descriptors == old(descriptors)
    {
      Notify(true, callback);
    }

    /** Exactly `Notify(false, callback)`. */
    method Unsubscribe(callback: Option<CallbackId>)
      requires Valid()
      modifies this, noble
      ensures Valid()
      ensures listeners == old(listeners) + Pending(old(nextListenerId), NotifyKind, callback)
      ensures nextListenerId == old(nextListenerId) + |Pending(old(nextListenerId), NotifyKind, callback)|
      ensures noble.commands == old(noble.commands) +
                [NotifyCommand(peripheralId, serviceUuid, uuid, false, valueHandle)]
      ensures effects == old(effects) + Registrations(Pending(old(nextListenerId), NotifyKind, callback))
                           + [Issued(NotifyCommand(peripheralId, serviceUuid, uuid, false, valueHandle))]
      ensures delivered == old(delivered) && descriptors == old(descriptors)
    {
      Notify(false, callback);
    }

    /** Asks the transport for the descriptors; the result goes to the callback only. */
    method DiscoverDescriptors(callback: Option<CallbackId>)
      requires Valid()
      modifies this, noble
      ensures Valid()
      ensures listeners == old(listeners) + Pending(old(nextListenerId), DescriptorsDiscoverKind, callback)
      ensures nextListenerId == old(nextListenerId) +
                |Pending(old(nextListenerId), DescriptorsDiscoverKind, callback)|
      ensures noble.commands == old(noble.commands) +
                [DiscoverDescriptorsCommand(peripheralId, serviceUuid, uuid, valueHandle)]
      ensures effects == old(effects) +
                Registrations(Pending(old(nextListenerId), DescriptorsDiscoverKind, callback))
                + [Issued(DiscoverDescriptorsCommand(peripheralId, serviceUuid, uuid, valueHandle))]
      ensures delivered == old(delivered) && descriptors == old(descriptors)
    {
      Register(DescriptorsDiscoverKind, callback);
      noble.DiscoverDescriptors(peripheralId, serviceUuid, uuid, valueHandle);
      effects := effects + [Issued(DiscoverDescriptorsCommand(peripheralId, serviceUuid, uuid, valueHandle))];
    }

    /**
     * `emit(e)` as Node's `EventEmitter` performs it: take a copy of the listeners waiting on
     * e's event and let each of them, in registration order, react to the event.
     */
    method Emit(e: Event)
      requires Valid()
      modifies this`listeners, this`delivered, this`effects
      ensures Valid()
      ensures listeners == Remaining(old(listeners), e)
      ensures delivered == old(delivered) + Invocations(old(listeners), e)
      ensures effects == old(effects) + RemoveThenCall(Fired(old(listeners), e), ReplyOf(e))
    {
      var snapshot := Matching(listeners, e.Kind());
      Dispatch(snapshot, e);
      VisitAllListeners(old(EmitterView()), snapshot, e);
      VisitAllDelivered(old(EmitterView()), snapshot, e);
      VisitAllEffects(old(EmitterView()), snapshot, e);
      ClearedCovers(old(listeners), snapshot, e);
      FiredOfMatching(old(listeners), e);
      RemainingUniqueIds(old(listeners), e);
    }

    /** The fields `emit` changes, as one value. */
    function EmitterView(): EmitterState
      reads this
    {
      EmitterState(listeners, delivered, effects)
    }

    /** One listener of the copy, called by `emit`. */
    method React(l: Listener, e: Event)
      modifies this`listeners, this`delivered, this`effects
      ensures EmitterView() == Visit(old(EmitterView()), l, e)
    {
      if Fires(l, e) {
        listeners := Without(listeners, l.id);
        effects := effects + [Removed(l)];
        delivered := delivered + [Invocation(l.callback, ReplyOf(e))];
        effects := effects + [Called(Invocation(l.callback, ReplyOf(e)))];
      }
    }

    /** The loop of `emit` over its copy of the listeners, in registration order. */
    method Dispatch(snapshot: seq<Listener>, e: Event)
      modifies this`listeners, this`delivered, this`effects
      ensures EmitterView() == VisitAll(old(EmitterView()), snapshot, e)
    {
      var i := 0;
      while i < |snapshot|
        invariant 0 <= i <= |snapshot|
        invariant EmitterView() == VisitAll(old(EmitterView()), snapshot[..i], e)
      {
        assert snapshot[..i + 1][..i] == snapshot[..i];
        React(snapshot[i], e);
        i := i + 1;
      }
      assert snapshot[..i] == snapshot;
    }
  }
}
