/**
 * Request/response sequences on one characteristic. Each method is a sequence of calls on a
 * fresh transport and handle; what the transport and the callbacks see afterwards follows
 * from the contracts of the operations alone.
 */
module CharacteristicScenarios {
  import opened Gatt
  import opened Emitter
  import opened NobleTransport
  import opened NobleCharacteristic

  /** A characteristic with the given identity on a transport of its own. */
  method Fresh(peripheralId: Uuid, serviceUuid: Uuid, uuid: Uuid, valueHandle: Handle,
               table: map<Uuid, Metadata>)
    returns (c: Characteristic)
    ensures fresh(c) && fresh(c.noble) && c.Valid()
    ensures c.peripheralId == peripheralId && c.serviceUuid == serviceUuid && c.uuid == uuid
    ensures c.valueHandle == valueHandle
    ensures c.listeners == [] && c.nextListenerId == 0 && c.delivered == [] && c.noble.commands == [] && c.effects == []
    ensures c.descriptors == None
  {
    var noble := new Transport();
    c := new Characteristic(noble, peripheralId, serviceUuid, uuid, ["read", "write", "notify"],
                            valueHandle, valueHandle, valueHandle, table);
  }

  /**
   * Construction looks the UUID up once and calls nothing: `name` and `type` come from the
   * table when the UUID is a key and are `null` otherwise.
   */
  method Construct(table: map<Uuid, Metadata>, uuid: Uuid)
    returns (name: Option<string>, typeName: Option<string>, commands: seq<Command>)
    ensures uuid in table ==> name == Some(table[uuid].name) && typeName == Some(table[uuid].typeName)
    ensures uuid !in table ==> name == None && typeName == None
    ensures commands == []
  {
    var noble := new Transport();
    var c := new Characteristic(noble, "peripheral", "1800", uuid, [], 3, 2, 3, table);
    name, typeName, commands := c.name, c.typeName, noble.commands;
  }

  /**
   * A read with a notification arriving first: the notification is passed by and the read
   * stays pending; the reply calls the callback once with `(data, valueHandle)`; a later
   * reply calls nothing.
   */
  method ReadAcrossNotification(uuid: Uuid, valueHandle: Handle, pushed: seq<byte>, reply: seq<byte>)
    returns (commands: seq<Command>, pendingAfterPush: nat, delivered: seq<Invocation>, pendingAtEnd: nat)
    ensures commands == [ReadCommand("peripheral", "180f", uuid, valueHandle)]
    ensures pendingAfterPush == 1
    ensures delivered == [Invocation(1, ReadReply(reply, valueHandle))]
    ensures pendingAtEnd == 0
  {
    var c := Fresh("peripheral", "180f", uuid, valueHandle, map[]);
    c.Read(Some(1));
    c.Emit(ReadEvent(pushed, true, valueHandle));
    pendingAfterPush := |c.listeners|;
    c.Emit(ReadEvent(reply, false, valueHandle));
    c.Emit(ReadEvent(pushed, false, valueHandle));
    commands, delivered, pendingAtEnd := c.noble.commands, c.delivered, |c.listeners|;
  }

  /** A read without a callback registers nothing and still asks the transport. */
  method ReadWithoutCallback(uuid: Uuid, valueHandle: Handle, reply: seq<byte>)
    returns (commands: seq<Command>, delivered: seq<Invocation>, pending: nat)
    ensures commands == [ReadCommand("peripheral", "180f", uuid, valueHandle)]
    ensures delivered == [] && pending == 0
  {
    var c := Fresh("peripheral", "180f", uuid, valueHandle, map[]);
    c.Read(None);
    c.Emit(ReadEvent(reply, false, valueHandle));
    commands, delivered, pending := c.noble.commands, c.delivered, |c.listeners|;
  }

  /**
   * Two reads outstanding at once: one reply answers both callbacks, in the order they were
   * registered, with the same data.
   */
  method OverlappingReads(valueHandle: Handle, reply: seq<byte>)
    returns (delivered: seq<Invocation>, pending: nat)
    ensures delivered == [Invocation(1, ReadReply(reply, valueHandle)), Invocation(2, ReadReply(reply, valueHandle))]
    ensures pending == 0
  {
    var c := Fresh("peripheral", "180f", "2a19", valueHandle, map[]);
    c.Read(Some(1));
    c.Read(Some(2));
    ghost var registry := c.listeners;
    assert registry == [OnRead(0, 1), OnRead(1, 2)];
    assert registry[1..][1..] == [];
    OverlappingReadsBothAnswered(registry, OnRead(0, 1), OnRead(1, 2), reply, valueHandle);
    c.Emit(ReadEvent(reply, false, valueHandle));
    delivered, pending := c.delivered, |c.listeners|;
  }

  /**
   * Outside a browser a write of non-`Buffer` data fails at once: no listener, no
   * transport call. In a browser the same data is sent.
   */
  method WriteNonBuffer(bytes: seq<byte>, browser: bool)
    returns (outcome: Outcome, commands: seq<Command>, pending: nat)
    ensures !browser ==> outcome == Fail(DataMustBeBuffer) && commands == [] && pending == 0
    ensures browser ==> (outcome == Pass && pending == 1 &&
              commands == [WriteCommand("peripheral", "180f", "2a06", WriteData(bytes, false), false, 9)])
  {
    var c := Fresh("peripheral", "180f", "2a06", 9, map[]);
    outcome := c.Write(WriteData(bytes, false), false, Some(4), browser);
    commands, pending := c.noble.commands, |c.listeners|;
  }

  /**
   * A write of a `Buffer`: its completion calls the callback once with no result; a second
   * completion calls nothing.
   */
  method WriteCompletesOnce(bytes: seq<byte>, withoutResponse: bool)
    returns (outcome: Outcome, commands: seq<Command>, delivered: seq<Invocation>)
    ensures outcome == Pass
    ensures commands == [WriteCommand("peripheral", "180f", "2a06", WriteData(bytes, true), withoutResponse, 9)]
    ensures delivered == [Invocation(4, Done)]
  {
    var c := Fresh("peripheral", "180f", "2a06", 9, map[]);
    outcome := c.Write(WriteData(bytes, true), withoutResponse, Some(4), false);
    c.Emit(WriteEvent);
    c.Emit(WriteEvent);
    commands, delivered := c.noble.commands, c.delivered;
  }

  /** A broadcast completion answers the broadcast request and nothing waiting on other events. */
  method BroadcastAmongOthers(enable: bool)
    returns (commands: seq<Command>, delivered: seq<Invocation>, pending: nat)
    ensures commands == [NotifyCommand("peripheral", "180f", "2a37", true, 5),
                         BroadcastCommand("peripheral", "180f", "2a37", enable)]
    ensures delivered == [Invocation(6, Done)]
    ensures pending == 1
  {
    var c := Fresh("peripheral", "180f", "2a37", 5, map[]);
    c.Notify(true, Some(5));
    c.Broadcast(enable, Some(6));
    c.Emit(BroadcastEvent);
    commands, delivered, pending := c.noble.commands, c.delivered, |c.listeners|;
  }

  /**
   * `subscribe(cb)` and `notify(true, cb)`, `unsubscribe(cb)` and `notify(false, cb)`, on two
   * identical handles: the same transport calls and the same callback calls.
   */
  method SubscribeIsNotify(subscribe: bool, callback: Option<CallbackId>)
    returns (viaWrapper: seq<Command>, viaNotify: seq<Command>,
             firedWrapper: seq<Invocation>, firedNotify: seq<Invocation>)
    ensures viaWrapper == viaNotify == [NotifyCommand("peripheral", "180d", "2a37", subscribe, 5)]
    ensures firedWrapper == firedNotify
    ensures firedWrapper == if callback.Some? then [Invocation(callback.value, Done)] else []
  {
    var a := Fresh("peripheral", "180d", "2a37", 5, map[]);
    var b := Fresh("peripheral", "180d", "2a37", 5, map[]);
    if subscribe {
      a.Subscribe(callback);
    } else {
      a.Unsubscribe(callback);
    }
    b.Notify(subscribe, callback);
    assert a.listeners == b.listeners == Pending(0, NotifyKind, callback);
    a.Emit(NotifyEvent);
    b.Emit(NotifyEvent);
    assert a.delivered == b.delivered == Invocations(Pending(0, NotifyKind, callback), NotifyEvent);
    viaWrapper, viaNotify := a.noble.commands, b.noble.commands;
    firedWrapper, firedNotify := a.delivered, b.delivered;
  }

  /**
   * Descriptor discovery: the callback receives the transport's sequence unchanged, and the
   * handle's own `descriptors` stays unset.
   */
  method DiscoverThreeDescriptors(d1: Descriptor, d2: Descriptor, d3: Descriptor)
    returns (commands: seq<Command>, delivered: seq<Invocation>, descriptors: Option<seq<Descriptor>>)
    ensures commands == [DiscoverDescriptorsCommand("peripheral", "180f", "2a19", 7)]
    ensures delivered == [Invocation(8, DescriptorsFound([d1, d2, d3]))]
    ensures descriptors == None
  {
    var c := Fresh("peripheral", "180f", "2a19", 7, map[]);
    c.DiscoverDescriptors(Some(8));
    c.Emit(DescriptorsDiscoverEvent([d1, d2, d3]));
    commands, delivered, descriptors := c.noble.commands, c.delivered, c.descriptors;
  }

  /**
   * The order of effects: the listener is registered before the transport is called, and on
   * the reply it is removed before its callback runs.
   */
  method ReadEffectsInOrder(reply: seq<byte>) returns (effects: seq<Effect>)
    ensures effects == [Registered(OnRead(0, 1)),
                        Issued(ReadCommand("peripheral", "180f", "2a19", 7)),
                        Removed(OnRead(0, 1)),
                        Called(Invocation(1, ReadReply(reply, 7)))]
  {
    var c := Fresh("peripheral", "180f", "2a19", 7, map[]);
    c.Read(Some(1));
    assert c.listeners == [OnRead(0, 1)];
    assert Fired(c.listeners, ReadEvent(reply, false, 7)) == [OnRead(0, 1)];
    c.Emit(ReadEvent(reply, false, 7));
    effects := c.effects;
  }
}
