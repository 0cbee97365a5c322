/** The noble transport as seen from a characteristic: every command is appended to a log. */
module NobleTransport {
  import opened Gatt

  /** One call into the transport, with exactly the arguments the characteristic passes. */
  datatype Command =
    | ReadCommand(peripheralId: Uuid, serviceUuid: Uuid, uuid: Uuid, valueHandle: Handle)
    | WriteCommand(peripheralId: Uuid, serviceUuid: Uuid, uuid: Uuid,
                   data: WriteData, withoutResponse: bool, valueHandle: Handle)
    | BroadcastCommand(peripheralId: Uuid, serviceUuid: Uuid, uuid: Uuid, broadcast: bool)
    | NotifyCommand(peripheralId: Uuid, serviceUuid: Uuid, uuid: Uuid, notify: bool, valueHandle: Handle)
    | DiscoverDescriptorsCommand(peripheralId: Uuid, serviceUuid: Uuid, uuid: Uuid, valueHandle: Handle)

  /** Data handed to `write`: its bytes and whether it is a Node `Buffer`. */
  datatype WriteData = WriteData(bytes: seq<byte>, isBuffer: bool)

  /** The transport reduced to the commands it has been asked to perform, in order. */
  class Transport {
    var commands: seq<Command>

    constructor ()
      ensures commands == []
    {
      commands := [];
    }

    method Read(peripheralId: Uuid, serviceUuid: Uuid, uuid: Uuid, valueHandle: Handle)
      modifies this
      ensures commands == old(commands) + [ReadCommand(peripheralId, serviceUuid, uuid, valueHandle)]
    {
      commands := commands + [ReadCommand(peripheralId, serviceUuid, uuid, valueHandle)];
    }

    method Write(peripheralId: Uuid, serviceUuid: Uuid, uuid: Uuid,
                 data: WriteData, withoutResponse: bool, valueHandle: Handle)
      modifies this
      ensures commands == old(commands) +
                [WriteCommand(peripheralId, serviceUuid, uuid, data, withoutResponse, valueHandle)]
    {
      commands := commands + [WriteCommand(peripheralId, serviceUuid, uuid, data, withoutResponse, valueHandle)];
    }

    method Broadcast(peripheralId: Uuid, serviceUuid: Uuid, uuid: Uuid, broadcast: bool)
      modifies this
      ensures commands == old(commands) + [BroadcastCommand(peripheralId, serviceUuid, uuid, broadcast)]
    {
      commands := commands + [BroadcastCommand(peripheralId, serviceUuid, uuid, broadcast)];
    }

    method Notify(peripheralId: Uuid, serviceUuid: Uuid, uuid: Uuid, notify: bool, valueHandle: Handle)
      modifies this
      ensures commands == old(commands) + [NotifyCommand(peripheralId, serviceUuid, uuid, notify, valueHandle)]
    {
      commands := commands + [NotifyCommand(peripheralId, serviceUuid, uuid, notify, valueHandle)];
    }

    method DiscoverDescriptors(peripheralId: Uuid, serviceUuid: Uuid, uuid: Uuid, valueHandle: Handle)
      modifies this
      ensures commands == old(commands) +
                [DiscoverDescriptorsCommand(peripheralId, serviceUuid, uuid, valueHandle)]
    {
      commands := commands + [DiscoverDescriptorsCommand(peripheralId, serviceUuid, uuid, valueHandle)];
    }
  }
}
