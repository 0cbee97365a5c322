/**
 * The characteristic's event-emitter side: the registry of pending listeners and what
 * `emit` does to it. The registry is one sequence in registration order; each listener is
 * tagged with the event it waits for, so the per-event listener arrays of Node's
 * `EventEmitter` are its `Matching` projections.
 */
module Emitter {
  import opened Gatt

  datatype EventKind = ReadKind | WriteKind | BroadcastKind | NotifyKind | DescriptorsDiscoverKind

  /** An event the transport emits on the characteristic, with its arguments. */
  datatype Event =
    | ReadEvent(data: seq<byte>, isNotification: bool, valueHandle: Handle)
    | WriteEvent
    | BroadcastEvent
    | NotifyEvent
    | DescriptorsDiscoverEvent(descriptors: seq<Descriptor>)
  {
    function Kind(): EventKind {
      match this
      case ReadEvent(_, _, _) => ReadKind
      case WriteEvent => WriteKind
      case BroadcastEvent => BroadcastKind
      case NotifyEvent => NotifyKind
      case DescriptorsDiscoverEvent(_) => DescriptorsDiscoverKind
    }

    /** A value pushed by the peripheral rather than a reply to a read. */
    predicate IsNotification() {
      ReadEvent? && isNotification
    }
  }

  /** The identity of one registered closure; `removeListener` finds a listener by it. */
  type ListenerId = nat

  /**
   * A registered listener: the persistent `onRead` closure that `read` installs with `on`,
   * or the wrapper that `once` installs around a completion closure.
   */
  datatype Listener =
    | OnRead(id: ListenerId, callback: CallbackId)
    | Once(id: ListenerId, event: EventKind, callback: CallbackId)
  {
    function Kind(): EventKind {
      if OnRead? then ReadKind else event
    }
  }

  /** What a callback receives after the `null` error argument. */
  datatype Reply =
    | ReadReply(data: seq<byte>, valueHandle: Handle)
    | Done
    | DescriptorsFound(descriptors: seq<Descriptor>)

  /** One call of a caller's callback. */
  datatype Invocation = Invocation(callback: CallbackId, reply: Reply)

  /** The arguments the characteristic's closures pass on for an event. */
  function ReplyOf(e: Event): (r: Reply)
    ensures e.ReadEvent? ==> r == ReadReply(e.data, e.valueHandle)
    ensures e.DescriptorsDiscoverEvent? ==> r == DescriptorsFound(e.descriptors)
    ensures r.Done? <==> e.Kind() in {WriteKind, BroadcastKind, NotifyKind}
  {
    match e
    case ReadEvent(data, _, valueHandle) => ReadReply(data, valueHandle)
    case DescriptorsDiscoverEvent(descriptors) => DescriptorsFound(descriptors)
    case _ => Done
  }

  /**
   * Whether a listener, visited by `emit(e)`, removes itself and calls its callback:
   * it must wait on e's event, and `onRead` passes notifications by.
   */
  predicate Fires(l: Listener, e: Event)
    ensures Fires(l, e) ==> l.Kind() == e.Kind()
    ensures l.Once? ==> (Fires(l, e) <==> l.event == e.Kind())
    ensures l.OnRead? ==> (Fires(l, e) <==> e.ReadEvent? && !e.isNotification)
  {
    l.Kind() == e.Kind() && !(l.OnRead? && e.IsNotification())
  }

  /** No two distinct registered closures share an identity. */
  predicate UniqueIds(ls: seq<Listener>) {
    forall i, j | 0 <= i < j < |ls| :: ls[i].id != ls[j].id
  }

  /** The only listener on the read channel is the `onRead` closure (this file never uses `once('read')`). */
  predicate ReadsViaOn(ls: seq<Listener>) {
    forall l :: l in ls && l.Once? ==> l.event != ReadKind
  }

  /** The listeners waiting on one event, in registration order (Node's `listeners(k)`). */
  function Matching(ls: seq<Listener>, k: EventKind): (r: seq<Listener>)
    ensures |r| <= |ls|
    ensures forall l :: l in r <==> l in ls && l.Kind() == k
  {
    if ls == [] then [] else (if ls[0].Kind() == k then [ls[0]] else []) + Matching(ls[1..], k)
  }

  /** The listeners that `emit(e)` removes and calls, in the order it calls them. */
  function Fired(ls: seq<Listener>, e: Event): (r: seq<Listener>)
    ensures |r| <= |ls|
    ensures forall l :: l in r <==> l in ls && Fires(l, e)
  {
    if ls == [] then [] else (if Fires(ls[0], e) then [ls[0]] else []) + Fired(ls[1..], e)
  }

  /** The registry after `emit(e)`: every listener that fired is gone, the rest stay in order. */
  function Remaining(ls: seq<Listener>, e: Event): (r: seq<Listener>)
    ensures |r| <= |ls|
    ensures forall l :: l in r <==> l in ls && !Fires(l, e)
  {
    if ls == [] then [] else (if Fires(ls[0], e) then [] else [ls[0]]) + Remaining(ls[1..], e)
  }

  /** `removeListener`: drops the closure with the given identity. */
  function Without(ls: seq<Listener>, id: ListenerId): (r: seq<Listener>)
    ensures |r| <= |ls|
    ensures forall l :: l in r <==> l in ls && l.id != id
  {
    if ls == [] then [] else (if ls[0].id == id then [] else [ls[0]]) + Without(ls[1..], id)
  }

  /** Each listener's callback called with the same reply, in order. */
  function Calls(ls: seq<Listener>, reply: Reply): (r: seq<Invocation>)
    ensures |r| == |ls|
    ensures forall j :: 0 <= j < |r| ==> r[j] == Invocation(ls[j].callback, reply)
  {
    if ls == [] then [] else [Invocation(ls[0].callback, reply)] + Calls(ls[1..], reply)
  }

  /** The callback invocations `emit(e)` performs, in order. */
  function Invocations(ls: seq<Listener>, e: Event): (r: seq<Invocation>)
    ensures |r| == |Fired(ls, e)|
    ensures forall j :: 0 <= j < |r| ==> r[j].callback == Fired(ls, e)[j].callback
    ensures forall v :: v in r ==> v.reply == ReplyOf(e)
  {
    Calls(Fired(ls, e), ReplyOf(e))
  }

  /** The registry part-way through `emit(e)`, once the listeners in `done` have been visited. */
  ghost function Cleared(ls: seq<Listener>, done: seq<Listener>, e: Event): seq<Listener> {
    if ls == [] then []
    else (if ls[0] in done && Fires(ls[0], e) then [] else [ls[0]]) + Cleared(ls[1..], done, e)
  }

  // ---------------------------------------------------------------------------------------
  // Facts used by the emit loop

  lemma {:induction false} ClearedNothing(ls: seq<Listener>, e: Event)
    ensures Cleared(ls, [], e) == ls
  {
    if ls != [] {
      ClearedNothing(ls[1..], e);
    }
  }

  /** In a registry with unique ids, an id names one listener. */
  lemma UniqueIdsMember(ls: seq<Listener>, l: Listener)
    requires UniqueIds(ls) && l in ls
    ensures forall m :: m in ls && m.id == l.id ==> m == l
  {
    forall m | m in ls && m.id == l.id
      ensures m == l
    {
      var i, j :| 0 <= i < |ls| && 0 <= j < |ls| && ls[i] == l && ls[j] == m;
      assert !(i < j) && !(j < i);
    }
  }

  /** A listener whose id no listener of a unique-id registry has can go in front of it. */
  lemma UniqueIdsCons(x: Listener, ls: seq<Listener>)
    requires UniqueIds(ls) && forall m :: m in ls ==> m.id != x.id
    ensures UniqueIds([x] + ls)
  {
    forall i, j | 0 <= i < j < |[x] + ls|
      ensures ([x] + ls)[i].id != ([x] + ls)[j].id
    {
      if i == 0 {
        assert ([x] + ls)[j] == ls[j - 1];
      }
    }
  }

  /** `emit` keeps identities unique: the registry it leaves is a sub-sequence. */
  lemma {:induction false} RemainingUniqueIds(ls: seq<Listener>, e: Event)
    requires UniqueIds(ls)
    ensures UniqueIds(Remaining(ls, e))
  {
    if ls != [] {
      var rest := ls[1..];
      assert UniqueIds(rest) by {
        forall i, j | 0 <= i < j < |rest| ensures rest[i].id != rest[j].id {
          assert rest[i] == ls[i + 1] && rest[j] == ls[j + 1];
        }
      }
      RemainingUniqueIds(rest, e);
      if !Fires(ls[0], e) {
        forall m | m in Remaining(rest, e) ensures m.id != ls[0].id {
          var j :| 0 <= j < |rest| && rest[j] == m;
          assert ls[j + 1] == m;
        }
        UniqueIdsCons(ls[0], Remaining(rest, e));
      }
    }
  }

  /** Visiting one more listener: if it fires, `removeListener` takes exactly it out. */
  lemma {:induction false} ClearedStep(ls: seq<Listener>, done: seq<Listener>, l: Listener, e: Event)
    requires forall m :: m in ls && m.id == l.id ==> m == l
    ensures Cleared(ls, done + [l], e) ==
              if Fires(l, e) then Without(Cleared(ls, done, e), l.id) else Cleared(ls, done, e)
  {
    if ls != [] {
      ClearedStep(ls[1..], done, l, e);
      var head := if ls[0] in done && Fires(ls[0], e) then [] else [ls[0]];
      WithoutAppend(head, Cleared(ls[1..], done, e), l.id);
    }
  }

  /** Once every listener that fires has been visited, the registry is `Remaining`. */
  lemma {:induction false} ClearedCovers(ls: seq<Listener>, done: seq<Listener>, e: Event)
    requires forall m :: m in ls && Fires(m, e) ==> m in done
    ensures Cleared(ls, done, e) == Remaining(ls, e)
  {
    if ls != [] {
      ClearedCovers(ls[1..], done, e);
    }
  }

  lemma {:induction false} FiredAppend(a: seq<Listener>, b: seq<Listener>, e: Event)
    ensures Fired(a + b, e) == Fired(a, e) + Fired(b, e)
  {
    if a == [] {
      assert a + b == b;
    } else {
      assert (a + b)[1..] == a[1..] + b;
      FiredAppend(a[1..], b, e);
    }
  }

  lemma {:induction false} CallsAppend(a: seq<Listener>, b: seq<Listener>, reply: Reply)
    ensures Calls(a + b, reply) == Calls(a, reply) + Calls(b, reply)
  {
    if a == [] {
      assert a + b == b;
    } else {
      assert (a + b)[1..] == a[1..] + b;
      CallsAppend(a[1..], b, reply);
    }
  }

  lemma {:induction false} InvocationsAppend(a: seq<Listener>, b: seq<Listener>, e: Event)
    ensures Invocations(a + b, e) == Invocations(a, e) + Invocations(b, e)
  {
    FiredAppend(a, b, e);
    CallsAppend(Fired(a, e), Fired(b, e), ReplyOf(e));
  }

  /** Only listeners of the event's own kind can fire, so the snapshot `emit` takes suffices. */
  lemma {:induction false} FiredOfMatching(ls: seq<Listener>, e: Event)
    ensures Fired(Matching(ls, e.Kind()), e) == Fired(ls, e)
  {
    if ls != [] {
      FiredOfMatching(ls[1..], e);
      var head := if ls[0].Kind() == e.Kind() then [ls[0]] else [];
      FiredAppend(head, Matching(ls[1..], e.Kind()), e);
    }
  }

  lemma {:induction false} MatchingAppend(a: seq<Listener>, b: seq<Listener>, k: EventKind)
    ensures Matching(a + b, k) == Matching(a, k) + Matching(b, k)
  {
    if a == [] {
      assert a + b == b;
    } else {
      assert (a + b)[1..] == a[1..] + b;
      MatchingAppend(a[1..], b, k);
    }
  }

  lemma {:induction false} WithoutAppend(a: seq<Listener>, b: seq<Listener>, id: ListenerId)
    ensures Without(a + b, id) == Without(a, id) + Without(b, id)
  {
    if a == [] {
      assert a + b == b;
    } else {
      assert (a + b)[1..] == a[1..] + b;
      WithoutAppend(a[1..], b, id);
    }
  }

  /** A registry in which nothing fires is left as it is and calls nobody. */
  lemma {:induction false} NothingFires(ls: seq<Listener>, e: Event)
    requires forall l :: l in ls ==> !Fires(l, e)
    ensures Remaining(ls, e) == ls && Fired(ls, e) == []
  {
    if ls != [] {
      NothingFires(ls[1..], e);
    }
  }

  // ---------------------------------------------------------------------------------------
  // What emitting an event does to the pending requests

  /**
   * A notification on the read channel answers no read: every `onRead` listener stays
   * registered and no callback is called.
   */
  lemma {:induction false} NotificationSkipsReads(ls: seq<Listener>, e: Event)
    requires e.IsNotification() && ReadsViaOn(ls)
    ensures Remaining(ls, e) == ls
    ensures Invocations(ls, e) == []
  {
    NothingFires(ls, e);
  }

  /**
   * Any other event fires every listener waiting on its channel, in registration order,
   * each with the event's reply, and leaves that channel empty.
   */
  lemma {:induction false} AnswerFiresChannel(ls: seq<Listener>, e: Event)
    requires !e.IsNotification()
    ensures Fired(ls, e) == Matching(ls, e.Kind())
    ensures Invocations(ls, e) == Calls(Matching(ls, e.Kind()), ReplyOf(e))
    ensures Matching(Remaining(ls, e), e.Kind()) == []
  {
    if ls != [] {
      AnswerFiresChannel(ls[1..], e);
      var head := if Fires(ls[0], e) then [] else [ls[0]];
      MatchingAppend(head, Remaining(ls[1..], e), e.Kind());
    }
  }

  /** Listeners waiting on other events are neither called nor removed, nor reordered. */
  lemma {:induction false} OtherChannelsKept(ls: seq<Listener>, e: Event, k: EventKind)
    requires k != e.Kind()
    ensures Matching(Remaining(ls, e), k) == Matching(ls, k)
  {
    if ls != [] {
      OtherChannelsKept(ls[1..], e, k);
      var head := if Fires(ls[0], e) then [] else [ls[0]];
      MatchingAppend(head, Remaining(ls[1..], e), k);
    }
  }

  /**
   * Delivery is one-shot: after an answer, a later event of the same kind finds nothing to
   * call and removes nothing, until a new request registers.
   */
  lemma {:induction false} OneShot(ls: seq<Listener>, e: Event, later: Event)
    requires !e.IsNotification() && later.Kind() == e.Kind()
    ensures Invocations(Remaining(ls, e), later) == []
    ensures Remaining(Remaining(ls, e), later) == Remaining(ls, e)
  {
    AnswerFiresChannel(ls, e);
    var rest := Remaining(ls, e);
    forall l | l in rest ensures !Fires(l, later) {
      assert l !in Matching(rest, e.Kind());
    }
    NothingFires(rest, later);
  }

  /** A read reply calls every pending read callback with `(data, valueHandle)`. */
  lemma {:induction false} ReadReplyDelivers(ls: seq<Listener>, data: seq<byte>, valueHandle: Handle)
    ensures Invocations(ls, ReadEvent(data, false, valueHandle)) ==
              Calls(Matching(ls, ReadKind), ReadReply(data, valueHandle))
    ensures Matching(Remaining(ls, ReadEvent(data, false, valueHandle)), ReadKind) == []
  {
    AnswerFiresChannel(ls, ReadEvent(data, false, valueHandle));
  }

  /** The descriptor sequence reaches the discovery callbacks exactly as the transport sent it. */
  lemma {:induction false} DescriptorsPassedThrough(ls: seq<Listener>, descriptors: seq<Descriptor>)
    ensures Invocations(ls, DescriptorsDiscoverEvent(descriptors)) ==
              Calls(Matching(ls, DescriptorsDiscoverKind), DescriptorsFound(descriptors))
  {
    AnswerFiresChannel(ls, DescriptorsDiscoverEvent(descriptors));
  }

  /**
   * Two reads outstanding at once are not told apart: one reply calls both callbacks, the
   * earlier registration first, with the same data.
   */
  lemma {:induction false} OverlappingReadsBothAnswered(ls: seq<Listener>, first: Listener, second: Listener,
                                     data: seq<byte>, valueHandle: Handle)
    requires Matching(ls, ReadKind) == [first, second]
    ensures Invocations(ls, ReadEvent(data, false, valueHandle)) ==
              [Invocation(first.callback, ReadReply(data, valueHandle)),
               Invocation(second.callback, ReadReply(data, valueHandle))]
  {
    AnswerFiresChannel(ls, ReadEvent(data, false, valueHandle));
  }
}
