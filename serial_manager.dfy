/**
 * The client-side `SerialManager`: two listener registries, one transport
 * per registered listener (a message buffer plus the queue of its Handler),
 * the engine-on flag, and the enable/disable lifecycle of the event thread.
 *
 * The remote service is outside the model: what its calls return is passed
 * in as a `Reply`, and the calls made to it are recorded in `calls`, next to
 * the calls made into the native layer and the start and join of the event
 * thread.  The native layer is the `SerialJni.NativeSerial` object itself.
 */
module SerialManager {
  import opened Common
  import opened SerialJni

  /** `SERIAL_STATUS_*`, the status codes the native layer reports. */
  const SERIAL_STATUS_NONE := 0
  const SERIAL_STATUS_ENGINE_ON := 1
  const SERIAL_STATUS_ENGINE_OFF := 2

  /** `SerialStatus.SERIAL_EVENT_*`, the events a status listener receives. */
  const SERIAL_EVENT_STARTED := 1
  const SERIAL_EVENT_STOPPED := 2

  /** The `what` of a transport's message-drain request; no event code. */
  const SERIAL_MSG_RECEIVED := 1001

  /** Length of the preallocated `byte[] mSerialMsgBuffer`. */
  const MSG_BUFFER_SIZE := 1024

  /** Identities of the application's listener objects. */
  type StatusListener = nat
  type MsgListener = nat

  /** A callback made to an application listener. */
  datatype Delivery = StatusChanged(event: int) | MsgReceived(msg: string)

  /** How a call to the service's `addSerialStatusListener` ends. */
  datatype Reply = Answered(accepted: bool) | RemoteException

  /** The `mEngineOn` that `reportStatus(status)` leaves behind. */
  function EngineOnAfter(engineOn: bool, status: int): (r: bool)
    ensures status == SERIAL_STATUS_ENGINE_ON ==> r
    ensures status == SERIAL_STATUS_ENGINE_OFF ==> !r
    ensures status != SERIAL_STATUS_ENGINE_ON && status != SERIAL_STATUS_ENGINE_OFF ==> r == engineOn
  {
    match status
    case 1 => true
    case 2 => false
    case _ => engineOn
  }

  /** `Handler.removeMessages(what)` on a queue of message codes. */
  function WithoutWhat(queue: seq<int>, what: int): (r: seq<int>)
    ensures forall x :: x in r <==> x in queue && x != what
    ensures what !in queue ==> r == queue
  {
    if queue == [] then []
    else (if queue[0] == what then [] else [queue[0]]) + WithoutWhat(queue[1..], what)
  }

  /** Removing messages leaves the number of every other code alone. */
  lemma {:induction false} WithoutWhatCounts(queue: seq<int>, what: int)
    ensures forall x :: x != what ==> multiset(WithoutWhat(queue, what))[x] == multiset(queue)[x]
  {
    if queue != [] {
      assert queue == [queue[0]] + queue[1..];
      WithoutWhatCounts(queue[1..], what);
    }
  }

  /** Removing messages keeps the order of the others: it distributes over
      concatenation. */
  lemma {:induction false} WithoutWhatAppend(a: seq<int>, b: seq<int>, what: int)
    ensures WithoutWhat(a + b, what) == WithoutWhat(a, what) + WithoutWhat(b, what)
  {
    if a == [] {
      assert a + b == b;
    } else {
      assert (a + b)[0] == a[0] && (a + b)[1..] == a[1..] + b;
      WithoutWhatAppend(a[1..], b, what);
    }
  }

  /** The queue after `removeMessages(SERIAL_MSG_RECEIVED)` followed by
      `sendMessage` of a new drain request. */
  function AfterPostMsg(queue: seq<int>): (r: seq<int>)
    ensures |r| > 0 && r[|r| - 1] == SERIAL_MSG_RECEIVED
    ensures SERIAL_MSG_RECEIVED !in r[..|r| - 1]
    ensures forall x :: x != SERIAL_MSG_RECEIVED ==> (x in r <==> x in queue)
  {
    WithoutWhat(queue, SERIAL_MSG_RECEIVED) + [SERIAL_MSG_RECEIVED]
  }

  /** After a post exactly one drain request is queued, last, and every
      other code is queued as often as before. */
  lemma AfterPostMsgShape(queue: seq<int>)
    ensures var r := AfterPostMsg(queue);
      && |r| > 0 && r[|r| - 1] == SERIAL_MSG_RECEIVED
      && multiset(r)[SERIAL_MSG_RECEIVED] == 1
      && forall x :: x != SERIAL_MSG_RECEIVED ==> multiset(r)[x] == multiset(queue)[x]
  {
    var q := WithoutWhat(queue, SERIAL_MSG_RECEIVED);
    WithoutWhatCounts(queue, SERIAL_MSG_RECEIVED);
    assert multiset(q)[SERIAL_MSG_RECEIVED] == 0;
  }

  /** Posting a drain request twice queues no more than posting it once. */
  lemma AfterPostMsgIdempotent(queue: seq<int>)
    ensures AfterPostMsg(AfterPostMsg(queue)) == AfterPostMsg(queue)
  {
    var q := WithoutWhat(queue, SERIAL_MSG_RECEIVED);
    WithoutWhatAppend(q, [SERIAL_MSG_RECEIVED], SERIAL_MSG_RECEIVED);
    assert WithoutWhat([SERIAL_MSG_RECEIVED], SERIAL_MSG_RECEIVED) == [];
    assert WithoutWhat(q, SERIAL_MSG_RECEIVED) == q;
  }

  /** The callbacks a drain makes for a buffer: one per message, in order. */
  function MsgDeliveries(msgs: seq<string>): (r: seq<Delivery>)
    ensures |r| == |msgs|
    ensures forall i :: 0 <= i < |msgs| ==> r[i] == MsgReceived(msgs[i])
  {
    if msgs == [] then [] else [MsgReceived(msgs[0])] + MsgDeliveries(msgs[1..])
  }

  /** `new String(bytes, 0, length)`, one character per byte. */
  function Decode(bytes: seq<byte>): (s: string)
    ensures |s| == |bytes|
    ensures forall i :: 0 <= i < |bytes| ==> s[i] as int == bytes[i] as int
  {
    seq(|bytes|, i requires 0 <= i < |bytes| => bytes[i] as int as char)
  }

  /** The string `reportSerialMsg` builds from the native copy of the last
      received message. */
  function ReceivedMessage(receiveCopy: seq<byte>): (s: string)
    ensures |s| == Min(StrLen(receiveCopy), MSG_BUFFER_SIZE)
    ensures forall i :: 0 <= i < |s| ==> receiveCopy[i] != 0 && s[i] as int == receiveCopy[i] as int
  {
    Decode(receiveCopy[..Min(StrLen(receiveCopy), MSG_BUFFER_SIZE)])
  }

  /** `SerialStatusListenerTransport`: the service-side face of one
      application listener.  It wraps either a status listener or a message
      listener; events reach the application through its Handler, whose
      pending messages (their `what` codes) are `queue`. */
  class Transport {
    const statusListener: Option<StatusListener>
    const msgListener: Option<MsgListener>
    /** `mSerialMsgBuffer`: messages waiting for the next drain */
    var buffer: seq<string>
    /** the Handler's message queue, oldest first */
    var queue: seq<int>
    /** the callbacks made so far to the wrapped listener, in order */
    var delivered: seq<Delivery>

    /** A transport wraps exactly one listener.  A status transport queues
        only event codes; a message transport holds one drain request
        exactly while its buffer is not empty, so no message is stranded. */
    ghost predicate Valid()
      reads this
    {
      && statusListener.Some? != msgListener.Some?
      && (statusListener.Some? ==> buffer == [] && SERIAL_MSG_RECEIVED !in queue)
      && (msgListener.Some? ==>
            (queue == [] && buffer == []) || (queue == [SERIAL_MSG_RECEIVED] && buffer != []))
    }

    constructor ForStatus(listener: StatusListener)
      ensures Valid()
      ensures statusListener == Some(listener) && msgListener == None
      ensures buffer == [] && queue == [] && delivered == []
    {
      statusListener := Some(listener);
      msgListener := None;
      buffer, queue, delivered := [], [], [];
    }

    constructor ForMsg(listener: MsgListener)
      ensures Valid()
      ensures statusListener == None && msgListener == Some(listener)
      ensures buffer == [] && queue == [] && delivered == []
    {
      statusListener := None;
      msgListener := Some(listener);
      buffer, queue, delivered := [], [], [];
    }

    /** `onSerialStarted`: queue a STARTED event for a status listener. */
    method OnSerialStarted()
      modifies this
      ensures old(Valid()) ==> Valid()
      ensures queue == old(queue) + (if statusListener.Some? then [SERIAL_EVENT_STARTED] else [])
      ensures buffer == old(buffer) && delivered == old(delivered)
    {
      if statusListener.Some? {
        queue := queue + [SERIAL_EVENT_STARTED];
      }
    }

    /** `onSerialStopped`: queue a STOPPED event for a status listener. */
    method OnSerialStopped()
      modifies this
      ensures old(Valid()) ==> Valid()
      ensures queue == old(queue) + (if statusListener.Some? then [SERIAL_EVENT_STOPPED] else [])
      ensures buffer == old(buffer) && delivered == old(delivered)
    {
      if statusListener.Some? {
        queue := queue + [SERIAL_EVENT_STOPPED];
      }
    }

    /** `onSerialMsgReceived`: buffer the message and replace any pending
        drain request by a single new one; a status transport ignores it. */
    method OnSerialMsgReceived(msg: string)
      modifies this
      ensures old(Valid()) ==> Valid()
      ensures msgListener.Some? ==> buffer == old(buffer) + [msg] && queue == AfterPostMsg(old(queue))
      ensures msgListener.None? ==> buffer == old(buffer) && queue == old(queue)
      ensures delivered == old(delivered)
    {
      if msgListener.Some? {
        buffer := buffer + [msg];
        queue := WithoutWhat(queue, SERIAL_MSG_RECEIVED);
        queue := queue + [SERIAL_MSG_RECEIVED];
      }
    }

    /** `mSerialHandler.handleMessage` for the oldest queued message.  A
        drain request hands every buffered message to the listener in order
        and empties the buffer; any other code is passed on as a status
        event. */
    method HandleMessage()
      requires Valid() && queue != []
      modifies this
      ensures Valid()
      ensures queue == old(queue)[1..]
      ensures old(queue)[0] == SERIAL_MSG_RECEIVED ==>
                buffer == [] && delivered == old(delivered) + MsgDeliveries(old(buffer))
      ensures old(queue)[0] != SERIAL_MSG_RECEIVED ==>
                buffer == old(buffer) && delivered == old(delivered) + [StatusChanged(old(queue)[0])]
    {
      var what := queue[0];
      queue := queue[1..];
      if what == SERIAL_MSG_RECEIVED {
        var length := |buffer|;
        for i := 0 to length
          invariant buffer == old(buffer) && queue == old(queue)[1..]
          invariant delivered == old(delivered) + MsgDeliveries(buffer[..i])
        {
          assert buffer[..i + 1] == buffer[..i] + [buffer[i]];
          MsgDeliveriesAppend(buffer[..i], buffer[i]);
          delivered := delivered + [MsgReceived(buffer[i])];
        }
        assert buffer[..length] == buffer;
        buffer := [];
      } else {
        delivered := delivered + [StatusChanged(what)];
      }
    }
  }

  lemma MsgDeliveriesAppend(msgs: seq<string>, msg: string)
    ensures MsgDeliveries(msgs + [msg]) == MsgDeliveries(msgs) + [MsgReceived(msg)]
  {
  }

  /** The transports `ts[..k]` have each received `msg` once and the others
      are as they were. */
  twostate predicate FannedOut(ts: seq<Transport>, k: int, msg: string)
    reads set t | t in ts
  {
    forall i :: 0 <= i < |ts| ==>
      && ts[i].delivered == old(ts[i].delivered)
      && (if i < k then ts[i].buffer == old(ts[i].buffer) + [msg] && ts[i].queue == AfterPostMsg(old(ts[i].queue))
          else ts[i].buffer == old(ts[i].buffer) && ts[i].queue == old(ts[i].queue))
  }

  /** The `SerialEventThread` object; only its identity is modelled. */
  class EventThread {
    constructor ()
    {
    }
  }

  /** A call the manager makes out of the Java object, in the order made. */
  datatype Call =
    | ServiceAdd(transport: Transport)
    | ServiceRemove(transport: Transport)
    | NativeInit
    | NativeDisable
    | NativeCleanup
    | NativeStart(device: string, baud: int)
    | NativeStop
    | NativeRead
    | ThreadStarted(thread: EventThread)
    | ThreadJoined(thread: EventThread)

  /** The native read a wake-up with snapshot `mask` makes while `count`
      message listeners are registered. */
  function ReadCalls(mask: bv32, count: nat): (r: seq<Call>)
    ensures r == [] || r == [NativeRead]
    ensures r == [NativeRead] <==> mask & SERIAL_RECEIVE != 0 && count > 0
  {
    if mask & SERIAL_RECEIVE != 0 && count > 0 then [NativeRead] else []
  }

  /** The engine flag after the upcalls for snapshot `mask`, whose status
      copy holds `status`. */
  function EngineOnAfterMask(engineOn: bool, mask: bv32, status: int): (r: bool)
    ensures mask & STATUS == 0 ==> r == engineOn
    ensures mask & STATUS != 0 ==> r == EngineOnAfter(engineOn, status)
  {
    if mask & STATUS != 0 then EngineOnAfter(engineOn, status) else engineOn
  }

  /** How many entries of `mListeners` the upcalls for snapshot `mask` hand
      the message to, while `count` message listeners are registered. */
  function FanCount(mask: bv32, count: nat): (k: nat)
    ensures mask & SERIAL_RECEIVE == 0 ==> k == 0
    ensures mask & SERIAL_RECEIVE != 0 ==> k == count
  {
    if mask & SERIAL_RECEIVE != 0 then count else 0
  }

  class Manager {
    /** the native layer's statics */
    const native: NativeSerial
    /** `byte[] mSerialMsgBuffer` */
    const msgBytes: array<byte>
    /** `mSerialStatusListeners` */
    var statusListeners: map<StatusListener, Transport>
    /** `mSerialMsgListeners` */
    var msgListeners: map<MsgListener, Transport>
    /** `mListeners`: the message transports, in the order they were made */
    var listeners: seq<Transport>
    var engineOn: bool
    var enabled: bool
    var eventThread: EventThread?
    /** the calls made so far to the service, the native layer and the
        event thread */
    var calls: seq<Call>

    /** Each registry maps a listener to a transport wrapping it;
        `mListeners` holds distinct message transports, among them every
        one in `mSerialMsgListeners`. */
    ghost predicate ListenersValid()
      reads this
    {
      && msgBytes.Length == MSG_BUFFER_SIZE
      && (forall l :: l in statusListeners ==> statusListeners[l].statusListener == Some(l))
      && (forall l :: l in msgListeners ==> msgListeners[l].msgListener == Some(l) && msgListeners[l] in listeners)
      && (forall i :: 0 <= i < |listeners| ==> listeners[i].msgListener.Some?)
      && (forall i, j :: 0 <= i < j < |listeners| ==> listeners[i] != listeners[j])
    }

    /** Besides that, the event thread exists exactly while the manager is
        enabled, and being enabled means the driver was found. */
    ghost predicate Valid()
      reads this, native
    {
      && ListenersValid()
      && (enabled <==> eventThread != null)
      && (enabled ==> native.hasInterface)
    }

    constructor (native: NativeSerial)
      ensures Valid()
      ensures this.native == native && fresh(msgBytes)
      ensures statusListeners == map[] && msgListeners == map[] && listeners == []
      ensures !engineOn && !enabled && eventThread == null && calls == []
    {
      this.native := native;
      msgBytes := new byte[MSG_BUFFER_SIZE];
      statusListeners, msgListeners, listeners := map[], map[], [];
      engineOn, enabled, eventThread := false, false, null;
      calls := [];
    }

    /** `begin`: enable, then start the serial engine. */
    method Begin(device: string, baud: int, found: bool, initCode: int, startCode: int) returns (r: NativeResult)
      requires Valid()
      modifies this, native
      ensures Valid()
      ensures statusListeners == old(statusListeners) && msgListeners == old(msgListeners)
      ensures listeners == old(listeners) && engineOn == old(engineOn)
      ensures old(enabled) ==> enabled && eventThread == old(eventThread) && native.hasInterface
      ensures !old(enabled) ==> enabled == (native.hasInterface && initCode == 0)
      ensures native.hasInterface == (old(native.hasInterface) || (!old(enabled) && found))
      ensures r == if native.hasInterface then Returned(startCode == 0) else NullInterface
      ensures native.driverCalls == old(native.driverCalls)
        + (if old(enabled) || !native.hasInterface then [] else [DriverInit])
        + (if native.hasInterface then [DriverStart(device, baud)] else [])
      ensures native.pending == old(native.pending)
      ensures native.status == old(native.status) && native.receive == old(native.receive)
      ensures native.statusCopy == old(native.statusCopy) && native.receiveCopy == old(native.receiveCopy)
      ensures calls == old(calls)
        + (if old(enabled) then [] else [NativeInit] + (if enabled then [ThreadStarted(eventThread)] else []))
        + [NativeStart(device, baud)]
    {
      Enable(found, initCode);
      r := native.Start(device, baud, startCode);
      calls := calls + [NativeStart(device, baud)];
    }

    /** `end`: disable, then stop the serial engine (after the driver has
        been cleaned up, as the source does). */
    method End(device: string, stopCode: int) returns (r: NativeResult)
      requires Valid()
      modifies this, native, msgBytes, set t | t in listeners
      ensures Valid() && !enabled && eventThread == null
      ensures statusListeners == old(statusListeners) && msgListeners == old(msgListeners)
      ensures listeners == old(listeners)
      ensures native.hasInterface == old(native.hasInterface)
      ensures r == if native.hasInterface then Returned(stopCode == 0) else NullInterface
      ensures native.driverCalls == old(native.driverCalls)
        + (if old(enabled) then [DriverCleanup] else [])
        + (if native.hasInterface then [DriverStop] else [])
      ensures !old(enabled) ==> calls == old(calls) + [NativeStop] && FannedOut(listeners, 0, "")
      ensures !old(enabled) ==>
                && engineOn == old(engineOn) && native.pending == old(native.pending)
                && native.status == old(native.status) && native.receive == old(native.receive)
                && native.statusCopy == old(native.statusCopy) && native.receiveCopy == old(native.receiveCopy)
      ensures old(enabled) ==>
                var mask := WithBit(old(native.pending), DISABLE_REQUEST);
                && native.pending == 0
                && native.statusCopy == (if mask & STATUS != 0 then old(native.status) else old(native.statusCopy))
                && native.receiveCopy == (if mask & SERIAL_RECEIVE != 0 then old(native.receive) else old(native.receiveCopy))
                && native.status == old(native.status) && native.receive == old(native.receive)
                && calls == old(calls) + [NativeDisable] + ReadCalls(mask, |msgListeners|)
                            + [ThreadJoined(old(eventThread)), NativeCleanup, NativeStop]
                && engineOn == EngineOnAfterMask(old(engineOn), mask, native.statusCopy)
                && FannedOut(listeners, FanCount(mask, |msgListeners|), ReceivedMessage(native.receiveCopy))
    {
      Disable();
      r := native.Stop(stopCode);
      calls := calls + [NativeStop];
    }

    /** `reportStatus`: track the engine state; no listener is told. */
    method ReportStatus(status: int)
      modifies this
      ensures engineOn == EngineOnAfter(old(engineOn), status)
      ensures statusListeners == old(statusListeners) && msgListeners == old(msgListeners)
      ensures listeners == old(listeners) && enabled == old(enabled)
      ensures eventThread == old(eventThread) && calls == old(calls)
    {
      if status == SERIAL_STATUS_ENGINE_ON {
        engineOn := true;
      } else if status == SERIAL_STATUS_ENGINE_OFF {
        engineOn := false;
      }
    }

    /** `addSerialStatusListener`.  An already registered listener is
        accepted again without any call.  Otherwise a transport is made and
        offered to the service, and it is recorded only if the service
        accepted it. */
    method AddSerialStatusListener(listener: StatusListener, reply: Reply) returns (result: bool)
      requires Valid()
      modifies this
      ensures Valid()
      ensures msgListeners == old(msgListeners) && listeners == old(listeners)
      ensures engineOn == old(engineOn) && enabled == old(enabled) && eventThread == old(eventThread)
      ensures listener in old(statusListeners) ==>
                result && statusListeners == old(statusListeners) && calls == old(calls)
      ensures listener !in old(statusListeners) ==>
                && result == (reply == Answered(true))
                && |calls| == |old(calls)| + 1 && calls[..|old(calls)|] == old(calls)
                && calls[|old(calls)|].ServiceAdd?
                && var t := calls[|old(calls)|].transport;
                && fresh(t) && t.statusListener == Some(listener) && t.msgListener == None
                && t.buffer == [] && t.queue == [] && t.delivered == []
                && statusListeners == if result then old(statusListeners)[listener := t] else old(statusListeners)
    {
      if listener in statusListeners {
        return true;
      }
      var transport := new Transport.ForStatus(listener);
      calls := calls + [ServiceAdd(transport)];
      match reply
      case RemoteException =>
        result := false;
      case Answered(accepted) =>
        result := accepted;
        if result {
          statusListeners := statusListeners[listener := transport];
        }
    }

    /** `removeSerialStatusListener`: forget the listener and, when it was
        registered, tell the service; an error from the service is
        swallowed. */
    method RemoveSerialStatusListener(listener: StatusListener)
      requires Valid()
      modifies this
      ensures Valid()
      ensures statusListeners == old(statusListeners) - {listener}
      ensures calls == old(calls)
        + (if listener in old(statusListeners) then [ServiceRemove(old(statusListeners)[listener])] else [])
      ensures msgListeners == old(msgListeners) && listeners == old(listeners)
      ensures engineOn == old(engineOn) && enabled == old(enabled) && eventThread == old(eventThread)
    {
      if listener in statusListeners {
        var transport := statusListeners[listener];
        statusListeners := statusListeners - {listener};
        calls := calls + [ServiceRemove(transport)];
      }
    }

    /** `addSerialMsgListener`.  As for status listeners, except that the
        new transport joins `mListeners` as soon as the service answers,
        whether it accepted the transport or not. */
    method AddSerialMsgListener(listener: MsgListener, reply: Reply) returns (result: bool)
      requires Valid()
      modifies this
      ensures Valid()
      ensures statusListeners == old(statusListeners)
      ensures engineOn == old(engineOn) && enabled == old(enabled) && eventThread == old(eventThread)
      ensures listener in old(msgListeners) ==>
                result && msgListeners == old(msgListeners) && listeners == old(listeners) && calls == old(calls)
      ensures listener !in old(msgListeners) ==>
                && result == (reply == Answered(true))
                && |calls| == |old(calls)| + 1 && calls[..|old(calls)|] == old(calls)
                && calls[|old(calls)|].ServiceAdd?
                && var t := calls[|old(calls)|].transport;
                && fresh(t) && t.msgListener == Some(listener) && t.statusListener == None
                && t.buffer == [] && t.queue == [] && t.delivered == []
                && listeners == (if reply.Answered? then old(listeners) + [t] else old(listeners))
                && msgListeners == if result then old(msgListeners)[listener := t] else old(msgListeners)
    {
      if listener in msgListeners {
        return true;
      }
      var transport := new Transport.ForMsg(listener);
      calls := calls + [ServiceAdd(transport)];
      match reply
      case RemoteException =>
        result := false;
      case Answered(accepted) =>
        result := accepted;
        listeners := listeners + [transport];
        if result {
          msgListeners := msgListeners[listener := transport];
        }
    }

    /** `removeSerialMsgListener`: forget the listener and, when it was
        registered, tell the service.  Its transport stays in `mListeners`. */
    method RemoveSerialMsgListener(listener: MsgListener)
      requires Valid()
      modifies this
      ensures Valid()
      ensures msgListeners == old(msgListeners) - {listener}
      ensures calls == old(calls)
        + (if listener in old(msgListeners) then [ServiceRemove(old(msgListeners)[listener])] else [])
      ensures statusListeners == old(statusListeners) && listeners == old(listeners)
      ensures engineOn == old(engineOn) && enabled == old(enabled) && eventThread == old(eventThread)
    {
      if listener in msgListeners {
        var transport := msgListeners[listener];
        msgListeners := msgListeners - {listener};
        calls := calls + [ServiceRemove(transport)];
      }
    }

    /** `reportSerialMsg`.  With no message listener registered nothing is
        read.  Otherwise the message is read once and handed to the first
        `mSerialMsgListeners.size()` entries of `mListeners`; an index past
        the end of `mListeners` raises an exception that is caught, and since
        the caught listener is always null nothing is ever removed. */
    method ReportSerialMsg()
      requires ListenersValid()
      modifies this, msgBytes, set t | t in listeners
      ensures ListenersValid()
      ensures statusListeners == old(statusListeners) && msgListeners == old(msgListeners)
      ensures listeners == old(listeners) && engineOn == old(engineOn)
      ensures enabled == old(enabled) && eventThread == old(eventThread)
      ensures calls == old(calls) + (if |msgListeners| > 0 then [NativeRead] else [])
      ensures FannedOut(listeners, |msgListeners|, ReceivedMessage(native.receiveCopy))
    {
      var size := |msgListeners|;
      if size > 0 {
        var length := native.ReadSerialMsg(msgBytes, msgBytes.Length);
        calls := calls + [NativeRead];
        var msg := Decode(msgBytes[..length]);
        assert msg == ReceivedMessage(native.receiveCopy);
        FanOut(msg, size);
      }
    }

    /** The loop of `reportSerialMsg` over the first `size` indices. */
    method FanOut(msg: string, size: nat)
      requires ListenersValid()
      modifies set t | t in listeners
      ensures FannedOut(listeners, size, msg)
    {
      var i: nat := 0;
      while i < size
        invariant i <= size
        invariant forall j :: 0 <= j < |listeners| ==> listeners[j].delivered == old(listeners[j].delivered)
        invariant forall j :: 0 <= j < i && j < |listeners| ==>
                    && listeners[j].buffer == old(listeners[j].buffer) + [msg]
                    && listeners[j].queue == AfterPostMsg(old(listeners[j].queue))
        invariant forall j :: i <= j < |listeners| ==>
                    listeners[j].buffer == old(listeners[j].buffer) && listeners[j].queue == old(listeners[j].queue)
      {
        if i < |listeners| {
          var transport := listeners[i];
          transport.OnSerialMsgReceived(msg);
        }
        i := i + 1;
      }
    }

    /** `native_wait_for_event` with its upcalls, as the event thread runs
        it: when a callback is pending, take the mask and dispatch it. */
    method WaitAndDispatch() returns (snapshot: Option<bv32>)
      requires ListenersValid() && eventThread != null
      modifies this, native, msgBytes, set t | t in listeners
      ensures ListenersValid()
      ensures snapshot == if old(native.pending) == 0 then None else Some(old(native.pending))
      ensures native.pending == 0
      ensures native.statusCopy == if old(native.pending) & STATUS != 0 then old(native.status) else old(native.statusCopy)
      ensures native.receiveCopy == if old(native.pending) & SERIAL_RECEIVE != 0 then old(native.receive) else old(native.receiveCopy)
      ensures native.status == old(native.status) && native.receive == old(native.receive)
      ensures native.hasInterface == old(native.hasInterface) && native.driverCalls == old(native.driverCalls)
      ensures statusListeners == old(statusListeners) && msgListeners == old(msgListeners)
      ensures listeners == old(listeners) && enabled == old(enabled) && eventThread == old(eventThread)
      ensures calls == old(calls) + ReadCalls(old(native.pending), |msgListeners|)
      ensures engineOn == EngineOnAfterMask(old(engineOn), old(native.pending), native.statusCopy)
      ensures FannedOut(listeners, FanCount(old(native.pending), |msgListeners|), ReceivedMessage(native.receiveCopy))
    {
      snapshot := native.WaitForEvent();
      if snapshot.Some? {
        Dispatch(snapshot.value);
      }
    }

    /** The upcalls for a taken mask: the status before the message. */
    method Dispatch(mask: bv32)
      requires ListenersValid()
      modifies this, msgBytes, set t | t in listeners
      ensures ListenersValid()
      ensures statusListeners == old(statusListeners) && msgListeners == old(msgListeners)
      ensures listeners == old(listeners) && enabled == old(enabled) && eventThread == old(eventThread)
      ensures calls == old(calls) + ReadCalls(mask, |msgListeners|)
      ensures engineOn == EngineOnAfterMask(old(engineOn), mask, native.statusCopy)
      ensures FannedOut(listeners, FanCount(mask, |msgListeners|), ReceivedMessage(native.receiveCopy))
    {
      if mask & STATUS != 0 {
        ReportStatus(native.statusCopy);
      }
      if mask & SERIAL_RECEIVE != 0 {
        ReportSerialMsg();
      }
    }

    /** `enable`: nothing when already enabled; otherwise initialise the
        native layer and start the event thread exactly if that worked. */
    method Enable(found: bool, initCode: int)
      requires Valid()
      modifies this, native
      ensures Valid()
      ensures old(enabled) ==> unchanged(this) && unchanged(native)
      ensures !old(enabled) ==>
                && native.hasInterface == (old(native.hasInterface) || found)
                && enabled == (native.hasInterface && initCode == 0)
                && (enabled ==> fresh(eventThread))
                && calls == old(calls) + [NativeInit] + (if enabled then [ThreadStarted(eventThread)] else [])
                && native.driverCalls == old(native.driverCalls) + (if native.hasInterface then [DriverInit] else [])
      ensures native.pending == old(native.pending)
      ensures native.status == old(native.status) && native.receive == old(native.receive)
      ensures native.statusCopy == old(native.statusCopy) && native.receiveCopy == old(native.receiveCopy)
      ensures statusListeners == old(statusListeners) && msgListeners == old(msgListeners)
      ensures listeners == old(listeners) && engineOn == old(engineOn)
    {
      if enabled {
        return;
      }
      enabled := native.Init(found, initCode);
      calls := calls + [NativeInit];
      if enabled {
        var thread := new EventThread();
        eventThread := thread;
        calls := calls + [ThreadStarted(thread)];
      }
    }

    /** `disable`: nothing when already disabled; otherwise `Shutdown`. */
    method Disable()
      requires Valid()
      modifies this, native, msgBytes, set t | t in listeners
      ensures Valid() && !enabled && eventThread == null
      ensures statusListeners == old(statusListeners) && msgListeners == old(msgListeners)
      ensures listeners == old(listeners)
      ensures native.hasInterface == old(native.hasInterface)
      ensures old(!enabled) ==> unchanged(this) && unchanged(native) && FannedOut(listeners, 0, "")
      ensures old(enabled) ==>
                var mask := WithBit(old(native.pending), DISABLE_REQUEST);
                && native.pending == 0
                && native.driverCalls == old(native.driverCalls) + [DriverCleanup]
                && native.statusCopy == (if mask & STATUS != 0 then old(native.status) else old(native.statusCopy))
                && native.receiveCopy == (if mask & SERIAL_RECEIVE != 0 then old(native.receive) else old(native.receiveCopy))
                && native.status == old(native.status) && native.receive == old(native.receive)
                && calls == old(calls) + [NativeDisable] + ReadCalls(mask, |msgListeners|)
                            + [ThreadJoined(old(eventThread)), NativeCleanup]
                && engineOn == EngineOnAfterMask(old(engineOn), mask, native.statusCopy)
                && FannedOut(listeners, FanCount(mask, |msgListeners|), ReceivedMessage(native.receiveCopy))
    {
      if enabled {
        Shutdown();
      }
    }

    /** The enabled branch of `disable`: clear the flag, poke the native
        layer, and join the event thread, which wakes once more, dispatches
        what is pending and exits; clean up last.  The source's null check
        on `mEventThread` always passes here, since an enabled manager has
        an event thread. */
    method Shutdown()
      requires Valid() && enabled
      modifies this, native, msgBytes, set t | t in listeners
      ensures Valid() && !enabled && eventThread == null
      ensures statusListeners == old(statusListeners) && msgListeners == old(msgListeners)
      ensures listeners == old(listeners)
      ensures native.hasInterface
      ensures native.pending == 0
      ensures native.driverCalls == old(native.driverCalls) + [DriverCleanup]
      ensures native.statusCopy == if WithBit(old(native.pending), DISABLE_REQUEST) & STATUS != 0 then old(native.status) else old(native.statusCopy)
      ensures native.receiveCopy == if WithBit(old(native.pending), DISABLE_REQUEST) & SERIAL_RECEIVE != 0 then old(native.receive) else old(native.receiveCopy)
      ensures native.status == old(native.status) && native.receive == old(native.receive)
      ensures calls == old(calls) + [NativeDisable] + ReadCalls(WithBit(old(native.pending), DISABLE_REQUEST), |msgListeners|)
                       + [ThreadJoined(old(eventThread)), NativeCleanup]
      ensures engineOn == EngineOnAfterMask(old(engineOn), WithBit(old(native.pending), DISABLE_REQUEST), native.statusCopy)
      ensures FannedOut(listeners, FanCount(WithBit(old(native.pending), DISABLE_REQUEST), |msgListeners|), ReceivedMessage(native.receiveCopy))
    {
      RequestDisable();
      JoinAndCleanup();
    }

    /** The start of the enabled branch of `disable`: clear the flag and
        poke the native layer. */
    method RequestDisable()
      requires Valid() && enabled
      modifies this, native
      ensures ListenersValid() && !enabled && eventThread == old(eventThread) && native.hasInterface
      ensures statusListeners == old(statusListeners) && msgListeners == old(msgListeners)
      ensures listeners == old(listeners) && engineOn == old(engineOn)
      ensures native.pending == WithBit(old(native.pending), DISABLE_REQUEST)
      ensures native.status == old(native.status) && native.receive == old(native.receive)
      ensures native.statusCopy == old(native.statusCopy) && native.receiveCopy == old(native.receiveCopy)
      ensures native.driverCalls == old(native.driverCalls)
      ensures calls == old(calls) + [NativeDisable]
    {
      enabled := false;
      native.Disable();
      calls := calls + [NativeDisable];
    }

    /** The rest of the enabled branch of `disable`, once the native layer
        has been poked: join the event thread, then clean up. */
    method JoinAndCleanup()
      requires ListenersValid() && eventThread != null && native.hasInterface
      requires native.pending & DISABLE_REQUEST != 0
      modifies this, native, msgBytes, set t | t in listeners
      ensures ListenersValid() && eventThread == null && native.hasInterface
      ensures native.pending == 0
      ensures native.driverCalls == old(native.driverCalls) + [DriverCleanup]
      ensures native.statusCopy == if old(native.pending) & STATUS != 0 then old(native.status) else old(native.statusCopy)
      ensures native.receiveCopy == if old(native.pending) & SERIAL_RECEIVE != 0 then old(native.receive) else old(native.receiveCopy)
      ensures native.status == old(native.status) && native.receive == old(native.receive)
      ensures statusListeners == old(statusListeners) && msgListeners == old(msgListeners)
      ensures listeners == old(listeners) && enabled == old(enabled)
      ensures calls == old(calls) + ReadCalls(old(native.pending), |msgListeners|)
                       + [ThreadJoined(old(eventThread)), NativeCleanup]
      ensures engineOn == EngineOnAfterMask(old(engineOn), old(native.pending), native.statusCopy)
      ensures FannedOut(listeners, FanCount(old(native.pending), |msgListeners|), ReceivedMessage(native.receiveCopy))
    {
      JoinEventThread();
      native.Cleanup();
      calls := calls + [NativeCleanup];
    }

    /** `mEventThread.join()` and the reset of `mEventThread`: the thread
        wakes once more, dispatches what is pending and exits. */
    method JoinEventThread()
      requires ListenersValid() && eventThread != null
      requires native.pending & DISABLE_REQUEST != 0
      modifies this, native, msgBytes, set t | t in listeners
      ensures ListenersValid() && eventThread == null
      ensures native.pending == 0
      ensures native.hasInterface == old(native.hasInterface) && native.driverCalls == old(native.driverCalls)
      ensures statusListeners == old(statusListeners) && msgListeners == old(msgListeners)
      ensures listeners == old(listeners) && enabled == old(enabled)
      ensures calls == old(calls) + ReadCalls(old(native.pending), |msgListeners|) + [ThreadJoined(old(eventThread))]
      ensures native.statusCopy == if old(native.pending) & STATUS != 0 then old(native.status) else old(native.statusCopy)
      ensures native.receiveCopy == if old(native.pending) & SERIAL_RECEIVE != 0 then old(native.receive) else old(native.receiveCopy)
      ensures native.status == old(native.status) && native.receive == old(native.receive)
      ensures engineOn == EngineOnAfterMask(old(engineOn), old(native.pending), native.statusCopy)
      ensures FannedOut(listeners, FanCount(old(native.pending), |msgListeners|), ReceivedMessage(native.receiveCopy))
    {
      var thread := eventThread;
      var _ := WaitAndDispatch();
      calls, eventThread := calls + [ThreadJoined(thread)], null;
    }
  }

  /** `begin` on a fresh manager whose driver is found and whose init and
      start succeed reports success and enables the manager; a later `end`
      whose stop succeeds reports success and disables it again. */
  method BeginEndScenario() returns (started: NativeResult, stopped: NativeResult, enabledBetween: bool)
    ensures started == Returned(true) && enabledBetween && stopped == Returned(true)
  {
    var native := new NativeSerial();
    var m := new Manager(native);
    started := m.Begin("tty", 9600, true, 0, 0);
    enabledBetween := m.enabled;
    stopped := m.End("tty", 0);
  }

  /** Once `enable` has registered the callbacks and started the event
      thread, a wake-up after a status callback reports that status: an
      engine-on status turns the engine flag on. */
  method EngineOnScenario() returns (engineOn: bool, snapshot: Option<bv32>)
    ensures engineOn && snapshot == Some(STATUS)
  {
    var native := new NativeSerial();
    var m := new Manager(native);
    m.Enable(true, 0);
    assert m.enabled && m.eventThread != null;
    native.StatusCallback(SERIAL_STATUS_ENGINE_ON);
    assert native.pending == STATUS;
    snapshot := m.WaitAndDispatch();
    engineOn := m.engineOn;
  }

  /** Once the manager is enabled, a wake-up after a receive callback hands
      the received bytes to the registered message listener's transport as one buffered message,
      with one drain request queued. */
  method ReceivedScenario(listener: MsgListener, data: seq<byte>) returns (buffered: seq<string>, queued: seq<int>)
    ensures buffered == [ReceivedMessage(data)] && queued == [SERIAL_MSG_RECEIVED]
  {
    var native := new NativeSerial();
    var m := new Manager(native);
    var added := m.AddSerialMsgListener(listener, Answered(true));
    var t := m.msgListeners[listener];
    assert m.listeners == [t] && |m.msgListeners| == 1;
    m.Enable(true, 0);
    assert m.enabled && m.eventThread != null;
    native.ReceiveCallback(data);
    assert native.pending == SERIAL_RECEIVE;
    label Woken:
    var _ := m.WaitAndDispatch();
    assert native.receiveCopy == data;
    assert m.listeners[0] == t && 0 < FanCount(SERIAL_RECEIVE, 1);
    assert t.buffer == old@Woken(t.buffer) + [ReceivedMessage(data)] && t.queue == AfterPostMsg(old@Woken(t.queue));
    buffered, queued := t.buffer, t.queue;
  }

  /** Two messages that reach a transport before its Handler runs are
      drained together, in arrival order, by the single queued request. */
  method CoalescedDrainScenario(first: string, second: string) returns (queued: seq<int>, delivered: seq<Delivery>)
    ensures queued == [SERIAL_MSG_RECEIVED]
    ensures delivered == [MsgReceived(first), MsgReceived(second)]
  {
    var transport := new Transport.ForMsg(0);
    transport.OnSerialMsgReceived(first);
    transport.OnSerialMsgReceived(second);
    queued := transport.queue;
    transport.HandleMessage();
    delivered := transport.delivered;
  }
}
