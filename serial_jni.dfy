/**
 * The native half of the serial manager: the JNI glue between the serial
 * driver and the Java `SerialManager`.  Its static variables become the
 * fields of one `NativeSerial` object; every block the source runs under
 * `sEventMutex` is one atomic method.  The driver (`SerialInterface`) is
 * outside the model: what its entry points return is passed in, and the
 * calls made to it are recorded in `driverCalls`.
 */
module SerialJni {
  import opened Common

  /** The `CallbackType` bits of the pending-callback mask. */
  const STATUS: bv32 := 1
  const DISABLE_REQUEST: bv32 := 16
  const SERIAL_RECEIVE: bv32 := 32

  /** A call made through `sSerialInterface`. */
  datatype DriverCall =
    | DriverInit
    | DriverCleanup
    | DriverStart(device: string, baud: int)
    | DriverStop

  /** What a JNI entry point that dereferences `sSerialInterface` yields:
      the boolean it returns, or `NullInterface` when the interface pointer
      is NULL (the source dereferences it regardless). */
  datatype NativeResult = Returned(ok: bool) | NullInterface

  /** A call from `wait_for_event` back into the Java object. */
  datatype Upcall = ReportStatus(status: int) | ReportSerialMsg

  /** `mask` with `bit` set and every other bit as it was. */
  function WithBit(mask: bv32, bit: bv32): (r: bv32)
    ensures r & bit == bit
    ensures r & !bit == mask & !bit
  {
    mask | bit
  }

  /** The upcalls `wait_for_event` makes for a snapshot of the mask whose
      status copy holds `status`, in the order it makes them. */
  function Upcalls(mask: bv32, status: int): (r: seq<Upcall>)
    ensures ReportStatus(status) in r <==> mask & STATUS != 0
    ensures ReportSerialMsg in r <==> mask & SERIAL_RECEIVE != 0
    ensures forall u :: u in r ==> u == ReportStatus(status) || u == ReportSerialMsg
    ensures forall i, j :: 0 <= i < j < |r| ==> r[i].ReportStatus? && r[j].ReportSerialMsg?
  {
    (if mask & STATUS != 0 then [ReportStatus(status)] else [])
    + (if mask & SERIAL_RECEIVE != 0 then [ReportSerialMsg] else [])
  }

  /** A snapshot that only carries a disable request makes no upcall. */
  lemma DisableOnlyMakesNoUpcall(status: int)
    ensures Upcalls(DISABLE_REQUEST, status) == []
  {
  }

  /** C `strlen` of a character buffer: the index of its first NUL, or its
      whole length when it holds none. */
  function StrLen(data: seq<byte>): (n: nat)
    ensures n <= |data|
    ensures forall i :: 0 <= i < n ==> data[i] != 0
    ensures n < |data| ==> data[n] == 0
  {
    if data == [] || data[0] == 0 then 0 else 1 + StrLen(data[1..])
  }

  class NativeSerial {
    /** `sSerialInterface != NULL` */
    var hasInterface: bool
    /** `sPendingCallbacks` */
    var pending: bv32
    /** `sSerialStatus.status`, written by the driver's status callback */
    var status: int
    /** `sSerialReceive.data`, written by the driver's receive callback */
    var receive: seq<byte>
    /** `sSerialStatusCopy.status` and `sSerialReceiveCopy.data` */
    var statusCopy: int
    var receiveCopy: seq<byte>
    /** every call made through `sSerialInterface`, oldest first */
    var driverCalls: seq<DriverCall>

    /** The zero-initialised statics of the library. */
    constructor ()
      ensures !hasInterface && pending == 0 && driverCalls == []
      ensures status == 0 && statusCopy == 0 && receive == [] && receiveCopy == []
    {
      hasInterface := false;
      pending := 0;
      status, statusCopy := 0, 0;
      receive, receiveCopy := [], [];
      driverCalls := [];
    }

    /** `status_callback`: flag a status change and keep the new status. */
    method StatusCallback(newStatus: int)
      modifies this
      ensures pending == WithBit(old(pending), STATUS)
      ensures status == newStatus
      ensures receive == old(receive) && statusCopy == old(statusCopy) && receiveCopy == old(receiveCopy)
      ensures hasInterface == old(hasInterface) && driverCalls == old(driverCalls)
    {
      pending := pending | STATUS;
      status := newStatus;
    }

    /** `receive_callback`: flag a received message and keep its bytes. */
    method ReceiveCallback(data: seq<byte>)
      modifies this
      ensures pending == WithBit(old(pending), SERIAL_RECEIVE)
      ensures receive == data
      ensures status == old(status) && statusCopy == old(statusCopy) && receiveCopy == old(receiveCopy)
      ensures hasInterface == old(hasInterface) && driverCalls == old(driverCalls)
    {
      pending := pending | SERIAL_RECEIVE;
      receive := data;
    }

    /** `_disable`: poke the event thread out of its wait. */
    method Disable()
      modifies this
      ensures pending == WithBit(old(pending), DISABLE_REQUEST)
      ensures status == old(status) && receive == old(receive)
      ensures statusCopy == old(statusCopy) && receiveCopy == old(receiveCopy)
      ensures hasInterface == old(hasInterface) && driverCalls == old(driverCalls)
    {
      pending := pending | DISABLE_REQUEST;
    }

    /** `_init`: look the driver up if it is not known yet (`found` is what
        `serial_get_interface` reports), then initialise it (`initCode` is
        what its `init` returns). */
    method Init(found: bool, initCode: int) returns (ok: bool)
      modifies this
      ensures hasInterface == (old(hasInterface) || found)
      ensures ok <==> hasInterface && initCode == 0
      ensures driverCalls == old(driverCalls) + (if hasInterface then [DriverInit] else [])
      ensures pending == old(pending) && status == old(status) && receive == old(receive)
      ensures statusCopy == old(statusCopy) && receiveCopy == old(receiveCopy)
    {
      if !hasInterface {
        hasInterface := found;
      }
      if !hasInterface {
        return false;
      }
      driverCalls := driverCalls + [DriverInit];
      ok := initCode == 0;
    }

    /** `_cleanup`; only reached once `_init` has found the driver. */
    method Cleanup()
      requires hasInterface
      modifies this
      ensures driverCalls == old(driverCalls) + [DriverCleanup]
      ensures hasInterface && pending == old(pending) && status == old(status) && receive == old(receive)
      ensures statusCopy == old(statusCopy) && receiveCopy == old(receiveCopy)
    {
      driverCalls := driverCalls + [DriverCleanup];
    }

    /** `_start`: true iff the driver's `start` returned 0. */
    method Start(device: string, baud: int, startCode: int) returns (r: NativeResult)
      modifies this
      ensures !hasInterface ==> r == NullInterface && driverCalls == old(driverCalls)
      ensures hasInterface ==>
                r == Returned(startCode == 0) && driverCalls == old(driverCalls) + [DriverStart(device, baud)]
      ensures hasInterface == old(hasInterface) && pending == old(pending) && status == old(status)
      ensures receive == old(receive) && statusCopy == old(statusCopy) && receiveCopy == old(receiveCopy)
    {
      if !hasInterface {
        return NullInterface;
      }
      driverCalls := driverCalls + [DriverStart(device, baud)];
      r := Returned(startCode == 0);
    }

    /** `_stop`: true iff the driver's `stop` returned 0. */
    method Stop(stopCode: int) returns (r: NativeResult)
      modifies this
      ensures !hasInterface ==> r == NullInterface && driverCalls == old(driverCalls)
      ensures hasInterface ==>
                r == Returned(stopCode == 0) && driverCalls == old(driverCalls) + [DriverStop]
      ensures hasInterface == old(hasInterface) && pending == old(pending) && status == old(status)
      ensures receive == old(receive) && statusCopy == old(statusCopy) && receiveCopy == old(receiveCopy)
    {
      if !hasInterface {
        return NullInterface;
      }
      driverCalls := driverCalls + [DriverStop];
      r := Returned(stopCode == 0);
    }

    /** The locked part of `_wait_for_event`.  While the mask is 0 the
        caller stays blocked (`None`, nothing changes); otherwise the mask
        is taken and cleared, and the slots it flags are copied. */
    method WaitForEvent() returns (snapshot: Option<bv32>)
      modifies this
      ensures old(pending) == 0 ==> snapshot == None
      ensures old(pending) != 0 ==> snapshot == Some(old(pending))
      ensures pending == 0
      ensures statusCopy == if old(pending) & STATUS != 0 then old(status) else old(statusCopy)
      ensures receiveCopy == if old(pending) & SERIAL_RECEIVE != 0 then old(receive) else old(receiveCopy)
      ensures hasInterface == old(hasInterface) && driverCalls == old(driverCalls)
      ensures status == old(status) && receive == old(receive)
    {
      if pending == 0 {
        return None;
      }
      var pendingCallbacks := pending;
      pending := 0;
      if pendingCallbacks & STATUS != 0 {
        statusCopy := status;
      }
      if pendingCallbacks & SERIAL_RECEIVE != 0 {
        receiveCopy := receive;
      }
      snapshot := Some(pendingCallbacks);
    }

    /** `_read_serial_msg`: copy the received string, cut to `bufferSize`
        bytes, into the Java array and return how many bytes were copied. */
    method ReadSerialMsg(buffer: array<byte>, bufferSize: int) returns (length: nat)
      requires 0 <= bufferSize <= buffer.Length
      modifies buffer
      ensures length == Min(StrLen(receiveCopy), bufferSize)
      ensures buffer[..length] == receiveCopy[..length]
      ensures buffer[length..] == old(buffer[length..])
    {
      length := StrLen(receiveCopy);
      if length > bufferSize {
        length := bufferSize;
      }
      forall i | 0 <= i < length {
        buffer[i] := receiveCopy[i];
      }
    }
  }

  /** Two status callbacks before one wait coalesce: a single status bit is
      seen and only the later status is reported. */
  method CoalescedStatusScenario(first: int, second: int) returns (snapshot: Option<bv32>, upcalls: seq<Upcall>)
    ensures snapshot == Some(STATUS)
    ensures upcalls == [ReportStatus(second)]
  {
    var native := new NativeSerial();
    native.StatusCallback(first);
    native.StatusCallback(second);
    snapshot := native.WaitForEvent();
    upcalls := Upcalls(snapshot.value, native.statusCopy);
  }

  /** A status change and a message flagged before one wait are reported
      in that order, and a disable request on its own reports nothing. */
  method StatusBeforeMessageScenario(code: int, data: seq<byte>) returns (first: seq<Upcall>, second: seq<Upcall>)
    ensures first == [ReportStatus(code), ReportSerialMsg]
    ensures second == []
  {
    var native := new NativeSerial();
    native.ReceiveCallback(data);
    native.StatusCallback(code);
    var snapshot := native.WaitForEvent();
    first := Upcalls(snapshot.value, native.statusCopy);
    native.Disable();
    snapshot := native.WaitForEvent();
    second := Upcalls(snapshot.value, native.statusCopy);
  }
}
