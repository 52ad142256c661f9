# Serial status path and small platform rules, modelled in Dafny

This project models the serial-port status and event path of an Android
platform fork, together with four small rules found elsewhere in the tree.

- **`SerialJni`** (`android_hardware_SerialManager.cpp`) is the native event latch. Driver callbacks OR bits into a pending-callback mask and overwrite the latest status or message. `wait_for_event` takes the mask, clears it, copies the flagged slots and reports the status before the message. `read_serial_msg` copies the message, cut to the Java buffer's size.
- **`SerialManager`** (`SerialManager.java`) is the client-side manager. It holds:
  - one registry for status listeners and one for message listeners;
  - the list `mListeners` of message transports;
  - one `SerialStatusListenerTransport` per registered listener, with a message buffer and its Handler's queue of message codes;
  - the engine-on flag;
  - the `enable`/`disable` lifecycle of the event thread.
- **`StatusProvider`** (`SerialStatusProvider.java`) is the service-side registry. Listeners are kept once per binder and dropped when their process dies. It also keeps a table of client uids.
- **`ManagerService`** (`SerialManagerService.java`) loads the provider once and delegates registrations to it.
- **`SettingsHelper`** covers the restore dispatch of settings backup: brightness, sound effects, the GPS provider list and the ringer mode.
- **`BaseObject`** is RenderScript's `BaseObj`, whose name can be set only once.
- **`SimpleMesh`** is RenderScript's `rsSimpleMesh`: creation, slot binding, upload, and the GL calls that `render`/`renderRange` make.
- **`AndroidNatives`** is the `android_natives.h` four-character magic packing and the defaults of a new native window.

How the model is built:

- A mutex-guarded block of the native code is one atomic method.
- A thread is modelled by the steps it takes.
- Calls into code outside the model are recorded as call traces. The binder service, the serial driver, GL and `nAssignName` are recorded this way. What those calls return is passed in as a parameter.
- The Handler's message queue is a sequence of `what` codes.

The code is modelled as written, including these quirks:

- `addSerialMsgListener` appends its transport to `mListeners` even when the service refuses it.
- `reportSerialMsg` walks the first `mSerialMsgListeners.size()` entries of `mListeners`, not the transports that are registered.
- The exception path of `reportSerialMsg` can never remove a listener, because the caught listener is always null.

## Model

| member | source | states |
|---|---|---|
| SerialJni.WithBit | core/jni/android_hardware_SerialManager.cpp:59-60 | setting a callback bit turns that bit on and keeps every other bit of the mask |
| SerialJni.NativeSerial.constructor | core/jni/android_hardware_SerialManager.cpp:36-44 | the statics start zeroed: no driver, no pending callback, empty slots, no driver call |
| SerialJni.NativeSerial.StatusCallback | core/jni/android_hardware_SerialManager.cpp:55-64 | the status bit is added to the pending mask and the new status replaces the old one; nothing else changes |
| SerialJni.NativeSerial.ReceiveCallback | core/jni/android_hardware_SerialManager.cpp:66-80 | the receive bit is added to the mask and the message replaces the previous one; other bits and slots are kept |
| SerialJni.NativeSerial.Disable | core/jni/android_hardware_SerialManager.cpp:120-126 | the disable-request bit is added to the mask and nothing else changes |
| SerialJni.NativeSerial.Init | core/jni/android_hardware_SerialManager.cpp:98-118 | the driver is looked up only if not yet known; the result is true iff a driver is known and its init returned 0; the driver's init is called iff a driver is known |
| SerialJni.NativeSerial.Cleanup | core/jni/android_hardware_SerialManager.cpp:128-131 | exactly one driver cleanup call is appended and no other state changes |
| SerialJni.NativeSerial.Start | core/jni/android_hardware_SerialManager.cpp:133-143 | true iff the driver's start returned 0, after recording the start with its device and baud rate; a missing driver is reported as a null-interface outcome and makes no call |
| SerialJni.NativeSerial.Stop | core/jni/android_hardware_SerialManager.cpp:145-148 | true iff the driver's stop returned 0; a missing driver makes no call |
| SerialJni.NativeSerial.WaitForEvent | core/jni/android_hardware_SerialManager.cpp:150-166 | nothing is taken while the mask is 0; otherwise the old mask is returned, the mask becomes 0, and exactly the flagged slots are copied |
| SerialJni.Upcalls | core/jni/android_hardware_SerialManager.cpp:169-179 | `reportStatus` is made iff the status bit is set and `reportSerialMsg` iff the receive bit is set, with the status first; nothing else is called |
| SerialJni.DisableOnlyMakesNoUpcall | core/jni/android_hardware_SerialManager.cpp:163-179 | a snapshot holding only the disable request makes no upcall |
| SerialJni.StrLen | core/jni/android_hardware_SerialManager.cpp:188 | the length is the index of the first NUL byte, or the whole buffer when it has none |
| SerialJni.NativeSerial.ReadSerialMsg | core/jni/android_hardware_SerialManager.cpp:182-195 | returns the minimum of the message's C length and the buffer size, copies exactly that many bytes and leaves the rest of the buffer alone |
| SerialJni.CoalescedStatusScenario | core/jni/android_hardware_SerialManager.cpp:55-64 | two status callbacks before one wait give a single status bit and report only the later status |
| SerialJni.StatusBeforeMessageScenario | core/jni/android_hardware_SerialManager.cpp:150-180 | a message and a status pending together are reported status first; a later disable-only wake-up reports nothing |
| SerialManager.EngineOnAfter | serial/java/android/serial/SerialManager.java:94-106 | status 1 turns the engine flag on, status 2 turns it off, and any other code leaves it as it was |
| SerialManager.Manager.ReportStatus | serial/java/android/serial/SerialManager.java:94-106 | the engine flag follows the status code as above, and no other field or call changes |
| SerialManager.WithoutWhat | serial/java/android/serial/SerialManager.java:170 | `removeMessages` keeps exactly the queued codes other than the removed one, and leaves a queue without that code unchanged |
| SerialManager.WithoutWhatCounts | serial/java/android/serial/SerialManager.java:170 | every other code keeps its number of occurrences |
| SerialManager.WithoutWhatAppend | serial/java/android/serial/SerialManager.java:170 | the removal keeps the order of the other codes; it distributes over concatenation |
| SerialManager.AfterPostMsg | serial/java/android/serial/SerialManager.java:166-172 | after `removeMessages` and `sendMessage` the drain request is queued last and nowhere else, and every other code is still queued exactly if it was before |
| SerialManager.AfterPostMsgShape | serial/java/android/serial/SerialManager.java:166-172 | after a post exactly one drain request is queued, as the last entry, and every other code is queued as often as before |
| SerialManager.AfterPostMsgIdempotent | serial/java/android/serial/SerialManager.java:166-172 | posting a second drain request leaves the queue as one post did |
| SerialManager.MsgDeliveries | serial/java/android/serial/SerialManager.java:186-191 | a drain makes one callback per buffered message, in buffer order |
| SerialManager.Decode | serial/java/android/serial/SerialManager.java:337 | the string has one character per byte, each with the byte's value |
| SerialManager.ReceivedMessage | serial/java/android/serial/SerialManager.java:336-337 | the message handed to listeners is the native message up to its first NUL and at most 1024 bytes long, byte for character |
| SerialManager.Transport.ForStatus | serial/java/android/serial/SerialManager.java:126-131 | a status transport wraps only the status listener and starts with an empty buffer and queue |
| SerialManager.Transport.ForMsg | serial/java/android/serial/SerialManager.java:133-138 | a message transport wraps only the message listener and starts with an empty buffer and queue |
| SerialManager.Transport.OnSerialStarted | serial/java/android/serial/SerialManager.java:140-146 | a status transport queues one STARTED event; a message transport does nothing; the transport invariant is kept |
| SerialManager.Transport.OnSerialStopped | serial/java/android/serial/SerialManager.java:148-154 | a status transport queues one STOPPED event; a message transport does nothing |
| SerialManager.Transport.OnSerialMsgReceived | serial/java/android/serial/SerialManager.java:156-175 | a message transport appends the message to its buffer and ends with exactly one drain request queued; a status transport changes nothing; the invariant "one drain request queued exactly while the buffer is not empty" is kept |
| SerialManager.Transport.HandleMessage | serial/java/android/serial/SerialManager.java:177-202 | the oldest queued message is consumed; a drain delivers every buffered message in order and empties the buffer; any other code is delivered once as a status event |
| SerialManager.BeginEndScenario | serial/java/android/serial/SerialManager.java:67-75 | on a fresh manager whose driver is found, `begin` with successful init and start returns true and enables it, and `end` with a successful stop returns true |
| SerialManager.EngineOnScenario | core/jni/android_hardware_SerialManager.cpp:55-64 | on an enabled manager, whose event thread runs, a wake-up after an engine-on status callback takes the status bit and leaves the engine flag on |
| SerialManager.ReceivedScenario | core/jni/android_hardware_SerialManager.cpp:66-80 | on an enabled manager, whose event thread runs, a wake-up after a receive callback hands the received bytes, as one message, to the registered message listener's transport, with one drain request queued |
| SerialManager.CoalescedDrainScenario | serial/java/android/serial/SerialManager.java:156-193 | two messages that arrive before the Handler runs leave a single drain request, which delivers both in arrival order |
| SerialManager.Manager.constructor | serial/java/android/serial/SerialManager.java:62-65 | a new manager has empty registries and `mListeners`, the engine off, is disabled with no event thread, and has made no call |
| SerialManager.Manager.AddSerialStatusListener | serial/java/android/serial/SerialManager.java:213-232 | an already registered listener gives true and changes nothing; otherwise one new, empty transport is offered to the service and recorded exactly when the service answered true; a remote exception gives false and leaves the registry unchanged |
| SerialManager.Manager.RemoveSerialStatusListener | serial/java/android/serial/SerialManager.java:239-248 | the listener is no longer registered; the service is told iff it was registered, about the transport it had |
| SerialManager.Manager.AddSerialMsgListener | serial/java/android/serial/SerialManager.java:258-289 | as for status listeners, except that the new transport joins `mListeners` whenever the service answered, accepted or not |
| SerialManager.Manager.RemoveSerialMsgListener | serial/java/android/serial/SerialManager.java:296-305 | the listener is no longer registered and the service is told iff it was; `mListeners` keeps the transport |
| SerialManager.Manager.ReportSerialMsg | serial/java/android/serial/SerialManager.java:329-363 | with no message listener nothing is read; otherwise one native read is made and the first `mSerialMsgListeners.size()` entries of `mListeners` each receive the message once, while every other transport and both registries stay as they were |
| SerialManager.Manager.FanOut | serial/java/android/serial/SerialManager.java:339-360 | indices below the count that exist in `mListeners` receive the message; indices past its end are skipped, their exception caught, and nothing is removed |
| SerialManager.Manager.WaitAndDispatch | serial/java/android/serial/SerialManager.java:409-425 | one event-loop step, taken only while the event thread exists: with a callback pending, the mask is taken and cleared, and the flagged slots are copied from the latest status and message of the callbacks; the engine flag follows that status if it was flagged, and that message fans out if it was flagged; registries and lifecycle are unchanged |
| SerialManager.Manager.Dispatch | core/jni/android_hardware_SerialManager.cpp:169-179 | the status upcall is made iff the status bit is in the mask and updates only the engine flag; the message upcall is made iff the receive bit is set and reads and fans out the message. Their order is fixed by `SerialJni.Upcalls`; since the status upcall touches only the engine flag, the order does not change the resulting state |
| SerialManager.Manager.Enable | serial/java/android/serial/SerialManager.java:374-386 | a no-op when already enabled; otherwise the enabled flag is the native init result and a fresh event thread is started exactly when init succeeded |
| SerialManager.Manager.Disable | serial/java/android/serial/SerialManager.java:388-407 | a no-op when disabled; otherwise the flag is cleared, the native layer is poked, the thread's last wake-up dispatches the latest status and message flagged before it, the thread is joined and forgotten, and the native cleanup comes last |
| SerialManager.Manager.Shutdown | serial/java/android/serial/SerialManager.java:390-406 | the enabled branch of `disable`, with the call order disable request, pending read, join, cleanup; the status and message dispatched are the latest ones flagged |
| SerialManager.Manager.RequestDisable | serial/java/android/serial/SerialManager.java:390-394 | the enabled flag is cleared and only the disable-request bit is added to the native mask |
| SerialManager.Manager.JoinAndCleanup | serial/java/android/serial/SerialManager.java:396-406 | the thread is joined, its last wake-up dispatching the latest flagged status and message, before the single driver cleanup call |
| SerialManager.Manager.JoinEventThread | serial/java/android/serial/SerialManager.java:396-404 | after the join the event thread reference is null, and the thread's last wake-up has dispatched the pending mask with the latest flagged status and message |
| SerialManager.Manager.Begin | serial/java/android/serial/SerialManager.java:67-70 | `enable` followed by a native start whose result is returned; the driver sees init (only when `enable` initialised a found driver) and then start with the device and baud rate; the pending mask and the slots are unchanged |
| SerialManager.Manager.End | serial/java/android/serial/SerialManager.java:72-75 | `disable` (thread joined, driver cleaned up) followed by a native stop whose result is returned; when already disabled the engine flag, the pending mask and the slots are unchanged |
| SerialManager.ReadCalls | serial/java/android/serial/SerialManager.java:332-336 | a wake-up makes a native read iff the receive bit is set and a message listener is registered |
| SerialManager.EngineOnAfterMask | core/jni/android_hardware_SerialManager.cpp:169-172 | the engine flag changes only when the snapshot has the status bit |
| SerialManager.FanCount | core/jni/android_hardware_SerialManager.cpp:174-179 | the message fans out over the registered count only when the snapshot has the receive bit |
| StatusProvider.Binders | serial/java/com/android/internal/serial/SerialStatusProvider.java:120-124 | the binders of the list, entry by entry |
| StatusProvider.FirstWithBinder | serial/java/com/android/internal/serial/SerialStatusProvider.java:144-150 | the scan's index: the first entry with that binder, and no earlier entry has it |
| StatusProvider.RemoveFirst | serial/java/com/android/internal/serial/SerialStatusProvider.java:84 | `ArrayList.remove(Object)`: drops one occurrence when present, else leaves the list alone |
| StatusProvider.RemoveFirstAt | serial/java/com/android/internal/serial/SerialStatusProvider.java:153 | removing the first occurrence at index i leaves the entries before and after i in order |
| StatusProvider.RemoveFirstDistinct | serial/java/com/android/internal/serial/SerialStatusProvider.java:84 | in a list without repeats, exactly the removed entry disappears |
| StatusProvider.RemoveFirstUnique | serial/java/com/android/internal/serial/SerialStatusProvider.java:153 | removal keeps binders unique |
| StatusProvider.UniqueBindersDistinct | serial/java/com/android/internal/serial/SerialStatusProvider.java:120-128 | entries with different binders are different recipients |
| StatusProvider.Listener.constructor | serial/java/com/android/internal/serial/SerialStatusProvider.java:76-78 | the recipient wraps the given remote listener |
| StatusProvider.Provider.constructor | serial/java/com/android/internal/serial/SerialStatusProvider.java:60-69 | a new provider has no listeners, no death links and no client uids |
| StatusProvider.Provider.AddListener | serial/java/com/android/internal/serial/SerialStatusProvider.java:92-101 | a present uid is left alone; otherwise the uid maps to 0; the listener list is untouched |
| StatusProvider.Provider.RemoveListener | serial/java/com/android/internal/serial/SerialStatusProvider.java:103-112 | the uid is absent afterwards and an absent uid is a no-op |
| StatusProvider.Provider.AddSerialStatusListener | serial/java/com/android/internal/serial/SerialStatusProvider.java:114-134 | null throws without change; a known binder leaves the list unchanged; a new binder whose death link fails throws without change; otherwise the listener is appended, linked to death, and binders stay unique |
| StatusProvider.Provider.RemoveSerialStatusListener | serial/java/com/android/internal/serial/SerialStatusProvider.java:136-157 | null throws; otherwise the binder is no longer listed, the matching entry is removed and unlinked, and an unknown binder changes nothing |
| StatusProvider.Provider.BinderDied | serial/java/com/android/internal/serial/SerialStatusProvider.java:80-89 | exactly the dead recipient leaves the list and is unlinked; every other entry stays; a recipient already removed by `removeSerialStatusListener` changes nothing |
| ManagerService.Service.constructor | services/java/com/android/server/SerialManagerService.java:71-74 | a new service has not loaded its providers and has no provider |
| ManagerService.Service.LoadProviders | services/java/com/android/server/SerialManagerService.java:113-123 | the provider is constructed at most once; afterwards the loaded flag is set, even when construction failed |
| ManagerService.Service.LoadProvidersLocked | services/java/com/android/server/SerialManagerService.java:125-138 | a failing construction is swallowed and leaves the provider as it was; otherwise a fresh, empty provider is installed |
| ManagerService.Service.AddSerialStatusListener | services/java/com/android/server/SerialManagerService.java:154-169 | false without delegating when there is no provider; false when the provider fails remotely; true after a successful delegation; a null listener's exception escapes |
| ManagerService.Service.RemoveSerialStatusListener | services/java/com/android/server/SerialManagerService.java:171-179 | never fails, with or without a provider; with one, an unknown binder changes nothing, and otherwise exactly the first entry with that binder is removed and unlinked |
| ManagerService.LoadOnceScenario | services/java/com/android/server/SerialManagerService.java:113-123 | a second load keeps the provider of the first |
| ManagerService.FailedLoadScenario | services/java/com/android/server/SerialManagerService.java:120-131 | a failed first load still marks the providers loaded, so later loads do nothing and listeners are refused |
| SettingsHelper.RestoreValue | packages/SettingsProvider/src/com/android/providers/settings/SettingsHelper.java:58-99 | not to be written exactly for the location setting; brightness and sound effects fail iff their value does not parse; brightness sets the backlights iff the hardware service exists; sound effects load iff the value is 1, else unload; location enables GPS iff "gps" is a field of the list; other names are written with no call |
| SettingsHelper.BrightnessCalls | packages/SettingsProvider/src/com/android/providers/settings/SettingsHelper.java:89-99 | the backlights are set to the brightness, once, exactly when the hardware service is found, and nothing else is called |
| SettingsHelper.SoundEffectsCalls | packages/SettingsProvider/src/com/android/providers/settings/SettingsHelper.java:81-87 | one call: sound effects are loaded iff enabled, unloaded otherwise |
| SettingsHelper.RingerCalls | packages/SettingsProvider/src/com/android/providers/settings/SettingsHelper.java:101-111 | silent gives VIBRATE or SILENT by the vibrate flag and nothing else; otherwise NORMAL followed by the ringer vibrate setting ON or OFF |
| SettingsHelper.RingerCallsInjective | packages/SettingsProvider/src/com/android/providers/settings/SettingsHelper.java:101-111 | different flag pairs give different calls |
| SettingsHelper.GetSyncProviders | packages/SettingsProvider/src/com/android/providers/settings/SettingsHelper.java:114-130 | a fresh all-zero array of 1 + 3 = 4 bytes |
| SettingsHelper.Fields | packages/SettingsProvider/src/com/android/providers/settings/SettingsHelper.java:70-76 | the reference split of a provider list at its commas, never empty |
| SettingsHelper.GpsEnabledIsFieldAt | packages/SettingsProvider/src/com/android/providers/settings/SettingsHelper.java:72-76 | the four string tests hold exactly when "gps" occurs bounded by commas or the ends of the value |
| SettingsHelper.FieldsMembership | packages/SettingsProvider/src/com/android/providers/settings/SettingsHelper.java:72-76 | a comma-free string is a field of the split exactly when it occurs bounded by commas or the ends |
| SettingsHelper.GpsEnabledIsField | packages/SettingsProvider/src/com/android/providers/settings/SettingsHelper.java:70-76 | GPS is enabled exactly when "gps" is one of the comma-separated entries |
| BaseObject.BaseObj.constructor | graphics/java/android/renderscript/BaseObj.java:27-30 | a new object has id 0 and no name |
| BaseObject.BaseObj.GetID | graphics/java/android/renderscript/BaseObj.java:32-34 | returns the object's id |
| BaseObject.BaseObj.SetName | graphics/java/android/renderscript/BaseObj.java:40-56 | an empty name or an object that is already named is refused with nothing changed; otherwise the name is sent once to the native side, under the id, and kept; the id never changes |
| BaseObject.NameOnceScenario | graphics/java/android/renderscript/BaseObj.java:40-56 | a second name is refused, the first stays, and one name only reached the native side |
| BaseObject.EmptyThenNamedScenario | graphics/java/android/renderscript/BaseObj.java:42-52 | a refused empty name leaves the object nameable |
| SimpleMesh.GLPrimitiveOf | libs/rs/rsSimpleMesh.cpp:124-132 | a GL primitive is assigned exactly for the six `RsPrimitive` values |
| SimpleMesh.GLPrimitiveRoundTrip | libs/rs/rsSimpleMesh.cpp:124-132 | the primitive map is one-to-one, in both directions, and never yields a line loop |
| SimpleMesh.SetValues | libs/rs/rsSimpleMesh.cpp:80-93 | no more values than references |
| SimpleMesh.SetValuesMembership | libs/rs/rsSimpleMesh.cpp:80-93 | exactly the non-null references are kept |
| SimpleMesh.BindingsAt | libs/rs/rsSimpleMesh.cpp:67-70 | two calls per vertex slot, in slot order: bind its buffer, then enable its type |
| SimpleMesh.Prologue | libs/rs/rsSimpleMesh.cpp:58-65 | the vertex, normal and colour arrays are switched off, then every texture unit in turn is selected and its coordinates switched off, and texture unit 0 is selected last |
| SimpleMesh.TextureReset | libs/rs/rsSimpleMesh.cpp:61-64 | two calls per texture unit, in unit order: select the unit, then switch its coordinates off |
| SimpleMesh.PrologueDrawsNothing | libs/rs/rsSimpleMesh.cpp:58-65 | the client-state reset draws nothing |
| SimpleMesh.TextureResetDrawsNothing | libs/rs/rsSimpleMesh.cpp:61-64 | the per-texture-unit reset draws nothing |
| SimpleMesh.BindingsDrawNothing | libs/rs/rsSimpleMesh.cpp:67-70 | the vertex bindings draw nothing |
| SimpleMesh.DrawCall | libs/rs/rsSimpleMesh.cpp:72-77 | with an index type, elements are drawn at the 32-bit byte offset start*2; without one, arrays from start |
| SimpleMesh.RangeCallsDrawOnce | libs/rs/rsSimpleMesh.cpp:52-78 | an empty range draws nothing; any other range makes exactly one draw, as its last call |
| SimpleMesh.FirstSet | libs/rs/rsSimpleMesh.cpp:37-50 | the first set candidate: there is one iff some candidate is set |
| SimpleMesh.SimpleMesh.constructor | libs/rs/rsSimpleMesh.cpp:25-29 | a new mesh has no types, buffers or vertex slots |
| SimpleMesh.SimpleMesh.RenderLength | libs/rs/rsSimpleMesh.cpp:37-50 | the primitive type's X dimension if set, else the index type's, else vertex type 0's |
| SimpleMesh.SimpleMesh.RenderLengthIsFirstSet | libs/rs/rsSimpleMesh.cpp:37-50 | the length comes from the first set type in that priority order |
| SimpleMesh.SimpleMesh.Render | libs/rs/rsSimpleMesh.cpp:37-50 | draws the range from 0 over that length, and a length below 1 makes no call whatever the buffers hold; with no type to read a length from it fails |
| SimpleMesh.SimpleMesh.RenderRange | libs/rs/rsSimpleMesh.cpp:52-78 | a length below 1 returns at once with no call; otherwise it succeeds exactly when no null reference is dereferenced, and then makes the reset, the slot bindings and the one draw in that order |
| SimpleMesh.SimpleMesh.UploadAll | libs/rs/rsSimpleMesh.cpp:80-93 | exactly the non-null vertex, index and primitive buffers are uploaded, in that order |
| SimpleMesh.SimpleMesh.BindVertex | libs/rs/rsSimpleMesh.cpp:136-142 | only the given slot's buffer changes |
| SimpleMesh.SimpleMesh.BindIndex | libs/rs/rsSimpleMesh.cpp:144-148 | only the index buffer changes |
| SimpleMesh.SimpleMesh.BindPrimitive | libs/rs/rsSimpleMesh.cpp:150-154 | only the primitive buffer changes |
| SimpleMesh.SimpleMeshCreate | libs/rs/rsSimpleMesh.cpp:109-134 | the new mesh has the given types, `vtxCount` vertex slots holding `vtx[0..vtxCount)`, no buffers, and a GL primitive exactly when the primitive is one of the six |
| SimpleMesh.CopyTypes | libs/rs/rsSimpleMesh.cpp:117-122 | a fresh array holding the first `vtxCount` vertex types |
| SimpleMesh.DrawCreatedScenario | libs/rs/rsSimpleMesh.cpp:109-154 | a mesh created with one bound vertex slot draws triangles over the type's length after binding the slot's buffer |
| AndroidNatives.ShiftLeft | include/ui/egl/android_natives.h:31-32 | an unsigned 32-bit shift: the result stays below 2^32 |
| AndroidNatives.BitOrShifted | include/ui/egl/android_natives.h:31-32 | or-ing two values shifted alike is shifting their or |
| AndroidNatives.BitOrDisjoint | include/ui/egl/android_natives.h:31-32 | or-ing a shifted value with a smaller one adds them |
| AndroidNatives.MakeConstantValue | include/ui/egl/android_natives.h:31-32 | for byte arguments the packed word equals a*2^24 + b*2^16 + c*2^8 + d |
| AndroidNatives.MakeConstantInjective | include/ui/egl/android_natives.h:31-32 | different four-byte codes pack to different words |
| AndroidNatives.MagicValues | include/ui/egl/android_natives.h:34-38 | the window magic packs "_wnd" to 0x5F776E64, the buffer magic packs "_bfr" to 0x5F626672, and they differ |
| AndroidNatives.NewWindow | include/ui/egl/android_natives.h:66-72 | no flags, both swap intervals 0, and four cleared reserved pointers |
| AndroidNatives.NewWindowIsWindow | include/ui/egl/android_natives.h:66-72 | a new window carries the window magic and is never mistaken for a buffer |

## Left out

- Threads and blocking are not modelled as such. `SerialEventThread.run` is one `WaitAndDispatch` step per wake-up, and `Thread.join` is the thread's last wake-up followed by forgetting the reference. The JNI mutex and condition variable make each locked block one atomic method, so interleavings are not modelled. The service's constructor and `run`, which start its own Looper thread, are not modelled either.
- `SerialManager.Manager.Disable`: in the source the event thread may be between a dispatch and its `while (mEnabled)` test when `disable` clears the flag. It then exits without waiting again, leaving `kDisableRequest` (and any later callback) pending. The model always gives the thread one last wake-up, so the mask is 0 after `disable` only in the model. That interleaving is not modelled.
- `SerialJni.StrLen`: a received message with no NUL byte makes C `strlen` read past the fixed `SerialMsg.data` array. The model stops at the end of the data and returns its length.
- `SerialJni.NativeSerial.WaitForEvent`: the blocking `while` on the condition variable is one attempt that returns `None` and changes nothing while no callback is pending.
- `_start` and `_stop` dereference a null driver interface and would crash. The model returns `NullInterface` instead.
- `SerialJni.NativeSerial.Cleanup` requires a known driver. The source would crash without one, and `disable` only reaches it once `_init` found the driver.
- `is_supported`, `class_init_native`, `native_serial_print`/`print` and `getSerialStatus` are plain foreign calls or logging, so they are not modelled.
- The driver entry points, `serial_get_interface`, the service's binder calls and `linkToDeath`'s outcome are outside the model. Their results are parameters, and the calls made are recorded.
- `SerialManager.Manager.JoinEventThread`: the source's `mEventThread != null` check always passes on this path, so it is not a branch.
- Strings and listeners passed to the Java methods are never null in the model, except the provider's and service's listener argument, where null is part of the contract.
- `SerialManager.Decode` maps each byte to the character with that value. It does not model the platform default charset.
- `sProvidersLoaded` is a static of `SerialManagerService`, shared by every service object. The model has one service object and keeps the flag as its field, so two services sharing the flag are not modelled.
- `onSendFinished` and `SerialWorkerHandler`'s handler only log, so they are not modelled.
- `SettingsHelper.RestoreValue`: `Integer.parseInt` is a parameter (`None` for a `NumberFormatException`) and so is whether the hardware service exists. A `RemoteException` from `setBacklights` is swallowed in the source and is not modelled.
- `setSyncProviders` only reads the backup entity into a local array, its restore body being commented out, so it is not modelled.
- `SettingsHelper`'s setting names, the GPS provider name and the `AudioManager` constants come from platform classes that are not part of this model. They are stated as constants.
- `BaseObj.finalize` only logs. The UTF-8 encoding in `setName` and its `UnsupportedEncodingException` path are not modelled: the recorded native call carries the name itself.
- `SimpleMesh.SimpleMesh.RenderRange`: `RS_MAX_TEXTURE` is the parameter `maxTextures`. A null dereference is reported as `ok == false` instead of a crash, and then the calls made are not specified.
- `SimpleMesh`: the `RsPrimitive` numbering and the GL enumerant values come from headers that are not part of this model. They are stated as constants.
- `SimpleMesh`: a primitive outside the six leaves `mGLPrimitive` unassigned (`None`). In the source it is uninitialised memory.
- `SimpleMesh`: `rsAssert(slot < mVertexTypeCount)` in `rsi_SimpleMeshBindVertex` is a precondition, as are the caller-supplied array lengths of `rsi_SimpleMeshCreate`. Reference counting (`incUserRef` and `ObjectBaseRef`) is not modelled.
- `SimpleMesh.SimpleMesh.constructor`: the source's constructor leaves `mVertexTypeCount`, `mVertexTypes`, `mVertexBuffers` and the type and buffer references uninitialised until `rsi_SimpleMeshCreate` assigns them. The model starts them as empty and null, so the constructor's contract states the model's choice, not a guarantee of the source. Reading such a field before creation is not modelled.
- `BaseObject.BaseObj`: `mID` is package-visible, and subclasses overwrite it with the id the native side creates. Those subclasses are not part of this model, so the id stays 0 and `GetID` and `SetName` run only under the constructor's id.
- `AndroidNatives`: the `version` field (a `sizeof`), the reference-count hooks, the `xdpi`/`ydpi` floats, the OEM words and the function pointers of `android_native_window_t` are not modelled. Neither is `EGLNativeBase`.
- `AbstractThreadedSyncAdapter.java` (thread start and cancellation), `gl2.cpp` (GL dispatch stubs) and `SerialStatus.java` (two constants and an empty setter) are not part of this model.
