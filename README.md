# Display runtime and connection resilience, modelled in Dafny

This project models two lifecycle state machines of KWayland, both built on
libwayland and Qt.

- **Server `Display`** (src/server/display.cpp) owns the `wl_display` and
  `wl_event_loop` handles, the socket name, the `running` flag and the
  registry of outputs. It starts and terminates the server. It runs a
  dispatch-and-flush pass from the host loop's about-to-block hook and from a
  socket notifier. It creates outputs, compositors, shells and seats, and on
  terminate it tears them all down through the `aboutToTerminate` signal.
- **Client `ConnectionThread`** (src/client/connection_thread.cpp) connects
  through a queued `doInitConnection`. It arms a socket notifier and a watcher
  on the socket file. When that file disappears, it presumes the server dead
  and watches the runtime directory instead. When the socket reappears, it
  queues a new connect.

Each side has two layers:

- A value-level state machine: `DisplayModel`, `ConnectionModel`. It holds a
  record of the fields, one function per operation returning the new state and
  the events emitted, an `Op` type, and `Next`/`Run` over sequences of
  operations. The invariants and the properties of whole runs are proved at
  this level.
- A class with the source's fields: `ServerDisplay.Display`,
  `ClientConnection.ConnectionThread`. Its methods update the fields in place
  and append to a ghost event log. Each method is proved to produce exactly
  the state and the events of the matching model function. Every public
  method, and every step of `terminate()`'s slot loop, also keeps the class
  invariant. The private helpers `Display.SetRunning`,
  `ConnectionThread.SetupSocketNotifier` and
  `ConnectionThread.SetupSocketFileWatcher` run in the middle of an
  operation, where the invariant may not hold yet. They state only their
  effect.

These foreign results become inputs:
- whether `wl_display_add_socket` succeeded;
- the descriptor returned by `wl_event_loop_get_fd`;
- whether `wl_display_connect` returned a handle;
- whether the runtime directory exists;
- whether the socket file exists.

These observable effects go into the event log:
- the signals;
- deletions of protocol objects;
- the server's event-loop dispatch, client flush and shm set-up;
- the client's dispatch, flush, `free` and disconnect.

Other libwayland calls are neither inputs nor events; "## Left out" lists them.

`Q_ASSERT`s are preconditions.

The model keeps these behaviours of the code, some of them easy to miss:

- The client's default socket name is `"wayland-0"`
  (src/client/connection_thread.cpp:59-61).
- A failed bind is not recoverable. `start()` keeps the new display handle when
  `wl_display_add_socket` fails (src/server/display.cpp:101-104). A failed
  `wl_event_loop_get_fd` also keeps the handle, together with the loop handle.
  A later `start()` then violates the assertion at src/server/display.cpp:100,
  and `terminate()` is a no-op because the display is not running.
  `DisplayModel.FailedStartBlocksRestart` proves that no later sequence of
  operations makes `start()` callable again.
- `terminate()` on a display that is not running is a silent no-op.
- After a descriptor failure both handles are non-null, so `flush()`
  dispatches even though the display is not running.
- `initConnection` is not idempotent. Every call queues one more
  `doInitConnection` (src/client/connection_thread.cpp:154), and each
  delivery connects again. The model counts queued calls instead of keeping a
  flag.
- Calling `initConnection` only while the connection is idle (no handle, no
  presumed death, nothing queued) is enough for "handle ⇒ not serverDied"
  and "notifier exists iff handle". `ConnectionModel.DisciplinedRunKeepsCoherent`
  proves both under that condition. The condition is sufficient, not
  necessary: a second queued connect with no death in between keeps
  "handle ⇒ not serverDied", and it also keeps "notifier exists iff handle"
  when it succeeds. Other uses can break each of them:
  - `ConnectionModel.StaleConnectMasksDeath` breaks "handle ⇒ not serverDied".
    A connect queued while connected is delivered after the server went away.
    The result is a live handle with `serverDied` set, and after that a
    disappearing socket is ignored (src/client/connection_thread.cpp:112).
    The notifier still matches the handle in that run.
  - `ConnectionModel.DoubleConnectLeavesNotifier` breaks "notifier exists iff
    handle". Two connects are queued; the first succeeds and the second
    fails. The failed `wl_display_connect` overwrites the handle with null,
    but the notifier armed by the first stays (src/client/connection_thread.cpp:74-78).
- On the death path the handle is released with `free`, without
  `wl_display_disconnect` (src/client/connection_thread.cpp:117-120). The
  model records this as the `Freed` event. Only the destructor flushes and
  disconnects.

## Model

| member | source | states |
|---|---|---|
| DisplayModel.DisplayState.Flush | src/server/display.cpp:72-81 | changes no state; emits dispatch then flush-clients exactly when both handles are non-null, nothing otherwise |
| DisplayModel.DisplayState.SetRunning | src/server/display.cpp:130-135 | requires a real change of the flag; sets it and emits one runningChanged carrying the new value |
| DisplayModel.DisplayState.SetSocketName | src/server/display.cpp:83-90 | the name is stored afterwards; emits nothing for the current name and exactly one socketNameChanged(name) for a different one; nothing else changes |
| DisplayModel.DisplayState.Start | src/server/display.cpp:97-115 | requires not running and no display handle; the handle exists afterwards in every case; the loop handle exists iff the bind succeeded; running and a single runningChanged(true) iff the bind succeeded and the descriptor is not -1; no event otherwise |
| DisplayModel.DisplayState.Create | src/server/display.cpp:137-165 | a factory gives the object the fresh identity nextId and connects its aboutToTerminate slot; an output is appended to the registry exactly once and nothing else is; no event |
| DisplayModel.DisplayState.Delete | src/server/display.cpp:140 | deleting an object removes its connection (the connections become their removeAll of x); for an output the registry becomes its removeAll of x, so the other outputs keep their order and counts, and otherwise it is unchanged; no other field changes; one Deleted event |
| DisplayModel.DisplayState.RemoveOutput | src/server/display.cpp:173-177 | the output is in neither the registry nor the connections afterwards; the registry and the connections both become their removeAll of x, so every other entry stays in order and with its count; no other field changes; exactly one Deleted event |
| DisplayModel.DisplayState.Slot | src/server/display.cpp:141-163 | the slot a factory connected for x: x leaves the connections, and the registry too when it is an output; all other entries and fields stay; exactly one Deleted(x) event |
| DisplayModel.DisplayState.Terminate | src/server/display.cpp:117-128 | no change and no event when not running; otherwise emits aboutToTerminate, then one deletion per connected object in connection order, then runningChanged(false); ends with both handles null and nothing connected |
| DisplayModel.DisplayState.CreateShm | src/server/display.cpp:167-171 | requires running; changes no state and emits the shm initialisation |
| DisplayModel.RemoveAll | src/server/display.cpp:175 | QList::removeAll: the result holds exactly the elements of the input other than x, and is no longer than the input |
| DisplayModel.RemoveAllCounts | src/server/display.cpp:175 | removeAll drops every occurrence of x and keeps every other element with its count; without x it returns the list unchanged |
| DisplayModel.RemoveAllAppend | src/server/display.cpp:175 | removeAll of a concatenation is the concatenation of the results, so the survivors keep their order |
| DisplayModel.RemoveAllKeepsIncreasing | src/server/display.cpp:140-176 | removing from a strictly increasing list keeps it strictly increasing, so deletions keep the connections in creation order |
| DisplayModel.TearDown | src/server/display.cpp:141-163 | running the aboutToTerminate slots emits exactly one deletion per slot in order; it leaves precisely the connections not in the slots and the registry entries not deleted as outputs; every other field stays |
| DisplayModel.TerminateTearsDownAll | src/server/display.cpp:117-128 | under the invariant, terminating a running display deletes exactly the connected objects, in connection order, which is increasing creation order; it empties both the registry and the connections; the only runningChanged it emits is false |
| DisplayModel.NextKeepsInv | src/server/display.cpp:83-177 | every operation allowed by the assertions keeps the invariant. The invariant covers: handle ordering; the connections are in strictly increasing creation order; the registry holds only live outputs; runningChanged alternates and its last value is the running flag; no object is deleted twice; every created object is either still connected or deleted |
| DisplayModel.RunKeepsInv | src/server/display.cpp:83-177 | the invariant holds after every sequence of allowed operations |
| DisplayModel.RunningChangedAlternates | src/server/display.cpp:130-135 | from construction, over any allowed run, runningChanged goes true, false, true, ... and the running flag equals its last value |
| DisplayModel.EachObjectDeletedOnce | src/server/display.cpp:137-177 | from construction, over any allowed run, no object is deleted twice, and the deleted objects are exactly those created and no longer connected |
| DisplayModel.HandleWithoutRunningPersists | src/server/display.cpp:97-128 | a display handle without the running flag survives every allowed run |
| DisplayModel.FailedStartBlocksRestart | src/server/display.cpp:99-104 | after a start whose bind fails or whose descriptor is -1, no later allowed run reaches a state where start's assertions hold |
| ServerDisplay.Display.constructor | src/server/display.cpp:60-65 | a new display is the initial state: no handles, not running, named "wayland-0", nothing registered, empty log |
| ServerDisplay.Display.Flush | src/server/display.cpp:72-81 | the new fields and log are those of DisplayState.Flush; keeps the invariant |
| ServerDisplay.Display.SetSocketName | src/server/display.cpp:83-90 | the new fields and log are those of DisplayState.SetSocketName; keeps the invariant |
| ServerDisplay.Display.SocketName | src/server/display.cpp:92-95 | returns the stored socket name |
| ServerDisplay.Display.Start | src/server/display.cpp:97-115 | requires the two assertions; the new fields and log are those of DisplayState.Start; keeps the invariant |
| ServerDisplay.Display.SetRunning | src/server/display.cpp:130-135 | requires a real change; the new fields and log are those of DisplayState.SetRunning |
| ServerDisplay.Display.Terminate | src/server/display.cpp:117-128 | the new fields and log are those of DisplayState.Terminate; keeps the invariant |
| ServerDisplay.Display.RunTerminateSlots | src/server/display.cpp:141-163 | runs each connected slot in order by calling removeOutput or deleting the object; ends in the state of TearDown and logs the deletions in order; keeps the invariant |
| ServerDisplay.Display.RunSlot | src/server/display.cpp:141-163 | requires a live object; runs its slot, removeOutput for an output and delete otherwise; the new fields are those of DisplayState.Slot; logs one deletion; keeps the invariant |
| ServerDisplay.Display.Dispose | src/server/display.cpp:67-70 | the destructor has the effect of Terminate |
| ServerDisplay.Display.Register | src/server/display.cpp:137-165 | returns the next identity; the new fields are those of DisplayState.Create; no event |
| ServerDisplay.Display.CreateOutput | src/server/display.cpp:137-144 | returns a fresh output, not previously connected, appended once to the registry; the state is that of DisplayState.Create(Output) |
| ServerDisplay.Display.CreateCompositor | src/server/display.cpp:146-151 | returns a fresh object with its slot connected; the registry is unchanged |
| ServerDisplay.Display.CreateShell | src/server/display.cpp:153-158 | returns a fresh object with its slot connected; the registry is unchanged |
| ServerDisplay.Display.CreateSeat | src/server/display.cpp:160-165 | returns a fresh object with its slot connected; the registry is unchanged |
| ServerDisplay.Display.CreateShm | src/server/display.cpp:167-171 | requires running; changes only the log, by the shm initialisation |
| ServerDisplay.Display.Delete | src/server/display.cpp:140 | requires a live object; the new fields are those of DisplayState.Delete; logs its deletion; keeps the invariant |
| ServerDisplay.Display.RemoveOutput | src/server/display.cpp:173-177 | requires a live output; the new fields are those of DisplayState.RemoveOutput; logs one deletion; keeps the invariant |
| ServerDisplay.Display.IsRunning | src/server/display.cpp:189-192 | returns the running flag |
| ServerDisplay.Display.Outputs | src/server/display.cpp:204-207 | returns the registry |
| ConnectionModel.SocketNameFromEnv | src/client/connection_thread.cpp:55-62 | the name is never empty: WAYLAND_DISPLAY when set, "wayland-0" when empty |
| ConnectionModel.Initial | src/client/connection_thread.cpp:54-62 | a new connection has no handle, notifier or watcher, is not dead, has nothing queued, and takes its name from the environment |
| ConnectionModel.ConnState.InitConnection | src/client/connection_thread.cpp:152-155 | queues exactly one more connect attempt and changes nothing else |
| ConnectionModel.ConnState.DoInitConnection | src/client/connection_thread.cpp:72-86 | consumes one queued attempt; on failure emits only failed, leaves no handle and creates no notifier or watcher; on success emits only connected, holds a handle and a notifier, and watches the socket file iff the runtime directory exists |
| ConnectionModel.ConnState.SetupSocketNotifier | src/client/connection_thread.cpp:88-101 | the notifier slot is filled and nothing else changes |
| ConnectionModel.ConnState.SetupSocketFileWatcher | src/client/connection_thread.cpp:103-109 | the watcher is replaced by a watch on the current socket file when the runtime directory exists, otherwise kept; nothing else changes |
| ConnectionModel.ConnState.SocketActivated | src/client/connection_thread.cpp:93-99 | never changes state; does nothing without a handle, otherwise dispatches and emits exactly one eventsRead |
| ConnectionModel.ConnState.FileChanged | src/client/connection_thread.cpp:111-140 | ignored when the file exists or death is recorded; otherwise records death, drops the handle (by free) and the notifier, and puts a directory watch in the watcher slot; emits exactly one connectionDied |
| ConnectionModel.ConnState.DirectoryChanged | src/client/connection_thread.cpp:127-137 | emits nothing; no change unless death is recorded and the socket exists; then clears the watcher and serverDied and queues one connect attempt |
| ConnectionModel.ConnState.SetSocketName | src/client/connection_thread.cpp:162-169 | ignored while a handle exists, otherwise stores the name; emits nothing |
| ConnectionModel.ConnState.Close | src/client/connection_thread.cpp:64-70 | flushes and disconnects exactly when a handle exists; nothing remains afterwards |
| ConnectionModel.NextKeepsConsistent | src/client/connection_thread.cpp:72-169 | every possible callback keeps "handle ⇒ notifier" and "directory watch ⇒ serverDied" |
| ConnectionModel.RunKeepsConsistent | src/client/connection_thread.cpp:72-169 | both facts hold after every possible sequence of callbacks |
| ConnectionModel.NextKeepsCoherent | src/client/connection_thread.cpp:72-169 | when initConnection is called only while idle, every callback keeps the connection invariant: at most one queued connect; handle ⇒ alive; notifier iff handle; file watch only while connected and on the current socket; directory watch iff serverDied |
| ConnectionModel.DisciplinedImpliesAllowed | src/client/connection_thread.cpp:72-169 | a disciplined sequence of callbacks is a possible one |
| ConnectionModel.DisciplinedRunKeepsCoherent | src/client/connection_thread.cpp:72-169 | the connection invariant holds after every disciplined run |
| ConnectionModel.HandleImpliesAlive | src/client/connection_thread.cpp:48-49 | from construction, under disciplined use: a handle implies not serverDied; the notifier exists iff the handle does; the directory is watched iff serverDied |
| ConnectionModel.RecoveryCycle | src/client/connection_thread.cpp:72-139 | connect, socket deleted, socket recreated, queued connect: emits connected, free, connectionDied, connected and ends connected and watching the socket file |
| ConnectionModel.DoubleConnectLeavesNotifier | src/client/connection_thread.cpp:74-91 | two queued connects, the first succeeding and the second failing, end with no handle but the first connect's notifier still set |
| ConnectionModel.StaleConnectMasksDeath | src/client/connection_thread.cpp:112-120 | a connect queued while connected and delivered after a death leaves a handle with serverDied set, after which the socket's disappearance is ignored |
| ClientConnection.ConnectionThread.constructor | src/client/connection_thread.cpp:54-62 | the new object is ConnectionModel.Initial of the environment value, with an empty log |
| ClientConnection.ConnectionThread.InitConnection | src/client/connection_thread.cpp:152-155 | the new fields are those of ConnState.InitConnection; no event |
| ClientConnection.ConnectionThread.DoInitConnection | src/client/connection_thread.cpp:72-86 | the new fields and log are those of ConnState.DoInitConnection; keeps Consistent |
| ClientConnection.ConnectionThread.SetupSocketNotifier | src/client/connection_thread.cpp:88-101 | the new fields are those of ConnState.SetupSocketNotifier |
| ClientConnection.ConnectionThread.SetupSocketFileWatcher | src/client/connection_thread.cpp:103-109 | the new fields are those of ConnState.SetupSocketFileWatcher |
| ClientConnection.ConnectionThread.SocketActivated | src/client/connection_thread.cpp:93-99 | no field changes; the log grows as in ConnState.SocketActivated |
| ClientConnection.ConnectionThread.FileChanged | src/client/connection_thread.cpp:111-140 | the new fields and log are those of ConnState.FileChanged; keeps Consistent |
| ClientConnection.ConnectionThread.DirectoryChanged | src/client/connection_thread.cpp:127-137 | the new fields are those of ConnState.DirectoryChanged; no event; keeps Consistent |
| ClientConnection.ConnectionThread.SetSocketName | src/client/connection_thread.cpp:162-169 | the new fields are those of ConnState.SetSocketName; no event |
| ClientConnection.ConnectionThread.Dispose | src/client/connection_thread.cpp:64-70 | the new fields and log are those of ConnState.Close |

## Left out

- `Display::nextSerial` and `Display::serial` (src/server/display.cpp:179-187) only forward to `wl_display_next_serial` and `wl_display_get_serial`, so their monotonicity belongs to libwayland.
- The `wl_display*` conversion operators and `ConnectionThread::display`, `ConnectionThread::socketName`: plain accessors of fields the model exposes directly.
- libwayland itself. Message contents are not modelled. Only the calls listed above are inputs or logged events.
- DisplayModel.DisplayState.Start: assumes `wl_display_create` returns a handle and `wl_display_get_event_loop` returns a loop. The source does not check either result (src/server/display.cpp:101, :106). With a null display it goes on to call `wl_display_add_socket`, and what happens then belongs to libwayland.
- `wl_display_terminate` and `wl_display_destroy` in `terminate()` (src/server/display.cpp:123-124) are not logged. The model records their effect as both handles becoming null.
- `wl_display_get_fd` in the client's `setupSocketNotifier` (src/client/connection_thread.cpp:90). The model records only that a notifier exists, not which descriptor it watches.
- Qt mechanisms. `QSocketNotifier`, `QFileSystemWatcher`, signal/slot connection lifetimes, the `aboutToBlock` hook and `QMetaObject::invokeMethod` queuing appear only as operations that may happen (Flush, SocketActivated, FileChanged, DirectoryChanged, the pending count).
- The socket notifier created in `start()` is never stored. The model has no field for it: its activation is the Flush operation, which may happen at any time.
- Destruction of protocol objects through their Qt parent. It is the owner's deletion (`Op.Destroy`, `Display.Delete`).
- An output passed to `removeOutput` that this display did not create. The precondition asks for a live output of this display.
- Re-entrancy while the file- or directory-watcher callback resets the watcher that is calling it. The model treats each callback as one atomic step.
- Leaking an overwritten handle when `doInitConnection` runs while connected. The model records no event for the lost handle.
- Threading, `moveToThread`, logging, and path construction. "The socket file exists" and "the runtime directory exists" are inputs.
- The end-to-end test autotests/client/test_xdg_shell.cpp, which exercises the whole protocol stack.
- Release builds, where `Q_ASSERT` is compiled out. The model treats every assertion as a precondition.
