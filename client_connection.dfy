/** The client-side ConnectionThread of src/client/connection_thread.cpp as an
    object whose callbacks update its fields in place. Every method is proved
    to leave the object in the state, and to emit the events, that
    ConnectionModel gives for the same callback. Every method except the
    private helpers SetupSocketNotifier and SetupSocketFileWatcher, which run
    in the middle of DoInitConnection, also keeps Consistent. */
module ClientConnection {
  import opened ConnectionModel

  class ConnectionThread {
    var display: bool            // d->display != nullptr
    var serverDied: bool
    var socketNotifier: bool     // d->socketNotifier holds a notifier
    var socketWatcher: Watcher   // d->socketWatcher
    var socketName: string
    var pending: nat             // queued doInitConnection invocations
    ghost var log: seq<Event>    // everything emitted so far, in order

    function Model(): ConnState
      reads this
    {
      ConnState(display, serverDied, socketNotifier, socketWatcher, socketName, pending)
    }

    /** The facts every callback keeps however the application calls
        initConnection. No method needs them to run; they are carried so that
        every object reachable through these methods satisfies them. The
        stronger facts that hold under idle-only initConnection are stated
        on the model (Coherent, DisciplinedRunKeepsCoherent). */
    ghost predicate Valid()
      reads this
    {
      Consistent(Model())
    }

    /** ConnectionThread::Private::Private, given the value of WAYLAND_DISPLAY. */
    constructor (waylandDisplay: string)
      ensures Valid() && Model() == Initial(waylandDisplay) && log == []
    {
      display, serverDied, socketNotifier, socketWatcher := false, false, false, NoWatcher;
      socketName := waylandDisplay;
      pending := 0;
      log := [];
      new;
      if socketName == [] {
        socketName := DefaultSocketName;
      }
    }

    /** ConnectionThread::initConnection: queue a doInitConnection. */
    method InitConnection()
      requires Valid()
      modifies this
      ensures Valid()
      ensures Model() == old(Model()).InitConnection().state && log == old(log)
    {
      pending := pending + 1;
    }

    /** ConnectionThread::Private::doInitConnection, delivered from the queue.
        connectOk is whether wl_display_connect returned a handle. */
    method DoInitConnection(connectOk: bool, runtimeDirExists: bool)
      requires Valid() && pending > 0
      modifies this
      ensures Valid()
      ensures Model() == old(Model()).DoInitConnection(connectOk, runtimeDirExists).state
      ensures log == old(log) + old(Model()).DoInitConnection(connectOk, runtimeDirExists).events
    {
      pending := pending - 1;
      display := connectOk;
      if !display {
        log := log + [Failed];
        return;
      }
      SetupSocketNotifier();
      SetupSocketFileWatcher(runtimeDirExists);
      log := log + [Connected];
    }

    method SetupSocketNotifier()
      modifies this
      ensures Model() == old(Model()).SetupSocketNotifier() && log == old(log)
    {
      socketNotifier := true;
    }

    method SetupSocketFileWatcher(runtimeDirExists: bool)
      modifies this
      ensures Model() == old(Model()).SetupSocketFileWatcher(runtimeDirExists) && log == old(log)
    {
      if !runtimeDirExists {
        return;
      }
      socketWatcher := FileWatch(socketName);
    }

    /** The notifier's activated handler. */
    method SocketActivated()
      requires Valid() && socketNotifier
      modifies this
      ensures Valid()
      ensures Model() == old(Model()) && log == old(log) + old(Model()).SocketActivated().events
    {
      if !display {
        return;
      }
      log := log + [Dispatched, EventsRead];
    }

    /** The fileChanged handler of the socket-file watcher. */
    method FileChanged(fileExists: bool)
      requires Valid() && socketWatcher.FileWatch?
      modifies this
      ensures Valid()
      ensures Model() == old(Model()).FileChanged(fileExists).state
      ensures log == old(log) + old(Model()).FileChanged(fileExists).events
    {
      if fileExists || serverDied {
        return;
      }
      serverDied := true;
      if display {
        log := log + [Freed];
        display := false;
      }
      socketNotifier := false;
      socketWatcher := DirWatch;
      log := log + [ConnectionDied];
    }

    /** The directoryChanged handler of the runtime-directory watcher. */
    method DirectoryChanged(socketExists: bool)
      requires Valid() && socketWatcher.DirWatch?
      modifies this
      ensures Valid()
      ensures Model() == old(Model()).DirectoryChanged(socketExists).state && log == old(log)
    {
      if !serverDied {
        return;
      }
      if socketExists {
        socketWatcher := NoWatcher;
        serverDied := false;
        InitConnection();
      }
    }

    /** ConnectionThread::setSocketName. */
    method SetSocketName(name: string)
      requires Valid()
      modifies this
      ensures Valid()
      ensures Model() == old(Model()).SetSocketName(name).state && log == old(log)
    {
      if display {
        return;
      }
      socketName := name;
    }

    /** ConnectionThread::Private::~Private. */
    method Dispose()
      requires Valid()
      modifies this
      ensures Valid()
      ensures Model() == old(Model()).Close().state
      ensures log == old(log) + old(Model()).Close().events
    {
      if display {
        log := log + [Flushed, Disconnected];
      }
      display, socketNotifier, socketWatcher := false, false, NoWatcher;
    }
  }
}
