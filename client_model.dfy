/** Value-level model of the client connection's resilience state machine
    (src/client/connection_thread.cpp).

    A ConnState holds what ConnectionThread::Private holds: whether the
    wl_display handle and the socket notifier exist, what the single
    filesystem-watcher slot watches, serverDied, the socket name, and how many
    queued doInitConnection invocations are still to be delivered. libwayland's
    and the filesystem's answers are parameters; signals and the calls made on
    the handle are returned as events. */
module ConnectionModel {

  /** The socketWatcher slot: empty, watching the socket file (named by the
      socket name inside the runtime directory), or watching the runtime directory. */
  datatype Watcher = NoWatcher | FileWatch(socket: string) | DirWatch

  /** Signals of ConnectionThread, and what happens to the wl_display handle. */
  datatype Event =
    | Connected
    | Failed
    | EventsRead
    | ConnectionDied
    | Dispatched     // wl_display_dispatch
    | Freed          // free(display), without a protocol-level disconnect
    | Flushed        // wl_display_flush
    | Disconnected   // wl_display_disconnect

  const DefaultSocketName: string := "wayland-0"

  /** The socket name the constructor takes from WAYLAND_DISPLAY. */
  function SocketNameFromEnv(waylandDisplay: string): (name: string)
    ensures name != []
    ensures waylandDisplay != [] ==> name == waylandDisplay
    ensures waylandDisplay == [] ==> name == DefaultSocketName
  {
    if waylandDisplay == [] then DefaultSocketName else waylandDisplay
  }

  datatype Step = Step(state: ConnState, events: seq<Event>)

  datatype ConnState = ConnState(
    display: bool,       // display != nullptr
    serverDied: bool,
    notifier: bool,      // socketNotifier holds a QSocketNotifier
    watcher: Watcher,    // socketWatcher
    socketName: string,
    pending: nat)        // queued doInitConnection invocations
  {
    /** ConnectionThread::initConnection queues one doInitConnection. */
    function InitConnection(): (r: Step)
      ensures r.state == this.(pending := pending + 1) && r.events == []
    {
      Step(this.(pending := pending + 1), [])
    }

    /** Delivery of a queued doInitConnection. connectOk is whether
        wl_display_connect returned a handle, runtimeDirExists whether the
        runtime directory exists when the file watcher is set up. */
    function DoInitConnection(connectOk: bool, runtimeDirExists: bool): (r: Step)
      requires pending > 0
      ensures r.state.pending == pending - 1 && r.state.display == connectOk
      ensures r.state.serverDied == serverDied && r.state.socketName == socketName
      ensures !connectOk ==> r.events == [Failed]
      ensures !connectOk ==> r.state.notifier == notifier && r.state.watcher == watcher
      ensures connectOk ==> r.events == [Connected] && r.state.notifier
      ensures connectOk ==> r.state.watcher == (if runtimeDirExists then FileWatch(socketName) else watcher)
    {
      var attempted := this.(pending := pending - 1, display := connectOk);
      if !connectOk then Step(attempted, [Failed])
      else
        var armed := attempted.SetupSocketNotifier();
        Step(armed.SetupSocketFileWatcher(runtimeDirExists), [Connected])
    }

    /** setupSocketNotifier: a fresh notifier on the handle's descriptor. */
    function SetupSocketNotifier(): (c: ConnState)
      ensures c == this.(notifier := true)
    {
      this.(notifier := true)
    }

    /** setupSocketFileWatcher: nothing without a runtime directory, otherwise a
        fresh watcher on the socket file. */
    function SetupSocketFileWatcher(runtimeDirExists: bool): (c: ConnState)
      ensures c.watcher == (if runtimeDirExists then FileWatch(socketName) else watcher)
      ensures c == this.(watcher := c.watcher)
    {
      if !runtimeDirExists then this else this.(watcher := FileWatch(socketName))
    }

    /** The notifier's activated handler. */
    function SocketActivated(): (r: Step)
      ensures r.state == this
      ensures !display ==> r.events == []
      ensures display ==> r.events == [Dispatched, EventsRead]
    {
      if !display then Step(this, []) else Step(this, [Dispatched, EventsRead])
    }

    /** The file watcher's fileChanged handler; fileExists is whether the watched
        socket file still exists. */
    function FileChanged(fileExists: bool): (r: Step)
      ensures fileExists || serverDied ==> r == Step(this, [])
      ensures !fileExists && !serverDied ==>
        && r.state == this.(serverDied := true, display := false, notifier := false, watcher := DirWatch)
        && r.events == (if display then [Freed] else []) + [ConnectionDied]
    {
      if fileExists || serverDied then Step(this, [])
      else
        var released := this.(serverDied := true, display := false, notifier := false);
        Step(released.(watcher := DirWatch), (if display then [Freed] else []) + [ConnectionDied])
    }

    /** The directory watcher's directoryChanged handler; socketExists is whether
        the runtime directory holds a file named like the socket. */
    function DirectoryChanged(socketExists: bool): (r: Step)
      ensures r.events == []
      ensures !serverDied || !socketExists ==> r.state == this
      ensures serverDied && socketExists ==>
        r.state == this.(watcher := NoWatcher, serverDied := false, pending := pending + 1)
    {
      if !serverDied || !socketExists then Step(this, [])
      else this.(watcher := NoWatcher, serverDied := false).InitConnection()
    }

    /** ConnectionThread::setSocketName: ignored once a handle exists. */
    function SetSocketName(name: string): (r: Step)
      ensures r.events == []
      ensures display ==> r.state == this
      ensures !display ==> r.state == this.(socketName := name)
    {
      if display then Step(this, []) else Step(this.(socketName := name), [])
    }

    /** ConnectionThread::Private::~Private: a live handle is flushed and
        disconnected; the notifier and the watcher go with the object. */
    function Close(): (r: Step)
      ensures !r.state.display && !r.state.notifier && r.state.watcher == NoWatcher
      ensures r.events == (if display then [Flushed, Disconnected] else [])
    {
      Step(this.(display := false, notifier := false, watcher := NoWatcher),
           if display then [Flushed, Disconnected] else [])
    }
  }

  /** A newly constructed connection. */
  function Initial(waylandDisplay: string): (c: ConnState)
    ensures !c.display && !c.serverDied && !c.notifier && c.watcher == NoWatcher && c.pending == 0
    ensures c.socketName == SocketNameFromEnv(waylandDisplay)
  {
    ConnState(false, false, false, NoWatcher, SocketNameFromEnv(waylandDisplay), 0)
  }

  /** What the application, the event loop and the filesystem can make happen. */
  datatype Op =
    | InitConnection
    | DoInitConnection(connectOk: bool, runtimeDirExists: bool)
    | SocketActivated
    | FileChanged(fileExists: bool)
    | DirectoryChanged(socketExists: bool)
    | SetSocketName(name: string)

  /** A queued call is delivered only while one is queued; a notifier or a
      watcher fires only while it exists. */
  predicate Allowed(c: ConnState, op: Op) {
    match op
    case DoInitConnection(_, _) => c.pending > 0
    case SocketActivated => c.notifier
    case FileChanged(_) => c.watcher.FileWatch?
    case DirectoryChanged(_) => c.watcher.DirWatch?
    case _ => true
  }

  function Next(c: ConnState, op: Op): (r: Step)
    requires Allowed(c, op)
  {
    match op
    case InitConnection => c.InitConnection()
    case DoInitConnection(ok, dir) => c.DoInitConnection(ok, dir)
    case SocketActivated => c.SocketActivated()
    case FileChanged(present) => c.FileChanged(present)
    case DirectoryChanged(present) => c.DirectoryChanged(present)
    case SetSocketName(name) => c.SetSocketName(name)
  }

  predicate RunAllowed(c: ConnState, ops: seq<Op>)
    decreases |ops|
  {
    ops == [] || (Allowed(c, ops[0]) && RunAllowed(Next(c, ops[0]).state, ops[1..]))
  }

  function Run(c: ConnState, ops: seq<Op>): (r: Step)
    requires RunAllowed(c, ops)
    decreases |ops|
  {
    if ops == [] then Step(c, [])
    else
      var first := Next(c, ops[0]);
      var rest := Run(first.state, ops[1..]);
      Step(rest.state, first.events + rest.events)
  }

  // ------------------------------------------- what every run keeps

  /** Holds in every reachable state: a handle always has its notifier, and the
      directory is watched only while the server is presumed dead. */
  ghost predicate Consistent(c: ConnState) {
    && (c.display ==> c.notifier)
    && (c.watcher.DirWatch? ==> c.serverDied)
  }

  lemma NextKeepsConsistent(c: ConnState, op: Op)
    requires Consistent(c) && Allowed(c, op)
    ensures Consistent(Next(c, op).state)
  {
  }

  lemma {:induction false} RunKeepsConsistent(c: ConnState, ops: seq<Op>)
    requires Consistent(c) && RunAllowed(c, ops)
    ensures Consistent(Run(c, ops).state)
    decreases |ops|
  {
    if ops != [] {
      NextKeepsConsistent(c, ops[0]);
      RunKeepsConsistent(Next(c, ops[0]).state, ops[1..]);
    }
  }

  // ------------------------------------------- what disciplined runs keep

  /** No handle, no presumed death, nothing queued: the state after
      construction and after a failed connect. */
  predicate Idle(c: ConnState) {
    !c.display && !c.serverDied && c.pending == 0
  }

  /** The application calls initConnection only while the connection is idle;
      everything else may happen at any time it can. */
  predicate Disciplined(c: ConnState, ops: seq<Op>)
    decreases |ops|
  {
    ops == [] ||
    (&& Allowed(c, ops[0])
     && (ops[0].InitConnection? ==> Idle(c))
     && Disciplined(Next(c, ops[0]).state, ops[1..]))
  }

  /** The connection invariant: at most one queued connect and only while
      disconnected and alive; a handle never coexists with a presumed death;
      the notifier exists exactly while the handle does; the file watch is on
      the current socket and only while connected; the directory is watched
      exactly while the server is presumed dead. */
  ghost predicate Coherent(c: ConnState) {
    && c.pending <= 1
    && (c.pending == 1 ==> !c.display && !c.serverDied)
    && (c.display ==> !c.serverDied)
    && (c.notifier <==> c.display)
    && (c.watcher.FileWatch? ==> c.display && c.watcher.socket == c.socketName)
    && (c.watcher.DirWatch? <==> c.serverDied)
  }

  lemma NextKeepsCoherent(c: ConnState, op: Op)
    requires Coherent(c) && Allowed(c, op)
    requires op.InitConnection? ==> Idle(c)
    ensures Coherent(Next(c, op).state)
  {
  }

  lemma {:induction false} DisciplinedImpliesAllowed(c: ConnState, ops: seq<Op>)
    requires Disciplined(c, ops)
    ensures RunAllowed(c, ops)
    decreases |ops|
  {
    if ops != [] {
      DisciplinedImpliesAllowed(Next(c, ops[0]).state, ops[1..]);
    }
  }

  lemma {:induction false} DisciplinedRunKeepsCoherent(c: ConnState, ops: seq<Op>)
    requires Coherent(c) && Disciplined(c, ops)
    ensures RunAllowed(c, ops) && Coherent(Run(c, ops).state)
    decreases |ops|
  {
    DisciplinedImpliesAllowed(c, ops);
    if ops != [] {
      NextKeepsCoherent(c, ops[0]);
      DisciplinedRunKeepsCoherent(Next(c, ops[0]).state, ops[1..]);
    }
  }

  /** From construction, under disciplined use: a handle implies the server is
      not presumed dead, and the notifier lives exactly as long as the handle. */
  lemma HandleImpliesAlive(waylandDisplay: string, ops: seq<Op>)
    requires Disciplined(Initial(waylandDisplay), ops)
    ensures RunAllowed(Initial(waylandDisplay), ops)
    ensures Run(Initial(waylandDisplay), ops).state.display ==> !Run(Initial(waylandDisplay), ops).state.serverDied
    ensures Run(Initial(waylandDisplay), ops).state.notifier <==> Run(Initial(waylandDisplay), ops).state.display
    ensures Run(Initial(waylandDisplay), ops).state.watcher.DirWatch? <==> Run(Initial(waylandDisplay), ops).state.serverDied
  {
    DisciplinedRunKeepsCoherent(Initial(waylandDisplay), ops);
  }

  // ------------------------------------------- concrete runs

  /** Connect, lose the server, see the socket reappear, connect again. */
  lemma RecoveryCycle()
    ensures RunAllowed(Initial(""), [InitConnection, DoInitConnection(true, true), FileChanged(false),
                                     DirectoryChanged(true), DoInitConnection(true, true)])
    ensures Run(Initial(""), [InitConnection, DoInitConnection(true, true), FileChanged(false),
                              DirectoryChanged(true), DoInitConnection(true, true)])
         == Step(ConnState(true, false, true, FileWatch(DefaultSocketName), DefaultSocketName, 0),
                 [Connected, Freed, ConnectionDied, Connected])
  {
  }

  /** A connect queued while connected, and delivered after the server went
      away, leaves a handle with serverDied set; the next disappearance of the
      socket is then ignored. */
  lemma StaleConnectMasksDeath()
    ensures RunAllowed(Initial(""), [InitConnection, DoInitConnection(true, true), InitConnection,
                                     FileChanged(false), DoInitConnection(true, true)])
    ensures var c := Run(Initial(""), [InitConnection, DoInitConnection(true, true), InitConnection,
                                       FileChanged(false), DoInitConnection(true, true)]).state;
            && c.display && c.serverDied && c.watcher == FileWatch(DefaultSocketName)
            && c.FileChanged(false) == Step(c, [])
  {
  }

  /** Two connects queued before the first is delivered: when the second one
      fails, the handle is gone but the notifier armed by the first stays. */
  lemma DoubleConnectLeavesNotifier()
    ensures RunAllowed(Initial(""), [InitConnection, InitConnection, DoInitConnection(true, true),
                                     DoInitConnection(false, true)])
    ensures var c := Run(Initial(""), [InitConnection, InitConnection, DoInitConnection(true, true),
                                       DoInitConnection(false, true)]).state;
            && !c.display && c.notifier && !c.serverDied && c.watcher == FileWatch(DefaultSocketName)
  {
  }
}
