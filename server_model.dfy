/** Value-level model of the server-side display runtime (src/server/display.cpp).

    A DisplayState holds what Display::Private holds: whether the libwayland
    display and event-loop handles are non-null, the socket name, the running
    flag and the outputs registry. It also holds the bookkeeping that Qt keeps
    for the display: which protocol objects it created still have their
    aboutToTerminate connection (in connection order), and what kind each
    created object is. libwayland's answers are parameters; what the display
    does that others can observe (signals, deletions, libwayland calls) is
    returned as a sequence of events. */
module DisplayModel {

  /** Identity of a protocol object created through the display (the pointer a factory returns). */
  type ObjectId = nat

  /** The factory that created an object. */
  datatype Kind = Output | Compositor | Shell | Seat

  /** Observable effects: the display's signals, deletions of protocol objects,
      and the libwayland calls whose presence matters. */
  datatype Event =
    | SocketNameChanged(name: string)
    | RunningChanged(isRunning: bool)
    | AboutToTerminate
    | Deleted(id: ObjectId)
    | LoopDispatched   // wl_event_loop_dispatch
    | ClientsFlushed   // wl_display_flush_clients
    | ShmInitialised   // wl_display_init_shm

  const DefaultSocketName: string := "wayland-0"

  /** The result of one operation: the new state and what it emitted, in order. */
  datatype Step = Step(state: DisplayState, events: seq<Event>)

  datatype DisplayState = DisplayState(
    display: bool,             // d->display != nullptr
    loop: bool,                // d->loop != nullptr
    socketName: string,
    running: bool,
    outputs: seq<ObjectId>,    // d->outputs
    objects: seq<ObjectId>,    // created objects whose aboutToTerminate slot is still connected
    kind: map<ObjectId, Kind>, // the factory of every created object
    nextId: ObjectId)          // the identity the next factory call hands out
  {
    predicate IsOutput(x: ObjectId) {
      x in kind && kind[x] == Output
    }

    /** Display::Private::flush: one dispatch pass, then a flush to every client,
        and only when both handles are non-null. */
    function Flush(): (r: Step)
      ensures r.state == this
      ensures r.events == [] <==> !display || !loop
      ensures r.events != [] ==> r.events == [LoopDispatched, ClientsFlushed]
    {
      if !display || !loop then Step(this, [])
      else Step(this, [LoopDispatched, ClientsFlushed])
    }

    /** Display::Private::setRunning, whose assertion demands an actual change. */
    function SetRunning(value: bool): (r: Step)
      requires running != value
      ensures r.state == this.(running := value)
      ensures r.events == [RunningChanged(value)]
    {
      Step(this.(running := value), [RunningChanged(value)])
    }

    /** Display::setSocketName: stores and announces only a different name. */
    function SetSocketName(name: string): (r: Step)
      ensures r.state.socketName == name
      ensures r.state == this.(socketName := name)
      ensures r.events == (if name == socketName then [] else [SocketNameChanged(name)])
    {
      if socketName == name then Step(this, [])
      else Step(this.(socketName := name), [SocketNameChanged(name)])
    }

    /** Display::start. The display handle is created first; a failed bind or a
        missing event-loop descriptor returns early with the handle kept. */
    function Start(addSocketOk: bool, fd: int): (r: Step)
      requires !running && !display
      ensures r.state.display
      ensures r.state.running <==> addSocketOk && fd != -1
      ensures r.state.loop == (addSocketOk || loop)
      ensures r.state == this.(display := true, loop := r.state.loop, running := r.state.running)
      ensures r.events == (if r.state.running then [RunningChanged(true)] else [])
    {
      var created := this.(display := true);
      if !addSocketOk then Step(created, [])
      else
        var withLoop := created.(loop := true);
        if fd == -1 then Step(withLoop, [])
        else withLoop.SetRunning(true)
    }

    /** A factory (createOutput, createCompositor, createShell, createSeat):
        a fresh object whose aboutToTerminate slot is connected; an output is
        also appended to the registry. */
    function Create(k: Kind): (r: Step)
      ensures r.events == []
      ensures r.state == this.(objects := objects + [nextId], kind := kind[nextId := k],
                               nextId := nextId + 1, outputs := r.state.outputs)
      ensures r.state.outputs == (if k == Output then outputs + [nextId] else outputs)
    {
      var registered := if k == Output then outputs + [nextId] else outputs;
      Step(this.(objects := objects + [nextId], kind := kind[nextId := k],
                 nextId := nextId + 1, outputs := registered), [])
    }

    /** Deleting object x: its aboutToTerminate connection goes with it, and for
        an output the destroyed handler prunes every registry entry for it. */
    function Delete(x: ObjectId): (r: Step)
      ensures x !in r.state.objects
      ensures forall y :: y in r.state.objects <==> y in objects && y != x
      ensures IsOutput(x) ==> x !in r.state.outputs
      ensures forall y :: y in r.state.outputs <==> y in outputs && !(y == x && IsOutput(x))
      ensures r.state == this.(objects := r.state.objects, outputs := r.state.outputs)
      ensures r.state.objects == RemoveAll(objects, x)
      ensures r.state.outputs == (if IsOutput(x) then RemoveAll(outputs, x) else outputs)
      ensures r.events == [Deleted(x)]
    {
      var pruned := if IsOutput(x) then RemoveAll(outputs, x) else outputs;
      Step(this.(objects := RemoveAll(objects, x), outputs := pruned), [Deleted(x)])
    }

    /** Display::removeOutput: prune the registry, then delete the output. */
    function RemoveOutput(x: ObjectId): (r: Step)
      ensures x !in r.state.outputs && x !in r.state.objects
      ensures r.state == this.(objects := r.state.objects, outputs := r.state.outputs)
      ensures r.state.objects == RemoveAll(objects, x)
      ensures forall y :: y in r.state.objects <==> y in objects && y != x
      ensures forall y :: y in r.state.outputs <==> y in outputs && y != x
      ensures r.state.outputs == RemoveAll(outputs, x)
      ensures r.events == [Deleted(x)]
    {
      RemoveAllCounts(RemoveAll(outputs, x), x);
      this.(outputs := RemoveAll(outputs, x)).Delete(x)
    }

    /** The slot that a factory connected to aboutToTerminate for object x. */
    function Slot(x: ObjectId): (r: Step)
      ensures r.state == this.(objects := r.state.objects, outputs := r.state.outputs)
      ensures forall y :: y in r.state.objects <==> y in objects && y != x
      ensures forall y :: y in r.state.outputs <==> y in outputs && !(y == x && IsOutput(x))
      ensures r.events == [Deleted(x)]
    {
      if IsOutput(x) then RemoveOutput(x) else Delete(x)
    }

    /** Display::terminate: nothing when not running; otherwise aboutToTerminate
        (whose slots delete every registered object in connection order), then
        both handles cleared, then runningChanged(false). */
    function Terminate(): (r: Step)
      ensures !running ==> r == Step(this, [])
      ensures running ==> !r.state.display && !r.state.loop && !r.state.running
      ensures running ==> r.events == [AboutToTerminate] + Deletions(objects) + [RunningChanged(false)]
      ensures running ==> r.state.socketName == socketName && r.state.kind == kind && r.state.nextId == nextId
      ensures running ==> forall x :: x !in r.state.objects
    {
      if !running then Step(this, [])
      else
        var torn := TearDown(this, objects);
        var closed := torn.state.(display := false, loop := false);
        var stopped := closed.SetRunning(false);
        Step(stopped.state, [AboutToTerminate] + torn.events + stopped.events)
    }

    /** Display::createShm, which asserts that the display runs. */
    function CreateShm(): (r: Step)
      requires running
      ensures r.state == this && r.events == [ShmInitialised]
    {
      Step(this, [ShmInitialised])
    }
  }

  /** A newly constructed Display. */
  const Initial: DisplayState :=
    DisplayState(false, false, DefaultSocketName, false, [], [], map[], 0)

  /** QList::removeAll: every occurrence of x goes; every other element stays,
      with its count (RemoveAllCounts) and in its order (RemoveAllAppend). */
  function RemoveAll(xs: seq<ObjectId>, x: ObjectId): (r: seq<ObjectId>)
    ensures forall y :: y in r <==> y in xs && y != x
    ensures |r| <= |xs|
  {
    if xs == [] then []
    else (if xs[0] == x then [] else [xs[0]]) + RemoveAll(xs[1..], x)
  }

  /** removeAll drops exactly the occurrences of x and keeps every other
      element as often as it occurred; without x it changes nothing. */
  lemma {:induction false} RemoveAllCounts(xs: seq<ObjectId>, x: ObjectId)
    ensures multiset(RemoveAll(xs, x)) == multiset(xs)[x := 0]
    ensures x !in xs ==> RemoveAll(xs, x) == xs
  {
    if xs != [] {
      assert xs == [xs[0]] + xs[1..];
      RemoveAllCounts(xs[1..], x);
    }
  }

  /** removeAll works element by element: on a concatenation it is the
      concatenation of the two results, so the survivors keep their order. */
  lemma {:induction false} RemoveAllAppend(a: seq<ObjectId>, b: seq<ObjectId>, x: ObjectId)
    ensures RemoveAll(a + b, x) == RemoveAll(a, x) + RemoveAll(b, x)
  {
    if a == [] {
      assert a + b == b;
    } else {
      var head := if a[0] == x then [] else [a[0]];
      assert (a + b)[0] == a[0] && (a + b)[1..] == a[1..] + b;
      RemoveAllAppend(a[1..], b, x);
      assert RemoveAll(a + b, x) == head + RemoveAll(a[1..] + b, x);
      assert RemoveAll(a, x) == head + RemoveAll(a[1..], x);
    }
  }

  /** removeAll of a strictly increasing sequence is strictly increasing. */
  lemma {:induction false} RemoveAllKeepsIncreasing(xs: seq<ObjectId>, x: ObjectId)
    requires Increasing(xs)
    ensures Increasing(RemoveAll(xs, x))
  {
    if xs != [] {
      var tail := xs[1..];
      assert Increasing(tail) by {
        forall i, j | 0 <= i < j < |tail| ensures tail[i] < tail[j] {
          assert tail[i] == xs[i + 1] && tail[j] == xs[j + 1];
        }
      }
      RemoveAllKeepsIncreasing(tail, x);
      var rest := RemoveAll(tail, x);
      if xs[0] != x {
        forall y | y in rest ensures xs[0] < y {
          var j :| 0 <= j < |tail| && tail[j] == y;
          assert tail[j] == xs[j + 1];
        }
        IncreasingCons(xs[0], rest);
      } else {
        assert RemoveAll(xs, x) == rest;
      }
    }
  }

  /** The deletion events of the given objects, in order. */
  function Deletions(ids: seq<ObjectId>): (r: seq<Event>) {
    if ids == [] then [] else Deletions(ids[..|ids| - 1]) + [Deleted(ids[|ids| - 1])]
  }

  /** Running the aboutToTerminate slots of the given objects, first to last. */
  function TearDown(s: DisplayState, slots: seq<ObjectId>): (r: Step)
    ensures r.state == s.(objects := r.state.objects, outputs := r.state.outputs)
    ensures r.events == Deletions(slots)
    ensures forall x :: x in r.state.objects <==> x in s.objects && x !in slots
    ensures forall y :: y in r.state.outputs <==> y in s.outputs && !(y in slots && s.IsOutput(y))
    decreases |slots|
  {
    if slots == [] then Step(s, [])
    else
      var before := TearDown(s, slots[..|slots| - 1]);
      var after := before.state.Slot(slots[|slots| - 1]);
      Step(after.state, before.events + after.events)
  }

  /** TearDown unfolded by one slot. */
  lemma TearDownStep(s: DisplayState, slots: seq<ObjectId>, i: nat)
    requires i < |slots|
    ensures TearDown(s, slots[..i + 1]).state == TearDown(s, slots[..i]).state.Slot(slots[i]).state
    ensures Deletions(slots[..i + 1]) == Deletions(slots[..i]) + [Deleted(slots[i])]
  {
    assert slots[..i + 1][..i] == slots[..i];
  }

  /** The values carried by the runningChanged signals of a log, in order. */
  function RunningValues(log: seq<Event>): (r: seq<bool>) {
    if log == [] then []
    else (if log[0].RunningChanged? then [log[0].isRunning] else []) + RunningValues(log[1..])
  }

  /** The objects deleted in a log, in order. */
  function DeletedIds(log: seq<Event>): (r: seq<ObjectId>) {
    if log == [] then []
    else (if log[0].Deleted? then [log[0].id] else []) + DeletedIds(log[1..])
  }

  ghost predicate Distinct(xs: seq<ObjectId>) {
    forall i, j :: 0 <= i < j < |xs| ==> xs[i] != xs[j]
  }

  /** Strictly increasing identities: creation order, because nextId only grows. */
  ghost predicate Increasing(xs: seq<ObjectId>) {
    forall i, j :: 0 <= i < j < |xs| ==> xs[i] < xs[j]
  }

  /** runningChanged alternates true, false, true, ... */
  ghost predicate Alternating(v: seq<bool>) {
    forall i :: 0 <= i < |v| ==> v[i] == (i % 2 == 0)
  }

  /** What holds of the display's state together with everything it has emitted. */
  ghost predicate Inv(s: DisplayState, log: seq<Event>) {
    && (s.loop ==> s.display)
    && (s.running ==> s.loop)
    && Increasing(s.objects)
    && (forall x :: x in s.objects ==> x < s.nextId)
    && (forall x :: x in s.outputs ==> x in s.objects && s.IsOutput(x))
    && Alternating(RunningValues(log))
    && (s.running <==> |RunningValues(log)| % 2 == 1)
    && Distinct(DeletedIds(log))
    && (forall x :: x in DeletedIds(log) ==> x < s.nextId && x !in s.objects)
    && (forall x: ObjectId :: x < s.nextId ==> x in s.objects || x in DeletedIds(log))
  }

  /** The operations a caller, the host event loop or an object's owner can perform. */
  datatype Op =
    | SetSocketName(name: string)
    | Start(addSocketOk: bool, fd: int)
    | Terminate
    | Flush                  // aboutToBlock or the socket notifier fired
    | Create(k: Kind)
    | Destroy(id: ObjectId)  // the owner deletes an object it got from a factory
    | RemoveOutput(id: ObjectId)
    | CreateShm

  /** The assertions of display.cpp, and that an object is deleted only while alive. */
  predicate Allowed(s: DisplayState, op: Op) {
    match op
    case Start(_, _) => !s.running && !s.display
    case CreateShm => s.running
    case Destroy(x) => x in s.objects
    case RemoveOutput(x) => x in s.objects && s.IsOutput(x)
    case _ => true
  }

  function Next(s: DisplayState, op: Op): (r: Step)
    requires Allowed(s, op)
  {
    match op
    case SetSocketName(name) => s.SetSocketName(name)
    case Start(ok, fd) => s.Start(ok, fd)
    case Terminate => s.Terminate()
    case Flush => s.Flush()
    case Create(k) => s.Create(k)
    case Destroy(x) => s.Delete(x)
    case RemoveOutput(x) => s.RemoveOutput(x)
    case CreateShm => s.CreateShm()
  }

  predicate RunAllowed(s: DisplayState, ops: seq<Op>)
    decreases |ops|
  {
    ops == [] || (Allowed(s, ops[0]) && RunAllowed(Next(s, ops[0]).state, ops[1..]))
  }

  function Run(s: DisplayState, ops: seq<Op>): (r: Step)
    requires RunAllowed(s, ops)
    decreases |ops|
  {
    if ops == [] then Step(s, [])
    else
      var first := Next(s, ops[0]);
      var rest := Run(first.state, ops[1..]);
      Step(rest.state, first.events + rest.events)
  }

  // ---------------------------------------------------------------- helpers

  lemma ProjectionsAppend(a: seq<Event>, b: seq<Event>)
    ensures RunningValues(a + b) == RunningValues(a) + RunningValues(b)
    ensures DeletedIds(a + b) == DeletedIds(a) + DeletedIds(b)
  {
    RunningValuesAppend(a, b);
    DeletedIdsAppend(a, b);
  }

  lemma {:induction false} RunningValuesAppend(a: seq<Event>, b: seq<Event>)
    ensures RunningValues(a + b) == RunningValues(a) + RunningValues(b)
  {
    if a == [] {
      assert a + b == b;
    } else {
      var head := if a[0].RunningChanged? then [a[0].isRunning] else [];
      assert (a + b)[0] == a[0] && (a + b)[1..] == a[1..] + b;
      RunningValuesAppend(a[1..], b);
      assert RunningValues(a + b) == head + RunningValues(a[1..] + b);
      assert RunningValues(a) == head + RunningValues(a[1..]);
    }
  }

  lemma {:induction false} DeletedIdsAppend(a: seq<Event>, b: seq<Event>)
    ensures DeletedIds(a + b) == DeletedIds(a) + DeletedIds(b)
  {
    if a == [] {
      assert a + b == b;
    } else {
      var head := if a[0].Deleted? then [a[0].id] else [];
      assert (a + b)[0] == a[0] && (a + b)[1..] == a[1..] + b;
      DeletedIdsAppend(a[1..], b);
      assert DeletedIds(a + b) == head + DeletedIds(a[1..] + b);
      assert DeletedIds(a) == head + DeletedIds(a[1..]);
    }
  }

  lemma {:induction false} DeletionsProjections(ids: seq<ObjectId>)
    ensures DeletedIds(Deletions(ids)) == ids
    ensures RunningValues(Deletions(ids)) == []
  {
    if ids != [] {
      var init := ids[..|ids| - 1];
      DeletionsProjections(init);
      ProjectionsAppend(Deletions(init), [Deleted(ids[|ids| - 1])]);
      assert ids == init + [ids[|ids| - 1]];
    }
  }

  lemma IncreasingCons(a: ObjectId, r: seq<ObjectId>)
    requires Increasing(r) && forall y :: y in r ==> a < y
    ensures Increasing([a] + r)
  {
    var s := [a] + r;
    forall i, j | 0 <= i < j < |s| ensures s[i] < s[j] {
      assert s[j] == r[j - 1];
      assert r[j - 1] in r;
      if i > 0 {
        assert s[i] == r[i - 1];
      } else {
        assert s[i] == a;
      }
    }
  }

  lemma IncreasingSnoc(r: seq<ObjectId>, a: ObjectId)
    requires Increasing(r) && forall y :: y in r ==> y < a
    ensures Increasing(r + [a])
  {
    var s := r + [a];
    forall i, j | 0 <= i < j < |s| ensures s[i] < s[j] {
      assert s[i] == r[i];
      assert r[i] in r;
      if j < |r| {
        assert s[j] == r[j];
      }
    }
  }

  lemma IncreasingIsDistinct(xs: seq<ObjectId>)
    requires Increasing(xs)
    ensures Distinct(xs)
  {
  }

  lemma DistinctConcat(a: seq<ObjectId>, b: seq<ObjectId>)
    requires Distinct(a) && Distinct(b)
    requires forall x :: x in a ==> x !in b
    ensures Distinct(a + b)
  {
    var s := a + b;
    forall i, j | 0 <= i < j < |s| ensures s[i] != s[j] {
      if j < |a| {
        assert s[i] == a[i] && s[j] == a[j];
      } else if i >= |a| {
        assert s[i] == b[i - |a|] && s[j] == b[j - |a|];
      } else {
        assert s[i] == a[i] && s[j] == b[j - |a|];
        assert a[i] in a && b[j - |a|] in b;
      }
    }
  }

  lemma EmptyWhenNoMember(xs: seq<ObjectId>)
    requires forall x :: x !in xs
    ensures xs == []
  {
    if xs != [] {
      FirstIsMember(xs);
      assert false;
    }
  }

  /** Appending to a log, one piece or two at a time, gives the same log. */
  lemma LogAssoc(a: seq<Event>, b: seq<Event>, c: seq<Event>)
    ensures a + b + c == a + (b + c)
  {
  }

  lemma FirstIsMember(xs: seq<ObjectId>)
    requires xs != []
    ensures xs[0] in xs
  {
  }

  /** Appending events that neither change running nor delete keeps the invariant. */
  lemma QuietKeepsInv(s: DisplayState, log: seq<Event>, events: seq<Event>)
    requires Inv(s, log)
    requires RunningValues(events) == [] && DeletedIds(events) == []
    ensures Inv(s, log + events)
  {
    ProjectionsAppend(log, events);
    assert RunningValues(log + events) == RunningValues(log);
    assert DeletedIds(log + events) == DeletedIds(log);
  }

  // ------------------------------------------------- one step keeps Inv

  lemma StartKeepsInv(s: DisplayState, log: seq<Event>, ok: bool, fd: int)
    requires Inv(s, log) && !s.running && !s.display
    ensures Inv(s.Start(ok, fd).state, log + s.Start(ok, fd).events)
  {
    var r := s.Start(ok, fd);
    ProjectionsAppend(log, r.events);
    if r.state.running {
      assert RunningValues(r.events) == [true];
      assert DeletedIds(r.events) == [];
    } else {
      assert r.events == [];
      assert log + r.events == log;
    }
  }

  lemma CreateKeepsInv(s: DisplayState, log: seq<Event>, k: Kind)
    requires Inv(s, log)
    ensures Inv(s.Create(k).state, log + s.Create(k).events)
  {
    var r := s.Create(k);
    assert log + r.events == log;
    var t := r.state;
    assert s.nextId !in s.objects;
    IncreasingSnoc(s.objects, s.nextId);
    forall y | y in t.outputs ensures y in t.objects && t.IsOutput(y) {
      if y != s.nextId {
        assert y in s.outputs;
        assert y in s.objects && y < s.nextId;
      }
    }
  }

  lemma DeleteKeepsInv(s: DisplayState, log: seq<Event>, x: ObjectId)
    requires Inv(s, log) && x in s.objects
    ensures Inv(s.Delete(x).state, log + s.Delete(x).events)
  {
    var r := s.Delete(x);
    var t := r.state;
    ProjectionsAppend(log, r.events);
    assert RunningValues(r.events) == [] && DeletedIds(r.events) == [x];
    RemoveAllKeepsIncreasing(s.objects, x);
    DistinctConcat(DeletedIds(log), [x]);
    forall y | y in t.outputs ensures y in t.objects && t.IsOutput(y) {
      assert y in s.outputs && y in s.objects && s.IsOutput(y);
    }
  }

  lemma RemoveOutputKeepsInv(s: DisplayState, log: seq<Event>, x: ObjectId)
    requires Inv(s, log) && x in s.objects
    ensures Inv(s.RemoveOutput(x).state, log + s.RemoveOutput(x).events)
  {
    var pruned := s.(outputs := RemoveAll(s.outputs, x));
    assert Inv(pruned, log);
    DeleteKeepsInv(pruned, log, x);
  }

  /** Terminating a running display deletes every registered object once, in
      connection order, and leaves the registry and the connections empty. */
  lemma {:induction false} TerminateTearsDownAll(s: DisplayState, log: seq<Event>)
    requires Inv(s, log) && s.running
    ensures s.Terminate().state.objects == [] && s.Terminate().state.outputs == []
    ensures DeletedIds(s.Terminate().events) == s.objects
    ensures Increasing(DeletedIds(s.Terminate().events))
    ensures RunningValues(s.Terminate().events) == [false]
  {
    var torn := TearDown(s, s.objects);
    var r := s.Terminate();
    EmptyWhenNoMember(r.state.objects);
    EmptyWhenNoMember(r.state.outputs);
    DeletionsProjections(s.objects);
    ProjectionsAppend([AboutToTerminate], Deletions(s.objects));
    ProjectionsAppend([AboutToTerminate] + Deletions(s.objects), [RunningChanged(false)]);
  }

  /** The invariant of a display with nothing connected and nothing running. */
  lemma StoppedInv(t: DisplayState, log: seq<Event>)
    requires !t.display && !t.loop && !t.running && t.objects == [] && t.outputs == []
    requires Alternating(RunningValues(log)) && |RunningValues(log)| % 2 == 0
    requires Distinct(DeletedIds(log))
    requires forall x :: x in DeletedIds(log) ==> x < t.nextId
    requires forall x: ObjectId :: x < t.nextId ==> x in DeletedIds(log)
    ensures Inv(t, log)
  {
  }

  lemma TerminateKeepsInv(s: DisplayState, log: seq<Event>)
    requires Inv(s, log)
    ensures Inv(s.Terminate().state, log + s.Terminate().events)
  {
    var r := s.Terminate();
    if !s.running {
      assert log + r.events == log;
    } else {
      TerminateTearsDownAll(s, log);
      ProjectionsAppend(log, r.events);
      var v, d := RunningValues(log), DeletedIds(log);
      assert RunningValues(log + r.events) == v + [false];
      assert Alternating(v + [false]) by {
        assert |v| % 2 == 1;
        forall i | 0 <= i < |v| + 1 ensures (v + [false])[i] == (i % 2 == 0) {
          if i < |v| { assert (v + [false])[i] == v[i]; }
        }
      }
      IncreasingIsDistinct(s.objects);
      DistinctConcat(d, s.objects);
      assert DeletedIds(log + r.events) == d + s.objects;
      StoppedInv(r.state, log + r.events);
    }
  }

  lemma NextKeepsInv(s: DisplayState, log: seq<Event>, op: Op)
    requires Inv(s, log) && Allowed(s, op)
    ensures Inv(Next(s, op).state, log + Next(s, op).events)
  {
    match op
    case SetSocketName(name) =>
      ProjectionsAppend(log, Next(s, op).events);
      QuietKeepsInv(s.(socketName := name), log, Next(s, op).events);
    case Start(ok, fd) => StartKeepsInv(s, log, ok, fd);
    case Terminate => TerminateKeepsInv(s, log);
    case Flush => QuietKeepsInv(s, log, Next(s, op).events);
    case Create(k) => CreateKeepsInv(s, log, k);
    case Destroy(x) => DeleteKeepsInv(s, log, x);
    case RemoveOutput(x) => RemoveOutputKeepsInv(s, log, x);
    case CreateShm => QuietKeepsInv(s, log, Next(s, op).events);
  }

  lemma {:induction false} RunKeepsInv(s: DisplayState, log: seq<Event>, ops: seq<Op>)
    requires Inv(s, log) && RunAllowed(s, ops)
    ensures Inv(Run(s, ops).state, log + Run(s, ops).events)
    decreases |ops|
  {
    if ops == [] {
      assert log + Run(s, ops).events == log;
    } else {
      var first := Next(s, ops[0]);
      NextKeepsInv(s, log, ops[0]);
      RunKeepsInv(first.state, log + first.events, ops[1..]);
      var rest := Run(first.state, ops[1..]);
      assert log + first.events + rest.events == log + (first.events + rest.events);
    }
  }

  // ------------------------------------------------- properties of every run

  /** Whatever a caller does within the assertions, runningChanged alternates
      true, false, true, ... and its last value is the running flag. */
  lemma RunningChangedAlternates(ops: seq<Op>)
    requires RunAllowed(Initial, ops)
    ensures Alternating(RunningValues(Run(Initial, ops).events))
    ensures Run(Initial, ops).state.running <==> |RunningValues(Run(Initial, ops).events)| % 2 == 1
  {
    RunKeepsInv(Initial, [], ops);
    assert [] + Run(Initial, ops).events == Run(Initial, ops).events;
  }

  /** No object is ever deleted twice, and every created object that is no
      longer connected has been deleted: after a terminate, exactly once each. */
  lemma EachObjectDeletedOnce(ops: seq<Op>)
    requires RunAllowed(Initial, ops)
    ensures Distinct(DeletedIds(Run(Initial, ops).events))
    ensures forall x: ObjectId :: x in DeletedIds(Run(Initial, ops).events) <==>
              x < Run(Initial, ops).state.nextId && x !in Run(Initial, ops).state.objects
  {
    RunKeepsInv(Initial, [], ops);
    assert [] + Run(Initial, ops).events == Run(Initial, ops).events;
  }

  /** A display handle without the running flag is never cleared again:
      terminate() is a no-op and nothing else touches either field. */
  lemma {:induction false} HandleWithoutRunningPersists(s: DisplayState, ops: seq<Op>)
    requires s.display && !s.running && RunAllowed(s, ops)
    ensures Run(s, ops).state.display && !Run(s, ops).state.running
    decreases |ops|
  {
    if ops != [] {
      HandleWithoutRunningPersists(Next(s, ops[0]).state, ops[1..]);
    }
  }

  /** A start() whose bind fails, or that gets no event-loop descriptor, leaves
      the display handle behind, so no later start() meets its assertions. */
  lemma FailedStartBlocksRestart(s: DisplayState, addSocketOk: bool, fd: int, ops: seq<Op>)
    requires Allowed(s, Op.Start(addSocketOk, fd)) && !(addSocketOk && fd != -1)
    requires RunAllowed(s.Start(addSocketOk, fd).state, ops)
    ensures forall ok: bool, f: int :: !Allowed(Run(s.Start(addSocketOk, fd).state, ops).state, Op.Start(ok, f))
  {
    HandleWithoutRunningPersists(s.Start(addSocketOk, fd).state, ops);
  }
}
