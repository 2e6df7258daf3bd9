/** The server-side Display of src/server/display.cpp as an object whose
    methods update its fields in place. Every method is proved to leave the
    object in the state, and to emit the events, that DisplayModel gives for
    the same operation. Every method except the private helper SetRunning,
    which runs in the middle of start() and terminate(), also keeps
    DisplayModel.Inv over the object's whole history. */
module ServerDisplay {
  import opened DisplayModel

  class Display {
    var display: bool              // d->display != nullptr
    var loop: bool                 // d->loop != nullptr
    var socketName: string
    var running: bool
    var outputs: seq<ObjectId>     // d->outputs
    var objects: seq<ObjectId>     // objects whose aboutToTerminate slot is connected
    var kind: map<ObjectId, Kind>
    var nextId: ObjectId
    ghost var log: seq<Event>      // everything emitted so far, in order

    function Model(): DisplayState
      reads this
    {
      DisplayState(display, loop, socketName, running, outputs, objects, kind, nextId)
    }

    ghost predicate Valid()
      reads this
    {
      Inv(Model(), log)
    }

    /** Display::Display; the aboutToBlock connection it makes is the Flush operation. */
    constructor ()
      ensures Valid() && Model() == Initial && log == []
    {
      display, loop, socketName, running := false, false, DefaultSocketName, false;
      outputs, objects, kind, nextId := [], [], map[], 0;
      log := [];
    }

    /** Display::Private::flush, run from aboutToBlock and the socket notifier. */
    method Flush()
      requires Valid()
      modifies this
      ensures Valid()
      ensures Model() == old(Model()).Flush().state
      ensures log == old(log) + old(Model()).Flush().events
    {
      NextKeepsInv(Model(), log, Op.Flush);
      if !display || !loop {
        return;
      }
      log := log + [LoopDispatched, ClientsFlushed];
    }

    method SetSocketName(name: string)
      requires Valid()
      modifies this
      ensures Valid()
      ensures Model() == old(Model()).SetSocketName(name).state
      ensures log == old(log) + old(Model()).SetSocketName(name).events
    {
      NextKeepsInv(Model(), log, Op.SetSocketName(name));
      if socketName == name {
        return;
      }
      socketName := name;
      log := log + [SocketNameChanged(socketName)];
    }

    method SocketName() returns (name: string)
      ensures name == socketName
    {
      name := socketName;
    }

    /** Display::start; addSocketOk is whether wl_display_add_socket succeeded,
        fd what wl_event_loop_get_fd returned. */
    method Start(addSocketOk: bool, fd: int)
      requires Valid() && !running && !display
      modifies this
      ensures Valid()
      ensures Model() == old(Model()).Start(addSocketOk, fd).state
      ensures log == old(log) + old(Model()).Start(addSocketOk, fd).events
    {
      NextKeepsInv(Model(), log, Op.Start(addSocketOk, fd));
      display := true;
      if !addSocketOk {
        return;
      }
      loop := true;
      if fd == -1 {
        return;
      }
      SetRunning(true);
    }

    /** Display::Private::setRunning. */
    method SetRunning(value: bool)
      requires running != value
      modifies this
      ensures Model() == old(Model()).SetRunning(value).state
      ensures log == old(log) + old(Model()).SetRunning(value).events
    {
      running := value;
      log := log + [RunningChanged(running)];
    }

    /** Display::terminate. */
    method Terminate()
      requires Valid()
      modifies this
      ensures Valid()
      ensures Model() == old(Model()).Terminate().state
      ensures log == old(log) + old(Model()).Terminate().events
    {
      ghost var s0, log0 := Model(), log;
      ghost var t := s0.Terminate();
      NextKeepsInv(s0, log0, Op.Terminate);
      if !running {
        return;
      }
      log := log + [AboutToTerminate];
      QuietKeepsInv(s0, log0, [AboutToTerminate]);
      RunTerminateSlots();
      ghost var torn := TearDown(s0, s0.objects);
      ghost var deleted := torn.events;
      assert Model() == torn.state && log == log0 + [AboutToTerminate] + deleted;
      display := false;
      loop := false;
      SetRunning(false);
      assert Model() == torn.state.(display := false, loop := false, running := false) == t.state;
      assert t.events == [AboutToTerminate] + deleted + [RunningChanged(false)];
      assert log == log0 + [AboutToTerminate] + deleted + [RunningChanged(false)];
      LogAssoc(log0, [AboutToTerminate] + deleted, [RunningChanged(false)]);
      LogAssoc(log0, [AboutToTerminate], deleted);
    }

    /** Emitting aboutToTerminate: the connected slots run one after the other,
        in the order the factories connected them. */
    method RunTerminateSlots()
      requires Valid()
      modifies this
      ensures Valid()
      ensures Model() == TearDown(old(Model()), old(objects)).state
      ensures log == old(log) + Deletions(old(objects))
    {
      ghost var s0, log0 := Model(), log;
      var slots := objects;
      var i := 0;
      while i < |slots|
        invariant 0 <= i <= |slots| && slots == s0.objects
        invariant Model() == TearDown(s0, slots[..i]).state
        invariant log == log0 + Deletions(slots[..i])
        invariant Valid()
      {
        var x := slots[i];
        TearDownStep(s0, slots, i);
        assert x in objects by {
          assert x !in slots[..i] by {
            forall j | 0 <= j < i ensures slots[j] != x { }
          }
        }
        RunSlot(x);
        LogAssoc(log0, Deletions(slots[..i]), [Deleted(x)]);
        i := i + 1;
      }
      assert slots[..i] == s0.objects;
    }

    /** The aboutToTerminate slot a factory connected for x. */
    method RunSlot(x: ObjectId)
      requires Valid() && x in objects
      modifies this
      ensures Valid()
      ensures Model() == old(Model()).Slot(x).state
      ensures log == old(log) + [Deleted(x)]
    {
      if Model().IsOutput(x) {
        RemoveOutput(x);
      } else {
        Delete(x);
      }
    }

    /** Display::~Display. */
    method Dispose()
      requires Valid()
      modifies this
      ensures Valid()
      ensures Model() == old(Model()).Terminate().state
      ensures log == old(log) + old(Model()).Terminate().events
    {
      Terminate();
    }

    /** The identity handed out by the next factory call, with its slot connected. */
    method Register(k: Kind) returns (x: ObjectId)
      requires Valid()
      modifies this
      ensures Valid() && x == old(nextId)
      ensures Model() == old(Model()).Create(k).state && log == old(log)
    {
      NextKeepsInv(Model(), log, Op.Create(k));
      assert log + [] == log;
      x := nextId;
      nextId := nextId + 1;
      kind := kind[x := k];
      objects := objects + [x];
      if k == Output {
        outputs := outputs + [x];
      }
    }

    /** Display::createOutput: connects destroyed and aboutToTerminate, then appends to the registry. */
    method CreateOutput() returns (output: ObjectId)
      requires Valid()
      modifies this
      ensures Valid() && output == old(nextId) && output !in old(objects)
      ensures outputs == old(outputs) + [output]
      ensures Model() == old(Model()).Create(Output).state && log == old(log)
    {
      output := Register(Output);
    }

    method CreateCompositor() returns (compositor: ObjectId)
      requires Valid()
      modifies this
      ensures Valid() && compositor == old(nextId) && outputs == old(outputs)
      ensures Model() == old(Model()).Create(Compositor).state && log == old(log)
    {
      compositor := Register(Compositor);
    }

    method CreateShell() returns (shell: ObjectId)
      requires Valid()
      modifies this
      ensures Valid() && shell == old(nextId) && outputs == old(outputs)
      ensures Model() == old(Model()).Create(Shell).state && log == old(log)
    {
      shell := Register(Shell);
    }

    method CreateSeat() returns (seat: ObjectId)
      requires Valid()
      modifies this
      ensures Valid() && seat == old(nextId) && outputs == old(outputs)
      ensures Model() == old(Model()).Create(Seat).state && log == old(log)
    {
      seat := Register(Seat);
    }

    /** Display::createShm. */
    method CreateShm()
      requires Valid() && running
      modifies this
      ensures Valid()
      ensures Model() == old(Model()) && log == old(log) + [ShmInitialised]
    {
      NextKeepsInv(Model(), log, Op.CreateShm);
      log := log + [ShmInitialised];
    }

    /** `delete x` on a live object, by its owner or by its aboutToTerminate slot:
        the slot disconnects, and an output's destroyed handler prunes the registry. */
    method Delete(x: ObjectId)
      requires Valid() && x in objects
      modifies this
      ensures Valid()
      ensures Model() == old(Model()).Delete(x).state
      ensures log == old(log) + [Deleted(x)]
    {
      NextKeepsInv(Model(), log, Op.Destroy(x));
      objects := RemoveAll(objects, x);
      if x in kind && kind[x] == Output {
        outputs := RemoveAll(outputs, x);
      }
      log := log + [Deleted(x)];
    }

    /** Display::removeOutput. */
    method RemoveOutput(output: ObjectId)
      requires Valid() && output in objects && Model().IsOutput(output)
      modifies this
      ensures Valid()
      ensures Model() == old(Model()).RemoveOutput(output).state
      ensures log == old(log) + [Deleted(output)]
    {
      NextKeepsInv(Model(), log, Op.RemoveOutput(output));
      outputs := RemoveAll(outputs, output);
      Delete(output);
    }

    method IsRunning() returns (r: bool)
      ensures r == running
    {
      r := running;
    }

    method Outputs() returns (r: seq<ObjectId>)
      ensures r == outputs
    {
      r := outputs;
    }
  }
}
