/** ResourceAsioPool and ResourceAsioVersionPool as one object; versioned tells which of the two it is. */
module ResourceAsioPools {
  import opened Common
  import opened Resources
  import opened AsioPoolSystem

  class ResourceAsioPool {
    const versioned: bool
    const maxCount: nat
    var alive: bool
    var count: int
    var idleCount: int
    var param: Param
    var version: int
    var resourceList: seq<Resource>
    var closerSet: set<nat>
    var waiters: seq<nat>
    var world: World  // handles, timers and the log of deletions around the pool

    function View(): State
      reads this
    {
      State(versioned, alive, maxCount, count, idleCount, param, version, resourceList, closerSet, waiters, world)
    }

    constructor (versioned: bool, param: Param, maxCount: nat)
      ensures View() == Initial(versioned, param, maxCount)
    {
      this.versioned, this.maxCount := versioned, maxCount;
      alive := true;
      count, idleCount := 0, 0;
      this.param := param;
      version := 0;
      resourceList := [];
      closerSet := {};
      waiters := [];
      world := World(map[], 0, {}, 0, [], map[], 0);
    }

    /** The resource at the front of the idle queue becomes a handle; its closer is not registered. */
    method Wrap(p: Resource) returns (handle: nat)
      modifies this`world
      ensures View() == Grant(old(View()), p)
      ensures handle == old(world.nextHandle)
    {
      handle := world.nextHandle;
      world := world.(handles := world.handles[handle := Handle(p, true)], nextHandle := handle + 1);
    }

    method Delete(p: Resource)
      modifies this`world, this`count
      ensures View() == Discard(old(View()), p)
    {
      world := world.(freed := world.freed + [p]);
      count := count - 1;
    }

    method Get(built: bool) returns (r: Outcome)
      requires Enabled(View(), AsioPoolSystem.Get(built))
      modifies this
      ensures View() == Apply(old(View()), AsioPoolSystem.Get(built))
      ensures r == OutcomeOf(old(View()), AsioPoolSystem.Get(built))
    {
      if resourceList != [] {
        var p := resourceList[0];
        resourceList := resourceList[1..];
        idleCount := idleCount - 1;
        if versioned && p.version != version {
          Delete(p);
        } else {
          var reused := Wrap(p);
          return Granted(reused);
        }
      }
      r := CreateOrEnqueue(built);
    }

    /** The second and third part of get, up to the suspension. */
    method CreateOrEnqueue(built: bool) returns (r: Outcome)
      modifies this
      ensures View() == CreateOrSuspend(old(View()), built)
      ensures r == if !HasRoom(old(View())) then Suspended(old(world.nextTimer))
                   else if !built then CreateFailed
                   else Granted(old(world.nextHandle))
    {
      if maxCount == 0 || count < maxCount {
        if !built {
          return CreateFailed;
        }
        var p := Resource(world.nextResource, param, if versioned then version else 0);
        world := world.(nextResource := world.nextResource + 1);
        count := count + 1;
        var handle := Wrap(p);
        closerSet := closerSet + {handle};
        world := world.(created := world.created + {handle});
        return Granted(handle);
      }
      var timer := world.nextTimer;
      world := world.(timers := world.timers[timer := Pending], nextTimer := timer + 1);
      waiters := waiters + [timer];
      return Suspended(timer);
    }

    /** Takes the resumed timer out of the queue: at the front by a pop, elsewhere by a filter. */
    method LeaveQueue(timer: nat)
      modifies this`waiters
      ensures waiters == if old(waiters) != [] && old(waiters)[0] == timer then old(waiters)[1..]
                         else Filter(old(waiters), timer)
    {
      if waiters != [] && waiters[0] == timer {
        waiters := waiters[1..];
      } else {
        var temp := [];
        while waiters != []
          invariant temp + Filter(waiters, timer) == Filter(old(waiters), timer)
          decreases |waiters|
        {
          var t := waiters[0];
          waiters := waiters[1..];
          if t != timer {
            temp := temp + [t];
          }
        }
        waiters := temp;
      }
    }

    /** The rest of get, after the suspension. */
    method Resume(timer: nat) returns (r: Outcome)
      requires Enabled(View(), AsioPoolSystem.Resume(timer))
      modifies this
      ensures View() == Apply(old(View()), AsioPoolSystem.Resume(timer))
      ensures r == OutcomeOf(old(View()), AsioPoolSystem.Resume(timer))
    {
      var aborted := world.timers[timer] == Cancelled;
      world := world.(timers := world.timers - {timer});
      LeaveQueue(timer);
      if !aborted {
        return TimedOut;
      }
      if resourceList == [] {
        return NothingAfterWakeup;
      }
      var p := resourceList[0];
      resourceList := resourceList[1..];
      idleCount := idleCount - 1;
      if versioned && p.version != version {
        Delete(p);
        return VersionMismatch;
      }
      var handle := Wrap(p);
      return Granted(handle);
    }

    method WakeFirst()
      modifies this`waiters, this`world
      ensures View() == WakeOne(old(View()))
    {
      if waiters != [] {
        var timer := waiters[0];
        waiters := waiters[1..];
        if timer in world.timers && world.timers[timer] == Pending {
          world := world.(timers := world.timers[timer := Cancelled]);
        }
      }
    }

    method ReturnResource(p: Resource, pushed: bool)
      modifies this
      ensures View() == TakeBack(old(View()), p, pushed)
    {
      if !versioned || p.version == version {
        if pushed {
          resourceList := resourceList + [p];
          idleCount := idleCount + 1;
        } else {
          Delete(p);
        }
        WakeFirst();
      } else {
        Delete(p);
      }
    }

    method Release(handle: nat, pushed: bool)
      requires Enabled(View(), AsioPoolSystem.Release(handle, pushed))
      modifies this
      ensures View() == Apply(old(View()), AsioPoolSystem.Release(handle, pushed))
    {
      var h := world.handles[handle];
      world := world.(handles := world.handles - {handle});
      if h.bound {
        ReturnResource(h.resource, pushed);
        closerSet := closerSet - {handle};
      } else {
        world := world.(freed := world.freed + [h.resource]);
      }
    }

    method ReleaseIdleResource()
      modifies this`count, this`idleCount, this`resourceList, this`world
      ensures View() == Flush(old(View()))
    {
      ghost var i := 0;
      while resourceList != []
        invariant 0 <= i <= |old(resourceList)| && resourceList == old(resourceList)[i..]
        invariant count == old(count) - i && idleCount == old(idleCount) - i
        invariant world == old(world).(freed := old(world.freed) + old(resourceList)[..i])
        decreases |resourceList|
      {
        var p := resourceList[0];
        resourceList := resourceList[1..];
        idleCount := idleCount - 1;
        Delete(p);
        i := i + 1;
        assert old(resourceList)[..i] == old(resourceList)[..i - 1] + [p];
      }
      assert old(resourceList)[..i] == old(resourceList);
    }

    method SetParam(name: string, value: Value) returns (r: Outcome)
      requires Enabled(View(), AsioPoolSystem.SetParam(name, value))
      modifies this
      ensures View() == Apply(old(View()), AsioPoolSystem.SetParam(name, value))
      ensures r == OutcomeOf(old(View()), AsioPoolSystem.SetParam(name, value))
    {
      if name in param {
        if !SameType(param[name], value) {
          return ParamMismatch;
        }
        if param[name] == value {
          return Done;
        }
      }
      param := param[name := value];
      version := version + 1;
      ReleaseIdleResource();
      return Done;
    }

    method SetParameter(param: Param)
      requires Enabled(View(), AsioPoolSystem.SetParameter(param))
      modifies this
      ensures View() == Apply(old(View()), AsioPoolSystem.SetParameter(param))
    {
      this.param := param;
      version := version + 1;
      ReleaseIdleResource();
    }

    method IncVersion()
      requires Enabled(View(), AsioPoolSystem.IncVersion)
      modifies this`version
      ensures View() == Apply(old(View()), AsioPoolSystem.IncVersion)
    {
      version := version + 1;
    }

    /** The destructor: unbind every registered closer, then delete every idle resource. */
    method Destroy()
      requires Enabled(View(), AsioPoolSystem.Destroy) && closerSet <= world.handles.Keys
      modifies this
      ensures View() == Apply(old(View()), AsioPoolSystem.Destroy)
    {
      UnbindClosers();
      DeleteIdle();
      alive := false;
      closerSet := {};
    }

    method UnbindClosers()
      requires closerSet <= world.handles.Keys
      modifies this`world
      ensures world == old(world).(handles := Unbound(old(world.handles), closerSet))
    {
      var todo := closerSet;
      while todo != {}
        invariant todo <= closerSet
        invariant world == old(world).(handles := world.handles)
        invariant world.handles == Unbound(old(world.handles), closerSet - todo)
        decreases todo
      {
        var closer := AnyCloser(todo);
        world := world.(handles := world.handles[closer := world.handles[closer].(bound := false)]);
        todo := todo - {closer};
      }
      assert closerSet - todo == closerSet;
    }

    method DeleteIdle()
      modifies this`resourceList, this`world
      ensures resourceList == [] && world == old(world).(freed := old(world.freed) + old(resourceList))
    {
      ghost var i := 0;
      while resourceList != []
        invariant 0 <= i <= |old(resourceList)| && resourceList == old(resourceList)[i..]
        invariant world == old(world).(freed := old(world.freed) + old(resourceList)[..i])
        decreases |resourceList|
      {
        var p := resourceList[0];
        resourceList := resourceList[1..];
        world := world.(freed := world.freed + [p]);
        i := i + 1;
        assert old(resourceList)[..i] == old(resourceList)[..i - 1] + [p];
      }
      assert old(resourceList)[..i] == old(resourceList);
    }
  }
}
