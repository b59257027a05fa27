/** ResourcePool and ResourceVersionPool as one object; versioned tells which of the two it is. */
module ResourcePools {
  import opened Common
  import opened PoolSystem
  import opened Resources

  class ResourcePool {
    const versioned: bool
    var alive: bool
    var maxPoolSize: nat
    var maxIdleSize: nat
    var count: int
    var param: Param
    var version: int
    var resourceList: seq<Resource>
    var closerSet: set<nat>
    var world: World  // the handles and threads around the pool, and the log of deletions

    function View(): State
      reads this
    {
      State(versioned, alive, maxPoolSize, maxIdleSize, count, param, version, resourceList, closerSet, world)
    }

    constructor (versioned: bool, param: Param, maxPoolSize: nat, maxIdleSize: nat)
      ensures View() == Initial(versioned, param, maxPoolSize, maxIdleSize)
    {
      this.versioned := versioned;
      alive := true;
      this.maxPoolSize, this.maxIdleSize := maxPoolSize, maxIdleSize;
      count := 0;
      this.param := param;
      version := 0;
      resourceList := [];
      closerSet := {};
      world := World(map[], 0, 0, [], map[]);
    }

    /** Wraps a resource into a shared pointer and registers its closer. */
    method Wrap(p: Resource) returns (handle: nat)
      modifies this`closerSet, this`world
      ensures View() == Grant(old(View()), p)
      ensures handle == old(world.nextHandle)
    {
      handle := world.nextHandle;
      world := world.(handles := world.handles[handle := Handle(p, true)], nextHandle := handle + 1);
      closerSet := closerSet + {handle};
    }

    /** Constructs a resource from the current parameters. */
    method Construct() returns (p: Resource)
      modifies this`world
      ensures p == Resource(old(world.nextResource), param, if versioned then version else 0)
      ensures world == old(world).(nextResource := old(world.nextResource) + 1)
    {
      p := Resource(world.nextResource, param, 0);
      world := world.(nextResource := world.nextResource + 1);
      if versioned {
        p := p.(version := version);
      }
    }

    method Get(built: bool) returns (r: Outcome)
      requires Enabled(View(), PoolSystem.Get(built))
      modifies this
      ensures View() == Apply(old(View()), PoolSystem.Get(built))
      ensures r == OutcomeOf(old(View()), PoolSystem.Get(built))
    {
      if resourceList == [] {
        if maxPoolSize > 0 && count >= maxPoolSize {
          return NoResource;
        }
        if !built {
          return CreateFailed;
        }
        var p := Construct();
        count := count + 1;
        var created := Wrap(p);
        return Granted(created);
      }
      var front := resourceList[0];
      resourceList := resourceList[1..];
      var handle := Wrap(front);
      return Granted(handle);
    }

    /** getWaitFor up to the point where it returns, throws, or blocks on the condition variable. */
    method GetWaitFor(thread: nat, timed: bool, built: bool) returns (r: Outcome)
      requires Enabled(View(), PoolSystem.GetWaitFor(thread, timed, built))
      modifies this
      ensures View() == Apply(old(View()), PoolSystem.GetWaitFor(thread, timed, built))
      ensures r == OutcomeOf(old(View()), PoolSystem.GetWaitFor(thread, timed, built))
    {
      if resourceList == [] {
        if maxPoolSize > 0 && count >= maxPoolSize {
          world := world.(waiters := world.waiters[thread := Waiter(timed, false)]);
          return Blocked;
        }
        if !built {
          return CreateFailed;
        }
        var p := Construct();
        count := count + 1;
        var created := Wrap(p);
        return Granted(created);
      }
      var front := resourceList[0];
      resourceList := resourceList[1..];
      var handle := Wrap(front);
      return Granted(handle);
    }

    /** A blocked thread wakes, for whatever reason, and tests its predicate under the lock. */
    method Wake(thread: nat, timedOut: bool) returns (r: Outcome)
      requires Enabled(View(), PoolSystem.Wake(thread, timedOut))
      modifies this
      ensures View() == Apply(old(View()), PoolSystem.Wake(thread, timedOut))
      ensures r == OutcomeOf(old(View()), PoolSystem.Wake(thread, timedOut))
    {
      var waiter := world.waiters[thread];
      if resourceList != [] {
        world := world.(waiters := world.waiters - {thread});
        var front := resourceList[0];
        resourceList := resourceList[1..];
        var handle := Wrap(front);
        return Granted(handle);
      }
      if timedOut && waiter.timed {
        world := world.(waiters := world.waiters - {thread});
        return TimedOut;
      }
      world := world.(waiters := world.waiters[thread := waiter.(notified := false)]);
      return Blocked;
    }

    method ReturnResource(p: Resource, closer: nat)
      modifies this`count, this`resourceList, this`world, this`closerSet
      ensures View() == TakeBack(old(View()), p).(closers := old(closerSet) - {closer})
    {
      if (!versioned || p.version == version) && |resourceList| < maxIdleSize {
        resourceList := resourceList + [p];
        world := world.(waiters := NotifyAll(world.waiters));
      } else {
        world := world.(freed := world.freed + [p]);
        count := count - 1;
      }
      closerSet := closerSet - {closer};
    }

    /** The closer of a handle: give the resource back to the pool it is bound to, or delete it. */
    method Release(handle: nat)
      requires Enabled(View(), PoolSystem.Release(handle))
      modifies this
      ensures View() == Apply(old(View()), PoolSystem.Release(handle))
    {
      var h := world.handles[handle];
      world := world.(handles := world.handles - {handle});
      if h.bound {
        ReturnResource(h.resource, handle);
      } else {
        world := world.(freed := world.freed + [h.resource]);
      }
    }

    method ReleaseIdleResource()
      modifies this`count, this`resourceList, this`world
      ensures View() == Flush(old(View()))
    {
      ghost var idle := resourceList;
      ghost var i := 0;
      while resourceList != []
        invariant 0 <= i <= |idle| && resourceList == idle[i..]
        invariant count == old(count) - i
        invariant world == old(world).(freed := old(world.freed) + idle[..i])
        decreases |resourceList|
      {
        var p := resourceList[0];
        resourceList := resourceList[1..];
        count := count - 1;
        world := world.(freed := world.freed + [p]);
        i := i + 1;
        assert idle[..i] == idle[..i - 1] + [p];
      }
      assert idle[..i] == idle;
    }

    method SetMaxPoolSize(n: nat)
      modifies this`maxPoolSize
      ensures View() == old(View()).(maxPool := n)
    {
      maxPoolSize := n;
    }

    method SetMaxIdleSize(n: nat)
      modifies this`maxIdleSize
      ensures View() == old(View()).(maxIdle := n)
    {
      maxIdleSize := n;
    }

    method SetParam(name: string, value: Value) returns (r: Outcome)
      requires Enabled(View(), PoolSystem.SetParam(name, value))
      modifies this
      ensures View() == Apply(old(View()), PoolSystem.SetParam(name, value))
      ensures r == OutcomeOf(old(View()), PoolSystem.SetParam(name, value))
    {
      if name in param {
        if !SameType(param[name], value) {
          return ParamMismatch;
        }
        if param[name] == value {
          return Done;
        }
      }
      param := param[name := value];
      version := version + 1;
      ReleaseIdleResource();
      return Done;
    }

    method SetParameter(param: Param)
      requires Enabled(View(), PoolSystem.SetParameter(param))
      modifies this
      ensures View() == Apply(old(View()), PoolSystem.SetParameter(param))
    {
      this.param := param;
      version := version + 1;
      ReleaseIdleResource();
    }

    method IncVersion()
      requires Enabled(View(), PoolSystem.IncVersion)
      modifies this`version
      ensures View() == Apply(old(View()), PoolSystem.IncVersion)
    {
      version := version + 1;
    }

    /** The destructor: unbind every registered closer, then delete every idle resource. */
    method Destroy()
      requires Enabled(View(), PoolSystem.Destroy) && closerSet <= world.handles.Keys
      modifies this
      ensures View() == Apply(old(View()), PoolSystem.Destroy)
    {
      UnbindClosers();
      DeleteIdle();
      alive := false;
      closerSet := {};
    }

    method UnbindClosers()
      requires closerSet <= world.handles.Keys
      modifies this`world
      ensures world == old(world).(handles := Unbound(old(world.handles), closerSet))
    {
      var todo := closerSet;
      while todo != {}
        invariant todo <= closerSet
        invariant world == old(world).(handles := world.handles)
        invariant world.handles == Unbound(old(world.handles), closerSet - todo)
        decreases todo
      {
        var closer := AnyCloser(todo);
        world := world.(handles := world.handles[closer := world.handles[closer].(bound := false)]);
        todo := todo - {closer};
      }
      assert closerSet - todo == closerSet;
    }

    method DeleteIdle()
      modifies this`resourceList, this`world
      ensures resourceList == [] && world == old(world).(freed := old(world.freed) + old(resourceList))
    {
      ghost var i := 0;
      while resourceList != []
        invariant 0 <= i <= |old(resourceList)| && resourceList == old(resourceList)[i..]
        invariant world == old(world).(freed := old(world.freed) + old(resourceList)[..i])
        decreases |resourceList|
      {
        var p := resourceList[0];
        resourceList := resourceList[1..];
        world := world.(freed := world.freed + [p]);
        i := i + 1;
        assert old(resourceList)[..i] == old(resourceList)[..i - 1] + [p];
      }
      assert old(resourceList)[..i] == old(resourceList);
    }
  }
}
