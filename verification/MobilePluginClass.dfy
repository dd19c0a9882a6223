// apps/mobile-web/dev.coordination.ts: the variables shared by one plugin, and one server's wrapped
// `listen` and `close`. Every method runs up to the next await, and changes the variables as the
// `MobilePlugin` function it is named after.
module MobilePluginClass {
  import opened Prelude
  import opened MobilePlugin

  class PortCoordination {
    var generations: int
    var lease: Option<Lease>
    var lock: Holder
    ghost var held: set<nat>
    ghost var used: set<nat>

    ghost function Abs(): Shared
      reads this
    {
      Shared(generations, lease, lock, held, used)
    }

    constructor ()
      ensures Abs() == INIT.shared
    {
      generations, lease, lock, held, used := 0, None, Nobody, {}, {};
    }
  }

  class WrappedServer {
    const id: nat
    const plugin: PortCoordination
    var closed: bool
    var hookRan: bool
    var registered: bool
    var closing: Closing
    var pending: Pending

    ghost function Abs(): (Shared, Server)
      reads this, plugin
    {
      (plugin.Abs(), Server(closed, hookRan, registered, closing, pending))
    }

    constructor (id: nat, plugin: PortCoordination)
      ensures this.id == id && this.plugin == plugin && Abs() == (plugin.Abs(), FRESH)
    {
      this.id, this.plugin := id, plugin;
      closed, hookRan, registered, closing, pending := false, false, false, NotClosing, Idle;
    }

    method PostHook()
      modifies this, plugin
      ensures Abs() == MobilePlugin.PostHook(old(plugin.Abs()), old(Abs()).1)
    {
      hookRan := true;
      if !closed {
        registered := true;
        plugin.generations := plugin.generations + 1;
      }
    }

    method Listen(port: int)
      modifies this
      ensures Abs() == CallListen(old(plugin.Abs()), old(Abs()).1, port)
    {
      if closed || pending != Idle {
        return;
      }
      pending := Queued(port);
    }

    method OnLockGranted()
      requires pending.Queued?
      modifies this, plugin
      ensures Abs() == GrantLock(old(plugin.Abs()), old(Abs()).1, id)
    {
      if closed {
        pending := Idle;
        return;
      }
      plugin.lock := Listener(id);
      pending := Checking(pending.port);
    }

    method OnLockGivenUp()
      requires pending.Queued?
      modifies this`pending
      ensures Abs() == GiveUpLock(old(plugin.Abs()), old(Abs()).1)
    {
      pending := Idle;
    }

    method AfterCheck(free: bool)
      requires pending.Checking?
      modifies this, plugin
      ensures Abs() == EndCheck(old(plugin.Abs()), old(Abs()).1, free)
    {
      var candidate := pending.port;
      if candidate < 1 || candidate > 65535 || !free {
        LeaveLock();
        return;
      }
      if plugin.lease.Some? && plugin.lease.value.port == candidate {
        pending := Binding(candidate);
        return;
      }
      if closed {
        LeaveLock();
        return;
      }
      pending := Reserving(candidate, plugin.lease);   // `previous`
    }

    method LeaveLock()
      modifies this`pending, plugin`lock
      ensures Abs() == (Unlock(old(plugin.Abs())), old(Abs()).1.(pending := Idle))
    {
      plugin.lock := Nobody;
      pending := Idle;
    }

    method AfterReserve(token: Option<nat>)
      requires pending.Reserving?
      modifies this, plugin
      ensures Abs() == EndReserve(old(plugin.Abs()), old(Abs()).1, token)
    {
      if token == None {
        LeaveLock();
        return;
      }
      plugin.lease := Some(Lease(token.value, pending.port));
      plugin.held := plugin.held + {token.value};
      plugin.used := plugin.used + {token.value};
      pending := ReleasingOld(pending.port, pending.previous);
    }

    method AfterOldReleased()
      requires pending.ReleasingOld?
      modifies this, plugin`held
      ensures Abs() == EndReleaseOld(old(plugin.Abs()), old(Abs()).1)
    {
      plugin.held := Drop(plugin.held, pending.previous);
      pending := Binding(pending.port);
    }

    method AfterBind(bound: bool)
      requires pending.Binding?
      modifies this, plugin
      ensures Abs() == EndBind(old(plugin.Abs()), old(Abs()).1, bound)
    {
      if !bound {
        LeaveLock();
        return;
      }
      pending := Publishing(pending.port);
    }

    method AfterPublish()
      modifies this, plugin
      ensures Abs() == EndPublish(old(plugin.Abs()), old(Abs()).1)
    {
      LeaveLock();
    }

    method Close()
      modifies this
      ensures Abs() == CallClose(old(plugin.Abs()), old(Abs()).1)
    {
      if closing != NotClosing {
        return;
      }
      closed := true;
      closing := Joining;
    }

    method AfterJoin()
      modifies this
      ensures Abs() == EndJoin(old(plugin.Abs()), old(Abs()).1)
    {
      closing := ClosingServer;
    }

    method AfterServerClose()
      modifies this, plugin
      ensures Abs() == EndServerClose(old(plugin.Abs()), old(Abs()).1)
    {
      if registered {
        plugin.generations := plugin.generations - 1;
        if plugin.generations == 0 {
          var previous := plugin.lease;
          plugin.lease := None;
          closing := Releasing(previous);
          return;
        }
      }
      closing := Settled;
    }

    method AfterRelease()
      requires closing.Releasing?
      modifies this, plugin`held
      ensures Abs() == EndRelease(old(plugin.Abs()), old(Abs()).1)
    {
      plugin.held := Drop(plugin.held, closing.lease);
      closing := Settled;
    }
  }
}
