/**
 The life of a UDP remote, shadowsocksr-native/src/udprelay.c: one reference for its owner, one for each of the two
 close callbacks. `freed` counts how often it has been freed.
 */
module UdpRemote {

  /** What the owner's dying callback does: nothing, or `udp_remote_destroy`. */
  datatype Dying = None | Notify | Destroys

  class Remote {
    var refCount: int
    var shuttingDown: bool
    var dyingCb: Dying
    var freed: nat
    /** The owner has not called `udp_remote_destroy` yet. */
    var owned: bool
    /** What libuv still owes, and whether the timer can expire. */
    var timerClosing: bool
    var udpClosing: bool
    var timerActive: bool

    ghost function Pending(): int
      reads this
    {
      (if timerClosing then 1 else 0) + if udpClosing then 1 else 0
    }

    ghost predicate Valid()
      reads this
    {
      refCount == (if owned then 1 else 0) + Pending() && freed == (if refCount == 0 then 1 else 0) &&
      (shuttingDown ==> !timerActive) && (!shuttingDown ==> owned && Pending() == 0)
    }

    /** `udp_remote_launch_begin` */
    constructor ()
      ensures Valid() && !shuttingDown && owned && dyingCb == None
    {
      refCount, shuttingDown, dyingCb, freed, owned := 1, false, None, 0, true;
      timerClosing, udpClosing, timerActive := false, false, true;
    }

    method AddRef()
      requires freed == 0
      modifies `refCount
      ensures refCount == old(refCount) + 1
    {
      refCount := refCount + 1;
    }

    /** `udp_remote_ctx_t_release` */
    method Release()
      requires freed == 0 && refCount >= 1
      modifies `refCount, `freed
      ensures refCount == old(refCount) - 1 && freed == if refCount == 0 then 1 else 0
    {
      refCount := refCount - 1;
      if refCount <= 0 {
        assert refCount == 0;
        freed := freed + 1;
      }
    }

    /** `udp_remote_set_dying_callback`, by the owner. */
    method SetDying(d: Dying)
      requires Valid() && owned
      modifies `dyingCb
      ensures Valid() && dyingCb == d
    {
      assert freed == 0;
      dyingCb := d;
    }

    /** `udp_remote_shutdown`; the dying callback may destroy the remote on the way. */
    method Shutdown()
      requires Valid() && freed == 0
      modifies this
      ensures Valid() && freed == 0 && shuttingDown
      ensures owned == (old(owned) && (old(shuttingDown) || old(dyingCb) != Destroys))
      ensures Pending() == if old(shuttingDown) then old(Pending()) else 2
    {
      if shuttingDown {
        return;
      }
      shuttingDown := true;
      timerActive := false;
      timerClosing := true;
      AddRef();
      udpClosing := true;
      AddRef();
      if dyingCb != None {
        if dyingCb == Destroys {
          ReleaseByOwner();
        }
        assert freed == 0;
        dyingCb := None;
      }
    }

    /** The second half of `udp_remote_destroy`. */
    method ReleaseByOwner()
      requires freed == 0 && owned && refCount >= 1
      modifies `refCount, `freed, `owned
      ensures !owned && refCount == old(refCount) - 1 && freed == if refCount == 0 then 1 else 0
    {
      owned := false;
      Release();
    }

    /** `udp_remote_destroy`, by an owner whose dying callback is not going to do the same. */
    method Destroy()
      requires Valid() && owned && (dyingCb != Destroys || shuttingDown)
      modifies this
      ensures Valid() && !owned && shuttingDown
    {
      Shutdown();
      ReleaseByOwner();
    }

    /** `udp_remote_close_done_cb` */
    method CloseDone(timer: bool)
      requires Valid() && (if timer then timerClosing else udpClosing)
      modifies this
      ensures Valid() && shuttingDown && owned == old(owned) && Pending() == old(Pending()) - 1
    {
      if timer {
        timerClosing := false;
      } else {
        udpClosing := false;
      }
      Release();
    }

    /** `udp_remote_timeout_cb` */
    method Timeout()
      requires Valid() && timerActive
      modifies this
      ensures Valid() && freed == 0 && shuttingDown
    {
      timerActive := false;
      Shutdown();
    }

    /** `udp_remote_reset_timer`; libuv refuses to start a timer that is closing. */
    method ResetTimer()
      requires Valid() && freed == 0
      modifies `timerActive
      ensures Valid() && (shuttingDown ==> !timerActive)
    {
      timerActive := !shuttingDown;
    }

    /** `udp_remote_recv_cb` and `upd_remote_sent_cb`, before the close callback of the UDP handle. */
    method IoDone(failed: bool)
      requires Valid() && (shuttingDown ==> udpClosing)
      modifies this
      ensures Valid() && freed == 0 && shuttingDown == (old(shuttingDown) || failed)
    {
      assert freed == 0;
      if failed {
        Shutdown();
      } else {
        ResetTimer();
      }
    }

    /** Freed at most once, and exactly when there have been one destroy and both closes. */
    lemma NothingTooEarly()
      requires Valid()
      ensures freed <= 1 && refCount >= 0
      ensures freed == 1 <==> !owned && shuttingDown && Pending() == 0
    {
    }
  }

  datatype Event = Shutdown | Destroy | Timeout | Io(failed: bool) | Closed(timer: bool) | Set(dying: Dying)

  /** Whether libuv, or the owner, can cause the event now. */
  predicate Enabled(r: Remote, e: Event)
    reads r
  {
    match e
    case Shutdown => r.freed == 0
    case Destroy => r.owned && (r.dyingCb != Destroys || r.shuttingDown)
    case Timeout => r.timerActive
    case Io(_) => r.shuttingDown ==> r.udpClosing
    case Closed(timer) => if timer then r.timerClosing else r.udpClosing
    case Set(_) => r.owned
  }

  method Deliver(r: Remote, e: Event)
    requires r.Valid() && Enabled(r, e)
    modifies r
    ensures r.Valid()
  {
    match e
    case Shutdown => r.Shutdown();
    case Destroy => r.Destroy();
    case Timeout => r.Timeout();
    case Io(failed) => r.IoDone(failed);
    case Closed(timer) => r.CloseDone(timer);
    case Set(d) => r.SetDying(d);
  }

  /** A run of the event loop: any events, in any order, as long as each of them can happen. */
  method Run(events: seq<Event>) returns (r: Remote, n: nat)
    ensures r.Valid() && n <= |events|
    ensures n < |events| ==> !Enabled(r, events[n])
  {
    r := new Remote();
    n := 0;
    while n < |events| && Enabled(r, events[n])
      invariant n <= |events| && r.Valid() && fresh(r)
    {
      Deliver(r, events[n]);
      n := n + 1;
    }
  }
}
