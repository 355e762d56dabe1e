/**
 How a tunnel and its two sockets go away: shadowsocksr-native/src/tunnel.c on the reference counts of
 ref_count_def.h. The event loop may deliver, in any order, whatever libuv still owes. `freed` counts how often an
 object has been freed; every method that touches an object requires that it has not been.
 */
module TunnelTeardown {

  /** `struct socket_ctx` with its stream handle and its timer handle. */
  class Socket {
    var refCount: int
    var closingCount: int
    var isTerminated: bool
    /** `rdstate` and `wrstate` are `socket_state_dead`. */
    var dead: bool
    /** `on_closed` is set. */
    var onClosed: bool
    var freed: nat
    /** What libuv still owes: a close callback for either handle, an expiry of the timer. */
    var streamClosing: bool
    var timerClosing: bool
    var timerActive: bool

    /** `socket_context_create` */
    constructor ()
      ensures refCount == 1 && freed == 0 && !isTerminated && !dead && !onClosed && closingCount == 0
      ensures !streamClosing && !timerClosing && !timerActive
    {
      refCount, closingCount, isTerminated, dead, onClosed := 1, 0, false, false, false;
      streamClosing, timerClosing, timerActive, freed := false, false, false, 0;
    }

    ghost function Pending(): int
      reads this
    {
      (if streamClosing then 1 else 0) + if timerClosing then 1 else 0
    }

    /** The state of a socket of a tunnel that is `terminated`, with `holders` references besides the callbacks'. */
    ghost predicate Ok(terminated: bool, holders: int)
      reads this
    {
      refCount == holders + Pending() && freed == (if refCount == 0 then 1 else 0) &&
      isTerminated == dead == terminated && (onClosed <==> Pending() > 0) &&
      closingCount == Pending() && (terminated ==> !timerActive) && (!terminated ==> Pending() == 0)
    }

    /** `socket_ctx_add_ref` */
    method AddRef()
      requires freed == 0
      modifies `refCount
      ensures refCount == old(refCount) + 1
    {
      refCount := refCount + 1;
    }

    /** `socket_ctx_release` */
    method Release()
      requires freed == 0 && refCount >= 1
      modifies `refCount, `freed
      ensures refCount == old(refCount) - 1 && freed == if refCount == 0 then 1 else 0
    {
      refCount := refCount - 1;
      if refCount <= 0 {
        assert refCount == 0;
        freed := freed + 1;
      }
    }

    /** `socket_ctx_timer_start` */
    method TimerStart()
      requires freed == 0 && !isTerminated
      modifies `timerActive
      ensures timerActive
    {
      timerActive := true;
    }

    /** `socket_ctx_close`, of a socket that is not yet closed and has `holders` references. */
    method Close(ghost holders: int)
      requires freed == 0 && holders >= 1 && Ok(false, holders)
      modifies this
      ensures Ok(true, holders) && Pending() == 2 && freed == 0
    {
      isTerminated := true;
      assert !dead;
      dead := true;
      timerActive := false;
      AddRef();
      streamClosing := true;
      AddRef();
      timerClosing := true;
      closingCount := 2;
      onClosed := true;
    }
  }

  /** `struct tunnel_ctx` */
  class Tunnel {
    const incoming: Socket
    const outgoing: Socket
    var refCount: int
    var isTerminated: bool
    var freed: nat
    /** References that other owners took with `tunnel_ctx_add_ref` and have not given back. */
    var holders: nat

    ghost function Due(s: Socket): int
      reads s
    {
      if s.onClosed then 1 else 0
    }

    ghost predicate Valid()
      reads this, incoming, outgoing
    {
      ValidWithin(0, 0)
    }

    /** `Valid`, while a timer callback holds `i` references to the incoming and `o` to the outgoing socket. */
    ghost predicate ValidWithin(i: nat, o: nat)
      reads this, incoming, outgoing
    {
      incoming != outgoing &&
      refCount == (if isTerminated then 0 else 1) + Due(incoming) + Due(outgoing) + holders &&
      freed == (if refCount == 0 then 1 else 0) &&
      incoming.Ok(isTerminated, 1 - freed + i) && outgoing.Ok(isTerminated, 1 - freed + o)
    }

    /** `tunnel_initialize` */
    constructor ()
      ensures Valid() && !isTerminated && holders == 0 && fresh(incoming) && fresh(outgoing)
    {
      var i := new Socket();
      var o := new Socket();
      incoming, outgoing, refCount, isTerminated, freed, holders := i, o, 1, false, 0, 0;
    }

    /** `tunnel_ctx_add_ref` */
    method AddRef()
      requires freed == 0
      modifies `refCount
      ensures refCount == old(refCount) + 1
    {
      refCount := refCount + 1;
    }

    /** `tunnel_ctx_release`, with `tunnel_destroy_internal`. */
    method Release()
      requires freed == 0 && refCount >= 1 && incoming != outgoing
      requires incoming.freed == outgoing.freed == 0 && incoming.refCount >= 1 && outgoing.refCount >= 1
      modifies `refCount, `freed, incoming`refCount, incoming`freed, outgoing`refCount, outgoing`freed
      ensures refCount == old(refCount) - 1 && freed == if refCount == 0 then 1 else 0
      ensures incoming.refCount == old(incoming.refCount) - freed && outgoing.refCount == old(outgoing.refCount) - freed
      ensures incoming.freed == if incoming.refCount == 0 then 1 else 0
      ensures outgoing.freed == if outgoing.refCount == 0 then 1 else 0
    {
      refCount := refCount - 1;
      if refCount <= 0 {
        assert refCount == 0;
        incoming.Release();
        outgoing.Release();
        freed := freed + 1;
      }
    }

    /** `tunnel_shutdown` */
    method Shutdown(ghost i: nat := 0, ghost o: nat := 0)
      requires ValidWithin(i, o) && freed == 0
      modifies this, incoming, outgoing
      ensures ValidWithin(i, o) && freed == 0 && isTerminated && holders == old(holders)
      ensures incoming.freed == outgoing.freed == 0
      ensures old(isTerminated) ==> refCount == old(refCount) && unchanged(incoming) && unchanged(outgoing)
      ensures !old(isTerminated) ==> incoming.Pending() == outgoing.Pending() == 2
    {
      if isTerminated {
        return;
      }
      isTerminated := true;
      AddRef();
      incoming.Close(1 + i);
      AddRef();
      outgoing.Close(1 + o);
      Release();
    }

    /** `uv_socket_close_done_cb` with `tunnel_socket_ctx_on_closed_cb`, for one of the two handles of `s`. */
    method CloseDone(s: Socket, stream: bool)
      requires Valid() && (s == incoming || s == outgoing) && (if stream then s.streamClosing else s.timerClosing)
      modifies this, incoming, outgoing
      ensures Valid() && isTerminated && s.Pending() == old(s.Pending()) - 1 && holders == old(holders)
      ensures var other := if s == incoming then outgoing else incoming; other.Pending() == old(other.Pending())
    {
      if stream {
        s.streamClosing := false;
      } else {
        s.timerClosing := false;
      }
      assert s.freed == 0;
      s.closingCount := s.closingCount - 1;
      if s.closingCount <= 0 {
        assert s.closingCount == 0;
        if s.onClosed {
          assert freed == 0;
          Release();
          assert s.freed == 0;
          s.onClosed := false;
        }
      }
      s.Release();
    }

    /** `uv_socket_timer_expire_cb` with `tunnel_socket_ctx_on_timeout_cb`. */
    method TimerExpire(s: Socket)
      requires Valid() && (s == incoming || s == outgoing) && s.timerActive
      modifies this, incoming, outgoing
      ensures Valid() && isTerminated && freed == 0 && holders == old(holders)
    {
      s.timerActive := false;
      assert s.freed == 0;
      s.AddRef();
      if !isTerminated {
        Shutdown(if s == incoming then 1 else 0, if s == outgoing then 1 else 0);
      }
      s.Release();
    }

    /** A read, write or connect callback; libuv delivers them before the close callback of the stream. */
    method IoDone(s: Socket, failed: bool)
      requires Valid() && (s == incoming || s == outgoing) && (isTerminated ==> s.streamClosing)
      modifies this, incoming, outgoing
      ensures Valid() && freed == 0 && holders == old(holders)
      ensures isTerminated == (old(isTerminated) || failed)
    {
      assert s.freed == 0 && freed == 0;
      if isTerminated {
        return;
      }
      if failed {
        Shutdown();
      } else {
        s.TimerStart();
      }
    }

    /** Another owner takes a reference, or gives one back. */
    method Hold()
      requires Valid() && freed == 0
      modifies `refCount, `holders
      ensures Valid() && freed == 0 && holders == old(holders) + 1
    {
      AddRef();
      holders := holders + 1;
    }

    method Unhold()
      requires Valid() && holders > 0
      modifies this, incoming`refCount, incoming`freed, outgoing`refCount, outgoing`freed
      ensures Valid() && holders == old(holders) - 1 && isTerminated == old(isTerminated)
    {
      assert freed == 0;
      holders := holders - 1;
      Release();
    }

    /** The tunnel goes only after both sockets have closed, and a socket only after both its handles have. */
    lemma NothingTooEarly()
      requires Valid()
      ensures freed <= 1 && incoming.freed <= 1 && outgoing.freed <= 1
      ensures refCount >= 0 && incoming.refCount >= 0 && outgoing.refCount >= 0
      ensures freed == 1 ==> isTerminated && incoming.Pending() == outgoing.Pending() == 0 && holders == 0
      ensures incoming.freed == 1 ==> incoming.Pending() == 0 && freed == 1
      ensures outgoing.freed == 1 ==> outgoing.Pending() == 0 && freed == 1
    {
    }

    /** When a shut-down tunnel is owed nothing and held by nobody, all three objects have been freed, once. */
    lemma NothingLeft()
      requires Valid() && isTerminated && incoming.Pending() == outgoing.Pending() == 0 && holders == 0
      ensures freed == incoming.freed == outgoing.freed == 1
    {
    }

    /** How many callbacks and references are still out. */
    ghost function Owed(): nat
      reads this, incoming, outgoing
    {
      incoming.Pending() + outgoing.Pending() + holders
    }
  }

  datatype Which = In | Out

  datatype Event =
    | Shutdown
    | Closed(which: Which, stream: bool)
    | Expired(which: Which)
    | Io(which: Which, failed: bool)
    | Hold
    | Unhold

  function SocketOf(t: Tunnel, w: Which): Socket { if w == In then t.incoming else t.outgoing }

  /** Whether libuv, or an owner that still has the tunnel, can cause the event now. */
  predicate Enabled(t: Tunnel, e: Event)
    reads t, t.incoming, t.outgoing
  {
    match e
    case Shutdown => t.freed == 0
    case Closed(w, stream) => if stream then SocketOf(t, w).streamClosing else SocketOf(t, w).timerClosing
    case Expired(w) => SocketOf(t, w).timerActive
    case Io(w, _) => t.isTerminated ==> SocketOf(t, w).streamClosing
    case Hold => t.freed == 0
    case Unhold => t.holders > 0
  }

  method Deliver(t: Tunnel, e: Event)
    requires t.Valid() && Enabled(t, e)
    modifies t, t.incoming, t.outgoing
    ensures t.Valid() && (old(t.isTerminated) ==> t.isTerminated)
    ensures old(t.isTerminated) && (e.Closed? || e.Unhold?) ==> t.Owed() == old(t.Owed()) - 1
  {
    match e
    case Shutdown => t.Shutdown();
    case Closed(w, stream) => t.CloseDone(SocketOf(t, w), stream);
    case Expired(w) => t.TimerExpire(SocketOf(t, w));
    case Io(w, failed) => t.IoDone(SocketOf(t, w), failed);
    case Hold => t.Hold();
    case Unhold => t.Unhold();
  }

  /** A run of the event loop: any events, in any order, as long as each of them can happen. */
  method Run(events: seq<Event>) returns (t: Tunnel, n: nat)
    ensures t.Valid() && n <= |events|
    ensures n < |events| ==> !Enabled(t, events[n])
  {
    t := new Tunnel();
    n := 0;
    while n < |events| && Enabled(t, events[n])
      invariant n <= |events| && t.Valid() && fresh(t) && fresh(t.incoming) && fresh(t.outgoing)
    {
      Deliver(t, events[n]);
      n := n + 1;
    }
  }

  /** A shut-down tunnel is never stuck: while anything is owed, some of it can be delivered. */
  lemma NeverStuck(t: Tunnel)
    requires t.Valid() && t.isTerminated && t.Owed() > 0
    ensures exists e: Event :: (e.Closed? || e.Unhold?) && Enabled(t, e)
  {
    var w := if t.incoming.Pending() > 0 then In else Out;
    if t.holders > 0 {
      assert Enabled(t, Unhold);
    } else {
      assert Enabled(t, Closed(w, true)) || Enabled(t, Closed(w, false));
    }
  }
}
