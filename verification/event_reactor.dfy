/** `event_reactor` (event_reactor.h): a map from watched fd to callback, kept
    in step with the kernel's epoll interest list, and the dispatch loop.

    The callbacks are values of a type `C` naming them; the loop does not call
    them but returns the calls it makes, in order. */
module EventReactor {
  import opened Wrappers
  import opened Os

  /** `max_events`: the size of the array `epoll_wait` fills. */
  const MaxEvents := 10

  /** One callback invocation `callback(fd, events)`. */
  datatype Call<C> = Call(callback: C, fd: int, events: int)

  /** What one round of the loop got from `epoll_wait`. */
  datatype WaitOutcome = Interrupted | Failed(errno: int) | Ready(entries: seq<ReadyEvent>)

  /** A round the loop went on from: interrupted, or at most `MaxEvents`
      entries, each for an fd with a callback. */
  predicate Dispatchable<C>(w: WaitOutcome, callbacks: map<int, C>) {
    match w
    case Interrupted => true
    case Failed(_) => false
    case Ready(entries) => |entries| <= MaxEvents && forall i :: 0 <= i < |entries| ==> entries[i].fd in callbacks
  }

  /** The calls the inner `for` loop makes for `entries`, in their order. */
  function Dispatches<C>(callbacks: map<int, C>, entries: seq<ReadyEvent>): (calls: seq<Call<C>>)
    requires forall i :: 0 <= i < |entries| ==> entries[i].fd in callbacks
    ensures |calls| == |entries|
    ensures forall i :: 0 <= i < |entries| ==>
      calls[i].fd == entries[i].fd && calls[i].events == entries[i].events &&
      calls[i].callback == callbacks[entries[i].fd]
    decreases |entries|
  {
    if entries == [] then []
    else
      var last := entries[|entries| - 1];
      Dispatches(callbacks, entries[..|entries| - 1]) + [Call(callbacks[last.fd], last.fd, last.events)]
  }

  /** The calls made over the rounds `waits`, in order. */
  function AllDispatches<C>(callbacks: map<int, C>, waits: seq<WaitOutcome>): seq<Call<C>>
    requires forall i :: 0 <= i < |waits| ==> Dispatchable(waits[i], callbacks)
    decreases |waits|
  {
    if waits == [] then []
    else
      var earlier := AllDispatches(callbacks, waits[..|waits| - 1]);
      var last := waits[|waits| - 1];
      assert Dispatchable(last, callbacks);
      match last
      case Ready(entries) => earlier + Dispatches(callbacks, entries)
      case _ => earlier
  }

  /** An interrupted wait dispatches nothing, and no round dispatches more than
      `MaxEvents` calls. */
  lemma {:induction false} DispatchBound<C>(callbacks: map<int, C>, waits: seq<WaitOutcome>)
    requires forall i :: 0 <= i < |waits| ==> Dispatchable(waits[i], callbacks)
    ensures |AllDispatches(callbacks, waits)| <= MaxEvents * |Readies(waits)|
    ensures |AllDispatches(callbacks, waits)| <= MaxEvents * |waits|
    decreases |waits|
  {
    if waits != [] {
      var init := waits[..|waits| - 1];
      assert forall i :: 0 <= i < |init| ==> init[i] == waits[i];
      DispatchBound(callbacks, init);
      ReadiesBound(init);
      assert Readies(waits) == Readies(init) + (if waits[|waits| - 1].Ready? then [waits[|waits| - 1]] else []);
    }
  }

  /** The rounds that returned entries. */
  function Readies(waits: seq<WaitOutcome>): seq<WaitOutcome>
    decreases |waits|
  {
    if waits == [] then []
    else Readies(waits[..|waits| - 1]) + if waits[|waits| - 1].Ready? then [waits[|waits| - 1]] else []
  }

  lemma {:induction false} ReadiesBound(waits: seq<WaitOutcome>)
    ensures |Readies(waits)| <= |waits|
    ensures forall w :: w in Readies(waits) ==> w.Ready? && w in waits
    decreases |waits|
  {
    if waits != [] {
      ReadiesBound(waits[..|waits| - 1]);
    }
  }

  class EventReactor<C(==)> {
    var epoll: Epoll
    var callbacks: map<int, C>

    /** The kernel watches exactly the fds that have a callback. */
    predicate Valid()
      reads this, epoll
    {
      epoll.interest.Keys == callbacks.Keys
    }

    /** A reactor over a new epoll instance watches nothing. */
    constructor ()
      ensures Valid() && fresh(epoll)
      ensures callbacks == map[]
    {
      epoll := new Epoll();
      callbacks := map[];
    }

    /** `add_fd_watch(fd, events, handler)`: ADD, retried as MOD when the fd
        is already watched; on success `handler` becomes (or replaces) the
        callback of `fd`.  A failing `epoll_ctl` is reported before the
        callback map is touched, so both stay as they were. */
    method AddFdWatch(fd: int, events: int, handler: C) returns (err: Option<int>)
      requires Valid()
      modifies this, epoll
      ensures Valid() && epoll == old(epoll)
      ensures err.None? ==> callbacks == old(callbacks)[fd := handler]
      ensures err.None? ==> epoll.interest == old(epoll.interest)[fd := events]
      ensures err.Some? ==> callbacks == old(callbacks) && epoll.interest == old(epoll.interest)
      ensures err.Some? ==> err.value != EEXIST
    {
      var r, errno := epoll.Ctl(CtlAdd, fd, events);
      if r == -1 {
        if errno == EEXIST {
          r, errno := epoll.Ctl(CtlMod, fd, events);
          if r == -1 {
            return Some(errno);
          }
        } else {
          return Some(errno);
        }
      }
      callbacks := callbacks[fd := handler];
      err := None;
    }

    /** `delete_fd_watch(fd)`: DEL, then the callback of `fd` is erased; a
        failing `epoll_ctl` (an fd that is not watched, among others) is
        reported and nothing changes. */
    method DeleteFdWatch(fd: int) returns (err: Option<int>)
      requires Valid()
      modifies this, epoll
      ensures Valid() && epoll == old(epoll)
      ensures err.None? ==> fd in old(callbacks) && callbacks == old(callbacks) - {fd}
      ensures err.None? ==> epoll.interest == old(epoll.interest) - {fd}
      ensures err.Some? ==> callbacks == old(callbacks) && epoll.interest == old(epoll.interest)
      ensures fd !in old(callbacks) ==> err == Some(ENOENT)
    {
      var r, errno := epoll.Ctl(CtlDel, fd, 0);
      if r == -1 {
        return Some(errno);
      }
      callbacks := callbacks - {fd};
      err := None;
    }

    /** `rounds` rounds of `run`'s loop.  EINTR starts the next round with
        nothing dispatched; any other failure ends the loop with its errno.
        Each returned entry is dispatched to its fd's callback, in order; the
        `assert` of event_reactor.h:84 is proved from `Valid`. */
    method Run(rounds: nat) returns (waits: seq<WaitOutcome>, calls: seq<Call<C>>, err: Option<int>)
      requires Valid()
      ensures |waits| <= rounds
      ensures err.None? ==> |waits| == rounds
      ensures forall i :: 0 <= i < |waits| - 1 ==> Dispatchable(waits[i], callbacks)
      ensures err.None? ==> forall i :: 0 <= i < |waits| ==> Dispatchable(waits[i], callbacks)
      ensures err.Some? ==> waits != [] && waits[|waits| - 1] == Failed(err.value) && err.value != EINTR
      ensures calls == AllDispatches(callbacks, if err.None? then waits else waits[..|waits| - 1])
    {
      waits, calls, err := [], [], None;
      var round := 0;
      while round < rounds
        invariant round <= rounds && |waits| == round
        invariant forall i :: 0 <= i < |waits| ==> Dispatchable(waits[i], callbacks)
        invariant calls == AllDispatches(callbacks, waits)
      {
        var n, ready, errno := epoll.Wait(MaxEvents);
        round := round + 1;
        if n == -1 {
          if errno == EINTR {
            assert (waits + [Interrupted])[..|waits|] == waits;
            waits := waits + [Interrupted];
            continue;
          }
          assert (waits + [Failed(errno)])[..|waits|] == waits;
          waits := waits + [Failed(errno)];
          err := Some(errno);
          return;
        }
        var batch: seq<Call<C>> := [];
        var i := 0;
        while i < n
          invariant i <= n
          invariant batch == Dispatches(callbacks, ready[..i])
        {
          assert ready[i].fd in callbacks;
          assert ready[..i + 1][..i] == ready[..i];
          batch := batch + [Call(callbacks[ready[i].fd], ready[i].fd, ready[i].events)];
          i := i + 1;
        }
        assert ready[..n] == ready;
        assert (waits + [Ready(ready)])[..|waits|] == waits;
        waits := waits + [Ready(ready)];
        calls := calls + batch;
      }
    }
  }
}
