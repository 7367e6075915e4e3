/** The system calls the daemon makes, abstracted.  The kernel's answers that
    depend on things outside the program (other processes, signals, memory
    pressure) are nondeterministic choices; what the kernel guarantees about
    them is stated in each contract.  Error numbers are Linux's. */
module Os {

  const EINTR := 4
  const EIO := 5
  const EBADF := 9
  const EAGAIN := 11
  const ENOMEM := 12
  const ENOENT := 2
  const EEXIST := 17
  const EINVAL := 22
  const ENOSPC := 28

  /** A named pipe opened `O_RDWR | O_NONBLOCK`: the bytes written into it and
      not yet read.  Since the daemon itself holds a write end, a read never
      sees end-of-file. */
  class Fifo {
    var pending: seq<char>

    constructor (initial: seq<char>)
      ensures pending == initial
    {
      pending := initial;
    }

    /** `read(fd, buf, count)`: -1 with EAGAIN when the pipe is empty,
        otherwise the oldest `min(count, available)` bytes, unless the call
        fails for a reason outside the program (a signal, an I/O error). */
    method Read(count: nat) returns (n: int, data: seq<char>, errno: int)
      requires count > 0
      modifies this
      ensures n == -1 || n == |data|
      ensures n == -1 ==> pending == old(pending) && data == [] && errno != 0
      ensures old(pending) == [] ==> n == -1 && errno == EAGAIN
      ensures n != -1 ==> 0 < n <= count && n == Min(count, |old(pending)|)
      ensures n != -1 ==> data == old(pending)[..n] && pending == old(pending)[n..]
    {
      if pending == [] {
        return -1, [], EAGAIN;
      }
      var interrupted: bool :| true;
      if interrupted {
        errno :| errno in {EINTR, EIO};
        return -1, [], errno;
      }
      n := Min(count, |pending|);
      data := pending[..n];
      pending := pending[n..];
      errno := 0;
    }

    /** `write(fd, bytes, |bytes|)` on a non-blocking pipe: some nonempty
        prefix of `bytes` is appended, or the call fails (the pipe is full,
        a signal, an I/O error) and nothing is written. */
    method Write(bytes: seq<char>) returns (n: int, errno: int)
      requires bytes != []
      modifies this
      ensures n == -1 || 0 < n <= |bytes|
      ensures n == -1 ==> pending == old(pending) && errno != 0
      ensures n != -1 ==> pending == old(pending) + bytes[..n]
    {
      var fails: bool :| true;
      if fails {
        errno :| errno in {EAGAIN, EINTR, EIO};
        return -1, errno;
      }
      n :| 0 < n <= |bytes|;
      pending := pending + bytes[..n];
      errno := 0;
    }
  }

  function Min(a: int, b: int): (m: int)
    ensures m <= a && m <= b && (m == a || m == b)
  {
    if a <= b then a else b
  }

  /** The three `epoll_ctl` operations. */
  datatype CtlOp = CtlAdd | CtlMod | CtlDel

  /** One entry filled in by `epoll_wait`: the fd and its ready events. */
  datatype ReadyEvent = ReadyEvent(fd: int, events: int)

  /** What a successful `epoll_ctl` does to the interest list. */
  function CtlEffect(interest: map<int, int>, op: CtlOp, fd: int, events: int): map<int, int> {
    match op
    case CtlAdd => interest[fd := events]
    case CtlMod => interest[fd := events]
    case CtlDel => interest - {fd}
  }

  /** An epoll instance: the kernel's interest list, from watched fd to the
      events asked for. */
  class Epoll {
    var interest: map<int, int>

    /** `epoll_create`: a new instance watches nothing. */
    constructor ()
      ensures interest == map[]
    {
      interest := map[];
    }

    /** `epoll_ctl(epfd, op, fd, &ee)`.  Adding a watched fd fails with EEXIST
        and modifying or deleting an unwatched one fails with ENOENT; any call
        may also fail for reasons outside the program (no memory, the watch
        limit).  A failed call leaves the interest list as it was. */
    method Ctl(op: CtlOp, fd: int, events: int) returns (r: int, errno: int)
      modifies this
      ensures r == 0 || r == -1
      ensures r == 0 ==> interest == CtlEffect(old(interest), op, fd, events)
      ensures r == -1 ==> interest == old(interest) && errno != 0
      ensures op == CtlAdd && fd in old(interest) ==> r == -1 && errno == EEXIST
      ensures op != CtlAdd && fd !in old(interest) ==> r == -1 && errno == ENOENT
      ensures r == -1 && errno == EEXIST ==> op == CtlAdd && fd in old(interest)
    {
      if op == CtlAdd && fd in interest {
        return -1, EEXIST;
      }
      if op != CtlAdd && fd !in interest {
        return -1, ENOENT;
      }
      var fails: bool :| true;
      if fails {
        errno :| errno in {ENOMEM, ENOSPC};
        return -1, errno;
      }
      interest := CtlEffect(interest, op, fd, events);
      r, errno := 0, 0;
    }

    /** `epoll_wait(epfd, ees, maxEvents, timeout)`: at most `maxEvents`
        entries, each for a watched fd, in the kernel's order (none when the
        timeout expires), or -1 when interrupted by a signal (EINTR) or
        failing otherwise. */
    method Wait(maxEvents: nat) returns (n: int, ready: seq<ReadyEvent>, errno: int)
      requires maxEvents > 0
      ensures n == -1 ==> ready == [] && errno != 0
      ensures n != -1 ==> n == |ready| <= maxEvents
      ensures forall i :: 0 <= i < |ready| ==> ready[i].fd in interest
    {
      var fails: bool :| true;
      if fails {
        errno :| errno in {EINTR, EBADF, EINVAL};
        return -1, [], errno;
      }
      ready :| |ready| <= maxEvents && forall i :: 0 <= i < |ready| ==> ready[i].fd in interest;
      n, errno := |ready|, 0;
    }
  }
}
