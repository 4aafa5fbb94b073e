/** Non-blocking advisory file locks, as `flock` grants them.

    A lock belongs to an open file description: two descriptors of one process exclude
    each other just as those of two processes do.
 */
module Flock {
  datatype Lock<Fd(==)> = Shared(holders: set<Fd>) | Exclusive(holder: Fd) {
    predicate Holds(fd: Fd) {
      match this
      case Shared(fds) => fd in fds
      case Exclusive(owner) => fd == owner
    }

    predicate GrantsShared(fd: Fd) {
      Shared? || holder == fd
    }

    predicate GrantsExclusive(fd: Fd) {
      match this
      case Shared(fds) => fds <= {fd}
      case Exclusive(owner) => fd == owner
    }

    function LockShared(fd: Fd): Lock<Fd> {
      match this
      case Shared(fds) => Shared(fds + {fd})
      case Exclusive(owner) => if fd == owner then Shared({fd}) else this
    }

    function LockExclusive(fd: Fd): Lock<Fd> {
      if GrantsExclusive(fd) then Exclusive(fd) else this
    }

    function Unlock(fd: Fd): Lock<Fd> {
      match this
      case Shared(fds) => Shared(fds - {fd})
      case Exclusive(owner) => if fd == owner then Shared({}) else this
    }
  }
}
