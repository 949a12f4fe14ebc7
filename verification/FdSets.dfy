/** The sets of file descriptors given to select(), with their greatest member. */
module FdSets {

  ghost predicate IsMaximum(fds: set<int>, max: int) {
    max in fds && forall x :: x in fds ==> x <= max
  }

  class FdSet {
    var fds: set<int>
    var max: int

    /** FD_ZERO() and a maximum of -1. */
    constructor ()
      ensures fds == {} && max == -1
    {
      fds, max := {}, -1;
    }

    /** rsysd_add_set() */
    method Add(fd: nat)
      modifies this
      ensures fds == old(fds) + {fd as int}
      ensures IsMaximum(old(fds), old(max)) || (old(fds) == {} && old(max) < fd) ==> IsMaximum(fds, max)
    {
      fds := fds + {fd as int};
      if fd > max {
        max := fd;
      }
    }

    /** rsysd_remove_set(): the maximum is looked for again, downwards; an emptied set keeps the old one. */
    method Remove(fd: int)
      requires forall x :: x in fds ==> 0 <= x
      modifies this
      ensures fds == old(fds) - {fd}
      ensures IsMaximum(old(fds), old(max)) ==> if fds == {} then max == old(max) else IsMaximum(fds, max)
    {
      fds := fds - {fd};
      if max == fd {
        var i := fd - 1;
        while i >= 0
          invariant i < fd && max == fd && fds == old(fds) - {fd}
          invariant forall x :: x in fds && i < x ==> x > fd
          decreases i
        {
          if i in fds {
            max := i;
            break;
          }
          i := i - 1;
        }
      }
    }
  }
}
