/**
 The global list of the PDIP objects: a doubly linked list without sentinel, where pdip_new() puts an
 object at the head, pdip_delete() takes one out anywhere, and the handler of SIGCHLD looks for a pid.
 */
module CtxList {
  import opened Lists

  class Context {
    var pid: int
    var prev: Context?
    var next: Context?

    constructor (pid: int)
      ensures this.pid == pid && prev == null && next == null
    {
      this.pid, prev, next := pid, null, null;
    }
  }

  class CtxList {
    var head: Context?
    ghost var list: seq<Context>

    /** The links from the head follow `list` forwards and backwards; no object is there twice. */
    ghost predicate Valid()
      reads this, list
    {
      && head == At(list, 0)
      && (forall k, l :: 0 <= k < l < |list| ==> list[k] != list[l])
      && (forall k :: 0 <= k < |list| ==> NodeLinked(k))
    }

    ghost predicate NodeLinked(k: nat)
      requires k < |list|
      reads this, list
    {
      Chained(list, k, list[k].prev, list[k].next)
    }

    constructor ()
      ensures Valid() && list == []
    {
      head, list := null, [];
    }

    /** The insertion in pdip_new() */
    method Insert(c: Context)
      requires Valid() && c !in list
      modifies this, c, list`prev
      ensures Valid() && list == [c] + old(list) && c.pid == old(c.pid)
    {
      c.prev := null;
      c.next := head;
      if head != null {
        assert NodeLinked(0);
        head.prev := c;
      }
      head := c;
      list := [c] + list;
      forall k | 0 <= k < |list| ensures NodeLinked(k) {
        if k > 0 {
          assert old(NodeLinked(k - 1)) && list[k] == old(list)[k - 1];
        }
      }
    }

    ghost predicate NodeBypassing(j: nat, k: nat)
      requires j < |list|
      reads this, list
    {
      Bypassing(list, j, k, list[j].prev, list[j].next)
    }

    /** pdip_unlink_ctx(): the object leaves the list wherever it stands, its own links stay. */
    method Unlink(c: Context, ghost k: nat)
      requires Valid() && k < |list| && list[k] == c
      modifies this, list`prev, list`next
      ensures Valid() && list == Without(old(list), k) && c !in list
      ensures c.prev == old(c.prev) && c.next == old(c.next)
    {
      assert NodeLinked(k);
      assert k > 0 ==> NodeLinked(k - 1);
      assert k + 1 < |list| ==> NodeLinked(k + 1);
      if c.prev != null {
        c.prev.next := c.next;
      }
      if c.next != null {
        c.next.prev := c.prev;
      }
      if head == c {
        head := c.next;
      }
      forall j | 0 <= j < |list| && j != k ensures NodeBypassing(j, k) { assert old(NodeLinked(j)); }
      Forget(k);
    }

    ghost method Forget(k: nat)
      requires k < |list| && forall i, j :: 0 <= i < j < |list| ==> list[i] != list[j]
      requires head == At(list, if k == 0 then 1 else 0)
      requires forall j :: 0 <= j < |list| && j != k ==> NodeBypassing(j, k)
      modifies this`list
      ensures Valid() && list == Without(old(list), k) && old(list)[k] !in list
    {
      list := Without(list, k);
      forall j | 0 <= j < |list| ensures NodeLinked(j) {
        assert old(NodeBypassing(Origin(k, j), k));
        Relinked(old(list), k, j, list[j].prev, list[j].next);
      }
      WithoutMembers(old(list), k);
      WithoutDiffer(old(list), k);
      Neighbours(old(list), k, -1);
    }

    /** The walk of the handler: the first object with that pid. */
    method Find(pid: int) returns (c: Context?)
      requires Valid()
      ensures c != null ==> c in list && c.pid == pid
      ensures c == null ==> forall x :: x in list ==> x.pid != pid
      ensures forall k :: 0 <= k < |list| && list[k] == c ==> forall j :: 0 <= j < k ==> list[j].pid != pid
    {
      c := head;
      ghost var n := 0;
      while c != null && c.pid != pid
        invariant n <= |list| && c == At(list, n) && forall j :: 0 <= j < n ==> list[j].pid != pid
        decreases |list| - n
      {
        assert NodeLinked(n);
        c, n := c.next, n + 1;
      }
    }

    /** The walk of pdip_delete(): whether the object is in the list. */
    method Contains(c: Context) returns (found: bool)
      requires Valid()
      ensures found == (c in list)
    {
      var p := head;
      ghost var n := 0;
      while p != null && p != c
        invariant n <= |list| && p == At(list, n) && forall j :: 0 <= j < n ==> list[j] != c
        decreases |list| - n
      {
        assert NodeLinked(n);
        p, n := p.next, n + 1;
      }
      found := p != null;
    }

    /** The head of the list is taken out, and its links are reset. */
    method RemoveHead() returns (c: Context)
      requires Valid() && head != null
      modifies this, list`prev, list`next
      ensures old(list) != [] && c == old(list)[0] && list == old(list)[1..]
      ensures Valid() && c.prev == null && c.next == null
    {
      c := head;
      Unlink(c, 0);
      assert list == old(list)[1..];
      assert forall k :: 0 <= k < |list| ==> list[k] != c;
      label Unlinked:
      c.prev, c.next := null, null;
      forall k | 0 <= k < |list| ensures NodeLinked(k) { assert old@Unlinked(NodeLinked(k)); }
    }

    /** pdip_child_fork(): the objects are taken out from the head, each of them once, in their order. */
    method Clear() returns (ghost met: seq<Context>)
      requires Valid()
      modifies this, list`prev, list`next
      ensures Valid() && list == [] && met == old(list)
    {
      met := [];
      ghost var n := 0;
      while head != null
        invariant Valid() && n <= |old(list)| && met == old(list)[..n] && list == old(list)[n..]
        decreases |list|
      {
        assert forall k :: 0 <= k < |list| ==> list[k] == old(list)[n + k];
        var c := RemoveHead();
        met, n := met + [c], n + 1;
      }
    }
  }
}
