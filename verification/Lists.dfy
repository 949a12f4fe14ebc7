/** Sequences with an element taken out, for the doubly linked lists. */
module Lists {

  ghost function Without<T>(s: seq<T>, k: nat): seq<T>
    requires k < |s|
  {
    s[..k] + s[k + 1..]
  }

  /** Where the element `j` of Without(s, k) was. */
  ghost function Origin(k: nat, j: int): int {
    if j < k then j else j + 1
  }

  lemma WithoutAt<T>(s: seq<T>, k: nat, j: nat)
    requires k < |s| && j < |s| - 1
    ensures Without(s, k)[j] == s[Origin(k, j)]
  {
  }

  lemma WithoutMembers<T>(s: seq<T>, k: nat)
    requires k < |s| && forall i, j :: 0 <= i < j < |s| ==> s[i] != s[j]
    ensures s[k] !in Without(s, k) && forall x :: x in s <==> x in Without(s, k) || x == s[k]
  {
  }

  lemma WithoutDiffer<T>(s: seq<T>, k: nat)
    requires k < |s| && forall i, j :: 0 <= i < j < |s| ==> s[i] != s[j]
    ensures var t := Without(s, k); forall i, j :: 0 <= i < j < |t| ==> t[i] != t[j]
  {
  }

  // ------------------------------------------------------------------ doubly linked lists

  /** The node at an index of a list, null outside. */
  ghost function At(s: seq<object>, i: int): object? {
    if 0 <= i < |s| then s[i] else null
  }

  /** The links of the node at index `k`. */
  ghost predicate Chained(s: seq<object>, k: int, prev: object?, next: object?) {
    prev == At(s, k - 1) && next == At(s, k + 1)
  }

  /** The node at index `j` is linked to its neighbours other than the one at index `k`. */
  ghost predicate Bypassing(s: seq<object>, j: int, k: int, prev: object?, next: object?) {
    && prev == At(s, if j - 1 == k then k - 1 else j - 1)
    && next == At(s, if j + 1 == k then k + 1 else j + 1)
  }

  lemma Neighbours(s: seq<object>, k: nat, j: int)
    requires k < |s| && -1 <= j < |s| - 1
    ensures var t, o := Without(s, k), Origin(k, j);
            && At(t, j) == At(s, o)
            && At(t, j + 1) == At(s, if o + 1 == k then k + 1 else o + 1)
            && At(t, j - 1) == At(s, if o - 1 == k then k - 1 else o - 1)
  {
  }

  /** Without the node at index `k`, the links that bypass it are those of the neighbours. */
  lemma Relinked(s: seq<object>, k: nat, j: nat, prev: object?, next: object?)
    requires k < |s| && j < |s| - 1 && Bypassing(s, Origin(k, j), k, prev, next)
    ensures Chained(Without(s, k), j, prev, next)
  {
    Neighbours(s, k, j);
  }
}
