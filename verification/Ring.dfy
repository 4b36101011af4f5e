/** Circular doubly linked lists through next/prev index arrays, with a list head. */
module Ring {
  import opened Blocks

  /** The i-th node when walking from the head through next: the head, the list, the head. */
  function Node(head: nat, lst: seq<nat>, i: nat): nat
    requires i <= |lst| + 1
  {
    if 1 <= i <= |lst| then lst[i - 1] else head
  }

  /** next and prev link head and the elements of lst into one cycle. */
  ghost predicate Linked(next: seq<nat>, prev: seq<nat>, head: nat, lst: seq<nat>)
  {
    && |next| == |prev| && head < |next| && head !in lst && Distinct(lst)
    && (forall i :: 0 <= i < |lst| ==> lst[i] < |next|)
    && (forall i {:trigger next[Node(head, lst, i)]} :: 0 <= i <= |lst| ==>
          next[Node(head, lst, i)] == Node(head, lst, i + 1))
    && (forall i {:trigger prev[Node(head, lst, i)]} :: 1 <= i <= |lst| + 1 ==>
          prev[Node(head, lst, i)] == Node(head, lst, i - 1))
  }

  lemma Links(next: seq<nat>, prev: seq<nat>, head: nat, lst: seq<nat>, i: nat)
    requires Linked(next, prev, head, lst) && i <= |lst|
    ensures Node(head, lst, i) < |next| && next[Node(head, lst, i)] == Node(head, lst, i + 1)
    ensures Node(head, lst, i + 1) < |next| && prev[Node(head, lst, i + 1)] == Node(head, lst, i)
  {
  }

  function Remove<T>(s: seq<T>, k: nat): seq<T>
    requires k < |s|
  {
    s[..k] + s[k + 1..]
  }

  /** b->next->prev = b->prev; b->prev->next = b->next. */
  lemma Unlink(next: seq<nat>, prev: seq<nat>, head: nat, lst: seq<nat>, k: nat)
    requires Linked(next, prev, head, lst) && k < |lst|
    ensures next[lst[k]] < |next| && prev[lst[k]] < |next|
    ensures Linked(next[prev[lst[k]] := next[lst[k]]], prev[next[lst[k]] := prev[lst[k]]],
                   head, Remove(lst, k))
  {
    var b := lst[k];
    assert Node(head, lst, k + 1) == b && next[b] == Node(head, lst, k + 2);
    assert prev[b] == Node(head, lst, k) by { assert prev[Node(head, lst, k + 1)] == Node(head, lst, k); }
    var next', prev', rest := next[prev[b] := next[b]], prev[next[b] := prev[b]], Remove(lst, k);
    forall i | 0 <= i <= |rest|
      ensures next'[Node(head, rest, i)] == Node(head, rest, i + 1)
      ensures prev'[Node(head, rest, i + 1)] == Node(head, rest, i)
    {
      var j := if i <= k then i else i + 1;
      assert Node(head, rest, i) == Node(head, lst, j);
      assert Node(head, rest, i + 1) == Node(head, lst, if i < k then i + 1 else i + 2);
      assert next[Node(head, lst, j)] == Node(head, lst, j + 1);
      if i != k {
        assert Node(head, lst, j) != Node(head, lst, k);
        assert Node(head, lst, j + 1) != Node(head, lst, k + 2);
      }
    }
  }

  /** b->next = head.next; b->prev = head; head.next->prev = b; head.next = b. */
  lemma PushFront(next: seq<nat>, prev: seq<nat>, head: nat, lst: seq<nat>, b: nat)
    requires Linked(next, prev, head, lst) && b < |next| && b != head && b !in lst
    ensures next[head] < |next|
    ensures Linked(next[b := next[head]][head := b], prev[b := head][next[head] := b],
                   head, [b] + lst)
  {
    var f := next[head];
    assert Node(head, lst, 0) == head && f == Node(head, lst, 1);
    var next', prev', more := next[b := f][head := b], prev[b := head][f := b], [b] + lst;
    forall i | 0 <= i <= |more|
      ensures next'[Node(head, more, i)] == Node(head, more, i + 1)
      ensures prev'[Node(head, more, i + 1)] == Node(head, more, i)
    {
      if i >= 2 {
        assert Node(head, more, i) == Node(head, lst, i - 1);
        assert next[Node(head, lst, i - 1)] == Node(head, lst, i);
      }
    }
  }
}
