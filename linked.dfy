/** The doubly-linked node chain that both playlists are built from: nodes that
    carry a song and are linked both ways. A sequence of nodes describes a chain
    when no node occurs twice and every node's links point at its neighbours in
    the sequence; the lemmas say which pointer updates keep that so. */
module DoublyLinked {

  /** A list node. Its song never changes after construction; only the links do. */
  class Node<T> {
    const song: T
    var prev: Node?<T>
    var next: Node?<T>

    constructor (s: T)
      ensures song == s && prev == null && next == null
    {
      song := s;
      prev := null;
      next := null;
    }
  }

  /** No node occurs twice. */
  ghost predicate Distinct<T>(ns: seq<Node<T>>)
  {
    forall i, j :: 0 <= i < j < |ns| ==> ns[i] != ns[j]
  }

  /** The songs held by a sequence of nodes, in the same order. */
  function SongsOf<T>(ns: seq<Node<T>>): seq<T>
  {
    seq(|ns|, i requires 0 <= i < |ns| => ns[i].song)
  }

  /** Deleting one node from a list without repetitions leaves a list without
      repetitions. */
  lemma DeleteKeepsDistinct<T>(ns: seq<Node<T>>, k: int, rest: seq<Node<T>>)
    requires Distinct(ns) && 0 <= k < |ns| && rest == ns[..k] + ns[k + 1..]
    ensures Distinct(rest)
  {
    assert forall j :: 0 <= j < |rest| ==> rest[j] == if j < k then ns[j] else ns[j + 1];
  }

  /** The node after position `i`, or null after the last one. */
  function Succ<T>(ns: seq<Node<T>>, i: int): Node?<T>
    requires 0 <= i < |ns|
  {
    if i + 1 < |ns| then ns[i + 1] else null
  }

  /** The node before position `i`, or null before the first one. */
  function Pred<T>(ns: seq<Node<T>>, i: int): Node?<T>
    requires 0 <= i < |ns|
  {
    if i == 0 then null else ns[i - 1]
  }

  /** Every node's `next` is the node after it and its `prev` the node before it. */
  ghost predicate Linked<T>(ns: seq<Node<T>>)
    reads ns
  {
    (forall i {:trigger ns[i].next} :: 0 <= i < |ns| ==> ns[i].next == Succ(ns, i)) &&
    (forall i {:trigger ns[i].prev} :: 0 <= i < |ns| ==> ns[i].prev == Pred(ns, i))
  }

  /** Hanging a new node after the last one, whose `prev` is that last node,
      keeps the list linked in order. */
  twostate lemma AppendKeepsLinked<T>(ns: seq<Node<T>>, new n: Node<T>)
    requires old(Linked(ns)) && n !in ns
    requires forall j :: 0 <= j < |ns| - 1 ==> unchanged(ns[j])
    requires ns != [] ==> ns[|ns| - 1].next == n && ns[|ns| - 1].prev == old(ns[|ns| - 1].prev)
    requires n.next == null && n.prev == (if ns == [] then null else ns[|ns| - 1])
    ensures Linked(ns + [n])
  {
    var all := ns + [n];
    forall i | 0 <= i < |all|
      ensures all[i].next == Succ(all, i) && all[i].prev == Pred(all, i)
    {
      if i < |ns| {
        assert all[i] == ns[i];
        assert old(ns[i].next) == Succ(ns, i) && old(ns[i].prev) == Pred(ns, i);
      }
    }
  }

  /** Unlinking the node at position `k`, by pointing its predecessor's `next` at
      its successor and its successor's `prev` at its predecessor and touching no
      other node, leaves the remaining nodes linked in order. */
  twostate lemma UnlinkKeepsLinked<T>(ns: seq<Node<T>>, new k: int)
    requires old(Linked(ns)) && Distinct(ns) && 0 <= k < |ns|
    requires forall j :: 0 <= j < |ns| && j != k - 1 && j != k + 1 ==> unchanged(ns[j])
    requires k > 0 ==> ns[k - 1].next == Succ(ns, k) && ns[k - 1].prev == old(ns[k - 1].prev)
    requires k + 1 < |ns| ==> ns[k + 1].prev == Pred(ns, k) && ns[k + 1].next == old(ns[k + 1].next)
    ensures Linked(ns[..k] + ns[k + 1..])
  {
    var rest := ns[..k] + ns[k + 1..];
    forall j | 0 <= j < |rest|
      ensures rest[j].next == Succ(rest, j) && rest[j].prev == Pred(rest, j)
    {
      if j < k {
        assert rest[j] == ns[j];
        assert old(ns[j].next) == Succ(ns, j) && old(ns[j].prev) == Pred(ns, j);
      } else {
        assert rest[j] == ns[j + 1];
        assert old(ns[j + 1].next) == Succ(ns, j + 1) && old(ns[j + 1].prev) == Pred(ns, j + 1);
      }
    }
  }

  /** The pointer fields of a playlist describe the chain `ns`: `head` and
      `tail` are its ends (null when it is empty) and `count` is its length. */
  ghost predicate Chain<T>(ns: seq<Node<T>>, head: Node?<T>, tail: Node?<T>, count: int)
    reads ns
  {
    Distinct(ns) && Linked(ns) && count == |ns| &&
    (ns == [] ==> head == null && tail == null) &&
    (ns != [] ==> head == ns[0] && tail == ns[|ns| - 1])
  }

  /** The cursor is null exactly when the chain is empty, and otherwise is the
      node at position `cur`. */
  ghost predicate CursorAt<T>(ns: seq<Node<T>>, current: Node?<T>, cur: int)
  {
    (ns == [] ==> current == null && cur == 0) &&
    (ns != [] ==> 0 <= cur < |ns| && current == ns[cur])
  }
}
