/** The doubly-linked playlist of the terminal player (class `Playlist`): a chain
    of heap nodes linked both ways, a head, a tail, a "current song" cursor and a
    song counter. The ghost sequence `nodes` is the list in order and `cur` the
    cursor's position in it; `Valid()` ties both to the pointers. */
module SimplePlayer {
  import opened DoublyLinked

  /** A track of the catalogue. The floating-point duration in minutes is not
      modelled; `file` (the `archivo` field) is the key the player matches songs by. */
  datatype Song = Song(title: string, artist: string, file: string, directory: string)

  class Playlist {
    var head: Node?<Song>
    var tail: Node?<Song>
    var current: Node?<Song>
    var count: int

    /** The list from head to tail. */
    ghost var nodes: seq<Node<Song>>
    /** Position of `current` in `nodes` when the list is not empty. */
    ghost var cur: int

    ghost predicate Valid()
      reads this, nodes
    {
      Chain(nodes, head, tail, count) && CursorAt(nodes, current, cur)
    }

    ghost function Songs(): seq<Song>
      reads this
    {
      SongsOf(nodes)
    }

    constructor ()
      ensures Valid()
      ensures nodes == []
    {
      head, tail, current, count := null, null, null, 0;
      nodes, cur := [], 0;
    }

    /** `limpiar`: drops every node; the list is empty and the cursor null. */
    method Clear()
      requires Valid()
      modifies this
      ensures Valid() && nodes == [] && current == null && count == 0
    {
      head, tail, current, count := null, null, null, 0;
      nodes, cur := [], 0;
    }

    /** `agregarCancion`: the song goes after the tail; the cursor is put on the
        head only when there was no cursor, that is when the list was empty. */
    method Append(s: Song)
      requires Valid()
      modifies this, nodes
      ensures Valid()
      ensures |nodes| == old(|nodes|) + 1 && nodes == old(nodes) + [nodes[|nodes| - 1]]
      ensures fresh(nodes[|nodes| - 1])
      ensures Songs() == old(Songs()) + [s]
      ensures count == old(count) + 1
      ensures old(current) == null ==> current == head && cur == 0
      ensures old(current) != null ==> current == old(current) && cur == old(cur)
    {
      var n := new Node(s);
      ghost var ns := nodes;
      if head == null {
        head, tail := n, n;
      } else {
        tail.next := n;
        n.prev := tail;
        tail := n;
      }
      count := count + 1;
      if current == null {
        current := head;
      }
      nodes := nodes + [n];
      AppendKeepsLinked(ns, n);
      assert SongsOf(nodes) == SongsOf(ns) + [s];
    }

    /** `eliminarPorIndice`: removes the node at 1-based position `idx`; an
        out-of-range position changes nothing. A removed cursor moves to the
        successor, else to the predecessor, else (list now empty) to null. */
    method Remove(idx: int)
      requires Valid()
      modifies this, nodes
      ensures Valid()
      ensures idx < 1 || idx > old(|nodes|) ==>
                nodes == old(nodes) && current == old(current) && cur == old(cur)
      ensures 1 <= idx <= old(|nodes|) ==>
                nodes == old(nodes[..idx - 1] + nodes[idx..]) &&
                count == old(count) - 1
      ensures 1 <= idx <= old(|nodes|) && old(cur) == idx - 1 ==>
                current == (if idx < old(|nodes|) then old(nodes[idx])
                            else if idx > 1 then old(nodes[idx - 2])
                            else null)
      ensures 1 <= idx <= old(|nodes|) && old(cur) != idx - 1 ==>
                current == old(current)
    {
      if idx < 1 || idx > count {
        return;
      }
      var temp := head;
      var i := 1;
      while temp != null && i < idx
        invariant 1 <= i <= idx
        invariant temp == nodes[i - 1]
      {
        temp := temp.next;
        i := i + 1;
      }
      Unlink(temp, idx - 1);
    }

    /** The unlinking step of `eliminarPorIndice`, once the walk has reached the
        node `temp` at 0-based position `k`. */
    method Unlink(temp: Node<Song>, ghost k: int)
      requires Valid() && 0 <= k < |nodes| && temp == nodes[k]
      modifies this, nodes
      ensures Valid()
      ensures nodes == old(nodes[..k] + nodes[k + 1..]) && count == old(count) - 1
      ensures old(cur) == k ==>
                current == (if k + 1 < old(|nodes|) then old(nodes[k + 1])
                            else if k > 0 then old(nodes[k - 1])
                            else null)
      ensures old(cur) != k ==> current == old(current)
    {
      ghost var ns := nodes;
      var p, nx := temp.prev, temp.next;
      assert p == Pred(ns, k) && nx == Succ(ns, k);
      if p != null {
        p.next := nx;
      } else {
        head := nx;
      }
      if nx != null {
        nx.prev := p;
      } else {
        tail := p;
      }
      UnlinkKeepsLinked(ns, k);
      if current == temp {
        current := if nx != null then nx else p;
        cur := if nx != null then k else if k > 0 then k - 1 else 0;
      } else if cur > k {
        cur := cur - 1;
      }
      count := count - 1;
      if count == 0 {
        current := null;
        cur := 0;
      }
      nodes := ns[..k] + ns[k + 1..];
      DeleteKeepsDistinct(ns, k, nodes);
    }

    /** Puts the cursor on the node at 0-based position `k`: the player mode's
        direct assignments to the cursor field. */
    method SetCurrent(n: Node<Song>, ghost k: int)
      requires Valid() && 0 <= k < |nodes| && n == nodes[k]
      modifies this
      ensures Valid() && nodes == old(nodes) && current == n && cur == k
      ensures head == old(head) && tail == old(tail) && count == old(count)
    {
      current := n;
      cur := k;
    }

    /** `contar`: the counter field, which is the length of the list. */
    method Count() returns (n: int)
      requires Valid()
      ensures n == |nodes|
    {
      n := count;
    }

    /** `indiceActual`: the 1-based position of the cursor, 0 when there is none. */
    method IndexOfCurrent() returns (r: int)
      requires Valid()
      ensures r == 0 <==> nodes == []
      ensures nodes != [] ==> 1 <= r <= |nodes| && nodes[r - 1] == current
    {
      var idx := 1;
      var temp := head;
      while temp != null && temp != current
        invariant 1 <= idx <= |nodes| + 1
        invariant temp == if idx <= |nodes| then nodes[idx - 1] else null
        invariant nodes != [] ==> idx - 1 <= cur
        decreases |nodes| + 1 - idx
      {
        temp := temp.next;
        idx := idx + 1;
      }
      r := if temp != null then idx else 0;
    }

    /** `nodoEn`: walks `idx - 1` links from the head. A position below 1 gives the
        head, one past the end gives null. */
    method NodeAt(idx: int) returns (r: Node?<Song>)
      requires Valid()
      ensures 1 <= idx <= |nodes| ==> r == nodes[idx - 1]
      ensures idx < 1 ==> r == head
      ensures idx > |nodes| ==> r == null
    {
      var i := 1;
      var temp := head;
      while temp != null && i < idx
        invariant 1 <= i
        invariant i <= idx || i == 1
        invariant temp == if i <= |nodes| then nodes[i - 1] else null
        decreases |nodes| + 1 - i
      {
        temp := temp.next;
        i := i + 1;
      }
      r := temp;
    }

    /** `nodosVector`: the nodes in list order, as the snapshot the shuffle starts from. */
    method NodesVector() returns (v: seq<Node<Song>>)
      requires Valid()
      ensures v == nodes
    {
      v := [];
      var temp := head;
      while temp != null
        invariant |v| <= |nodes|
        invariant v == nodes[..|v|]
        invariant temp == if |v| < |nodes| then nodes[|v|] else null
        decreases |nodes| - |v|
      {
        v := v + [temp];
        temp := temp.next;
      }
    }
  }
}
