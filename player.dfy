/** The cursor and shuffle rules of the interactive player mode
    (`modoReproductor`), without the audio process, the timer thread and the
    terminal. A session works on a non-empty playlist and remembers the file of
    the song last moved to (`ultimaCancion`); in shuffle mode it walks a
    rearrangement of the playlist's nodes (`orden`) with its own index
    (`idxShuffle`) and leaves the playlist's cursor where it was. */
module Player {
  import opened DoublyLinked
  import opened SimplePlayer

  /** The file keys of a sequence of nodes, in the same order. */
  function Files(ns: seq<Node<Song>>): (fs: seq<string>)
    ensures |fs| == |ns|
  {
    seq(|ns|, i requires 0 <= i < |ns| => ns[i].song.file)
  }

  /** Position of the first occurrence of `key` in `keys`, or `|keys|` when it
      does not occur. */
  function FirstIndexOf(keys: seq<string>, key: string): (k: nat)
    ensures k <= |keys|
    ensures k < |keys| <==> key in keys
    ensures k < |keys| ==> keys[k] == key
    ensures forall j :: 0 <= j < k ==> keys[j] != key
  {
    if keys == [] then 0
    else if keys[0] == key then 0
    else 1 + FirstIndexOf(keys[1..], key)
  }

  /** When no key occurs twice, the first occurrence of the key at position `i`
      is position `i` itself. */
  lemma {:induction false} FirstIndexOfUnique(keys: seq<string>, i: int)
    requires forall a, b :: 0 <= a < b < |keys| ==> keys[a] != keys[b]
    requires 0 <= i < |keys|
    ensures FirstIndexOf(keys, keys[i]) == i
  {
    if i > 0 {
      assert keys[0] != keys[i];
      assert keys[1..][i - 1] == keys[i];
      FirstIndexOfUnique(keys[1..], i - 1);
    }
  }

  /** Matching by file alone: when the first two nodes hold the same file, the
      lookup for the second node's file stops at the first node. */
  lemma DuplicateFileLookup(ns: seq<Node<Song>>)
    requires |ns| >= 2 && ns[0].song.file == ns[1].song.file
    ensures FirstIndexOf(Files(ns), ns[1].song.file) == 0
  {
    assert Files(ns)[0] == ns[1].song.file;
  }

  /** A rearrangement holds the same file keys as the list it rearranges. */
  lemma SameFiles(order: seq<Node<Song>>, ns: seq<Node<Song>>, key: string)
    requires multiset(order) == multiset(ns)
    ensures key in Files(order) <==> key in Files(ns)
  {
    if key in Files(ns) {
      var i :| 0 <= i < |ns| && Files(ns)[i] == key;
      assert ns[i] in multiset(order);
      var j :| 0 <= j < |order| && order[j] == ns[i];
      assert Files(order)[j] == key;
    }
    if key in Files(order) {
      var j :| 0 <= j < |order| && Files(order)[j] == key;
      assert order[j] in multiset(ns);
      var i :| 0 <= i < |ns| && ns[i] == order[j];
      assert Files(ns)[i] == key;
    }
  }

  /** Each node of a list without repetitions occurs exactly once in it. */
  lemma {:induction false} DistinctOnce(ns: seq<Node<Song>>, n: Node<Song>)
    requires Distinct(ns)
    ensures multiset(ns)[n] == if n in ns then 1 else 0
  {
    if ns != [] {
      assert ns == [ns[0]] + ns[1..];
      assert Distinct(ns[1..]) by {
        forall i, j | 0 <= i < j < |ns[1..]| ensures ns[1..][i] != ns[1..][j] {
          assert ns[1..][i] == ns[i + 1] && ns[1..][j] == ns[j + 1];
        }
      }
      DistinctOnce(ns[1..], n);
      assert ns[0] !in ns[1..] by {
        forall j | 0 <= j < |ns[1..]| ensures ns[1..][j] != ns[0] {
          assert ns[1..][j] == ns[j + 1];
        }
      }
    }
  }

  /** A rearrangement of a list without repetitions has no repetitions either:
      the shuffled order holds every node of the playlist exactly once. */
  lemma RearrangedDistinct(order: seq<Node<Song>>, ns: seq<Node<Song>>)
    requires Distinct(ns) && multiset(order) == multiset(ns)
    ensures |order| == |ns| && Distinct(order)
    ensures forall n :: n in ns ==> multiset(order)[n] == 1
  {
    assert |order| == |multiset(order)| == |multiset(ns)| == |ns|;
    forall n | n in ns ensures multiset(order)[n] == 1 {
      DistinctOnce(ns, n);
    }
    forall i, j | 0 <= i < j < |order| ensures order[i] != order[j] {
      assert order[i] in multiset(ns);
      DistinctOnce(ns, order[i]);
      OnceDiffers(order, i, j);
    }
  }

  /** A node occurring once in a sequence differs from every later entry. */
  lemma OnceDiffers(s: seq<Node<Song>>, i: int, j: int)
    requires 0 <= i < j < |s| && multiset(s)[s[i]] == 1
    ensures s[i] != s[j]
  {
    assert s == s[..j] + [s[j]] + s[j + 1..];
    assert s[..j][i] == s[i];
    assert multiset(s)[s[i]] ==
           multiset(s[..j])[s[i]] + multiset([s[j]])[s[i]] + multiset(s[j + 1..])[s[i]];
  }

  /** The `for` loop of `recalcularShuffle`: the index of the first node of
      `order` whose file is `key`, or 0 when there is none. */
  method FirstWithFile(order: seq<Node<Song>>, key: string) returns (idx: int)
    ensures key in Files(order) ==> 0 <= idx < |order| && order[idx].song.file == key
    ensures key in Files(order) ==> forall j :: 0 <= j < idx ==> order[j].song.file != key
    ensures key !in Files(order) ==> idx == 0
  {
    idx := 0;
    for i := 0 to |order|
      invariant forall j :: 0 <= j < i ==> order[j].song.file != key
    {
      if order[i].song.file == key {
        idx := i;
        assert Files(order)[i] == key;
        return;
      }
    }
    assert forall j :: 0 <= j < |order| ==> Files(order)[j] != key;
  }

  /** The search loop of the 'M' case when shuffle is turned off: the first node
      of the playlist whose file is `key`, or null. */
  method FindByFile(pl: Playlist, key: string) returns (r: Node?<Song>)
    requires pl.Valid()
    ensures r == null <==> key !in Files(pl.nodes)
    ensures r != null ==> r == pl.nodes[FirstIndexOf(Files(pl.nodes), key)]
  {
    ghost var fs := Files(pl.nodes);
    var buscar := pl.head;
    ghost var i := 0;
    while buscar != null && buscar.song.file != key
      invariant 0 <= i <= |pl.nodes|
      invariant buscar == if i < |pl.nodes| then pl.nodes[i] else null
      invariant forall j :: 0 <= j < i ==> fs[j] != key
      decreases |pl.nodes| - i
    {
      buscar := buscar.next;
      i := i + 1;
    }
    if buscar != null {
      assert fs[i] == key;
    }
    r := buscar;
  }

  class Session {
    const pl: Playlist
    var shuffle: bool
    var order: seq<Node<Song>>
    var shuffleIdx: int
    var lastFile: string

    /** The playlist is non-empty and well formed; in shuffle mode the order is a
        rearrangement of the playlist and its index points at the remembered
        song; in sequential mode the playlist's cursor does. */
    ghost predicate Valid()
      reads this, pl, pl.nodes
    {
      pl.Valid() && pl.nodes != [] &&
      (shuffle ==> multiset(order) == multiset(pl.nodes) &&
                   0 <= shuffleIdx < |order| && order[shuffleIdx].song.file == lastFile) &&
      (!shuffle ==> pl.current != null && pl.current.song.file == lastFile)
    }

    /** Entering the player mode on a non-empty playlist: sequential mode, no
        shuffle order yet, and the remembered song is the one under the cursor. */
    constructor (p: Playlist)
      requires p.Valid() && p.nodes != []
      ensures Valid() && pl == p && !shuffle && order == [] && shuffleIdx == 0
      ensures lastFile == p.nodes[p.cur].song.file
    {
      pl := p;
      shuffle := false;
      order := [];
      shuffleIdx := 0;
      var first, cursor := p.head, p.current;
      var nodo: Node?<Song> := if cursor != null then cursor else first;
      lastFile := nodo.song.file;
    }

    /** The song the player shows and acts on at the top of each iteration, with
        its 1-based position: the playlist's cursor in sequential mode, the
        entry at the shuffle index otherwise. It is always the remembered song. */
    method Shown() returns (nodo: Node<Song>, idx: int)
      requires Valid()
      ensures nodo.song.file == lastFile
      ensures 1 <= idx <= |pl.nodes|
      ensures !shuffle ==> nodo == pl.current && nodo == pl.nodes[idx - 1]
      ensures shuffle ==> nodo == order[shuffleIdx] && idx == shuffleIdx + 1
    {
      if !shuffle {
        idx := pl.IndexOfCurrent();
        var n := pl.NodeAt(idx);
        nodo := n;
      } else {
        assert |order| == |multiset(order)| == |multiset(pl.nodes)| == |pl.nodes|;
        nodo := order[shuffleIdx];
        idx := shuffleIdx + 1;
      }
    }

    /** `recalcularShuffle`: takes the playlist's snapshot, rearranged into
        `shuffled` (the outcome of `std::shuffle`, which may be any
        rearrangement), and anchors the index on the first entry whose file is
        the remembered one, or on 0 if there is none. */
    method Recompute(shuffled: seq<Node<Song>>)
      requires pl.Valid() && multiset(shuffled) == multiset(pl.nodes)
      modifies this`order, this`shuffleIdx
      ensures order == shuffled
      ensures shuffleIdx == (var k := FirstIndexOf(Files(order), lastFile);
                             if k < |order| then k else 0)
    {
      var snapshot := pl.NodesVector();
      assert multiset(shuffled) == multiset(snapshot);
      order := shuffled;
      shuffleIdx := FirstWithFile(order, lastFile);
      ghost var k := FirstIndexOf(Files(order), lastFile);
      if k < |order| {
        assert Files(order)[shuffleIdx] == lastFile;
      }
    }

    /** The 'S' key. Sequential mode: the playlist's cursor moves to the shown
        node's successor, if any. Shuffle mode: the shuffle index moves one entry
        forward, if any; the playlist's cursor stays. A move remembers the new
        song; at the end of the list nothing moves and nothing is remembered. */
    method Next() returns (moved: bool)
      requires Valid()
      modifies this, pl
      ensures Valid()
      ensures pl.nodes == old(pl.nodes) && shuffle == old(shuffle) && order == old(order)
      ensures !shuffle ==> moved == (old(pl.cur) + 1 < |pl.nodes|) &&
                           pl.cur == (if moved then old(pl.cur) + 1 else old(pl.cur)) &&
                           shuffleIdx == old(shuffleIdx)
      ensures shuffle ==> moved == (old(shuffleIdx) + 1 < |order|) &&
                          shuffleIdx == (if moved then old(shuffleIdx) + 1 else old(shuffleIdx)) &&
                          pl.current == old(pl.current) && pl.cur == old(pl.cur)
      ensures !moved ==> lastFile == old(lastFile)
    {
      var nodo, _ := Shown();
      if !shuffle {
        if nodo.next != null {
          pl.SetCurrent(nodo.next, pl.cur + 1);
          lastFile := pl.current.song.file;
          moved := true;
        } else {
          moved := false;
        }
      } else {
        if shuffleIdx + 1 < |order| {
          shuffleIdx := shuffleIdx + 1;
          lastFile := order[shuffleIdx].song.file;
          moved := true;
        } else {
          moved := false;
        }
      }
    }

    /** The 'A' key: as `Next`, one step backward; at the start of the list
        nothing moves. */
    method Previous() returns (moved: bool)
      requires Valid()
      modifies this, pl
      ensures Valid()
      ensures pl.nodes == old(pl.nodes) && shuffle == old(shuffle) && order == old(order)
      ensures !shuffle ==> moved == (old(pl.cur) > 0) &&
                           pl.cur == (if moved then old(pl.cur) - 1 else old(pl.cur)) &&
                           shuffleIdx == old(shuffleIdx)
      ensures shuffle ==> moved == (old(shuffleIdx) > 0) &&
                          shuffleIdx == (if moved then old(shuffleIdx) - 1 else old(shuffleIdx)) &&
                          pl.current == old(pl.current) && pl.cur == old(pl.cur)
      ensures !moved ==> lastFile == old(lastFile)
    {
      var nodo, _ := Shown();
      if !shuffle {
        if nodo.prev != null {
          pl.SetCurrent(nodo.prev, pl.cur - 1);
          lastFile := pl.current.song.file;
          moved := true;
        } else {
          moved := false;
        }
      } else {
        if shuffleIdx > 0 {
          shuffleIdx := shuffleIdx - 1;
          lastFile := order[shuffleIdx].song.file;
          moved := true;
        } else {
          moved := false;
        }
      }
    }

    /** The 'M' key. Turning shuffle on rebuilds the order from `shuffled` and
        anchors it on the remembered song. Turning it off puts the playlist's
        cursor on the first node whose file is the remembered one. The playlist's
        contents and the remembered song never change. */
    method ToggleShuffle(shuffled: seq<Node<Song>>)
      requires Valid()
      requires !shuffle ==> multiset(shuffled) == multiset(pl.nodes)
      modifies this, pl
      ensures Valid()
      ensures shuffle == !old(shuffle) && pl.nodes == old(pl.nodes) && lastFile == old(lastFile)
      ensures shuffle ==> order == shuffled &&
                          shuffleIdx == FirstIndexOf(Files(order), lastFile) &&
                          pl.current == old(pl.current) && pl.cur == old(pl.cur)
      ensures !shuffle ==> pl.cur == FirstIndexOf(Files(pl.nodes), lastFile) &&
                           order == old(order) && shuffleIdx == old(shuffleIdx)
    {
      if !shuffle {
        ShuffleOn(shuffled);
      } else {
        ShuffleOff();
      }
    }

    /** The 'M' key in sequential mode: shuffle on, order rebuilt and anchored. */
    method ShuffleOn(shuffled: seq<Node<Song>>)
      requires Valid() && !shuffle
      requires multiset(shuffled) == multiset(pl.nodes)
      modifies this
      ensures Valid() && shuffle && lastFile == old(lastFile)
      ensures order == shuffled && shuffleIdx == FirstIndexOf(Files(order), lastFile)
    {
      shuffle := true;
      assert Files(pl.nodes)[pl.cur] == lastFile;
      SameFiles(shuffled, pl.nodes, lastFile);
      Recompute(shuffled);
    }

    /** The 'M' key in shuffle mode: shuffle off, and the playlist's cursor goes
        to the first node whose file is the remembered one. */
    method ShuffleOff()
      requires Valid() && shuffle
      modifies this, pl
      ensures Valid() && !shuffle && lastFile == old(lastFile)
      ensures order == old(order) && shuffleIdx == old(shuffleIdx)
      ensures pl.nodes == old(pl.nodes) && pl.cur == FirstIndexOf(Files(pl.nodes), lastFile)
    {
      shuffle := false;
      assert Files(order)[shuffleIdx] == lastFile;
      SameFiles(order, pl.nodes, lastFile);
      var buscar := FindByFile(pl, lastFile);
      if buscar != null {
        pl.SetCurrent(buscar, FirstIndexOf(Files(pl.nodes), lastFile));
      }
    }
  }

  /** Entering the player mode: an empty playlist is refused and no session
      starts; otherwise a session starts on the playlist as it is. */
  method Enter(p: Playlist) returns (s: Session?)
    requires p.Valid()
    ensures s == null <==> p.nodes == []
    ensures s != null ==> fresh(s) && s.Valid() && s.pl == p && !s.shuffle &&
                          s.order == [] && s.shuffleIdx == 0 &&
                          s.lastFile == p.nodes[p.cur].song.file
  {
    var n := p.Count();
    if n == 0 {
      return null;
    }
    s := new Session(p);
  }

  /** Pressing 'M' twice from sequential mode, in a playlist whose files are
      all different: the cursor comes back to the node it was on. */
  method ToggleTwiceRestores(s: Session, shuffled: seq<Node<Song>>)
    requires s.Valid() && !s.shuffle && multiset(shuffled) == multiset(s.pl.nodes)
    requires forall a, b :: 0 <= a < b < |s.pl.nodes| ==> Files(s.pl.nodes)[a] != Files(s.pl.nodes)[b]
    modifies s, s.pl
    ensures s.Valid() && !s.shuffle
    ensures s.pl.nodes == old(s.pl.nodes) && s.pl.cur == old(s.pl.cur)
    ensures s.pl.current == old(s.pl.current)
  {
    ghost var c0 := s.pl.cur;
    assert Files(s.pl.nodes)[c0] == s.lastFile;
    s.ToggleShuffle(shuffled);
    s.ToggleShuffle(shuffled);
    FirstIndexOfUnique(Files(s.pl.nodes), c0);
  }

  /** Pressing 'M' twice from sequential mode when the cursor is on the second
      of two nodes holding the same file: the cursor ends on the first one. */
  method ToggleTwiceDuplicateMoves(s: Session, shuffled: seq<Node<Song>>)
    requires s.Valid() && !s.shuffle && multiset(shuffled) == multiset(s.pl.nodes)
    requires |s.pl.nodes| >= 2 && s.pl.cur == 1
    requires s.pl.nodes[0].song.file == s.pl.nodes[1].song.file
    modifies s, s.pl
    ensures s.Valid() && !s.shuffle && s.pl.nodes == old(s.pl.nodes)
    ensures s.pl.cur == 0 && s.pl.current == old(s.pl.nodes[0])
  {
    DuplicateFileLookup(s.pl.nodes);
    s.ToggleShuffle(shuffled);
    s.ToggleShuffle(shuffled);
  }

  /** In shuffle mode the session's order holds every playlist node exactly once. */
  lemma ShuffleOrderDistinct(s: Session)
    requires s.Valid() && s.shuffle
    ensures Distinct(s.order) && |s.order| == |s.pl.nodes|
    ensures forall n :: n in s.pl.nodes ==> multiset(s.order)[n] == 1
  {
    RearrangedDistinct(s.order, s.pl.nodes);
  }

  /** Pressing 'M' from sequential mode, in a playlist whose files are all
      different: the shuffle index lands on the very node the cursor was on. */
  method ShuffleOnAnchorsCurrent(s: Session, shuffled: seq<Node<Song>>)
    requires s.Valid() && !s.shuffle && multiset(shuffled) == multiset(s.pl.nodes)
    requires forall a, b :: 0 <= a < b < |s.pl.nodes| ==> Files(s.pl.nodes)[a] != Files(s.pl.nodes)[b]
    modifies s, s.pl
    ensures s.Valid() && s.shuffle
    ensures s.order[s.shuffleIdx] == old(s.pl.current)
  {
    ghost var ns := s.pl.nodes;
    ghost var c0 := s.pl.cur;
    s.ToggleShuffle(shuffled);
    assert s.order[s.shuffleIdx] in multiset(ns);
    ghost var j :| 0 <= j < |ns| && ns[j] == s.order[s.shuffleIdx];
    assert Files(ns)[j] == Files(ns)[c0];
  }
}
