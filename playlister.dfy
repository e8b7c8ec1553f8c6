/** The stand-alone musical playlist (`PlaylistMusical`): songs with a duration
    in whole seconds in a doubly-linked chain, a cursor that moves one song at a
    time, a total-duration report and a random jump. Printing is left out; each
    operation returns what it would report. */
module Playlister {
  import opened DoublyLinked
  import opened TimeSplit

  /** A song (`Cancion`); `duration` is in seconds. */
  datatype Song = Song(title: string, artist: string, duration: int)

  datatype Option<T> = None | Some(value: T)

  /** What a one-step move reports: the cursor moved, there is no song at all,
      or the cursor is already on the last (first) song. */
  datatype Step = Moved | NoSongs | AtBoundary

  /** What the random jump reports. */
  datatype Jump = Jumped | NothingToShuffle | OnlyOneSong

  /** The sum of the durations of `songs`, in seconds. */
  function TotalSeconds(songs: seq<Song>): int
  {
    if songs == [] then 0
    else TotalSeconds(songs[..|songs| - 1]) + songs[|songs| - 1].duration
  }

  /** The total of a concatenation is the sum of the totals. */
  lemma {:induction false} TotalSecondsConcat(a: seq<Song>, b: seq<Song>)
    ensures TotalSeconds(a + b) == TotalSeconds(a) + TotalSeconds(b)
    decreases |b|
  {
    if b != [] {
      assert (a + b)[..|a + b| - 1] == a + b[..|b| - 1];
      TotalSecondsConcat(a, b[..|b| - 1]);
    } else {
      assert a + b == a;
    }
  }

  /** Durations that are not negative add up to a total that is not negative
      and at least each of them. */
  lemma {:induction false} TotalSecondsBounds(songs: seq<Song>, i: int)
    requires forall j :: 0 <= j < |songs| ==> songs[j].duration >= 0
    requires 0 <= i < |songs|
    ensures TotalSeconds(songs) >= songs[i].duration >= 0
    decreases |songs|
  {
    if i < |songs| - 1 {
      TotalSecondsBounds(songs[..|songs| - 1], i);
    } else if |songs| > 1 {
      TotalSecondsBounds(songs[..|songs| - 1], 0);
    }
  }

  class MusicPlaylist {
    var head: Node?<Song>
    var tail: Node?<Song>
    var current: Node?<Song>
    var count: int

    /** The list from head to tail. */
    ghost var nodes: seq<Node<Song>>
    /** Position of `current` in `nodes` when the list is not empty. */
    ghost var cur: int

    ghost predicate Valid()
      reads this, nodes
    {
      Chain(nodes, head, tail, count) && CursorAt(nodes, current, cur)
    }

    ghost function Songs(): seq<Song>
      reads this
    {
      SongsOf(nodes)
    }

    constructor ()
      ensures Valid()
      ensures nodes == [] && current == null
    {
      head, tail, current, count := null, null, null, 0;
      nodes, cur := [], 0;
    }

    /** `agregarCancion`: the song goes after the tail; the first song added to
        an empty list becomes the cursor, otherwise the cursor stays. */
    method Append(title: string, artist: string, duration: int)
      requires Valid()
      modifies this, nodes
      ensures Valid()
      ensures |nodes| == old(|nodes|) + 1 && nodes == old(nodes) + [nodes[|nodes| - 1]]
      ensures fresh(nodes[|nodes| - 1])
      ensures Songs() == old(Songs()) + [Song(title, artist, duration)]
      ensures count == old(count) + 1
      ensures old(nodes) == [] ==> current == head && cur == 0
      ensures old(nodes) != [] ==> current == old(current) && cur == old(cur)
    {
      var n := new Node(Song(title, artist, duration));
      ghost var ns := nodes;
      if head == null {
        head, tail := n, n;
        current := head;
      } else {
        tail.next := n;
        n.prev := tail;
        tail := n;
      }
      count := count + 1;
      nodes := nodes + [n];
      AppendKeepsLinked(ns, n);
      assert SongsOf(nodes) == SongsOf(ns) + [Song(title, artist, duration)];
    }

    /** `reproducir`: the song under the cursor, none when the list is empty. */
    method Play() returns (r: Option<Song>)
      requires Valid()
      ensures r == None <==> nodes == []
      ensures r != None ==> r.value == Songs()[cur]
    {
      if current == null {
        return None;
      }
      r := Some(current.song);
    }

    /** `siguiente`: moves the cursor to the next song, unless the list is
        empty or the cursor is on the last song. */
    method Next() returns (o: Step)
      requires Valid()
      modifies this
      ensures Valid() && nodes == old(nodes)
      ensures head == old(head) && tail == old(tail) && count == old(count)
      ensures o == NoSongs <==> nodes == []
      ensures o == AtBoundary <==> nodes != [] && old(cur) == |nodes| - 1
      ensures o == Moved ==> cur == old(cur) + 1
      ensures o != Moved ==> cur == old(cur) && current == old(current)
    {
      if current == null {
        return NoSongs;
      }
      var nx := current.next;
      assert nx == Succ(nodes, cur);
      if nx == null {
        return AtBoundary;
      }
      current := nx;
      cur := cur + 1;
      o := Moved;
    }

    /** `anterior`: moves the cursor to the previous song, unless the list is
        empty or the cursor is on the first song. */
    method Previous() returns (o: Step)
      requires Valid()
      modifies this
      ensures Valid() && nodes == old(nodes)
      ensures head == old(head) && tail == old(tail) && count == old(count)
      ensures o == NoSongs <==> nodes == []
      ensures o == AtBoundary <==> nodes != [] && old(cur) == 0
      ensures o == Moved ==> cur == old(cur) - 1
      ensures o != Moved ==> cur == old(cur) && current == old(current)
    {
      if current == null {
        return NoSongs;
      }
      var p := current.prev;
      assert p == Pred(nodes, cur);
      if p == null {
        return AtBoundary;
      }
      current := p;
      cur := cur - 1;
      o := Moved;
    }

    /** `duracionTotal`: walks the list adding up the durations and splits the
        total into hours, minutes and seconds; none when the list is empty. */
    method TotalDuration() returns (r: Option<Clock>)
      requires Valid()
      ensures r == None <==> nodes == []
      ensures r != None ==> r.value == Hms(TotalSeconds(Songs()))
    {
      if head == null {
        return None;
      }
      var total := 0;
      var temp := head;
      ghost var i := 0;
      while temp != null
        invariant 0 <= i <= |nodes|
        invariant temp == if i < |nodes| then nodes[i] else null
        invariant total == TotalSeconds(Songs()[..i])
        decreases |nodes| - i
      {
        assert Songs()[..i + 1][..i] == Songs()[..i];
        total := total + temp.song.duration;
        temp := temp.next;
        i := i + 1;
      }
      assert Songs()[..i] == Songs();
      r := Some(Hms(total));
    }

    /** `shuffle`: with at least two songs, puts the cursor on the song at
        0-based position `roll % count`, where `roll` is the value `rand()`
        returned; with fewer songs nothing changes. */
    method Shuffle(roll: nat) returns (o: Jump)
      requires Valid()
      modifies this
      ensures Valid() && nodes == old(nodes)
      ensures head == old(head) && tail == old(tail) && count == old(count)
      ensures o == NothingToShuffle <==> nodes == []
      ensures o == OnlyOneSong <==> |nodes| == 1
      ensures o == Jumped ==> cur == roll % |nodes| && current == nodes[cur]
      ensures o != Jumped ==> cur == old(cur) && current == old(current)
    {
      if head == null {
        return NothingToShuffle;
      }
      if count == 1 {
        return OnlyOneSong;
      }
      var pos := roll % count;
      var temp := head;
      for i := 0 to pos
        invariant temp == nodes[i]
      {
        assert temp.next == Succ(nodes, i);
        temp := temp.next;
      }
      current := temp;
      cur := pos;
      o := Jumped;
    }
  }

  /** The report of `duracionTotal` for songs of non-negative length: the hours
      are the whole hours of the total and minutes and seconds are below 60. */
  lemma TotalDurationClock(songs: seq<Song>)
    requires forall j :: 0 <= j < |songs| ==> songs[j].duration >= 0
    requires songs != []
    ensures Hms(TotalSeconds(songs)).h == TotalSeconds(songs) / 3600
    ensures 0 <= Hms(TotalSeconds(songs)).m < 60 && 0 <= Hms(TotalSeconds(songs)).s < 60
  {
    TotalSecondsBounds(songs, 0);
  }
}
