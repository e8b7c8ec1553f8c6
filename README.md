# Music playlists: a verified model

This project models the two terminal music players of the repository.

- **simpleplayer.cpp** is the console player. It keeps the songs in a doubly-linked
  playlist (`Playlist`): a head, a tail, a "current song" cursor and a counter.
  Its player mode (`modoReproductor`) steps through the playlist in order or
  in a shuffled order, and it can switch between the two.
- **playlister.cpp** is the stand-alone playlist (`PlaylistMusical`). Its songs
  carry a duration in whole seconds. It can play the current song, step forward
  and backward, report the total duration as hours, minutes and seconds, and
  jump to a random song.

The modules are:

- `TimeSplit` gives C++ integer `/`, which truncates toward zero, and `%`, whose
  result takes the sign of the dividend. On top of
  them it builds the h/m/s split of `duracionTotal` and the min:sec split of
  `Cancion::mostrar`.
- `DoublyLinked` is the node chain both playlists are built on. It defines a
  generic `Node` class with `prev`/`next` fields and the `Chain` and `CursorAt`
  predicates that tie the pointer fields to a ghost sequence of nodes. Its
  lemmas say which pointer updates keep a chain linked.
- `SimplePlayer` is the `Playlist` class of the console player. Nodes are heap
  objects. Each method keeps `Valid()`, and states its effect on the ghost node
  sequence `nodes` and the ghost cursor position `cur`.
- `Player` models the cursor and shuffle rules of the player mode as a `Session`
  class. A session holds the mode flag, the shuffle order, the shuffle index and
  the remembered file of the last song moved to. Its invariant: in shuffle mode
  the order is a rearrangement of the playlist and the entry under the shuffle
  index has the remembered file; in sequential mode the playlist's cursor has
  it, and the order is whatever was left (empty at entry, or the order of the
  last shuffle).
- `Playlister` is the `PlaylistMusical` class.

Songs are matched by their `archivo` (file) field only, as the code does. A
playlist holding the same file twice (in two directories, say) therefore
behaves as follows: turning shuffle off puts the cursor on the *first* node with
that file. `ShuffleOff` and `ToggleShuffle` state this through `FirstIndexOf`.
`ToggleTwiceDuplicateMoves` exhibits this: with the same file at positions 0
and 1 and the cursor on position 1, pressing 'M' twice leaves the cursor on
position 0 (`DuplicateFileLookup` is the lookup step). The catalogue menu of the console player lets the
same song be added twice, so this can happen. Turning shuffle on matches by file too: the shuffle index anchors on the first
entry of the shuffled order with the remembered file, which may be the other
copy (`ShuffleOn` states this through `FirstIndexOf`). `ShuffleOnAnchorsCurrent`
proves that with all files different the index lands on the cursor's own node,
and `ToggleTwiceRestores` proves the round trip for a playlist whose files are all different: turning shuffle on
and then off leaves the cursor exactly where it was.

The player has no automatic advance and no seek key. When a song's time runs
out, the timer thread only leaves its loop (simpleplayer.cpp:236), and the
cursor stays where it is.

## Model

| member | source | states |
|---|---|---|
| TimeSplit.TruncDiv | playlister.cpp:125-126 | C++ `/` by a positive divisor: for a non-negative dividend, the largest multiple of the divisor not above it; for a negative one, the smallest multiple not below it, so the quotient is rounded toward zero |
| TimeSplit.TruncMod | playlister.cpp:126-127 | C++ `%` by a positive divisor: dividend = divisor × truncated quotient + remainder; the remainder lies in [0, b) for a non-negative dividend and in (-b, 0] for a negative one |
| TimeSplit.Hms | playlister.cpp:125-127 | the hours, minutes and seconds recompose the total; for a non-negative total the minutes and seconds lie in [0, 60) and the hours are non-negative; for a negative total all three are non-positive, and the minutes and seconds are above -60 |
| TimeSplit.HmsOfCompose | playlister.cpp:125-127 | splitting is the inverse of composing: any h, m < 60, s < 60 is displayed back as exactly h, m, s |
| TimeSplit.MinSec | playlister.cpp:17-19 | `mostrar`'s minutes and seconds recompose the duration, with seconds in [0, 60) for a non-negative duration and in (-60, 0] for a negative one |
| TimeSplit.MinSecOfCompose | playlister.cpp:17-19 | any m, s < 60 is shown back as exactly m:s |
| DoublyLinked.Node.constructor | simpleplayer.cpp:55 | a new node holds its song and has no neighbours |
| DoublyLinked.AppendKeepsLinked | simpleplayer.cpp:82-88 | hanging a fresh node after the tail, touching only the old tail's `next`, leaves the list linked in order with the new node last |
| DoublyLinked.UnlinkKeepsLinked | simpleplayer.cpp:102-105 | pointing the predecessor's `next` past the removed node and the successor's `prev` before it leaves the remaining nodes linked in order |
| DoublyLinked.DeleteKeepsDistinct | simpleplayer.cpp:102-107 | removing one node from a list without repeated nodes leaves a list without repeated nodes |
| SimplePlayer.Playlist.constructor | simpleplayer.cpp:65 | a new playlist is empty, with null head, tail and cursor |
| SimplePlayer.Playlist.Clear | simpleplayer.cpp:69-78 | `limpiar` leaves the playlist empty with a null cursor and a zero counter |
| SimplePlayer.Playlist.Append | simpleplayer.cpp:80-91 | `agregarCancion` appends a fresh node at the tail, so the songs become the old songs plus the new one; the counter grows by one; the cursor moves to the head only if it was null, otherwise it stays |
| SimplePlayer.Playlist.Remove | simpleplayer.cpp:93-110 | `eliminarPorIndice` changes nothing for a position outside 1..count; otherwise it removes exactly the node at that position, keeps the others in order and lowers the counter by one; a removed cursor moves to the successor, else to the predecessor, else to null; any other cursor stays |
| SimplePlayer.Playlist.Unlink | simpleplayer.cpp:102-109 | unlinking the node at a known position: the list loses that node only, and the cursor is re-homed as in `Remove` |
| SimplePlayer.Playlist.SetCurrent | simpleplayer.cpp:447 | assigning a node of the list to the cursor keeps the playlist valid and changes nothing else |
| SimplePlayer.Playlist.Count | simpleplayer.cpp:132 | `contar` is the number of nodes in the list |
| SimplePlayer.Playlist.IndexOfCurrent | simpleplayer.cpp:168-177 | `indiceActual` is 0 exactly when the list is empty; otherwise it is the 1-based position of the cursor node |
| SimplePlayer.Playlist.NodeAt | simpleplayer.cpp:179-188 | `nodoEn` returns the node at a 1-based position in 1..count, the head for a position below 1, and null past the end |
| SimplePlayer.Playlist.NodesVector | simpleplayer.cpp:190-199 | `nodosVector` returns every node in list order |
| Player.FirstIndexOf | simpleplayer.cpp:380-386 | the first position holding a key: it lies in range exactly when the key occurs, holds the key, and no earlier position holds it |
| Player.FirstIndexOfUnique | simpleplayer.cpp:534-535 | with no repeated files, looking up the file at position i finds position i itself |
| Player.DuplicateFileLookup | simpleplayer.cpp:534-535 | when the first two nodes share a file, looking up the second node's file finds the first node |
| Player.ToggleTwiceRestores | simpleplayer.cpp:528-537 | in a playlist whose files are all different, pressing 'M' twice from sequential mode leaves the playlist's cursor on the same node |
| Player.ToggleTwiceDuplicateMoves | simpleplayer.cpp:528-537 | when the first two nodes share a file and the cursor is on the second, pressing 'M' twice from sequential mode moves the cursor to the first |
| Player.ShuffleOnAnchorsCurrent | simpleplayer.cpp:528-531 | in a playlist whose files are all different, pressing 'M' from sequential mode puts the shuffle index on the node the cursor was on |
| Player.ShuffleOrderDistinct | simpleplayer.cpp:375-379 | in shuffle mode the session's order has the playlist's length, no repeated nodes, and holds each playlist node exactly once |
| Player.SameFiles | simpleplayer.cpp:376-379 | a rearrangement of the playlist holds exactly the same files |
| Player.DistinctOnce | simpleplayer.cpp:376 | in a list without repeated nodes, each node occurs exactly once |
| Player.RearrangedDistinct | simpleplayer.cpp:376-379 | a shuffled order of the playlist has the same length and no repeated nodes, each node occurring exactly once |
| Player.OnceDiffers | simpleplayer.cpp:376-379 | a node that occurs once in the shuffled order differs from every later entry |
| Player.FirstWithFile | simpleplayer.cpp:380-386 | the loop of `recalcularShuffle` finds the first entry whose file is the remembered one, or 0 when no entry has it |
| Player.FindByFile | simpleplayer.cpp:534-535 | the search loop finds a node exactly when some node has the file, and then it is the first such node |
| Player.Session.constructor | simpleplayer.cpp:368-373 | entering the player mode starts in sequential mode and remembers the file of the cursor's song |
| Player.Enter | simpleplayer.cpp:362-373 | an empty playlist starts no session; a non-empty one starts a valid session on the playlist as it is, in sequential mode with an empty order, index 0 and the cursor's file remembered |
| Player.Session.Shown | simpleplayer.cpp:405-412 | the node shown at the top of each iteration is always the remembered song: the cursor with its 1-based position in sequential mode, and the shuffle entry with index + 1 in shuffle mode |
| Player.Session.Recompute | simpleplayer.cpp:375-387 | `recalcularShuffle` takes the given rearrangement as the order and anchors the index on the first entry with the remembered file, or 0 |
| Player.Session.Next | simpleplayer.cpp:442-484 | 'S' moves one step forward: the playlist cursor in sequential mode, the shuffle index in shuffle mode, where the playlist cursor stays; it moves exactly when a next entry exists; otherwise nothing changes and the remembered song stays |
| Player.Session.Previous | simpleplayer.cpp:485-527 | 'A' moves one step backward, with the same rules; it moves exactly when a previous entry exists |
| Player.Session.ToggleShuffle | simpleplayer.cpp:528-537 | 'M' flips the mode and keeps the playlist and the remembered song; turning on installs the new order anchored on the remembered song; turning off puts the cursor on the first node with the remembered file |
| Player.Session.ShuffleOn | simpleplayer.cpp:529-531 | turning shuffle on keeps the session valid and anchors the new order on the remembered song |
| Player.Session.ShuffleOff | simpleplayer.cpp:532-536 | turning shuffle off puts the cursor on the first playlist node with the remembered file |
| Playlister.TotalSecondsConcat | playlister.cpp:119-124 | the total duration of two song lists joined is the sum of their totals |
| Playlister.TotalSecondsBounds | playlister.cpp:119-124 | with non-negative durations, the total is non-negative and at least each song's duration |
| Playlister.TotalDurationClock | playlister.cpp:125-127 | for non-negative durations, the reported hours are the whole hours of the total, and the minutes and seconds are below 60 |
| Playlister.MusicPlaylist.constructor | playlister.cpp:45 | a new playlist is empty with a null cursor |
| Playlister.MusicPlaylist.Append | playlister.cpp:47-60 | `agregarCancion` appends the song at the tail and adds one to the counter; the first song of an empty list becomes the cursor, otherwise the cursor stays |
| Playlister.MusicPlaylist.Play | playlister.cpp:62-70 | `reproducir` yields nothing exactly when the list is empty, and otherwise the cursor's song |
| Playlister.MusicPlaylist.Next | playlister.cpp:72-83 | `siguiente` reports an empty list exactly when there are no songs, and the last song exactly when the cursor is at the end; otherwise the cursor advances by one; the list never changes |
| Playlister.MusicPlaylist.Previous | playlister.cpp:85-96 | `anterior` reports an empty list, or the first song when the cursor is at the start; otherwise the cursor steps back by one |
| Playlister.MusicPlaylist.TotalDuration | playlister.cpp:114-129 | `duracionTotal` reports nothing for an empty list; otherwise it reports the h/m/s split of the sum of all durations |
| Playlister.MusicPlaylist.Shuffle | playlister.cpp:131-147 | `shuffle` changes nothing for an empty list or a single song, and reports which case it was; otherwise the cursor goes to the node at position `rand() % count` |

## Left out

- Process control is not modelled: launching and killing the audio player, and the R, P and Q keys. R, P and Q act on the external player process, the playing/paused flags and the timer's flags, and Q also leaves the player mode. None of them changes the playlist, its cursor, the shuffle order, the shuffle index or the remembered file.
- The timer thread is not modelled: the counter thread, atomics, mutex and condition variable, and the elapsed-time display.
- Also left out: JSON loading and saving (`guardar`, `cargar`), the terminal (key reading, screen clearing, the menus, `mostrarPlaylist` in both files), and locating the executable's directory.
- Floating-point durations in minutes (`duracion_minutos`, `Playlist::duracionTotal`) are not modelled, and the song datatype of the console player has no duration.
- Randomness becomes a parameter. The shuffled order is any rearrangement of the playlist's nodes, passed in. The random jump of `PlaylistMusical::shuffle` takes the value `rand()` returned; time-seeding is not modelled.
- `SimplePlayer.Playlist.Clear` resets the fields. Freeing the nodes one by one has no counterpart, since memory is not managed explicitly.
- The `if (!temp) return;` guard in `eliminarPorIndice` is not modelled. It can never fire, because the counter always equals the list length.
- Playlister.MusicPlaylist.TotalDuration: does not model 32-bit `int` overflow where the durations are added up (playlister.cpp:122). Each `duracion` is a C++ `int` (playlister.cpp:13), while `Song.duration` is an unbounded integer.
- The loop-top `if (orden.empty()) recalcularShuffle();` (simpleplayer.cpp:409) has no counterpart. In shuffle mode `Player.Session.Valid()` keeps the order a rearrangement of the non-empty playlist, so the order is never empty there.
- `Playlister.MusicPlaylist.Next`, `Previous` and `Shuffle` report a move rather than printing the song. The song is then what `Play` yields.
