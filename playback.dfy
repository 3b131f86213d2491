/**
 * The background-music controller: one live audio handle over a fixed
 * playlist, with mute, loop and shuffle flags and auto-advance at track end.
 */
module Playback {
  import opened Types

  const Playlist: seq<Track> := [
    Track("1", "Dragon (Default)", "https://raw.githubusercontent.com/nasmusic-ai/RAW/main/DRAGON%20-%20VUP%20(%20Official%20Lyrics%20Video%20).mp3"),
    Track("2", "Alalay", "https://raw.githubusercontent.com/nasmusic-ai/RAW/main/Alalay.mp3"),
    Track("3", "Kosa", "https://raw.githubusercontent.com/nasmusic-ai/RAW/main/kosa.mp3"),
    Track("4", "Gangster", "https://raw.githubusercontent.com/nasmusic-ai/RAW/main/gangsta.mp3"),
    Track("5", "Pajamas", "https://raw.githubusercontent.com/nasmusic-ai/RAW/main/pajamas.mp3")
  ]

  /** The track a fresh controller points at, and the id `init` uses when given none. */
  const DefaultTrackId: string := "1"

  predicate HasId(tracks: seq<Track>, id: string) {
    exists j :: 0 <= j < |tracks| && tracks[j].id == id
  }

  predicate DistinctIds(tracks: seq<Track>) {
    forall i, j :: 0 <= i < j < |tracks| ==> tracks[i].id != tracks[j].id
  }

  /** The position of the first track with `id`, or -1 when there is none. */
  function IndexOf(tracks: seq<Track>, id: string): (i: int)
    ensures -1 <= i < |tracks|
    ensures i == -1 <==> !HasId(tracks, id)
    ensures 0 <= i ==> tracks[i].id == id && forall j :: 0 <= j < i ==> tracks[j].id != id
  {
    if tracks == [] then -1
    else if tracks[0].id == id then 0
    else
      var k := IndexOf(tracks[1..], id);
      if k == -1 then -1 else k + 1
  }

  /** The track `init` starts: the one with `id`, or the first track when the id is unknown. */
  function ResolveTrack(tracks: seq<Track>, id: string): (t: Track)
    requires tracks != []
    ensures t in tracks
    ensures HasId(tracks, id) ==> t.id == id
    ensures !HasId(tracks, id) ==> t == tracks[0]
  {
    var i := IndexOf(tracks, id);
    if i == -1 then tracks[0] else tracks[i]
  }

  /** The id that follows `cur` in playlist order, wrapping after the last track. */
  function SequentialNext(tracks: seq<Track>, cur: string): (id: string)
    requires tracks != []
    ensures HasId(tracks, id)
    ensures !HasId(tracks, cur) ==> id == tracks[0].id
    ensures 0 <= IndexOf(tracks, cur) < |tracks| - 1 ==> id == tracks[IndexOf(tracks, cur) + 1].id
    ensures IndexOf(tracks, cur) == |tracks| - 1 ==> id == tracks[0].id
  {
    var i := IndexOf(tracks, cur);
    NextIndexMod(i, |tracks|);
    var j := (i + 1) % |tracks|;
    tracks[j].id
  }

  /** The tracks other than the current one, in playlist order. */
  function Others(tracks: seq<Track>, cur: string): (o: seq<Track>)
    ensures |o| <= |tracks|
    ensures forall t :: t in o <==> t in tracks && t.id != cur
  {
    if tracks == [] then []
    else (if tracks[0].id != cur then [tracks[0]] else []) + Others(tracks[1..], cur)
  }

  /** The shuffle pick: entry `pick` of the other tracks, `pick` being drawn below their number. */
  function ShuffleNext(tracks: seq<Track>, cur: string, pick: nat): (id: string)
    requires DistinctIds(tracks) && HasId(tracks, cur) && pick < |tracks| - 1
    ensures id != cur && HasId(tracks, id)
  {
    OthersCount(tracks, cur);
    var t := Others(tracks, cur)[pick];
    assert t in Others(tracks, cur);
    var j :| 0 <= j < |tracks| && tracks[j] == t;
    t.id
  }

  /** Shuffle can land on every track but the current one: each of them is the outcome of some pick. */
  lemma ShuffleCovers(tracks: seq<Track>, cur: string, t: Track)
    requires DistinctIds(tracks) && HasId(tracks, cur) && t in tracks && t.id != cur
    ensures exists pick: nat :: pick < |tracks| - 1 && ShuffleNext(tracks, cur, pick) == t.id
  {
    OthersCount(tracks, cur);
    var others := Others(tracks, cur);
    assert t in others;
    var pick :| 0 <= pick < |others| && others[pick] == t;
    assert ShuffleNext(tracks, cur, pick) == t.id;
  }

  /** `k` sequential advances from `cur`. */
  function Advance(tracks: seq<Track>, cur: string, k: nat): string
    requires tracks != []
    decreases k
  {
    if k == 0 then cur else Advance(tracks, SequentialNext(tracks, cur), k - 1)
  }

  lemma MulAtLeast(d: int, n: int)
    requires d >= 1 && n > 0
    ensures d * n >= n
  {
    if d > 1 {
      MulAtLeast(d - 1, n);
      assert d * n == (d - 1) * n + n;
    }
  }

  /** `%` is determined by any quotient-remainder decomposition. */
  lemma ModUnique(a: int, n: int, q: int, r: int)
    requires n > 0 && 0 <= r < n && a == q * n + r
    ensures a % n == r
  {
    var q', r' := a / n, a % n;
    if q' < q {
      assert (q - q') * n + r == r' by { assert q * n - q' * n == (q - q') * n; }
      MulAtLeast(q - q', n);
    } else if q' > q {
      assert (q' - q) * n + r' == r by { assert q' * n - q * n == (q' - q) * n; }
      MulAtLeast(q' - q, n);
    }
  }

  lemma NextIndexMod(i: int, n: int)
    requires -1 <= i < n && n > 0
    ensures (i + 1) % n == if i + 1 < n then i + 1 else 0
  {
    if i + 1 < n {
      ModUnique(i + 1, n, 0, i + 1);
    } else {
      ModUnique(i + 1, n, 1, 0);
    }
  }

  lemma ModStep(i: nat, k: nat, n: nat)
    requires i < n && k > 0
    ensures ((if i + 1 < n then i + 1 else 0) + (k - 1)) % n == (i + k) % n
  {
    if i + 1 == n {
      var q, r := (i + k) / n, (i + k) % n;
      assert k - 1 == (q - 1) * n + r by { assert (q - 1) * n == q * n - n; }
      ModUnique(k - 1, n, q - 1, r);
    }
  }

  lemma DistinctPlaylist()
    ensures DistinctIds(Playlist) && |Playlist| == 5
  {
  }

  /** With distinct ids, a track's id leads back to its own position. */
  lemma IndexOfDistinct(tracks: seq<Track>, i: nat)
    requires DistinctIds(tracks) && i < |tracks|
    ensures IndexOf(tracks, tracks[i].id) == i
  {
    var k := IndexOf(tracks, tracks[i].id);
    assert !(k < i);
  }

  /** With distinct ids, the track after position `i` is the next position, or the first after the last. */
  lemma SequentialNextAt(tracks: seq<Track>, i: nat)
    requires DistinctIds(tracks) && i < |tracks|
    ensures SequentialNext(tracks, tracks[i].id) == tracks[if i + 1 < |tracks| then i + 1 else 0].id
  {
    IndexOfDistinct(tracks, i);
  }

  /** Without the current id, the filter keeps every track. */
  lemma {:induction false} OthersWithoutCurrent(tracks: seq<Track>, cur: string)
    requires !HasId(tracks, cur)
    ensures Others(tracks, cur) == tracks
  {
    if tracks != [] {
      assert tracks[0].id != cur;
      forall j | 0 <= j < |tracks| - 1 ensures tracks[1..][j].id != cur {
        assert tracks[1..][j] == tracks[j + 1];
      }
      OthersWithoutCurrent(tracks[1..], cur);
      assert [tracks[0]] + tracks[1..] == tracks;
    }
  }

  /** With distinct ids and the current id present, shuffle chooses among all tracks but one. */
  lemma {:induction false} OthersCount(tracks: seq<Track>, cur: string)
    requires DistinctIds(tracks) && HasId(tracks, cur)
    ensures |Others(tracks, cur)| == |tracks| - 1
  {
    var tail := tracks[1..];
    assert DistinctIds(tail) by {
      forall i, j | 0 <= i < j < |tail| ensures tail[i].id != tail[j].id {
        assert tail[i] == tracks[i + 1] && tail[j] == tracks[j + 1];
      }
    }
    if tracks[0].id == cur {
      forall j | 0 <= j < |tail| ensures tail[j].id != cur {
        assert tail[j] == tracks[j + 1];
      }
      OthersWithoutCurrent(tail, cur);
    } else {
      var j :| 0 <= j < |tracks| && tracks[j].id == cur;
      assert tail[j - 1].id == cur;
      OthersCount(tail, cur);
    }
  }

  /** The position `k` sequential steps after position `i` in a cyclic list of `n` entries. */
  ghost function Walk(i: nat, k: nat, n: nat): (p: nat)
    requires i < n
    ensures p < n
    decreases k
  {
    if k == 0 then i else Walk(if i + 1 < n then i + 1 else 0, k - 1, n)
  }

  lemma {:induction false} WalkMod(i: nat, k: nat, n: nat)
    requires i < n
    ensures Walk(i, k, n) == (i + k) % n
    decreases k
  {
    if k == 0 {
      ModUnique(i, n, 0, i);
    } else {
      WalkMod(if i + 1 < n then i + 1 else 0, k - 1, n);
      ModStep(i, k, n);
    }
  }

  lemma {:induction false} AdvanceWalk(tracks: seq<Track>, i: nat, k: nat)
    requires DistinctIds(tracks) && i < |tracks|
    ensures Advance(tracks, tracks[i].id, k) == tracks[Walk(i, k, |tracks|)].id
    decreases k
  {
    if k > 0 {
      SequentialNextAt(tracks, i);
      AdvanceWalk(tracks, if i + 1 < |tracks| then i + 1 else 0, k - 1);
    }
  }

  /** Sequential advance walks the playlist cyclically: `k` steps from position `i` land on `(i + k) % |tracks|`. */
  lemma AdvanceCycles(tracks: seq<Track>, i: nat, k: nat)
    requires DistinctIds(tracks) && i < |tracks|
    ensures Advance(tracks, tracks[i].id, k) == tracks[(i + k) % |tracks|].id
  {
    AdvanceWalk(tracks, i, k);
    WalkMod(i, k, |tracks|);
  }

  /** Sequential advance is periodic: a full lap of the playlist changes nothing. */
  lemma AdvancePeriodic(tracks: seq<Track>, i: nat, k: nat)
    requires DistinctIds(tracks) && i < |tracks|
    ensures Advance(tracks, tracks[i].id, k + |tracks|) == Advance(tracks, tracks[i].id, k)
  {
    var n := |tracks|;
    var q, r := (i + k) / n, (i + k) % n;
    ModUnique(i + k + n, n, q + 1, r);
    AdvanceCycles(tracks, i, k);
    AdvanceCycles(tracks, i, k + n);
  }

  /** Every track is reached by fewer advances than there are tracks. */
  lemma AdvanceVisitsAll(tracks: seq<Track>, i: nat, j: nat)
    requires DistinctIds(tracks) && i < |tracks| && j < |tracks|
    ensures exists k :: 0 <= k < |tracks| && Advance(tracks, tracks[i].id, k) == tracks[j].id
  {
    var n := |tracks|;
    var k: nat := if i <= j then j - i else n - i + j;
    assert (i + k) % n == j by {
      if i <= j {
        ModUnique(i + k, n, 0, j);
      } else {
        ModUnique(i + k, n, 1, j);
      }
    }
    AdvanceCycles(tracks, i, k);
    assert Advance(tracks, tracks[i].id, k) == tracks[j].id;
  }

  /** The live audio output: its source and the flags copied onto it. */
  datatype AudioHandle = AudioHandle(src: string, loop: bool, muted: bool)

  class TechAudio {
    /** The compiled-in playlist, fixed when the controller is created. */
    const playlist: seq<Track>
    /** At most one live handle. */
    var bgMusic: Option<AudioHandle>
    var isMuted: bool
    var isLoop: bool
    var isRandom: bool
    var currentTrackId: string
    /** Handles paused and dropped by `Init`, oldest first. */
    ghost var released: seq<AudioHandle>

    /** The current id is a playlist id, and the live handle plays that track with the controller's flags. */
    ghost predicate Valid()
      reads this
    {
      playlist != [] && DistinctIds(playlist) && HasId(playlist, currentTrackId)
      && (bgMusic.Some? ==> bgMusic.value == AudioHandle(ResolveTrack(playlist, currentTrackId).url, isLoop, isMuted))
    }

    constructor ()
      ensures Valid() && playlist == Playlist
      ensures bgMusic == None && !isMuted && !isLoop && !isRandom
      ensures currentTrackId == DefaultTrackId && released == []
    {
      playlist := Playlist;
      bgMusic := None;
      isMuted, isLoop, isRandom := false, false, false;
      currentTrackId := DefaultTrackId;
      released := [];
      DistinctPlaylist();
      assert Playlist[0].id == DefaultTrackId;
    }

    /** Selects the track (the first one for an unknown id), pauses the old handle and starts a new one. */
    method Init(trackId: string)
      requires Valid()
      modifies this`currentTrackId, this`bgMusic, this`released
      ensures Valid()
      ensures HasId(playlist, trackId) ==> currentTrackId == trackId
      ensures !HasId(playlist, trackId) ==> currentTrackId == playlist[0].id
      ensures bgMusic == Some(AudioHandle(ResolveTrack(playlist, trackId).url, isLoop, isMuted))
      ensures released == old(released) + (if old(bgMusic).Some? then [old(bgMusic).value] else [])
    {
      var track := ResolveTrack(playlist, trackId);
      currentTrackId := track.id;
      if bgMusic.Some? {
        released := released + [bgMusic.value];
        bgMusic := None;
      }
      bgMusic := Some(AudioHandle(track.url, isLoop, isMuted));
      var j :| 0 <= j < |playlist| && playlist[j] == track;
      IndexOfDistinct(playlist, j);
    }

    /**
     * Moves to the next track and returns its id (the value reported to the
     * view): with shuffle on, entry `pick` of the other tracks; otherwise the
     * following track, wrapping after the last.
     */
    method NextTrack(pick: nat) returns (nextId: string)
      requires Valid()
      requires isRandom ==> pick < |playlist| - 1
      modifies this`currentTrackId, this`bgMusic, this`released
      ensures Valid() && currentTrackId == nextId
      ensures !isRandom ==> nextId == SequentialNext(playlist, old(currentTrackId))
      ensures isRandom ==> nextId == ShuffleNext(playlist, old(currentTrackId), pick)
      ensures isRandom ==> nextId != old(currentTrackId)
      ensures bgMusic == Some(AudioHandle(ResolveTrack(playlist, nextId).url, isLoop, isMuted))
      ensures released == old(released) + (if old(bgMusic).Some? then [old(bgMusic).value] else [])
    {
      if isRandom {
        nextId := ShuffleNext(playlist, currentTrackId, pick);
      } else {
        nextId := SequentialNext(playlist, currentTrackId);
      }
      Init(nextId);
    }

    /** The live track finished: it repeats when looping, otherwise the controller advances. */
    method TrackEnded(pick: nat) returns (nextId: Option<string>)
      requires Valid()
      requires isRandom && !isLoop ==> pick < |playlist| - 1
      modifies this`currentTrackId, this`bgMusic, this`released
      ensures Valid()
      ensures isLoop ==> nextId == None && currentTrackId == old(currentTrackId)
                         && bgMusic == old(bgMusic) && released == old(released)
      ensures !isLoop ==> nextId == Some(currentTrackId)
      ensures !isLoop && !isRandom ==> currentTrackId == SequentialNext(playlist, old(currentTrackId))
      ensures !isLoop && isRandom ==> currentTrackId == ShuffleNext(playlist, old(currentTrackId), pick)
      ensures !isLoop ==> bgMusic == Some(AudioHandle(ResolveTrack(playlist, currentTrackId).url, isLoop, isMuted))
      ensures !isLoop ==> released == old(released) + (if old(bgMusic).Some? then [old(bgMusic).value] else [])
    {
      if isLoop {
        return None;
      }
      var id := NextTrack(pick);
      nextId := Some(id);
    }

    /** Sets the muted flag and mirrors it onto the live handle. */
    method SetMute(mute: bool)
      requires Valid()
      modifies this`isMuted, this`bgMusic
      ensures Valid() && isMuted == mute
      ensures bgMusic == if old(bgMusic).Some? then Some(old(bgMusic).value.(muted := mute)) else None
    {
      isMuted := mute;
      if bgMusic.Some? {
        bgMusic := Some(bgMusic.value.(muted := mute));
      }
    }

    /** Sets the loop flag and mirrors it onto the live handle. */
    method SetLoop(loop: bool)
      requires Valid()
      modifies this`isLoop, this`bgMusic
      ensures Valid() && isLoop == loop
      ensures bgMusic == if old(bgMusic).Some? then Some(old(bgMusic).value.(loop := loop)) else None
    {
      isLoop := loop;
      if bgMusic.Some? {
        bgMusic := Some(bgMusic.value.(loop := loop));
      }
    }

    /** Sets the shuffle flag; the current track and the live handle stay as they are. */
    method SetRandom(random: bool)
      requires Valid()
      modifies this`isRandom
      ensures Valid() && isRandom == random
    {
      isRandom := random;
    }
  }

  /** One skip with shuffle off, from position `i`. */
  method SkipAt(player: TechAudio, i: nat) returns (id: string)
    requires player.Valid() && !player.isRandom && i < |player.playlist|
    requires player.currentTrackId == player.playlist[i].id
    modifies player
    ensures player.Valid() && !player.isRandom
    ensures id == player.currentTrackId
    ensures id == player.playlist[if i + 1 < |player.playlist| then i + 1 else 0].id
  {
    SequentialNextAt(player.playlist, i);
    id := player.NextTrack(0);
  }

  /** Five skips with shuffle off, from the third track of a five-track playlist. */
  method SkipFive(player: TechAudio) returns (ids: seq<string>)
    requires player.Valid() && !player.isRandom && |player.playlist| == 5
    requires player.currentTrackId == player.playlist[2].id
    modifies player
    ensures var p := player.playlist; ids == [p[3].id, p[4].id, p[0].id, p[1].id, p[2].id]
  {
    var id := SkipAt(player, 2);
    var id2 := SkipAt(player, 3);
    var id3 := SkipAt(player, 4);
    var id4 := SkipAt(player, 0);
    var id5 := SkipAt(player, 1);
    ids := [id, id2, id3, id4, id5];
  }

  /** Starting on track "3" with shuffle off, five skips play "4", "5", "1", "2", "3". */
  method SkipFromThree() returns (ids: seq<string>)
    ensures ids == ["4", "5", "1", "2", "3"]
  {
    DistinctPlaylist();
    var player := new TechAudio();
    ghost var tracks := player.playlist;
    assert tracks[2].id == "3";
    assert HasId(tracks, "3");
    player.Init("3");
    ids := SkipFive(player);
  }
}
