/** The playback queue of `AudioProvider` (src/context/AudioContext.tsx): a playlist of verses, the index of
    the one playing, the flags shown by the player, and the audio element it drives.

    The transitions are first given as functions on a `Player` value (one per command, media event and
    effect), so that sequences of them can be reasoned about; the class `AudioProvider` then performs
    each transition in place on its fields and on its `AudioElement`, and every method is proved to
    leave the state that the corresponding function describes. */
module Playback {
  import opened Optional

  /** One verse queued for playback. */
  datatype AudioAyah = AudioAyah(number: int, text: string, audio: string, surahNumber: int, surahName: string)

  /** What the provider can observe of its audio element: the source URL it holds, whether it is paused,
      its position and duration in seconds, and how many times `load()` was called on it. */
  datatype Media = Media(src: string, paused: bool, position: real, duration: real, loads: nat)

  /** The provider's state (src/context/AudioContext.tsx:40-50). `audio` is `audioRef.current`:
      `None` until the mount effect has created the element. */
  datatype Player = Player(
    isPlaying: bool,
    isLoading: bool,
    currentAyah: Option<AudioAyah>,
    playlist: seq<AudioAyah>,
    currentIndex: int,
    progress: real,
    duration: real,
    currentTime: real,
    audio: Option<Media>)

  /** The state before the first render has run any effect. */
  const Initial := Player(false, false, None, [], -1, 0.0, 0.0, 0.0, None)

  /** A freshly constructed `new Audio()`: no source, paused, at 0, duration unknown (`NaN`, falsy, here 0). */
  const FreshMedia := Media("", true, 0.0, 0.0, 0)

  /** `currentIndex` is -1 (idle) or points into `playlist`. */
  predicate IndexValid(p: Player) {
    p.currentIndex == -1 || 0 <= p.currentIndex < |p.playlist|
  }

  /** Everything but the queue (`playlist`, `currentIndex`) and `isPlaying` is as in `p`. */
  predicate SameButQueue(p: Player, r: Player) {
    r.isLoading == p.isLoading && r.currentAyah == p.currentAyah && r.progress == p.progress
    && r.duration == p.duration && r.currentTime == p.currentTime && r.audio == p.audio
  }

  // ---------------------------------------------------------------------------------------------
  // Commands

  /** The mount effect (:53-57): creates the element that every handler and effect then uses. */
  function Mount(p: Player): (r: Player)
    ensures r.audio == Some(FreshMedia)
    ensures r.(audio := p.audio) == p
  {
    p.(audio := Some(FreshMedia))
  }

  /** `playAyah(a)` (:158-171): a one-verse playlist, positioned on it, marked playing at once. */
  function PlayAyah(p: Player, a: AudioAyah): (r: Player)
    ensures r.playlist == [a] && r.currentIndex == 0 && r.isPlaying
    ensures IndexValid(r)
    ensures SameButQueue(p, r)
  {
    p.(playlist := [a], currentIndex := 0, isPlaying := true)
  }

  /** `playPlaylist(ayahs, startIndex)` (:173-177): stores both as given (the index is not clamped)
      and marks playing. A caller that omits `startIndex` passes 0. */
  function PlayPlaylist(p: Player, ayahs: seq<AudioAyah>, startIndex: int): (r: Player)
    ensures r.playlist == ayahs && r.currentIndex == startIndex && r.isPlaying
    ensures IndexValid(r) <==> startIndex == -1 || 0 <= startIndex < |ayahs|
    ensures SameButQueue(p, r)
  {
    p.(playlist := ayahs, currentIndex := startIndex, isPlaying := true)
  }

  /** `playNext` (:179-183): moves one verse forward when there is one; never wraps. */
  function PlayNext(p: Player): (r: Player)
    ensures r.currentIndex != p.currentIndex <==> p.currentIndex + 1 < |p.playlist|
    ensures r.currentIndex == p.currentIndex || r.currentIndex == p.currentIndex + 1
    ensures r.(currentIndex := p.currentIndex) == p
  {
    if p.currentIndex + 1 < |p.playlist| then p.(currentIndex := p.currentIndex + 1) else p
  }

  /** `playPrevious` (:185-189): moves one verse back unless at the first verse or idle. */
  function PlayPrevious(p: Player): (r: Player)
    ensures r.currentIndex != p.currentIndex <==> p.currentIndex > 0
    ensures r.currentIndex == p.currentIndex || r.currentIndex == p.currentIndex - 1
    ensures r.currentIndex >= 0 || r == p
    ensures r.(currentIndex := p.currentIndex) == p
  {
    if p.currentIndex > 0 then p.(currentIndex := p.currentIndex - 1) else p
  }

  /** `togglePlay` (:147-156). Without an element nothing happens. When playing, the element is paused
      and the flag cleared. Otherwise `play()` is called and the flag is set at once, not when the
      promise resolves: `accepted` says whether the element actually started. */
  function TogglePlay(p: Player, accepted: bool): (r: Player)
    ensures r.audio.Some? <==> p.audio.Some?
    ensures p.audio.None? ==> r == p
    ensures p.audio.Some? ==> r.isPlaying == !p.isPlaying
    ensures p.audio.Some? && p.isPlaying ==> r.audio.value.paused
    ensures p.audio.Some? && !p.isPlaying ==> r.audio.value.paused == (p.audio.value.paused && !accepted)
    ensures r.audio.Some? ==> r.audio.value.(paused := p.audio.value.paused) == p.audio.value
    ensures r.(isPlaying := p.isPlaying, audio := p.audio) == p
  {
    match p.audio
    case None => p
    case Some(m) =>
      if p.isPlaying then p.(audio := Some(m.(paused := true)), isPlaying := false)
      else p.(audio := Some(if accepted then m.(paused := false) else m), isPlaying := true)
  }

  /** `stop` (:191-200): pauses and rewinds the element if there is one, then empties the queue.
      `duration` and `progress` keep their values. */
  function Stop(p: Player): (r: Player)
    ensures !r.isPlaying && r.currentAyah.None? && r.playlist == [] && r.currentIndex == -1
    ensures IndexValid(r)
    ensures r.audio.Some? <==> p.audio.Some?
    ensures r.audio.Some? ==>
      (r.audio.value.paused && r.audio.value.position == 0.0
       && r.audio.value.src == p.audio.value.src && r.audio.value.loads == p.audio.value.loads)
    ensures r.isLoading == p.isLoading && r.duration == p.duration && r.progress == p.progress
      && r.currentTime == p.currentTime
  {
    var q := match p.audio
      case None => p
      case Some(m) => p.(audio := Some(m.(paused := true, position := 0.0)));
    q.(isPlaying := false, currentAyah := None, playlist := [], currentIndex := -1)
  }

  /** `seek(time)` (:202-207): with an element, moves it and the shown time to `time`, unclamped. */
  function Seek(p: Player, time: real): (r: Player)
    ensures r.audio.Some? <==> p.audio.Some?
    ensures p.audio.None? ==> r == p
    ensures p.audio.Some? ==> r.currentTime == time && r.audio.value == p.audio.value.(position := time)
    ensures r.(currentTime := p.currentTime, audio := p.audio) == p
  {
    match p.audio
    case None => p
    case Some(m) => p.(audio := Some(m.(position := time)), currentTime := time)
  }

  // ---------------------------------------------------------------------------------------------
  // Events of the audio element (registered at mount, so they only ever fire with an element)

  /** The auto-advance rule `playNextAuto` (:137-145): the next index, or -1 past the end. */
  function NextAutoIndex(prev: int, length: nat): (i: int)
    ensures prev + 1 < length ==> i == prev + 1
    ensures prev + 1 >= length ==> i == -1
  {
    if prev + 1 < length then prev + 1 else -1
  }

  /** `ended` (:58-61): the element stops by itself, the flag is cleared and the index auto-advances.
      `currentAyah` is not touched. */
  function Ended(p: Player): (r: Player)
    ensures r.audio.Some? <==> p.audio.Some?
    ensures p.audio.None? ==> r == p
    ensures p.audio.Some? ==>
      (!r.isPlaying && r.audio.value.paused && r.currentIndex == NextAutoIndex(p.currentIndex, |p.playlist|))
    ensures r.currentAyah == p.currentAyah && r.playlist == p.playlist
  {
    match p.audio
    case None => p
    case Some(m) =>
      p.(audio := Some(m.(paused := true)), isPlaying := false,
         currentIndex := NextAutoIndex(p.currentIndex, |p.playlist|))
  }

  /** `timeupdate` (:63-69) after the element has reached `position` with `mediaDuration`: the shown time
      follows; duration and progress follow only when the duration is non-zero (truthy). */
  function TimeUpdate(p: Player, position: real, mediaDuration: real): (r: Player)
    ensures r.audio.Some? <==> p.audio.Some?
    ensures p.audio.None? ==> r == p
    ensures p.audio.Some? ==>
      (r.currentTime == position && r.audio.value == p.audio.value.(position := position, duration := mediaDuration))
    ensures p.audio.Some? && mediaDuration != 0.0 ==>
      r.duration == mediaDuration && r.progress * mediaDuration == position * 100.0
    ensures mediaDuration == 0.0 ==> r.duration == p.duration && r.progress == p.progress
    ensures r.(currentTime := p.currentTime, audio := p.audio, duration := p.duration, progress := p.progress) == p
  {
    match p.audio
    case None => p
    case Some(m) =>
      var q := p.(audio := Some(m.(position := position, duration := mediaDuration)), currentTime := position);
      if mediaDuration != 0.0 then q.(duration := mediaDuration, progress := position / mediaDuration * 100.0)
      else q
  }

  /** `waiting` (:71). */
  function Waiting(p: Player): (r: Player)
    ensures p.audio.Some? ==> r.isLoading
    ensures r.(isLoading := p.isLoading) == p
  {
    if p.audio.Some? then p.(isLoading := true) else p
  }

  /** `canplay` (:72). */
  function CanPlay(p: Player): (r: Player)
    ensures p.audio.Some? ==> !r.isLoading
    ensures r.(isLoading := p.isLoading) == p
  {
    if p.audio.Some? then p.(isLoading := false) else p
  }

  /** `error` (:73-77): both flags cleared. */
  function Error(p: Player): (r: Player)
    ensures p.audio.Some? ==> !r.isLoading && !r.isPlaying
    ensures r.(isLoading := p.isLoading, isPlaying := p.isPlaying) == p
  {
    if p.audio.Some? then p.(isLoading := false, isPlaying := false) else p
  }

  // ---------------------------------------------------------------------------------------------
  // Effects

  /** The index-sync effect (:96-100): copies `playlist[currentIndex]` into `currentAyah` when the index
      is in range, and otherwise leaves `currentAyah` as it was. */
  function Sync(p: Player): (r: Player)
    ensures 0 <= p.currentIndex < |p.playlist| ==> r.currentAyah == Some(p.playlist[p.currentIndex])
    ensures !(0 <= p.currentIndex < |p.playlist|) ==> r == p
    ensures r.(currentAyah := p.currentAyah) == p
  {
    if 0 <= p.currentIndex < |p.playlist| then p.(currentAyah := Some(p.playlist[p.currentIndex])) else p
  }

  /** The element after `load()`: the new source, rewound, paused, duration unknown, one more load. */
  function Reloaded(m: Media, src: string): (n: Media)
    ensures n.src == src && n.paused && n.position == 0.0 && n.loads == m.loads + 1
  {
    Media(src, true, 0.0, 0.0, m.loads + 1)
  }

  /** The load effect (:103-117), run when `currentAyah` changes. With a verse and an element: a different
      source is loaded and played; the same source is resumed when paused. `accepted` says whether the
      `play()` promise resolves, which is what sets `isPlaying`. */
  function Load(p: Player, accepted: bool): (r: Player)
    ensures p.currentAyah.None? || p.audio.None? ==> r == p
    ensures r.audio.Some? <==> p.audio.Some?
    ensures p.currentAyah.Some? && p.audio.Some? ==>
      var m := p.audio.value;
      var a := p.currentAyah.value;
      && r.audio.value.src == a.audio
      && (r.audio.value.loads == m.loads + 1 <==> m.src != a.audio)
      && (r.audio.value.loads == m.loads <==> m.src == a.audio)
      && (m.src == a.audio && !m.paused ==> r == p)
      && (m.src != a.audio || m.paused ==> r.audio.value.paused == !accepted && r.isPlaying == (accepted || p.isPlaying))
    ensures r.(audio := p.audio, isPlaying := p.isPlaying) == p
  {
    match (p.currentAyah, p.audio)
    case (Some(a), Some(m)) =>
      if m.src != a.audio then
        var n := Reloaded(m, a.audio);
        if accepted then p.(audio := Some(n.(paused := false)), isPlaying := true) else p.(audio := Some(n))
      else if m.paused && accepted then p.(audio := Some(m.(paused := false)), isPlaying := true)
      else p
    case _ => p
  }

  // ---------------------------------------------------------------------------------------------
  // Sequences of events

  /** Every input the provider reacts to. `accepted` is the outcome of the `play()` call involved. */
  datatype Event =
    | MountEvent
    | PlayAyahEvent(ayah: AudioAyah)
    | PlayPlaylistEvent(ayahs: seq<AudioAyah>, startIndex: int)
    | PlayNextEvent
    | PlayPreviousEvent
    | TogglePlayEvent(accepted: bool)
    | StopEvent
    | SeekEvent(time: real)
    | EndedEvent
    | TimeUpdateEvent(position: real, mediaDuration: real)
    | WaitingEvent
    | CanPlayEvent
    | ErrorEvent
    | SyncEffect
    | LoadEffect(accepted: bool)

  function Step(p: Player, e: Event): Player {
    match e
    case MountEvent => Mount(p)
    case PlayAyahEvent(a) => PlayAyah(p, a)
    case PlayPlaylistEvent(xs, i) => PlayPlaylist(p, xs, i)
    case PlayNextEvent => PlayNext(p)
    case PlayPreviousEvent => PlayPrevious(p)
    case TogglePlayEvent(ok) => TogglePlay(p, ok)
    case StopEvent => Stop(p)
    case SeekEvent(t) => Seek(p, t)
    case EndedEvent => Ended(p)
    case TimeUpdateEvent(t, d) => TimeUpdate(p, t, d)
    case WaitingEvent => Waiting(p)
    case CanPlayEvent => CanPlay(p)
    case ErrorEvent => Error(p)
    case SyncEffect => Sync(p)
    case LoadEffect(ok) => Load(p, ok)
  }

  function Run(p: Player, es: seq<Event>): Player
    decreases |es|
  {
    if es == [] then p else Run(Step(p, es[0]), es[1..])
  }

  /** The playlist is started at one of its verses, or at -1. */
  predicate InRangeStart(e: Event) {
    e.PlayPlaylistEvent? ==> e.startIndex == -1 || 0 <= e.startIndex < |e.ayahs|
  }

  /** Every event except a `playPlaylist` with an out-of-range start keeps the index valid. */
  lemma {:induction false} StepPreservesIndexValid(p: Player, e: Event)
    requires IndexValid(p) && InRangeStart(e)
    ensures IndexValid(Step(p, e))
  {
  }

  /** So does every run of such events: neither stepping nor auto-advance wraps or overruns. */
  lemma {:induction false} RunPreservesIndexValid(p: Player, es: seq<Event>)
    requires IndexValid(p)
    requires forall k :: 0 <= k < |es| ==> InRangeStart(es[k])
    ensures IndexValid(Run(p, es))
    decreases |es|
  {
    if es != [] {
      StepPreservesIndexValid(p, es[0]);
      RunPreservesIndexValid(Step(p, es[0]), es[1..]);
    }
  }

  /** An out-of-range start is stored as given; the sync effect then leaves the previous verse current. */
  lemma {:induction false} UnclampedStartKeepsStaleAyah(p: Player, ayahs: seq<AudioAyah>)
    ensures Sync(PlayPlaylist(p, ayahs, |ayahs|)).currentAyah == p.currentAyah
    ensures !IndexValid(PlayPlaylist(p, ayahs, |ayahs|))
  {
  }

  /** `playNext` applied `n` times. */
  function NextTimes(p: Player, n: nat): Player
    decreases n
  {
    if n == 0 then p else NextTimes(PlayNext(p), n - 1)
  }

  /** `playPrevious` applied `n` times. */
  function PreviousTimes(p: Player, n: nat): Player
    decreases n
  {
    if n == 0 then p else PreviousTimes(PlayPrevious(p), n - 1)
  }

  /** Repeated `playNext` walks forward and stops at the last verse. */
  lemma {:induction false} NextTimesStopsAtLast(p: Player, n: nat)
    requires IndexValid(p) && |p.playlist| > 0
    ensures NextTimes(p, n).currentIndex
      == if p.currentIndex + n < |p.playlist| then p.currentIndex + n else |p.playlist| - 1
    ensures NextTimes(p, n).(currentIndex := p.currentIndex) == p
    decreases n
  {
    if n > 0 {
      NextTimesStopsAtLast(PlayNext(p), n - 1);
    }
  }

  /** Repeated `playPrevious` walks back and stops at the first verse; an idle queue stays idle. */
  lemma {:induction false} PreviousTimesStopsAtFirst(p: Player, n: nat)
    ensures PreviousTimes(p, n).currentIndex
      == if p.currentIndex <= 0 then p.currentIndex
         else if p.currentIndex - n > 0 then p.currentIndex - n else 0
    ensures PreviousTimes(p, n).(currentIndex := p.currentIndex) == p
    decreases n
  {
    if n > 0 {
      PreviousTimesStopsAtFirst(PlayPrevious(p), n - 1);
    }
  }

  /** `playPrevious` undoes a `playNext` that moved. */
  lemma {:induction false} PreviousUndoesNext(p: Player)
    requires 0 <= p.currentIndex && p.currentIndex + 1 < |p.playlist|
    ensures PlayPrevious(PlayNext(p)) == p
  {
  }

  /** Playing a list from its start: after the sync and load effects the first verse is current and
      loaded into the element, and the queue is marked playing whatever `play()` does. */
  lemma {:induction false} StartPlaylistTrace(p: Player, ayahs: seq<AudioAyah>, accepted: bool)
    requires p.audio.Some? && |ayahs| > 0
    ensures var r := Load(Sync(PlayPlaylist(p, ayahs, 0)), accepted);
      && r.currentAyah == Some(ayahs[0]) && r.currentIndex == 0 && r.isPlaying
      && r.audio.value.src == ayahs[0].audio
      && r.audio.value.paused == (!accepted && (p.audio.value.paused || p.audio.value.src != ayahs[0].audio))
      && (r.audio.value.loads == p.audio.value.loads + 1 <==> p.audio.value.src != ayahs[0].audio)
  {
  }

  /** After a verse ends, the sync effect makes the next verse current; after the last verse the index
      becomes -1 and the last verse stays current. */
  lemma {:induction false} EndedThenSync(p: Player)
    requires p.audio.Some? && 0 <= p.currentIndex < |p.playlist|
    ensures var r := Sync(Ended(p));
      && !r.isPlaying
      && (p.currentIndex + 1 < |p.playlist| ==>
            r.currentIndex == p.currentIndex + 1 && r.currentAyah == Some(p.playlist[p.currentIndex + 1]))
      && (p.currentIndex + 1 == |p.playlist| ==> r.currentIndex == -1 && r.currentAyah == p.currentAyah)
  {
  }

  /** Pausing and resuming with `togglePlay` never reloads the element or changes its source. */
  lemma {:induction false} ToggleTwiceKeepsSource(p: Player, accepted1: bool, accepted2: bool)
    requires p.audio.Some?
    ensures var r := TogglePlay(TogglePlay(p, accepted1), accepted2);
      && r.isPlaying == p.isPlaying
      && r.audio.value.src == p.audio.value.src && r.audio.value.loads == p.audio.value.loads
      && r.audio.value.position == p.audio.value.position
  {
  }

  /** Re-running the load effect for the verse already loaded and playing changes nothing. */
  lemma {:induction false} LoadIsIdempotent(p: Player, accepted: bool)
    ensures Load(Load(p, true), accepted) == Load(p, true)
  {
  }

  /** `togglePlay` on an idle mounted provider reports playing with nothing to play, and with the element
      still paused when the `play()` call is refused. */
  lemma {:induction false} ToggleWhenIdle()
    ensures var r := TogglePlay(Mount(Initial), false);
      r.isPlaying && r.currentAyah.None? && r.audio.value.paused
  {
  }

  /** After `stop`, no event but a mount or a new playlist changes the queue. */
  lemma {:induction false} StopThenNavigate(p: Player)
    ensures PlayNext(Stop(p)) == Stop(p)
    ensures PlayPrevious(Stop(p)) == Stop(p)
    ensures Sync(Stop(p)) == Stop(p)
    ensures Load(Stop(p), true) == Stop(p)
  {
  }
}

/** The provider itself, updating its fields and its element in place. */
module AudioContext {
  import opened Optional
  import opened Playback

  /** `audioRef.current`: the element's mutable state, and a count of its `load()` calls. */
  class AudioElement {
    var src: string
    var paused: bool
    var currentTime: real
    var duration: real
    ghost var loads: nat

    ghost function Value(): Media
      reads this
    {
      Media(src, paused, currentTime, duration, loads)
    }

    /** `new Audio()`. */
    constructor ()
      ensures Value() == FreshMedia
    {
      src := "";
      paused := true;
      currentTime := 0.0;
      duration := 0.0;
      loads := 0;
    }

    method Pause()
      modifies this
      ensures Value() == old(Value()).(paused := true)
    {
      paused := true;
    }

    /** `play()`, where `accepted` is whether the returned promise resolves. */
    method Play(accepted: bool)
      modifies this
      ensures Value() == if accepted then old(Value()).(paused := false) else old(Value())
    {
      if accepted {
        paused := false;
      }
    }

    /** Assigning `src` then calling `load()`. */
    method SetSourceAndLoad(s: string)
      modifies this
      ensures Value() == Reloaded(old(Value()), s)
    {
      src := s;
      paused := true;
      currentTime := 0.0;
      duration := 0.0;
      loads := loads + 1;
    }

    method SetCurrentTime(t: real)
      modifies this
      ensures Value() == old(Value()).(position := t)
    {
      currentTime := t;
    }

    /** The browser's own progress: playback reaches `t` of `d` seconds. */
    method Advance(t: real, d: real)
      modifies this
      ensures Value() == old(Value()).(position := t, duration := d)
    {
      currentTime := t;
      duration := d;
    }

    /** Playback reaches the end: the element pauses itself. */
    method Finish()
      modifies this
      ensures Value() == old(Value()).(paused := true)
    {
      paused := true;
    }
  }

  class AudioProvider {
    var isPlaying: bool
    var isLoading: bool
    var currentAyah: Option<AudioAyah>
    var playlist: seq<AudioAyah>
    var currentIndex: int
    var progress: real
    var duration: real
    var currentTime: real
    var audioRef: AudioElement?

    /** The provider's state as a `Player` value. */
    ghost function Snapshot(): Player
      reads this, audioRef
    {
      Player(isPlaying, isLoading, currentAyah, playlist, currentIndex, progress, duration, currentTime,
        if audioRef == null then None else Some(audioRef.Value()))
    }

    constructor ()
      ensures Snapshot() == Initial
    {
      isPlaying := false;
      isLoading := false;
      currentAyah := None;
      playlist := [];
      currentIndex := -1;
      progress := 0.0;
      duration := 0.0;
      currentTime := 0.0;
      audioRef := null;
    }

    method OnMount()
      modifies this
      ensures Snapshot() == Mount(old(Snapshot()))
      ensures fresh(audioRef)
    {
      audioRef := new AudioElement();
    }

    method PlayAyah(a: AudioAyah)
      modifies this
      ensures Snapshot() == Playback.PlayAyah(old(Snapshot()), a)
    {
      playlist := [a];
      currentIndex := 0;
      isPlaying := true;
    }

    method PlayPlaylist(ayahs: seq<AudioAyah>, startIndex: int)
      modifies this
      ensures Snapshot() == Playback.PlayPlaylist(old(Snapshot()), ayahs, startIndex)
    {
      playlist := ayahs;
      currentIndex := startIndex;
      isPlaying := true;
    }

    method PlayNext()
      modifies this
      ensures Snapshot() == Playback.PlayNext(old(Snapshot()))
    {
      if currentIndex + 1 < |playlist| {
        currentIndex := currentIndex + 1;
      }
    }

    method PlayPrevious()
      modifies this
      ensures Snapshot() == Playback.PlayPrevious(old(Snapshot()))
    {
      if currentIndex > 0 {
        currentIndex := currentIndex - 1;
      }
    }

    method TogglePlay(accepted: bool)
      modifies this, audioRef
      ensures audioRef == old(audioRef)
      ensures Snapshot() == Playback.TogglePlay(old(Snapshot()), accepted)
    {
      if audioRef == null {
        return;
      }
      if isPlaying {
        audioRef.Pause();
        isPlaying := false;
      } else {
        audioRef.Play(accepted);
        isPlaying := true;
      }
    }

    method Stop()
      modifies this, audioRef
      ensures audioRef == old(audioRef)
      ensures Snapshot() == Playback.Stop(old(Snapshot()))
    {
      if audioRef != null {
        audioRef.Pause();
        audioRef.SetCurrentTime(0.0);
      }
      isPlaying := false;
      currentAyah := None;
      playlist := [];
      currentIndex := -1;
    }

    method Seek(time: real)
      modifies this, audioRef
      ensures audioRef == old(audioRef)
      ensures Snapshot() == Playback.Seek(old(Snapshot()), time)
    {
      if audioRef != null {
        audioRef.SetCurrentTime(time);
        currentTime := time;
      }
    }

    /** The element finishes and fires `ended`. */
    method OnEnded()
      modifies this, audioRef
      ensures audioRef == old(audioRef)
      ensures Snapshot() == Ended(old(Snapshot()))
    {
      if audioRef == null {
        return;
      }
      audioRef.Finish();
      isPlaying := false;
      currentIndex := NextAutoIndex(currentIndex, |playlist|);
    }

    /** The element advances to `t` of `d` seconds and fires `timeupdate`. */
    method OnTimeUpdate(t: real, d: real)
      modifies this, audioRef
      ensures audioRef == old(audioRef)
      ensures Snapshot() == TimeUpdate(old(Snapshot()), t, d)
    {
      if audioRef == null {
        return;
      }
      audioRef.Advance(t, d);
      currentTime := audioRef.currentTime;
      if audioRef.duration != 0.0 {
        duration := audioRef.duration;
        progress := audioRef.currentTime / audioRef.duration * 100.0;
      }
    }

    method OnWaiting()
      modifies this
      ensures Snapshot() == Waiting(old(Snapshot()))
    {
      if audioRef != null {
        isLoading := true;
      }
    }

    method OnCanPlay()
      modifies this
      ensures Snapshot() == CanPlay(old(Snapshot()))
    {
      if audioRef != null {
        isLoading := false;
      }
    }

    method OnError()
      modifies this
      ensures Snapshot() == Error(old(Snapshot()))
    {
      if audioRef != null {
        isLoading := false;
        isPlaying := false;
      }
    }

    method SyncIndex()
      modifies this
      ensures Snapshot() == Sync(old(Snapshot()))
    {
      if currentIndex >= 0 && currentIndex < |playlist| {
        currentAyah := Some(playlist[currentIndex]);
      }
    }

    method LoadSource(accepted: bool)
      modifies this, audioRef
      ensures audioRef == old(audioRef)
      ensures Snapshot() == Load(old(Snapshot()), accepted)
    {
      if currentAyah.None? || audioRef == null {
        return;
      }
      var audio := audioRef;
      if audio.src != currentAyah.value.audio {
        audio.SetSourceAndLoad(currentAyah.value.audio);
        audio.Play(accepted);
        if accepted {
          isPlaying := true;
        }
      } else if audio.paused {
        audio.Play(accepted);
        if accepted {
          isPlaying := true;
        }
      }
    }
  }
}
