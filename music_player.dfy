/**
  The background music player's control state: the current track, the
  play flag and the hint text, a single click that toggles after 250 ms
  unless a second click arrives first (which shuffles instead), a touch
  within 400 ms of the previous one that shuffles, and a random track
  change at the end of each track.

  The audio element is reduced to the last command given to it. The
  random draw is a nondeterministic choice among the allowed tracks;
  time is an integer millisecond input to each event.
 */
module MusicPlayer {

  const Playlist: seq<string> := ["/iwasneverthere.mp3", "/escapism.mp3", "/blue.mp3", "/YAD.mp3", "/stars.mp3"]

  const Invitation := "Wanna play music while scrolling?"
  const DoubleTapHint := "Double tap to change the music"

  const SingleClickDelayMs := 250
  const DoubleTapWindowMs := 400

  /** The last thing asked of the audio element: load a track (and play it
      once it can play, when `play` holds), or pause. */
  datatype AudioCommand = NoCommand | Load(track: nat, play: bool) | Pause

  /** The hint shown for a given play state. */
  function InfoFor(playing: bool): string {
    if playing then DoubleTapHint else Invitation
  }

  /** The indices 0 .. count-1 of a playlist of `count` tracks. */
  function TrackIndices(count: nat): (r: set<nat>)
    ensures forall i: nat :: i in r <==> i < count
  {
    if count == 0 then {} else TrackIndices(count - 1) + {count - 1}
  }

  /** The tracks a shuffle may land on: any track when there is only one,
      otherwise any track but the current one. */
  function ShuffleTargets(count: nat, current: nat): (r: set<nat>)
    ensures forall i :: i in r ==> i < count
    ensures count > 1 ==> current !in r
    ensures count >= 1 && current < count ==> r != {}
  {
    var all := TrackIndices(count);
    var r := if count <= 1 then all else all - {current};
    assert count >= 1 && current < count ==> (if count == 1 then 0 else (current + 1) % count) in r;
    r
  }

  /** With the five tracks listed, a shuffle always changes the track and
      may reach every other track. */
  lemma ShuffleChangesTrack(current: nat)
    requires current < |Playlist|
    ensures current !in ShuffleTargets(|Playlist|, current)
    ensures forall i :: 0 <= i < |Playlist| && i != current ==> i in ShuffleTargets(|Playlist|, current)
  {
  }

  /** A touch at `now` is the second of a double tap. */
  predicate IsDoubleTap(now: int, lastTapTime: int) {
    now - lastTapTime < DoubleTapWindowMs
  }

  class Player {
    var currentTrackIndex: nat
    var isPlaying: bool
    var infoText: string
    var audio: AudioCommand
    /** The single-click timer is pending, due at `clickAt`. */
    var clickArmed: bool
    var clickAt: int
    var lastTapTime: int

    /** The track is in the playlist and the hint matches the play state. */
    ghost predicate Valid()
      reads this
    {
      currentTrackIndex < |Playlist| && infoText == InfoFor(isPlaying)
    }

    constructor ()
      ensures currentTrackIndex == 0 && !isPlaying && infoText == Invitation
      ensures audio == NoCommand && !clickArmed && lastTapTime == 0
      ensures Valid()
    {
      currentTrackIndex := 0;
      isPlaying := false;
      infoText := Invitation;
      audio := NoCommand;
      clickArmed := false;
      clickAt := 0;
      lastTapTime := 0;
    }

    /** Starts track `index` from the beginning. */
    method PlayTrack(index: nat)
      requires Valid() && index < |Playlist|
      modifies this`currentTrackIndex, this`isPlaying, this`infoText, this`audio
      ensures Valid()
      ensures currentTrackIndex == index && isPlaying && infoText == DoubleTapHint
      ensures audio == Load(index, true)
    {
      currentTrackIndex := index;
      isPlaying := true;
      infoText := DoubleTapHint;
      audio := Load(index, true);
    }

    /** Pauses when playing; otherwise reloads the current track and plays. */
    method TogglePlay()
      requires Valid()
      modifies this`isPlaying, this`infoText, this`audio
      ensures Valid()
      ensures isPlaying == !old(isPlaying)
      ensures infoText == (if old(isPlaying) then Invitation else DoubleTapHint)
      ensures audio == if old(isPlaying) then Pause else Load(currentTrackIndex, true)
    {
      if isPlaying {
        audio := Pause;
        isPlaying := false;
        infoText := Invitation;
      } else {
        audio := Load(currentTrackIndex, true);
        isPlaying := true;
        infoText := DoubleTapHint;
      }
    }

    /** Switches to a random other track, keeping the play state: the new
      track is loaded and played only if music was playing. */
    method ShuffleNextTrack()
      requires Valid()
      modifies this`currentTrackIndex, this`audio
      ensures Valid()
      ensures currentTrackIndex in ShuffleTargets(|Playlist|, old(currentTrackIndex))
      ensures currentTrackIndex != old(currentTrackIndex)
      ensures isPlaying == old(isPlaying) && infoText == old(infoText)
      ensures audio == Load(currentTrackIndex, isPlaying)
    {
      var targets := ShuffleTargets(|Playlist|, currentTrackIndex);
      var nextIndex :| nextIndex in targets;
      currentTrackIndex := nextIndex;
      audio := Load(nextIndex, isPlaying);
    }

    /** The current track ended. */
    method OnTrackEnded()
      requires Valid()
      modifies this`currentTrackIndex, this`audio
      ensures Valid()
      ensures currentTrackIndex != old(currentTrackIndex)
      ensures audio == Load(currentTrackIndex, isPlaying)
    {
      ShuffleNextTrack();
    }

    /** The browser refused to start playback. */
    method OnPlayRejected()
      requires Valid()
      modifies this`isPlaying, this`infoText
      ensures Valid()
      ensures !isPlaying && infoText == Invitation
    {
      isPlaying := false;
      infoText := Invitation;
    }

    /** A touch at time `now`: a second touch within 400 ms shuffles; every
      touch records its time. */
    method OnTouchStart(now: int)
      requires Valid()
      modifies this`currentTrackIndex, this`audio, this`lastTapTime
      ensures Valid()
      ensures lastTapTime == now
      ensures IsDoubleTap(now, old(lastTapTime)) ==>
        currentTrackIndex != old(currentTrackIndex) && audio == Load(currentTrackIndex, isPlaying)
      ensures !IsDoubleTap(now, old(lastTapTime)) ==>
        currentTrackIndex == old(currentTrackIndex) && audio == old(audio)
    {
      if now - lastTapTime < DoubleTapWindowMs {
        ShuffleNextTrack();
      }
      lastTapTime := now;
    }

    /** A click at time `now`: while a single-click timer is pending this is
      a double click, which cancels the timer and shuffles; otherwise it
      arms the timer. */
    method OnClick(now: int)
      requires Valid()
      modifies this`currentTrackIndex, this`audio, this`clickArmed, this`clickAt
      ensures Valid()
      ensures old(clickArmed) ==>
        !clickArmed && currentTrackIndex != old(currentTrackIndex) &&
        audio == Load(currentTrackIndex, isPlaying)
      ensures !old(clickArmed) ==>
        clickArmed && clickAt == now + SingleClickDelayMs &&
        currentTrackIndex == old(currentTrackIndex) && audio == old(audio)
    {
      if clickArmed {
        clickArmed := false;
        ShuffleNextTrack();
      } else {
        clickArmed := true;
        clickAt := now + SingleClickDelayMs;
      }
    }

    /** Time passes to `now`; a due single-click timer toggles playback and
      clears itself. */
    method OnClock(now: int)
      requires Valid()
      modifies this`isPlaying, this`infoText, this`audio, this`clickArmed
      ensures Valid()
      ensures old(clickArmed) && clickAt <= now ==>
        !clickArmed && isPlaying == !old(isPlaying) &&
        audio == if old(isPlaying) then Pause else Load(currentTrackIndex, true)
      ensures !(old(clickArmed) && clickAt <= now) ==>
        clickArmed == old(clickArmed) && isPlaying == old(isPlaying) && audio == old(audio)
    {
      if clickArmed && clickAt <= now {
        TogglePlay();
        clickArmed := false;
      }
    }
  }

  /** A single click starts the music after 250 ms; a double click changes
      the track without starting it. */
  method ScenarioClicks(t: int)
  {
    var p := new Player();
    p.OnClick(t);
    p.OnClock(t + 249);
    assert !p.isPlaying;
    p.OnClock(t + 250);
    assert p.isPlaying && p.infoText == DoubleTapHint && p.audio == Load(0, true);

    var q := new Player();
    q.OnClick(t);
    q.OnClick(t + 100);
    q.OnClock(t + 1000);
    assert !q.isPlaying && q.currentTrackIndex != 0 && !q.audio.play;
  }
}
