/** Playback: which clip plays at a timeline position, how the video
    element is brought in line with it, and the animation-frame clock that
    advances the playhead. */
module Playback {
  import opened Js
  import opened Timeline

  /** `time >= c.start && time <= c.start + c.duration`: the closed interval. */
  predicate Covers(c: Clip, time: real)
  {
    c.start <= time <= c.start + c.duration
  }

  /** `s[k]` is the first clip of `s` that covers `time`. */
  predicate FirstCoveringAt(s: Track, k: int, time: real)
  {
    0 <= k < |s| && Covers(s[k], time) && forall m :: 0 <= m < k ==> !Covers(s[m], time)
  }

  /** `Flatten(tracks)` is the first `i` tracks, then track `i`, then the rest. */
  lemma {:induction false} FlattenAround(tracks: seq<Track>, i: nat)
    requires i < |tracks|
    ensures Flatten(tracks) == Flatten(tracks[..i]) + tracks[i] + Flatten(tracks[i + 1..])
  {
    var upTo, back := tracks[..i + 1], tracks[i + 1..];
    assert Flatten(tracks) == Flatten(upTo) + Flatten(back) by {
      assert tracks == upTo + back;
      FlattenAppend(upTo, back);
    }
    assert Flatten(upTo) == Flatten(tracks[..i]) + tracks[i] by {
      assert upTo[..i] == tracks[..i] && upTo[i] == tracks[i];
    }
  }

  /** `findClipAtTime(time)`: scans the tracks in order, and each track in
      order, and returns the first clip whose closed interval holds `time`,
      or nothing when no clip does. */
  method FindClipAtTime(tracks: seq<Track>, time: real) returns (r: Option<Clip>)
    ensures r.None? <==> forall m :: 0 <= m < |Flatten(tracks)| ==> !Covers(Flatten(tracks)[m], time)
    ensures r.Some? ==> exists k :: FirstCoveringAt(Flatten(tracks), k, time) && Flatten(tracks)[k] == r.value
  {
    var i := 0;
    while i < |tracks|
      invariant 0 <= i <= |tracks|
      invariant forall m :: 0 <= m < |Flatten(tracks[..i])| ==> !Covers(Flatten(tracks[..i])[m], time)
    {
      var track := tracks[i];
      var j := 0;
      while j < |track|
        invariant 0 <= j <= |track|
        invariant forall m :: 0 <= m < j ==> !Covers(track[m], time)
      {
        if Covers(track[j], time) {
          ghost var all := Flatten(tracks);
          ghost var k := |Flatten(tracks[..i])| + j;
          FlattenAround(tracks, i);
          assert all[k] == track[j];
          assert forall m :: 0 <= m < k ==> all[m] == if m < |Flatten(tracks[..i])| then Flatten(tracks[..i])[m] else track[m - |Flatten(tracks[..i])|];
          assert FirstCoveringAt(all, k, time);
          return Some(track[j]);
        }
        j := j + 1;
      }
      assert tracks[..i + 1][..i] == tracks[..i];
      assert Flatten(tracks[..i + 1]) == Flatten(tracks[..i]) + track;
      i := i + 1;
    }
    assert tracks[..i] == tracks;
    return None;
  }

  /** The video element, reduced to what playback touches: its `src`
      (empty once the attribute is removed), its playback position and
      whether it is paused. */
  class Surface {
    var src: string
    var currentTime: real
    var paused: bool

    constructor ()
      ensures src == [] && currentTime == 0.0 && paused
    {
      src := [];
      currentTime := 0.0;
      paused := true;
    }

    /** `load()`: the media element load algorithm restarts the element on
        its current source at position 0, paused. */
    method Load()
      modifies this
      ensures src == old(src) && currentTime == 0.0 && paused
    {
      currentTime := 0.0;
      paused := true;
    }

    /** `play()`, whose promise the editor does not wait for. */
    method Play()
      modifies this`paused
      ensures !paused
    {
      paused := false;
    }

    method Pause()
      modifies this`paused
      ensures paused
    {
      paused := true;
    }
  }

  /** The element after `updateVideoPlayback` has brought it in line with
      clip `current` at `time`: with no clip, detached, rewound and paused;
      with a clip whose media is not listed, untouched; otherwise its
      source holds the media's URL (rebound, and so reloaded, only when it
      did not), its position is within 0.1 s of `time - start + offset`
      (moved only when it was further off), and it is paused exactly when
      playback is off and it was paused or reloaded. */
  twostate predicate Synced(surface: Surface, mediaList: seq<Media>, time: real, isPlaying: bool, current: Option<Clip>)
    reads surface
  {
    && (current.None? ==> surface.src == [] && surface.paused && surface.currentTime == 0.0)
    && (current.Some? && FindMedia(mediaList, current.value.mediaId) == |mediaList| ==>
          unchanged(surface))
    && (current.Some? && FindMedia(mediaList, current.value.mediaId) < |mediaList| ==>
          var url := mediaList[FindMedia(mediaList, current.value.mediaId)].url;
          var rebound := !Includes(old(surface.src), url);
          var base := if rebound then 0.0 else old(surface.currentTime);
          var local := time - current.value.start + current.value.offset;
          && Includes(surface.src, url)
          && surface.src == (if rebound then url else old(surface.src))
          && (Abs(base - local) > 0.1 ==> surface.currentTime == local)
          && (Abs(base - local) <= 0.1 ==> surface.currentTime == base)
          && Abs(surface.currentTime - local) <= 0.1
          && surface.paused == (!isPlaying && (rebound || old(surface.paused))))
  }

  /** `updateVideoPlayback(time)`, with `isPlaying` as the handler's render
      saw it. It yields the clip to show. With no video element nothing
      else happens. With no clip at `time` the element ends detached and
      paused. With a clip whose media is not in the media list the element
      is left alone. Otherwise the source is rebound (and reloaded) only
      when it does not already contain the media's URL, the position is set
      to `time - start + offset` only when it is more than 0.1 s away from
      it, and the element plays when playback is on. */
  method UpdateVideoPlayback(surface: Surface?, tracks: seq<Track>, mediaList: seq<Media>, time: real, isPlaying: bool)
    returns (current: Option<Clip>)
    modifies surface
    ensures current.None? <==> forall m :: 0 <= m < |Flatten(tracks)| ==> !Covers(Flatten(tracks)[m], time)
    ensures current.Some? ==> exists k :: FirstCoveringAt(Flatten(tracks), k, time) && Flatten(tracks)[k] == current.value
    ensures surface != null ==> Synced(surface, mediaList, time, isPlaying, current)
  {
    current := FindClipAtTime(tracks, time);
    if surface == null {
      return;
    }
    if current.Some? {
      var clip := current.value;
      var m := FindMedia(mediaList, clip.mediaId);
      if m < |mediaList| {
        var url := mediaList[m].url;
        if !Includes(surface.src, url) {
          surface.src := url;
          surface.Load();
          IncludesFacts(url, url);
        }
        var local := time - clip.start + clip.offset;
        if Abs(surface.currentTime - local) > 0.1 {
          surface.currentTime := local;
        }
        if isPlaying && surface.paused {
          surface.Play();
        }
      }
    } else {
      if !surface.paused {
        surface.Pause();
      }
      surface.src := [];
      surface.Load();
    }
  }

  /** The updater the animation tick hands to `setCurrentTime`: advance by
      `delta`; on reaching the project's end, go back to 0 and stop. The
      second component says whether playback goes on. */
  function Advance(prevTime: real, delta: real, projectDuration: real): (r: (real, bool))
    ensures r.1 <==> prevTime + delta < projectDuration
    ensures r.1 ==> r.0 == prevTime + delta
    ensures !r.1 ==> r.0 == 0.0
  {
    var newTime := prevTime + delta;
    if newTime >= projectDuration then (0.0, false) else (newTime, true)
  }

  /** The playback effect's state: `lastTime` (milliseconds from the
      monotonic clock), the playhead `currentTime` (seconds), `isPlaying`,
      and the project duration the effect was started with. */
  class Clock {
    var lastTime: real
    var currentTime: real
    var isPlaying: bool
    const projectDuration: real

    ghost predicate Valid()
      reads this
    {
      0.0 <= currentTime
    }

    /** Starting the effect: `lastTime` is read from the clock. */
    constructor (now: real, time: real, playing: bool, projectDuration: real)
      requires 0.0 <= time
      ensures Valid()
      ensures lastTime == now && currentTime == time && isPlaying == playing
      ensures this.projectDuration == projectDuration
    {
      lastTime := now;
      currentTime := time;
      isPlaying := playing;
      this.projectDuration := projectDuration;
    }

    /** One animation frame at clock reading `now` (never earlier than the
        last one). When playing, the playhead moves by the elapsed seconds;
        once it reaches the project's end it is put back to 0 and playback
        stops. When not playing, nothing changes. */
    method Animate(now: real)
      requires Valid() && lastTime <= now
      modifies this
      ensures Valid()
      ensures !old(isPlaying) ==> unchanged(this)
      ensures old(isPlaying) ==>
        && lastTime == now
        && currentTime == Advance(old(currentTime), (now - old(lastTime)) / 1000.0, projectDuration).0
        && isPlaying == Advance(old(currentTime), (now - old(lastTime)) / 1000.0, projectDuration).1
        && (isPlaying ==> old(currentTime) <= currentTime < projectDuration)
        && (!isPlaying ==> currentTime == 0.0)
    {
      if isPlaying {
        var delta := (now - lastTime) / 1000.0;
        lastTime := now;
        var next := Advance(currentTime, delta, projectDuration);
        currentTime := next.0;
        isPlaying := next.1;
      }
    }
  }
}
