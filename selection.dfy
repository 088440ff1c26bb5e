/** The selection range on the timeline: the start and end cursors, how a
    mouse drag moves them (and the playhead), and the list of clips that
    overlap the range, which the assistant receives as context. */
module Selection {
  import opened Js
  import opened Timeline

  function Min(a: real, b: real): real { if a < b then a else b }
  function Max(a: real, b: real): real { if a < b then b else a }

  /** `Math.max(0, Math.min(projectDuration, t))`: a mouse position read
      as a timeline time, kept inside the project. */
  function ClampTime(t: real, projectDuration: real): (r: real)
    ensures 0.0 <= projectDuration ==> 0.0 <= r <= projectDuration
    ensures 0.0 <= t <= projectDuration ==> r == t
    ensures t < 0.0 ==> r == 0.0
    ensures 0.0 <= projectDuration < t ==> r == projectDuration
  {
    Max(0.0, Min(projectDuration, t))
  }

  /** The two cursors of the selection range (seconds). */
  datatype Cursors = Cursors(start: real, end: real)

  /** Which of the three draggable things the mouse is holding. */
  datatype Grip = Grip(startCursor: bool, endCursor: bool, playhead: bool)

  /** What a mouse move does: new cursors, and the time the playhead is
      moved to (and the video seeked to), if it is moved. */
  datatype Moved = Moved(cursors: Cursors, playhead: Option<real>)

  /** `handleTimelineMouseMove`, with `t` the unclamped time under the
      mouse. The start cursor follows the mouse but never passes the
      end cursor; else the end cursor follows it but never passes the start
      cursor; else the playhead goes to the mouse; else nothing moves. The
      start cursor wins when several grips are held. */
  function MouseMove(g: Grip, c: Cursors, t: real, projectDuration: real): (r: Moved)
    ensures var time := ClampTime(t, projectDuration);
      && (g.startCursor ==>
            && r.playhead.None? && r.cursors.end == c.end
            && r.cursors.start <= c.end && r.cursors.start <= time
            && (r.cursors.start == time || r.cursors.start == c.end))
      && (!g.startCursor && g.endCursor ==>
            && r.playhead.None? && r.cursors.start == c.start
            && c.start <= r.cursors.end && time <= r.cursors.end
            && (r.cursors.end == time || r.cursors.end == c.start))
      && (!g.startCursor && !g.endCursor ==> r.cursors == c)
      && (!g.startCursor && !g.endCursor && g.playhead ==> r.playhead == Some(time))
      && (!g.startCursor && !g.endCursor && !g.playhead ==> r.playhead.None?)
  {
    var time := ClampTime(t, projectDuration);
    if g.startCursor then Moved(Cursors(Min(time, c.end), c.end), None)
    else if g.endCursor then Moved(Cursors(c.start, Max(time, c.start)), None)
    else if g.playhead then Moved(c, Some(time))
    else Moved(c, None)
  }

  /** The selection is a well-formed range inside the project. */
  predicate InRange(c: Cursors, projectDuration: real)
  {
    0.0 <= c.start <= c.end <= projectDuration
  }

  /** A mouse move keeps a well-formed range inside the project, and puts
      the playhead inside the project. */
  lemma MouseMoveKeepsRange(g: Grip, c: Cursors, t: real, projectDuration: real)
    requires InRange(c, projectDuration)
    ensures InRange(MouseMove(g, c, t, projectDuration).cursors, projectDuration)
    ensures var p := MouseMove(g, c, t, projectDuration).playhead;
      p.Some? ==> 0.0 <= p.value <= projectDuration
  {
    var time := ClampTime(t, projectDuration);
    assert 0.0 <= time <= projectDuration;
  }

  /** A row of the "clips in range" list: the clip with the name of its
      media. */
  datatype RangeEntry = RangeEntry(clip: Clip, mediaName: string)

  /** `mediaList.find(m => m.id === id)?.name || "Unknown"`: a missing
      media and an empty name both read as "Unknown". */
  function MediaName(list: seq<Media>, id: Id): (name: string)
    ensures name != []
    ensures FindMedia(list, id) < |list| && list[FindMedia(list, id)].name != [] ==>
      name == list[FindMedia(list, id)].name
    ensures (FindMedia(list, id) == |list| || list[FindMedia(list, id)].name == []) ==>
      name == "Unknown"
  {
    var k := FindMedia(list, id);
    if k < |list| && list[k].name != [] then list[k].name else "Unknown"
  }

  /** The clip overlaps the closed range `[s, e]`. */
  predicate Overlaps(c: Clip, s: real, e: real)
  {
    c.start <= e && c.start + c.duration >= s
  }

  /** The clips of a list of rows, in order. */
  function ClipsOf(r: seq<RangeEntry>): (t: Track)
    ensures |t| == |r|
    ensures forall i :: 0 <= i < |r| ==> t[i] == r[i].clip
  {
    if r == [] then [] else [r[0].clip] + ClipsOf(r[1..])
  }

  /** The "clips in range" effect over the page's one track: exactly the
      clips that overlap the selection, in track order, each labelled with
      its media's name. */
  function ClipsInRange(track: Track, list: seq<Media>, s: real, e: real): (r: seq<RangeEntry>)
    ensures |r| <= |track|
    ensures forall i :: 0 <= i < |r| ==> r[i].mediaName == MediaName(list, r[i].clip.mediaId)
    ensures forall c :: c in ClipsOf(r) <==> c in track && Overlaps(c, s, e)
    ensures IsSubsequence(ClipsOf(r), track)
    ensures forall c :: multiset(ClipsOf(r))[c] == if Overlaps(c, s, e) then multiset(track)[c] else 0
  {
    if track == [] then []
    else
      var rest := ClipsInRange(track[1..], list, s, e);
      assert forall c :: c in track <==> c == track[0] || c in track[1..];
      if Overlaps(track[0], s, e) then
        var r := [RangeEntry(track[0], MediaName(list, track[0].mediaId))] + rest;
        assert r[1..] == rest;
        assert ClipsOf(r)[1..] == ClipsOf(rest);
        assert ClipsOf(r) == [track[0]] + ClipsOf(rest);
        KeepOverlapping(track, ClipsOf(rest), ClipsOf(r), s, e);
        r
      else
        KeepOverlapping(track, ClipsOf(rest), ClipsOf(rest), s, e);
        rest
  }

  /** One step of the filter: keeping the first clip exactly when it
      overlaps extends the count of overlapping clips to the whole track. */
  lemma KeepOverlapping(track: Track, keptTail: Track, kept: Track, s: real, e: real)
    requires track != []
    requires forall c :: multiset(keptTail)[c] == if Overlaps(c, s, e) then multiset(track[1..])[c] else 0
    requires kept == if Overlaps(track[0], s, e) then [track[0]] + keptTail else keptTail
    ensures forall c :: multiset(kept)[c] == if Overlaps(c, s, e) then multiset(track)[c] else 0
  {
    assert track == [track[0]] + track[1..];
    assert multiset(track) == multiset{track[0]} + multiset(track[1..]);
  }

  /** Widening the selection never loses a clip from the list. */
  lemma {:induction false} WiderRangeKeepsClips(track: Track, list: seq<Media>, s: real, e: real, s': real, e': real)
    requires s' <= s && e <= e'
    ensures |ClipsInRange(track, list, s, e)| <= |ClipsInRange(track, list, s', e')|
    ensures forall c :: c in ClipsOf(ClipsInRange(track, list, s, e)) ==> c in ClipsOf(ClipsInRange(track, list, s', e'))
    decreases |track|
  {
    if track != [] {
      WiderRangeKeepsClips(track[1..], list, s, e, s', e');
    }
  }
}
