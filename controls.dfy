/** The buttons under the video: play/pause, Cut and Delete. Cut and
    Delete act on the clip selected on the timeline and then clear the
    selection. Both find that clip again by its `clip_id` property, which
    no clip on the page has; the model keeps the property being read as a
    parameter, so that the code as written and the evidently intended
    lookup by `id` are the same definition. */
module Controls {
  import opened Js
  import opened Timeline
  import opened Playback

  /** `handleCutClip`: with no selection nothing happens. Otherwise the
      page's cut is asked to cut the clip whose `field` matches the
      selected clip's, at the playhead's distance into the selected clip,
      and the selection is cleared. */
  function CutSelected(field: Field, selected: Option<Clip>, currentTime: real,
                       view: Track, viewMedia: seq<Media>, tracks: seq<Track>, media: seq<Media>, ids: CutIds)
    : (r: (Option<Edit>, Option<Clip>))
    requires |tracks| >= 1
    ensures selected.None? ==> r == (None, None)
    ensures selected.Some? ==> r.1.None? && r.0.Some?
    ensures selected.Some? && KeyOf(selected.value, field).None? ==>
      r.0.value == Edit(NotFound, tracks, media)
  {
    match selected
    case None => (None, None)
    case Some(c) =>
      var key := KeyOf(c, field);
      (Some(CutClip(view, viewMedia, tracks, media, key, currentTime - c.start, ids)), None)
  }

  /** As written, the key is the `clip_id` property, absent on every clip
      the page creates: the cut finds nothing and the timeline is left as
      it was, whatever is selected. */
  lemma CutButtonAsWritten(selected: Option<Clip>, currentTime: real,
                           view: Track, viewMedia: seq<Media>, tracks: seq<Track>, media: seq<Media>, ids: CutIds)
    requires |tracks| >= 1
    requires selected.Some? && selected.value.clipIdProp.None?
    ensures var r := CutSelected(ByClipIdProp, selected, currentTime, view, viewMedia, tracks, media, ids);
      r.0 == Some(Edit(NotFound, tracks, media)) && r.1.None?
  {
  }

  /** Keyed by `id`, a selected clip of the rendered track is split in
      place at the playhead: it is replaced, at its own index, by a first
      half that keeps its start and a second half that begins at the
      playhead (see `FirstHalf`, `SecondHalf`), the clips around them stay,
      and the media list gains the hidden copy. */
  lemma CutButtonById(c: Clip, currentTime: real, t: Track, media: seq<Media>, ids: CutIds)
    requires c in t && UniqueIds(t) && c.notes.Some?
    requires FindMedia(media, c.mediaId) < |media|
    ensures var i := FindClip(t, ById, Some(c.id));
      var p := currentTime - c.start;
      && i < |t| && t[i] == c
      && CutSelected(ById, Some(c), currentTime, t, media, [t], media, ids) ==
         (Some(Edit(Applied,
                    [t[..i] + [FirstHalf(c, c.notes.value, p, ids.first),
                               SecondHalf(c, c.notes.value, p, ids.second, ids.copyId)] + t[i + 1..]],
                    CreateMediaCopy(media, media, c.mediaId, ids).0)),
          None)
  {
    assert CutSelected(ById, Some(c), currentTime, t, media, [t], media, ids) ==
      (Some(CutClip(t, media, [t], media, Some(c.id), currentTime - c.start, ids)), None) by {
      CutSelectedIs(ById, c, currentTime, t, media, [t], media, ids);
    }
    SelectedFound(t, c);
    CutUnique(t, media, Some(c.id), c, currentTime - c.start, ids);
  }

  /** With a selection, the button asks for the cut of the clip keyed like
      the selected one, at the playhead's distance into it. */
  lemma CutSelectedIs(field: Field, c: Clip, currentTime: real,
                      view: Track, viewMedia: seq<Media>, tracks: seq<Track>, media: seq<Media>, ids: CutIds)
    requires |tracks| >= 1
    ensures CutSelected(field, Some(c), currentTime, view, viewMedia, tracks, media, ids) ==
      (Some(CutClip(view, viewMedia, tracks, media, KeyOf(c, field), currentTime - c.start, ids)), None)
  {
  }

  /** Looking a clip of a track up by its id finds that clip, when ids are
      unique. */
  lemma SelectedFound(t: Track, c: Clip)
    requires c in t && UniqueIds(t)
    ensures FindClip(t, ById, Some(c.id)) < |t| && t[FindClip(t, ById, Some(c.id))] == c
  {
    var k :| 0 <= k < |t| && t[k] == c;
    var i := FindClip(t, ById, Some(c.id));
    assert i <= k;
  }

  /** `handleDeleteClip` with the player's own `deleteClip`: with no
      selection nothing happens; otherwise track 0 keeps the clips whose
      `field` differs from the selected clip's, and the selection is
      cleared. */
  function DeleteSelected(field: Field, selected: Option<Clip>, tracks: seq<Track>): (r: (seq<Track>, Option<Clip>))
    requires |tracks| >= 1
    ensures selected.None? ==> r == (tracks, None)
    ensures selected.Some? ==> r.1.None? && |r.0| == 1
    ensures selected.Some? ==>
      forall c :: c in r.0[0] <==> c in tracks[0] && KeyOf(c, field) != KeyOf(selected.value, field)
    ensures selected.Some? ==> IsSubsequence(r.0[0], tracks[0])
    ensures selected.Some? ==>
      |r.0[0]| + CountMatching(tracks[0], field, KeyOf(selected.value, field)) == |tracks[0]|
  {
    match selected
    case None => (tracks, None)
    case Some(c) => ([RemoveMatching(tracks[0], field, KeyOf(c, field))], None)
  }

  /** As written, the key is the absent `clip_id`, and so is every clip's:
      pressing Delete empties the whole track. */
  lemma DeleteButtonAsWritten(selected: Option<Clip>, tracks: seq<Track>)
    requires |tracks| >= 1
    requires selected.Some? && selected.value.clipIdProp.None?
    requires forall c :: c in tracks[0] ==> c.clipIdProp.None?
    ensures DeleteSelected(ByClipIdProp, selected, tracks).0 == [[]]
  {
    EveryClipMatches(tracks[0], ByClipIdProp, None);
  }

  /** When every clip matches, the count of matches is the track's length. */
  lemma {:induction false} EveryClipMatches(t: Track, field: Field, key: Option<Id>)
    requires forall j :: 0 <= j < |t| ==> Matches(t[j], field, key)
    ensures CountMatching(t, field, key) == |t|
    decreases |t|
  {
    if t != [] {
      EveryClipMatches(t[1..], field, key);
    }
  }

  /** Keyed by `id`, Delete removes exactly the selected clip (and any
      other clip sharing its id) and keeps the order of the rest, as the
      page's own `deleteClip` does. */
  lemma DeleteButtonById(selected: Option<Clip>, tracks: seq<Track>)
    requires |tracks| >= 1 && selected.Some?
    ensures var r := DeleteSelected(ById, selected, tracks).0;
      && r == DeleteClip(tracks, Some(selected.value.id))
      && selected.value !in r[0]
      && IsSubsequence(r[0], tracks[0])
  {
  }

  /** The play/pause button. Playback flips. Pausing pauses the element.
      Playing runs `updateVideoPlayback` at the playhead, which still sees
      the render's `isPlaying` (false), so the click itself never starts a
      paused element; it starts on the next tick, once the render sees
      playback on. */
  method TogglePlay(surface: Surface?, isPlaying: bool, currentTime: real, tracks: seq<Track>, mediaList: seq<Media>)
    returns (nowPlaying: bool, current: Option<Option<Clip>>)
    modifies surface
    ensures nowPlaying == !isPlaying
    ensures surface == null ==> current.None?
    ensures surface != null && isPlaying ==>
      && current.None? && surface.paused
      && surface.src == old(surface.src) && surface.currentTime == old(surface.currentTime)
    ensures surface != null && !isPlaying ==>
      && current.Some?
      && (current.value.None? <==> forall m :: 0 <= m < |Flatten(tracks)| ==> !Covers(Flatten(tracks)[m], currentTime))
      && (current.value.Some? ==>
            exists k :: FirstCoveringAt(Flatten(tracks), k, currentTime) && Flatten(tracks)[k] == current.value.value)
      && (old(surface.paused) ==> surface.paused)
      && Synced(surface, mediaList, currentTime, false, current.value)
  {
    nowPlaying := !isPlaying;
    current := None;
    if surface != null {
      if nowPlaying {
        var clip := UpdateVideoPlayback(surface, tracks, mediaList, currentTime, isPlaying);
        current := Some(clip);
      } else {
        surface.Pause();
      }
    }
  }
}
