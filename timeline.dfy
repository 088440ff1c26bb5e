/** The editor's data model (media, clips, the track list) and the edits the
    editor page makes to track 0: drop-to-add, drop-to-move, drag-move,
    cut (with its hidden media copy), move, delete and the media swap that
    follows a transform.

    Every handler reads the clips and media as its own render saw them (the
    `view`) but writes through a state updater that receives the latest
    state (`tracks`, `media`); the two are kept apart here because the
    assistant's command loop runs many edits against one stale view. */
module Timeline {
  import opened Js

  type Id = string

  /** The per-second annotation arrays a clip carries: image descriptions,
      image attributes and transcript lines. */
  datatype Notes = Notes(descriptions: seq<string>, attributes: seq<string>, transcript: seq<string>)

  /** A browser `File`: its name and MIME type. */
  datatype FileRef = FileRef(name: string, mime: string)

  datatype Thumbnail = Thumbnail(time: real, image: string)

  /** A media item of the media list. `kind` is the media's `type`
      property, which uploads never set; `notes` are the annotation arrays,
      which uploads never set either. */
  datatype Media = Media(
    id: Id, file: FileRef, url: string, name: string, duration: real,
    thumbnails: seq<Thumbnail>, kind: Option<string>, hidden: bool, notes: Option<Notes>)

  /** A clip on a track. `clipIdProp` is the `clip_id` property that the
      video player's buttons read; no clip the page creates has one. */
  datatype Clip = Clip(
    id: Id, clipIdProp: Option<Id>, mediaId: Id,
    start: real, duration: real, offset: real, notes: Option<Notes>)

  type Track = seq<Clip>

  /** Which property of a clip an edit uses as its identity. */
  datatype Field = ById | ByClipIdProp

  function KeyOf(c: Clip, field: Field): Option<Id>
  {
    match field
    case ById => Some(c.id)
    case ByClipIdProp => c.clipIdProp
  }

  /** `c[field] === key`, where an absent property and an absent key are
      both `undefined`. */
  predicate Matches(c: Clip, field: Field, key: Option<Id>)
  {
    KeyOf(c, field) == key
  }

  // ---------------------------------------------------------------- lookup

  /** `track.findIndex(c => c[field] === key)`, with `|t|` for "none". */
  function FindClip(t: Track, field: Field, key: Option<Id>): (i: nat)
    ensures i <= |t|
    ensures i < |t| ==> Matches(t[i], field, key)
    ensures forall j :: 0 <= j < i ==> !Matches(t[j], field, key)
  {
    if t == [] then 0
    else if Matches(t[0], field, key) then 0
    else 1 + FindClip(t[1..], field, key)
  }

  /** `mediaList.findIndex(m => m.id === id)`, with `|list|` for "none". */
  function FindMedia(list: seq<Media>, id: Id): (i: nat)
    ensures i <= |list|
    ensures i < |list| ==> list[i].id == id
    ensures forall j :: 0 <= j < i ==> list[j].id != id
  {
    if list == [] then 0
    else if list[0].id == id then 0
    else 1 + FindMedia(list[1..], id)
  }

  /** The number of clips of `t` that match. */
  function CountMatching(t: Track, field: Field, key: Option<Id>): (n: nat)
    ensures n <= |t|
    ensures n == 0 <==> forall j :: 0 <= j < |t| ==> !Matches(t[j], field, key)
  {
    if t == [] then 0
    else (if Matches(t[0], field, key) then 1 else 0) + CountMatching(t[1..], field, key)
  }

  /** At most one clip of `t` has each id. */
  predicate UniqueIds(t: Track)
  {
    forall i, j :: 0 <= i < j < |t| ==> t[i].id != t[j].id
  }

  /** `r` keeps some of the elements of `t`, in their order in `t`. */
  ghost predicate IsSubsequence(r: Track, t: Track)
    decreases |t|
  {
    r == [] || (t != [] && ((r[0] == t[0] && IsSubsequence(r[1..], t[1..])) || IsSubsequence(r, t[1..])))
  }

  // --------------------------------------------------------------- sorting

  predicate Sorted(t: Track)
  {
    forall i, j :: 0 <= i < j < |t| ==> t[i].start <= t[j].start
  }

  /** Where a stable insertion by start puts `c`: after the leading clips
      that start no later than `c`, at the first clip that starts later;
      in a sorted track, before every clip that starts later. */
  function InsertPosition(t: Track, c: Clip): (k: nat)
    ensures k <= |t|
    ensures forall i :: 0 <= i < k ==> t[i].start <= c.start
    ensures k < |t| ==> c.start < t[k].start
    ensures Sorted(t) ==> forall i :: k <= i < |t| ==> c.start < t[i].start
  {
    if t == [] then 0
    else if c.start < t[0].start then 0
    else 1 + InsertPosition(t[1..], c)
  }

  /** One step of a stable insertion sort by `start`: `c` goes before the
      first clip that starts later than it. */
  function Insert(t: Track, c: Clip): (r: Track)
    ensures |r| == |t| + 1
  {
    if t == [] then [c]
    else if c.start < t[0].start then [c] + t
    else [t[0]] + Insert(t[1..], c)
  }

  /** `Insert` puts `c` at its `InsertPosition`. */
  lemma {:induction false} InsertAt(t: Track, c: Clip)
    ensures var k := InsertPosition(t, c);
      Insert(t, c) == t[..k] + [c] + t[k..]
  {
    if t != [] && c.start >= t[0].start {
      var k' := InsertPosition(t[1..], c);
      InsertAt(t[1..], c);
      assert t[..k' + 1] == [t[0]] + t[1..][..k'];
      assert t[k' + 1..] == t[1..][k'..];
    } else if t != [] {
      assert t[..0] == [];
    }
  }

  /** Inserting adds `c` and loses nothing. */
  lemma {:induction false} InsertPermutes(t: Track, c: Clip)
    ensures multiset(Insert(t, c)) == multiset(t) + multiset{c}
  {
    if t != [] {
      assert t == [t[0]] + t[1..];
      if c.start >= t[0].start {
        InsertPermutes(t[1..], c);
        assert Insert(t, c) == [t[0]] + Insert(t[1..], c);
      }
    }
  }

  /** `[...s].sort((a, b) => a.start - b.start)`: the stable sort of
      `s` by start time. */
  function SortByStart(s: Track): (r: Track)
    ensures |r| == |s|
    ensures multiset(r) == multiset(s)
    ensures Sorted(r)
  {
    if s == [] then []
    else
      assert s == s[..|s| - 1] + [s[|s| - 1]];
      InsertSorted(SortByStart(s[..|s| - 1]), s[|s| - 1]);
      InsertPermutes(SortByStart(s[..|s| - 1]), s[|s| - 1]);
      Insert(SortByStart(s[..|s| - 1]), s[|s| - 1])
  }

  /** Inserting into a sorted track keeps it sorted. */
  lemma InsertSorted(t: Track, c: Clip)
    requires Sorted(t)
    ensures Sorted(Insert(t, c))
  {
    var k := InsertPosition(t, c);
    var r := Insert(t, c);
    InsertAt(t, c);
    assert forall i :: 0 <= i < |r| ==> r[i] == if i < k then t[i] else if i == k then c else t[i - 1];
  }

  lemma InsertAtEnd(t: Track, c: Clip)
    requires forall i :: 0 <= i < |t| ==> t[i].start <= c.start
    ensures Insert(t, c) == t + [c]
  {
    assert InsertPosition(t, c) == |t|;
    InsertAt(t, c);
    assert t[..|t|] == t;
  }

  /** Sorting a track that is already sorted leaves it as it is. */
  lemma {:induction false} SortSortedIsIdentity(s: Track)
    requires Sorted(s)
    ensures SortByStart(s) == s
  {
    if s != [] {
      var init := s[..|s| - 1];
      SortSortedIsIdentity(init);
      InsertAtEnd(init, s[|s| - 1]);
      assert init + [s[|s| - 1]] == s;
    }
  }

  /** The clips of `s` that start exactly at `x`, in order. */
  function WithStart(s: Track, x: real): (r: Track)
    ensures |r| <= |s|
  {
    if s == [] then [] else Matching(s[0], x) + WithStart(s[1..], x)
  }

  /** `[c]` when `c` starts at `x`, else nothing. */
  function Matching(c: Clip, x: real): Track
  {
    if c.start == x then [c] else []
  }

  lemma WithStartSingle(c: Clip, x: real)
    ensures WithStart([c], x) == Matching(c, x)
  {
    assert [c][1..] == [];
  }

  lemma {:induction false} WithStartAppend(a: Track, b: Track, x: real)
    ensures WithStart(a + b, x) == WithStart(a, x) + WithStart(b, x)
  {
    if a == [] {
      assert a + b == b;
    } else {
      var ab := a + b;
      assert ab[0] == a[0];
      assert ab[1..] == a[1..] + b;
      WithStartAppend(a[1..], b, x);
      var h := Matching(a[0], x);
      var wa, wb := WithStart(a[1..], x), WithStart(b, x);
      assert WithStart(ab, x) == h + (wa + wb);
      assert WithStart(a, x) == h + wa;
      assert h + (wa + wb) == (h + wa) + wb;
    }
  }

  lemma {:induction false} WithStartNone(s: Track, x: real)
    requires forall i :: 0 <= i < |s| ==> s[i].start != x
    ensures WithStart(s, x) == []
  {
    if s != [] {
      WithStartNone(s[1..], x);
    }
  }

  /** Inserting into a sorted track adds `c` last among the clips that
      start at `x`. */
  lemma {:induction false} InsertStable(t: Track, c: Clip, x: real)
    requires Sorted(t)
    ensures WithStart(Insert(t, c), x) == WithStart(t, x) + Matching(c, x)
  {
    if t == [] {
      WithStartSingle(c, x);
    } else if c.start < t[0].start {
      InsertStableFront(t, c, x);
    } else {
      var rest := Insert(t[1..], c);
      var h, w, m := Matching(t[0], x), WithStart(t[1..], x), Matching(c, x);
      assert WithStart(Insert(t, c), x) == h + WithStart(rest, x) by {
        assert Insert(t, c) == [t[0]] + rest;
        assert ([t[0]] + rest)[1..] == rest;
      }
      InsertStable(t[1..], c, x);
      assert WithStart(t, x) == h + w;
      assert h + (w + m) == (h + w) + m;
    }
  }
  /** The case of `InsertStable` where the clip goes in front. */
  lemma InsertStableFront(t: Track, c: Clip, x: real)
    requires Sorted(t) && t != [] && c.start < t[0].start
    ensures WithStart(Insert(t, c), x) == WithStart(t, x) + Matching(c, x)
  {
    var m := Matching(c, x);
    assert WithStart(Insert(t, c), x) == m + WithStart(t, x) by {
      assert Insert(t, c) == [c] + t;
      assert ([c] + t)[1..] == t;
    }
    if c.start == x {
      WithStartNone(t, x);
      assert m + [] == [] + m;
    } else {
      assert m == [];
    }
  }


  /** The sort is stable: the clips that share any one start time come out
      in the order they went in. */
  lemma {:induction false} SortStable(s: Track, x: real)
    ensures WithStart(SortByStart(s), x) == WithStart(s, x)
  {
    if s != [] {
      var init, last := s[..|s| - 1], s[|s| - 1];
      var sorted := SortByStart(init);
      assert WithStart(SortByStart(s), x) == WithStart(sorted, x) + Matching(last, x) by {
        assert SortByStart(s) == Insert(sorted, last);
        InsertStable(sorted, last, x);
      }
      assert WithStart(s, x) == WithStart(init, x) + Matching(last, x) by {
        assert init + [last] == s;
        WithStartAppend(init, [last], x);
        WithStartSingle(last, x);
      }
      SortStable(init, x);
    }
  }

  // ------------------------------------------------------------- flattening

  /** `tracks.flat()`. */
  function Flatten(tracks: seq<Track>): (r: Track)
    ensures |tracks| == 1 ==> r == tracks[0]
  {
    if tracks == [] then []
    else Flatten(tracks[..|tracks| - 1]) + tracks[|tracks| - 1]
  }

  lemma {:induction false} FlattenAppend(a: seq<Track>, b: seq<Track>)
    ensures Flatten(a + b) == Flatten(a) + Flatten(b)
    decreases |b|
  {
    if b == [] {
      assert a + b == a;
    } else {
      var b', last := b[..|b| - 1], b[|b| - 1];
      var ab := a + b;
      assert ab[..|ab| - 1] == a + b' && ab[|ab| - 1] == last;
      FlattenAppend(a, b');
      var fa, fb := Flatten(a), Flatten(b');
      assert Flatten(ab) == (fa + fb) + last;
      assert (fa + fb) + last == fa + (fb + last);
    }
  }

  // -------------------------------------------------------- drop and drag

  /** The clip `handleTimelineDrop` builds for dropped media: the raw drop
      position (not clamped), the dragged media's duration, offset 0, and
      the annotation arrays of the media-list entry. */
  function DroppedClip(dragged: Media, listed: Media, dropPosition: real, newId: Id): (c: Clip)
    ensures c.id == newId && c.mediaId == dragged.id && c.clipIdProp.None?
    ensures c.start == dropPosition && c.duration == dragged.duration && c.offset == 0.0
    ensures c.notes == listed.notes
  {
    Clip(newId, None, dragged.id, dropPosition, dragged.duration, 0.0, listed.notes)
  }

  /** Drop-to-add: the new clip is appended to track 0, which is then
      sorted by start. If the dragged media is not in the media list the
      handler throws and nothing changes. Into a sorted track the new clip
      lands after every clip that starts no later than it (ties keep the
      existing clips first) and before every clip that starts later. */
  function DropMedia(tracks: seq<Track>, mediaList: seq<Media>, dragged: Media, dropPosition: real, newId: Id): (r: seq<Track>)
    requires |tracks| >= 1
    ensures FindMedia(mediaList, dragged.id) == |mediaList| ==> r == tracks
    ensures FindMedia(mediaList, dragged.id) < |mediaList| ==>
      var c := DroppedClip(dragged, mediaList[FindMedia(mediaList, dragged.id)], dropPosition, newId);
      && |r| == 1
      && Sorted(r[0])
      && multiset(r[0]) == multiset(tracks[0]) + multiset{c}
      && (Sorted(tracks[0]) ==>
            var k := InsertPosition(tracks[0], c);
            r[0] == tracks[0][..k] + [c] + tracks[0][k..])
  {
    var m := FindMedia(mediaList, dragged.id);
    if m == |mediaList| then tracks
    else
      var c := DroppedClip(dragged, mediaList[m], dropPosition, newId);
      var t := tracks[0];
      SortAppend(t, c);
      InsertAt(t, c);
      [SortByStart(t + [c])]
  }

  /** Sorting a track with one clip appended inserts that clip into the
      sorted track; into a sorted track, directly. */
  lemma SortAppend(t: Track, c: Clip)
    ensures SortByStart(t + [c]) == Insert(SortByStart(t), c)
    ensures Sorted(t) ==> SortByStart(t + [c]) == Insert(t, c)
  {
    assert (t + [c])[..|t + [c]| - 1] == t;
    if Sorted(t) {
      SortSortedIsIdentity(t);
    }
  }

  /** `{ ...c, start: newStart }` for every clip of `t` whose id is `id`. */
  function Retime(t: Track, id: Id, replacement: Clip): (r: Track)
    ensures |r| == |t|
    ensures forall i :: 0 <= i < |t| ==> r[i] == if t[i].id == id then replacement else t[i]
  {
    seq(|t|, i requires 0 <= i < |t| => if t[i].id == id then replacement else t[i])
  }

  /** Drop-to-move: the dragged clip (as it was when the drag began) takes
      the drop position, floored at 0, and track 0 is re-sorted. */
  function DropMove(tracks: seq<Track>, dragged: Clip, dropPosition: real): (r: seq<Track>)
    requires |tracks| >= 1
    ensures |r| == 1 && |r[0]| == |tracks[0]| && Sorted(r[0])
    ensures forall c :: c in r[0] ==> (c in tracks[0] && c.id != dragged.id) || c == dragged.(start := if dropPosition < 0.0 then 0.0 else dropPosition)
    ensures forall c :: c in tracks[0] && c.id != dragged.id ==> c in r[0]
    ensures forall c :: c in r[0] ==> c.start >= 0.0 || c in tracks[0]
    ensures multiset(r[0]) == multiset(Retime(tracks[0], dragged.id, dragged.(start := if dropPosition < 0.0 then 0.0 else dropPosition)))
  {
    var newStart := if dropPosition < 0.0 then 0.0 else dropPosition;
    var moved := dragged.(start := newStart);
    var u := Retime(tracks[0], dragged.id, moved);
    var r := SortByStart(u);
    assert forall c :: c in r <==> c in multiset(r);
    assert forall c :: c in u ==> (c in tracks[0] && c.id != dragged.id) || c == moved;
    assert forall i :: 0 <= i < |tracks[0]| && tracks[0][i].id != dragged.id ==> u[i] == tracks[0][i];
    [r]
  }

  /** The start a drag-move gives the dragged clip:
      `max(0, min(projectDuration - duration, initialStart + timeDelta))`. */
  function DragStart(initialStart: real, timeDelta: real, duration: real, projectDuration: real): (s: real)
    ensures 0.0 <= s
    ensures duration <= projectDuration ==> s <= projectDuration - duration
    ensures duration > projectDuration ==> s == 0.0
    ensures 0.0 <= initialStart + timeDelta <= projectDuration - duration ==> s == initialStart + timeDelta
    ensures 0.0 <= projectDuration - duration < initialStart + timeDelta ==> s == projectDuration - duration
    ensures initialStart + timeDelta < 0.0 ==> s == 0.0
  {
    var upper := projectDuration - duration;
    var wanted := initialStart + timeDelta;
    var m := if upper < wanted then upper else wanted;
    if m < 0.0 then 0.0 else m
  }

  /** What a clip drag records on mouse-down: the clip and its start then. */
  datatype ClipDrag = ClipDrag(clip: Clip, initialStart: real)

  /** `handleMouseMove`: without a drag in progress nothing happens;
      otherwise every clip with the dragged clip's id gets the clamped
      start, keeping all its other fields, and the track is NOT re-sorted. */
  function DragMove(tracks: seq<Track>, drag: Option<ClipDrag>, timeDelta: real, projectDuration: real): (r: seq<Track>)
    requires |tracks| >= 1
    ensures drag.None? ==> r == tracks
    ensures drag.Some? ==>
      var s := DragStart(drag.value.initialStart, timeDelta, drag.value.clip.duration, projectDuration);
      && |r| == 1 && |r[0]| == |tracks[0]|
      && forall i :: 0 <= i < |r[0]| ==>
        && r[0][i].(start := tracks[0][i].start) == tracks[0][i]
        && (tracks[0][i].id == drag.value.clip.id ==> r[0][i].start == s)
        && (tracks[0][i].id != drag.value.clip.id ==> r[0][i] == tracks[0][i])
  {
    if drag.None? then tracks
    else
      var d := drag.value;
      var s := DragStart(d.initialStart, timeDelta, d.clip.duration, projectDuration);
      var t := tracks[0];
      [seq(|t|, i requires 0 <= i < |t| => if t[i].id == d.clip.id then t[i].(start := s) else t[i])]
  }

  /** The clip mouse-down registers the window listeners of its own
      render, whose `draggingClip` and `dragStartX` are still those from
      before the press (`before`): `null` on the first drag, else the
      previous drag, which the stale mouse-up never cleared. As written,
      the pressed clip therefore never moves while the listeners act,
      though the drag just pressed would move it to `DragStart`. */
  lemma DragAsWritten(tracks: seq<Track>, before: Option<ClipDrag>, pressed: ClipDrag, timeDelta: real, projectDuration: real, i: nat)
    requires |tracks| >= 1 && i < |tracks[0]| && tracks[0][i].id == pressed.clip.id
    requires before.None? || before.value.clip.id != pressed.clip.id
    ensures DragMove(tracks, before, timeDelta, projectDuration)[0][i] == tracks[0][i]
    ensures DragMove(tracks, Some(pressed), timeDelta, projectDuration)[0][i].start
      == DragStart(pressed.initialStart, timeDelta, pressed.clip.duration, projectDuration)
  {
  }

  // ------------------------------------------------------------------ cut

  /** The fresh values a cut draws from the clock and the browser: the two
      halves' ids (`Date.now()` and `Date.now() + 1`), and the id and object
      URL of the media copy. */
  datatype CutIds = CutIds(first: Id, second: Id, copyId: Id, copyUrl: string)

  datatype Status = Applied | NotFound | Threw

  /** The outcome of an edit: its status and the new tracks and media list. */
  datatype Edit = Edit(status: Status, tracks: seq<Track>, media: seq<Media>)

  /** Splits each annotation array at `k` with `slice(0, k)` / `slice(k)`. */
  function SplitNotes(n: Notes, k: int): (r: (Notes, Notes))
    ensures r.0.descriptions + r.1.descriptions == n.descriptions
    ensures r.0.attributes + r.1.attributes == n.attributes
    ensures r.0.transcript + r.1.transcript == n.transcript
    ensures 0 <= k ==> |r.0.descriptions| == if k < |n.descriptions| then k else |n.descriptions|
  {
    SliceSplit(n.descriptions, k);
    SliceSplit(n.attributes, k);
    SliceSplit(n.transcript, k);
    (Notes(Slice(n.descriptions, 0, k), Slice(n.attributes, 0, k), Slice(n.transcript, 0, k)),
     Notes(SliceFrom(n.descriptions, k), SliceFrom(n.attributes, k), SliceFrom(n.transcript, k)))
  }

  /** `createMediaCopy`: looks the original up in the media list the
      handler's render saw; if it is there, appends a hidden copy with the
      same duration, thumbnails and type to the latest media list and
      yields the copy's id. */
  function CreateMediaCopy(viewMedia: seq<Media>, media: seq<Media>, originalId: Id, ids: CutIds): (r: (seq<Media>, Option<Id>))
    ensures FindMedia(viewMedia, originalId) == |viewMedia| ==> r == (media, None)
    ensures FindMedia(viewMedia, originalId) < |viewMedia| ==>
      var orig := viewMedia[FindMedia(viewMedia, originalId)];
      && r.1 == Some(ids.copyId)
      && |r.0| == |media| + 1 && r.0[..|media|] == media
      && var copy := r.0[|media|];
         && copy.id == ids.copyId && copy.url == ids.copyUrl && copy.hidden
         && copy.duration == orig.duration && copy.thumbnails == orig.thumbnails
         && copy.kind == orig.kind && copy.name == orig.name + " for second half"
         && copy.file == FileRef(orig.name + "_copy.mp4", orig.file.mime)
  {
    var m := FindMedia(viewMedia, originalId);
    if m == |viewMedia| then (media, None)
    else
      var orig := viewMedia[m];
      var copy := Media(ids.copyId, FileRef(orig.name + "_copy.mp4", orig.file.mime), ids.copyUrl,
        orig.name + " for second half", orig.duration, orig.thumbnails, orig.kind, true, None);
      assert (media + [copy])[..|media|] == media;
      (media + [copy], Some(ids.copyId))
  }

  /** Every clip of `t` whose id is `id` replaced by the two clips `a`, `b`
      (`map(...).flat()`). */
  function SplitAt(t: Track, id: Id, a: Clip, b: Clip): (r: Track)
    ensures |r| == |t| + CountMatching(t, ById, Some(id))
    ensures CountMatching(t, ById, Some(id)) == 0 ==> r == t
  {
    if t == [] then []
    else (if t[0].id == id then [a, b] else [t[0]]) + SplitAt(t[1..], id, a, b)
  }

  /** With unique ids, the clip at `i` is replaced in place by `a`, `b`. */
  lemma {:induction false} SplitAtUnique(t: Track, i: nat, a: Clip, b: Clip)
    requires i < |t| && UniqueIds(t)
    ensures SplitAt(t, t[i].id, a, b) == t[..i] + [a, b] + t[i + 1..]
  {
    var id := t[i].id;
    if i == 0 {
      assert CountMatching(t[1..], ById, Some(id)) == 0 by {
        forall j | 0 <= j < |t[1..]| ensures !Matches(t[1..][j], ById, Some(id)) {
          assert t[1..][j] == t[j + 1];
        }
      }
    } else {
      UniqueTail(t);
      assert t[1..][i - 1] == t[i];
      SplitAtUnique(t[1..], i - 1, a, b);
      assert SplitAt(t, id, a, b) == [t[0]] + SplitAt(t[1..], id, a, b) by {
        assert t[0].id != id;
      }
      assert t[1..][..i - 1] == t[1..i];
      assert t[1..][i..] == t[i + 1..];
      assert [t[0]] + t[1..i] == t[..i];
    }
  }

  /** Dropping the first clip keeps ids unique. */
  lemma UniqueTail(t: Track)
    requires t != [] && UniqueIds(t)
    ensures UniqueIds(t[1..])
  {
    forall p, q | 0 <= p < q < |t[1..]| ensures t[1..][p].id != t[1..][q].id {
      assert t[1..][p] == t[p + 1] && t[1..][q] == t[q + 1];
    }
  }

  /** The first half of a cut: same start, media, offset; `cutPoint` long. */
  function FirstHalf(c: Clip, n: Notes, cutPoint: real, id: Id): (h: Clip)
    ensures h.start == c.start && h.duration == cutPoint
    ensures h.offset == c.offset && h.mediaId == c.mediaId
    ensures h.notes == Some(SplitNotes(n, Ceil(cutPoint)).0)
  {
    Clip(id, None, c.mediaId, c.start, cutPoint, c.offset, Some(SplitNotes(n, Ceil(cutPoint)).0))
  }

  /** The second half of a cut: starts at the cut, runs to the clip's end,
      and reads the media `cutPoint` further in. */
  function SecondHalf(c: Clip, n: Notes, cutPoint: real, id: Id, mediaId: Id): (h: Clip)
    ensures h.start == c.start + cutPoint
    ensures h.start + h.duration == c.start + c.duration
    ensures h.offset == c.offset + cutPoint && h.mediaId == mediaId
    ensures h.notes == Some(SplitNotes(n, Ceil(cutPoint)).1)
  {
    Clip(id, None, mediaId, c.start + cutPoint, c.duration - cutPoint, c.offset + cutPoint, Some(SplitNotes(n, Ceil(cutPoint)).1))
  }

  /** `cutClip(clipId, cutPoint)`. The clip is looked up in the render's
      view of track 0; `cutPoint` is never checked. A clip without
      annotation arrays makes the first `slice` throw before anything
      changes. Otherwise the second half points at a new hidden copy of the
      media (or keeps the media when the copy finds no original), and every
      clip of the latest track 0 with the cut clip's id is replaced by the
      two halves. */
  function CutClip(view: Track, viewMedia: seq<Media>, tracks: seq<Track>, media: seq<Media>,
                   key: Option<Id>, cutPoint: real, ids: CutIds): (r: Edit)
    requires |tracks| >= 1
    ensures r.status == NotFound <==> FindClip(view, ById, key) == |view|
    ensures r.status == Threw <==> FindClip(view, ById, key) < |view| && view[FindClip(view, ById, key)].notes.None?
    ensures r.status != Applied ==> r.tracks == tracks && r.media == media
    ensures r.status == Applied ==>
      var c := view[FindClip(view, ById, key)];
      && |r.tracks| == 1
      && |r.tracks[0]| == |tracks[0]| + CountMatching(tracks[0], ById, Some(c.id))
      && |r.media| == |media| + (if FindMedia(viewMedia, c.mediaId) < |viewMedia| then 1 else 0)
  {
    var i := FindClip(view, ById, key);
    if i == |view| then Edit(NotFound, tracks, media)
    else
      var c := view[i];
      if c.notes.None? then Edit(Threw, tracks, media)
      else
        var copied := CreateMediaCopy(viewMedia, media, c.mediaId, ids);
        var first := FirstHalf(c, c.notes.value, cutPoint, ids.first);
        var second := SecondHalf(c, c.notes.value, cutPoint, ids.second,
          if copied.1.Some? then copied.1.value else c.mediaId);
        Edit(Applied, [SplitAt(tracks[0], c.id, first, second)], copied.0)
  }

  /** When the handler's view is the latest track and ids are unique, a
      cut of a clip with annotations whose media is listed replaces that
      clip, at its own index, by the two halves, the second playing the
      new copy. */
  lemma CutUnique(t: Track, media: seq<Media>, key: Option<Id>, c: Clip, p: real, ids: CutIds)
    requires UniqueIds(t)
    requires FindClip(t, ById, key) < |t| && t[FindClip(t, ById, key)] == c
    requires c.notes.Some? && FindMedia(media, c.mediaId) < |media|
    ensures var i := FindClip(t, ById, key);
      CutClip(t, media, [t], media, key, p, ids) ==
        Edit(Applied,
             [t[..i] + [FirstHalf(c, c.notes.value, p, ids.first),
                        SecondHalf(c, c.notes.value, p, ids.second, ids.copyId)] + t[i + 1..]],
             CreateMediaCopy(media, media, c.mediaId, ids).0)
  {
    var i := FindClip(t, ById, key);
    var first := FirstHalf(c, c.notes.value, p, ids.first);
    var second := SecondHalf(c, c.notes.value, p, ids.second, ids.copyId);
    SplitAtUnique(t, i, first, second);
  }

  /** `a` and `b` are the halves of a cut at `p` of a clip `c` with
      annotations `[s, s + L)` at offset `o`: `[s, s + p)` at offset `o`
      and `[s + p, s + L)` at offset `o + p`, whose durations sum to `L`;
      the annotation arrays split between them rejoin to the originals; the
      first keeps the media and the second plays `copyId`. */
  ghost predicate Halves(c: Clip, p: real, a: Clip, b: Clip, copyId: Id)
    requires c.notes.Some?
  {
    var n := c.notes.value;
    && a.notes.Some? && b.notes.Some?
    && a.start == c.start && a.start + a.duration == b.start && b.start + b.duration == c.start + c.duration
    && a.duration + b.duration == c.duration
    && a.offset == c.offset && b.offset == c.offset + p
    && a.mediaId == c.mediaId && b.mediaId == copyId
    && a.notes.value.descriptions + b.notes.value.descriptions == n.descriptions
    && a.notes.value.attributes + b.notes.value.attributes == n.attributes
    && a.notes.value.transcript + b.notes.value.transcript == n.transcript
  }

  lemma HalvesOfCut(c: Clip, p: real, ids: CutIds)
    requires c.notes.Some?
    ensures Halves(c, p, FirstHalf(c, c.notes.value, p, ids.first),
                   SecondHalf(c, c.notes.value, p, ids.second, ids.copyId), ids.copyId)
  {
  }

  /** A cut at `p`, when the handler's view is the latest track and ids
      are unique: the clip is replaced at its own index by its two
      `Halves`; every other clip stays where it was; the second half plays
      a new hidden copy of the media with the same duration. */
  lemma CutSplitsInPlace(t: Track, media: seq<Media>, key: Option<Id>, p: real, ids: CutIds)
    requires UniqueIds(t)
    requires FindClip(t, ById, key) < |t|
    requires t[FindClip(t, ById, key)].notes.Some?
    requires FindMedia(media, t[FindClip(t, ById, key)].mediaId) < |media|
    ensures var i := FindClip(t, ById, key);
      var c := t[i];
      var r := CutClip(t, media, [t], media, key, p, ids);
      && r.status == Applied
      && |r.tracks[0]| == |t| + 1
      && r.tracks[0][..i] == t[..i] && r.tracks[0][i + 2..] == t[i + 1..]
      && Halves(c, p, r.tracks[0][i], r.tracks[0][i + 1], ids.copyId)
      && r.media[|media|].hidden && r.media[|media|].id == ids.copyId
      && r.media[|media|].duration == media[FindMedia(media, c.mediaId)].duration
  {
    var i := FindClip(t, ById, key);
    var c := t[i];
    var first := FirstHalf(c, c.notes.value, p, ids.first);
    var second := SecondHalf(c, c.notes.value, p, ids.second, ids.copyId);
    var tr := t[..i] + [first, second] + t[i + 1..];
    var copied := CreateMediaCopy(media, media, c.mediaId, ids).0;
    assert CutClip(t, media, [t], media, key, p, ids) == Edit(Applied, [tr], copied) by {
      CutUnique(t, media, key, c, p, ids);
    }
    HalvesOfCut(c, p, ids);
    ReplacedAt(t, i, first, second);
  }

  /** The pieces of `t` with its clip `i` replaced by `a`, `b`. */
  lemma ReplacedAt(t: Track, i: nat, a: Clip, b: Clip)
    requires i < |t|
    ensures var r := t[..i] + [a, b] + t[i + 1..];
      |r| == |t| + 1 && r[..i] == t[..i] && r[i] == a && r[i + 1] == b && r[i + 2..] == t[i + 1..]
  {
    var r := t[..i] + [a, b] + t[i + 1..];
    assert r[..i] == t[..i];
    assert r[i + 2..] == t[i + 1..];
  }

  // ------------------------------------------------------- move and delete

  /** The clip `moveClip` writes: id, media, duration and offset are kept,
      the start is the requested one (unclamped), and the annotation arrays
      and any `clip_id` are dropped. */
  function MovedClip(c: Clip, newStart: real): (m: Clip)
    ensures m.id == c.id && m.mediaId == c.mediaId && m.duration == c.duration && m.offset == c.offset
    ensures m.start == newStart && m.notes.None? && m.clipIdProp.None?
  {
    Clip(c.id, None, c.mediaId, newStart, c.duration, c.offset, None)
  }

  /** The track list a move produces: every clip of the latest track 0 with
      the moved clip's id becomes `MovedClip`, in place; no re-sort. */
  function MoveInTrack(tracks: seq<Track>, moved: Clip, newStart: real): (r: seq<Track>)
    requires |tracks| >= 1
    ensures |r| == 1 && |r[0]| == |tracks[0]|
    ensures forall j :: 0 <= j < |r[0]| ==>
      (tracks[0][j].id == moved.id ==> r[0][j] == MovedClip(moved, newStart))
      && (tracks[0][j].id != moved.id ==> r[0][j] == tracks[0][j])
  {
    [Retime(tracks[0], moved.id, MovedClip(moved, newStart))]
  }

  /** The render's view of track 0, whose clip objects `moveClip` writes in
      place. */
  class Snapshot {
    var track: Track

    constructor (track: Track)
      ensures this.track == track
    {
      this.track := track;
    }

    /** `moveClip(clipId, newStart)`: without a clip of that id in the view
        nothing changes. Otherwise the found clip's start is overwritten in
        the view, and the latest track 0 gets the moved clip in place of
        every clip with that id. */
    method MoveClip(tracks: seq<Track>, key: Option<Id>, newStart: real) returns (r: seq<Track>)
      requires |tracks| >= 1
      modifies this
      ensures FindClip(old(track), ById, key) == |old(track)| ==> track == old(track) && r == tracks
      ensures FindClip(old(track), ById, key) < |old(track)| ==>
        var i := FindClip(old(track), ById, key);
        && track == old(track)[i := old(track)[i].(start := newStart)]
        && r == MoveInTrack(tracks, old(track)[i], newStart)
    {
      var i := FindClip(track, ById, key);
      if i == |track| {
        r := tracks;
      } else {
        var c := track[i];
        track := track[i := c.(start := newStart)];
        r := MoveInTrack(tracks, c, newStart);
      }
    }
  }

  /** `track.filter(c => c[field] !== key)`. */
  function RemoveMatching(t: Track, field: Field, key: Option<Id>): (r: Track)
    ensures |r| + CountMatching(t, field, key) == |t|
    ensures forall c :: c in r <==> c in t && !Matches(c, field, key)
    ensures IsSubsequence(r, t)
  {
    if t == [] then []
    else if Matches(t[0], field, key) then
      var rest := RemoveMatching(t[1..], field, key);
      assert forall c :: c in t <==> c == t[0] || c in t[1..];
      rest
    else
      var rest := RemoveMatching(t[1..], field, key);
      assert forall c :: c in t <==> c == t[0] || c in t[1..];
      assert ([t[0]] + rest)[1..] == rest;
      [t[0]] + rest
  }

  /** `deleteClip(clipId)` of the editor page: track 0 keeps exactly the
      clips whose id differs, in their original order; an id nobody has
      (or no id at all) changes nothing. */
  function DeleteClip(tracks: seq<Track>, key: Option<Id>): (r: seq<Track>)
    requires |tracks| >= 1
    ensures |r| == 1
    ensures forall c :: c in r[0] <==> c in tracks[0] && key != Some(c.id)
    ensures IsSubsequence(r[0], tracks[0])
    ensures |r[0]| == |tracks[0]| - CountMatching(tracks[0], ById, key)
    ensures CountMatching(tracks[0], ById, key) == 0 ==> r[0] == tracks[0]
  {
    var t := RemoveMatching(tracks[0], ById, key);
    if CountMatching(tracks[0], ById, key) == 0 then
      NothingRemoved(tracks[0], ById, key);
      [t]
    else [t]
  }

  lemma {:induction false} NothingRemoved(t: Track, field: Field, key: Option<Id>)
    requires CountMatching(t, field, key) == 0
    ensures RemoveMatching(t, field, key) == t
  {
    if t != [] {
      assert !Matches(t[0], field, key);
      NothingRemoved(t[1..], field, key);
    }
  }

  // ------------------------------------------------------------ media swap

  /** After a transform: every clip of every track whose id is `key` now
      plays `newMediaId`; nothing else about any clip changes. */
  function SwapMedia(tracks: seq<Track>, key: Option<Id>, newMediaId: Id): (r: seq<Track>)
    ensures |r| == |tracks|
    ensures forall k :: 0 <= k < |r| ==> |r[k]| == |tracks[k]|
    ensures forall k, j :: 0 <= k < |r| && 0 <= j < |r[k]| ==>
      && r[k][j].(mediaId := tracks[k][j].mediaId) == tracks[k][j]
      && (Matches(tracks[k][j], ById, key) ==> r[k][j].mediaId == newMediaId)
      && (!Matches(tracks[k][j], ById, key) ==> r[k][j] == tracks[k][j])
  {
    seq(|tracks|, k requires 0 <= k < |tracks| =>
      seq(|tracks[k]|, j requires 0 <= j < |tracks[k]| =>
        if Matches(tracks[k][j], ById, key) then tracks[k][j].(mediaId := newMediaId) else tracks[k][j]))
  }
}
