/** Export: the plan the video player builds before handing work to the
    encoder. All clips of all tracks, sorted by start, are laid out one
    after the other, with a black "gap" segment wherever the timeline is
    empty before a clip and after the last one; the segments are then
    listed, one `file …` line each, for the concatenation step. */
module Export {
  import opened Js
  import opened Timeline

  /** A black filler of some length, or a clip with the media it cuts
      from (absent when the media list has no entry for it). */
  datatype Segment = Gap(duration: real) | Part(clip: Clip, media: Option<Media>)

  /** `mediaList.find(m => m.id === id)`. */
  function MediaOf(list: seq<Media>, id: Id): (m: Option<Media>)
    ensures m.Some? <==> exists j :: 0 <= j < |list| && list[j].id == id
    ensures m.Some? ==> m.value in list && m.value.id == id
  {
    var k := FindMedia(list, id);
    if k < |list| then Some(list[k]) else None
  }

  /** The black filler before a clip that starts later than `cursor`. */
  function Lead(c: Clip, cursor: real): (r: seq<Segment>)
    ensures r == [] || (|r| == 1 && r[0].Gap? && r[0].duration > 0.0)
    ensures r != [] <==> c.start > cursor
    ensures r != [] ==> r[0].duration == c.start - cursor
  {
    if c.start > cursor then [Gap(c.start - cursor)] else []
  }

  /** The segments for clips that are already in play order, starting at
      time `cursor`: a gap up to each clip that starts later than the
      previous clip ended, the clip itself, and a final gap up to the
      project's end. */
  function Segments(clips: Track, list: seq<Media>, cursor: real, projectDuration: real): seq<Segment>
    decreases |clips|
  {
    if clips == [] then
      if cursor < projectDuration then [Gap(projectDuration - cursor)] else []
    else
      var c := clips[0];
      Lead(c, cursor) + [Part(c, MediaOf(list, c.mediaId))]
        + Segments(clips[1..], list, c.start + c.duration, projectDuration)
  }

  /** The plan for the whole timeline: every clip of every track, in a
      stable sort by start, from time 0. */
  function Plan(tracks: seq<Track>, list: seq<Media>, projectDuration: real): seq<Segment>
  {
    Segments(SortByStart(Flatten(tracks)), list, 0.0, projectDuration)
  }

  /** The segment loop of `handleDownload`, over the sorted clips. */
  method PlanSegments(tracks: seq<Track>, list: seq<Media>, projectDuration: real) returns (segments: seq<Segment>)
    ensures segments == Plan(tracks, list, projectDuration)
  {
    var all := SortByStart(Flatten(tracks));
    segments := LayOut(all, list, projectDuration);
  }

  /** Lays the clips, already in play order, out from time 0. */
  method LayOut(all: Track, list: seq<Media>, projectDuration: real) returns (segments: seq<Segment>)
    ensures segments == Segments(all, list, 0.0, projectDuration)
  {
    ghost var whole := Segments(all, list, 0.0, projectDuration);
    ghost var todo := all;
    segments := [];
    var cursor := 0.0;
    var i := 0;
    while i < |all|
      invariant 0 <= i <= |all| && todo == all[i..]
      invariant segments + Segments(todo, list, cursor, projectDuration) == whole
    {
      var clip := all[i];
      LayOutStep(todo, list, cursor, projectDuration, segments, whole);
      segments := segments + Lead(clip, cursor) + [Part(clip, MediaOf(list, clip.mediaId))];
      cursor := clip.start + clip.duration;
      todo := todo[1..];
      i := i + 1;
    }
    LayOutEnd(todo, list, cursor, projectDuration, segments, whole);
    if cursor < projectDuration {
      segments := segments + [Gap(projectDuration - cursor)];
    }
  }

  /** One turn of the segment loop: the next clip's gap and part move from
      the segments still to come to the segments laid out. */
  lemma LayOutStep(todo: Track, list: seq<Media>, cursor: real, projectDuration: real,
                   segments: seq<Segment>, whole: seq<Segment>)
    requires todo != []
    requires segments + Segments(todo, list, cursor, projectDuration) == whole
    ensures var c := todo[0];
      var laid := segments + Lead(c, cursor) + [Part(c, MediaOf(list, c.mediaId))];
      laid + Segments(todo[1..], list, c.start + c.duration, projectDuration) == whole
  {
    var c := todo[0];
    var gap := Lead(c, cursor);
    var part := [Part(c, MediaOf(list, c.mediaId))];
    var rest := Segments(todo[1..], list, c.start + c.duration, projectDuration);
    assert segments + (gap + part + rest) == (segments + gap + part) + rest;
  }

  /** After the last clip only the closing gap, if any, is left. */
  lemma LayOutEnd(todo: Track, list: seq<Media>, cursor: real, projectDuration: real,
                  segments: seq<Segment>, whole: seq<Segment>)
    requires todo == []
    requires segments + Segments(todo, list, cursor, projectDuration) == whole
    ensures whole == segments + (if cursor < projectDuration then [Gap(projectDuration - cursor)] else [])
  {
  }

  // ------------------------------------------------------- what a plan holds

  /** The clips of the clip segments, in order. */
  function PartsOf(segs: seq<Segment>): Track
  {
    if segs == [] then []
    else (if segs[0].Part? then [segs[0].clip] else []) + PartsOf(segs[1..])
  }

  lemma {:induction false} PartsOfAppend(a: seq<Segment>, b: seq<Segment>)
    ensures PartsOf(a + b) == PartsOf(a) + PartsOf(b)
    decreases |a|
  {
    if a == [] {
      assert a + b == b;
    } else {
      var ab := a + b;
      assert ab[0] == a[0] && ab[1..] == a[1..] + b;
      PartsOfAppend(a[1..], b);
      var h: Track := if a[0].Part? then [a[0].clip] else [];
      var pa, pb := PartsOf(a[1..]), PartsOf(b);
      assert PartsOf(ab) == h + (pa + pb);
      assert h + (pa + pb) == (h + pa) + pb;
    }
  }

  /** The plan holds every clip exactly once, in play order, and nothing
      else but gaps. */
  lemma {:induction false} SegmentsKeepClips(clips: Track, list: seq<Media>, cursor: real, projectDuration: real)
    ensures PartsOf(Segments(clips, list, cursor, projectDuration)) == clips
    decreases |clips|
  {
    if clips != [] {
      var c := clips[0];
      var gap, part := Lead(c, cursor), [Part(c, MediaOf(list, c.mediaId))];
      var rest := Segments(clips[1..], list, c.start + c.duration, projectDuration);
      assert Segments(clips, list, cursor, projectDuration) == gap + part + rest;
      LeadThenPart(c, cursor, part[0], rest);
      SegmentsKeepClips(clips[1..], list, c.start + c.duration, projectDuration);
      assert [c] + clips[1..] == clips;
    } else if cursor < projectDuration {
      assert [Gap(projectDuration - cursor)][1..] == [];
    }
  }
  /** A clip's lead-in gap and its part contribute the clip alone. */
  lemma LeadThenPart(c: Clip, cursor: real, part: Segment, rest: seq<Segment>)
    requires part.Part? && part.clip == c
    ensures PartsOf(Lead(c, cursor) + [part] + rest) == [c] + PartsOf(rest)
  {
    var gap := Lead(c, cursor);
    assert PartsOf(gap + [part] + rest) == PartsOf(gap) + PartsOf([part]) + PartsOf(rest) by {
      PartsOfAppend(gap + [part], rest);
      PartsOfAppend(gap, [part]);
    }
    assert PartsOf(gap) + PartsOf([part]) == [c] by {
      LeadHasNoParts(c, cursor);
      assert [part][1..] == [];
    }
  }


  lemma LeadHasNoParts(c: Clip, cursor: real)
    ensures PartsOf(Lead(c, cursor)) == []
  {
    if c.start > cursor {
      assert Lead(c, cursor)[1..] == [];
    }
  }

  /** The exported clips are the timeline's clips in a stable sort by
      start. */
  lemma PlanKeepsClips(tracks: seq<Track>, list: seq<Media>, projectDuration: real)
    ensures PartsOf(Plan(tracks, list, projectDuration)) == SortByStart(Flatten(tracks))
    ensures multiset(PartsOf(Plan(tracks, list, projectDuration))) == multiset(Flatten(tracks))
    ensures Sorted(PartsOf(Plan(tracks, list, projectDuration)))
  {
    SegmentsKeepClips(SortByStart(Flatten(tracks)), list, 0.0, projectDuration);
  }

  predicate GapsPositive(segs: seq<Segment>)
  {
    forall j :: 0 <= j < |segs| && segs[j].Gap? ==> segs[j].duration > 0.0
  }

  /** Every gap segment has a positive length. */
  lemma {:induction false} GapsArePositive(clips: Track, list: seq<Media>, cursor: real, projectDuration: real)
    ensures GapsPositive(Segments(clips, list, cursor, projectDuration))
    decreases |clips|
  {
    var segs := Segments(clips, list, cursor, projectDuration);
    if clips != [] {
      var c := clips[0];
      var gap := Lead(c, cursor);
      var part: seq<Segment> := [Part(c, MediaOf(list, c.mediaId))];
      var rest := Segments(clips[1..], list, c.start + c.duration, projectDuration);
      assert segs == gap + part + rest;
      GapsArePositive(clips[1..], list, c.start + c.duration, projectDuration);
      forall j | 0 <= j < |segs| && segs[j].Gap?
        ensures segs[j].duration > 0.0
      {
        if j < |gap| {
          assert segs[j] == gap[j];
        } else if j > |gap| {
          assert segs[j] == rest[j - |gap| - 1];
        }
      }
    }
  }

  /** How long a segment plays: a gap its own length, a clip its
      duration (the encoder cuts `duration` seconds from `offset`). */
  function Length(s: Segment): real
  {
    if s.Gap? then s.duration else s.clip.duration
  }

  /** The total length of a list of segments played one after the other. */
  function TotalLength(segs: seq<Segment>): real
  {
    if segs == [] then 0.0 else Length(segs[0]) + TotalLength(segs[1..])
  }

  lemma {:induction false} TotalLengthAppend(a: seq<Segment>, b: seq<Segment>)
    ensures TotalLength(a + b) == TotalLength(a) + TotalLength(b)
    decreases |a|
  {
    if a == [] {
      assert a + b == b;
    } else {
      var ab := a + b;
      assert ab[0] == a[0] && ab[1..] == a[1..] + b;
      TotalLengthAppend(a[1..], b);
    }
  }

  /** The clips, taken in order from time `cursor`, never start before the
      previous one ends, have non-negative durations, and the last one
      ends by the project's end. */
  predicate Tiled(clips: Track, cursor: real, projectDuration: real)
    decreases |clips|
  {
    if clips == [] then cursor <= projectDuration
    else
      && cursor <= clips[0].start
      && 0.0 <= clips[0].duration
      && Tiled(clips[1..], clips[0].start + clips[0].duration, projectDuration)
  }

  /** For a timeline whose clips do not overlap and fit in the project,
      the segments the plan hands the encoder add up to the project's
      length. */
  lemma {:induction false} TiledLength(clips: Track, list: seq<Media>, cursor: real, projectDuration: real)
    requires Tiled(clips, cursor, projectDuration)
    ensures TotalLength(Segments(clips, list, cursor, projectDuration)) == projectDuration - cursor
    decreases |clips|
  {
    if clips == [] {
      if cursor < projectDuration {
        assert TotalLength([Gap(projectDuration - cursor)]) == projectDuration - cursor;
      }
    } else {
      var c := clips[0];
      var gap := Lead(c, cursor);
      var part: seq<Segment> := [Part(c, MediaOf(list, c.mediaId))];
      var rest := Segments(clips[1..], list, c.start + c.duration, projectDuration);
      assert Segments(clips, list, cursor, projectDuration) == gap + part + rest;
      TiledLength(clips[1..], list, c.start + c.duration, projectDuration);
      LeadThenPartLength(c, cursor, part[0], rest);
    }
  }

  /** A clip's lead-in gap and its part span from `cursor` to the clip's
      end. */
  lemma LeadThenPartLength(c: Clip, cursor: real, part: Segment, rest: seq<Segment>)
    requires cursor <= c.start && part.Part? && part.clip == c
    ensures TotalLength(Lead(c, cursor) + [part] + rest) == c.start + c.duration - cursor + TotalLength(rest)
  {
    var gap := Lead(c, cursor);
    TotalLengthAppend(gap + [part], rest);
    TotalLengthAppend(gap, [part]);
    assert TotalLength(gap) == c.start - cursor;
    assert TotalLength([part]) == c.duration;
  }

  /** Played from time `cursor`, each clip segment of `segs` begins at its
      clip's timeline start. */
  predicate PartsAtTheirStart(segs: seq<Segment>, cursor: real)
  {
    forall j :: 0 <= j < |segs| && segs[j].Part? ==> cursor + TotalLength(segs[..j]) == segs[j].clip.start
  }

  /** For such a timeline, every clip begins in the exported video at the
      same time as on the timeline. */
  lemma {:induction false} TiledPlacesClips(clips: Track, list: seq<Media>, cursor: real, projectDuration: real)
    requires Tiled(clips, cursor, projectDuration)
    ensures PartsAtTheirStart(Segments(clips, list, cursor, projectDuration), cursor)
    decreases |clips|
  {
    var segs := Segments(clips, list, cursor, projectDuration);
    if clips != [] {
      var c := clips[0];
      var gap := Lead(c, cursor);
      var part: seq<Segment> := [Part(c, MediaOf(list, c.mediaId))];
      var end := c.start + c.duration;
      var rest := Segments(clips[1..], list, end, projectDuration);
      assert segs == gap + part + rest;
      assert TotalLength(gap) == c.start - cursor;
      assert TotalLength(part) == c.duration;
      TiledPlacesClips(clips[1..], list, end, projectDuration);
      forall j | 0 <= j < |segs| && segs[j].Part?
        ensures cursor + TotalLength(segs[..j]) == segs[j].clip.start
      {
        if j == |gap| {
          assert (gap + part + rest)[..|gap|] == gap;
          assert segs[..j] == gap;
        } else {
          var j' := j - |gap| - 1;
          assert segs[j] == rest[j'];
          assert end + TotalLength(rest[..j']) == rest[j'].clip.start;
          assert (gap + part + rest)[..j] == (gap + part) + rest[..j'];
          TotalLengthAppend(gap + part, rest[..j']);
          TotalLengthAppend(gap, part);
        }
      }
    }
  }

  // -------------------------------------------------------------- file list

  /** The list line for segment number `k`. */
  function Line(s: Segment, k: nat): string
  {
    "file " + (if s.Gap? then "gap_" else "clip_") + DecimalString(k) + ".mp4\n"
  }

  /** Segments with different numbers are written to different files: no
      two lines of the list name the same file. */
  lemma LinesDistinct(s: Segment, t: Segment, j: nat, k: nat)
    requires j != k
    ensures Line(s, j) != Line(t, k)
  {
    if Line(s, j) == Line(t, k) {
      SameLineSameNumber(s, t, j, k);
    }
  }

  /** Equal lines carry equal numbers. */
  lemma SameLineSameNumber(s: Segment, t: Segment, j: nat, k: nat)
    requires Line(s, j) == Line(t, k)
    ensures DecimalString(j) == DecimalString(k)
  {
    var p := "file " + (if s.Gap? then "gap_" else "clip_");
    var q := "file " + (if t.Gap? then "gap_" else "clip_");
    var a, b := DecimalString(j), DecimalString(k);
    assert Line(s, j) == p + a + ".mp4\n";
    assert Line(t, k) == q + b + ".mp4\n";
    assert Line(s, j)[5] == p[5] && Line(t, k)[5] == q[5];
    assert p == q;
    assert |a| == |b|;
    assert (p + a + ".mp4\n")[|p|..|p| + |a|] == a;
    assert (p + b + ".mp4\n")[|p|..|p| + |b|] == b;
  }

  /** The lines for `segs`, numbered from `k`. */
  function FileList(segs: seq<Segment>, k: nat): string
    decreases |segs|
  {
    if segs == [] then "" else Line(segs[0], k) + FileList(segs[1..], k + 1)
  }

  lemma FileListStep(segs: seq<Segment>, k: nat)
    requires segs != []
    ensures FileList(segs, k) == Line(segs[0], k) + FileList(segs[1..], k + 1)
  {
  }

  /** One more line written: what is written so far, followed by the list
      of the rest, is unchanged. */
  lemma FileListExtend(written: string, segs: seq<Segment>, k: nat)
    requires k < |segs|
    ensures written + FileList(segs[k..], k) == (written + Line(segs[k], k)) + FileList(segs[k + 1..], k + 1)
  {
    assert segs[k..][1..] == segs[k + 1..];
    FileListStep(segs[k..], k);
  }

  /** The number of line feeds in `s`. */
  function Newlines(s: string): nat
  {
    if s == [] then 0 else (if s[0] == '\n' then 1 else 0) + Newlines(s[1..])
  }

  lemma {:induction false} NewlinesAppend(a: string, b: string)
    ensures Newlines(a + b) == Newlines(a) + Newlines(b)
    decreases |a|
  {
    if a == [] {
      assert a + b == b;
    } else {
      var ab := a + b;
      assert ab[0] == a[0] && ab[1..] == a[1..] + b;
      NewlinesAppend(a[1..], b);
    }
  }

  lemma {:induction false} NoNewlines(s: string)
    requires forall i :: 0 <= i < |s| ==> s[i] != '\n'
    ensures Newlines(s) == 0
    decreases |s|
  {
    if s != [] {
      NoNewlines(s[1..]);
    }
  }

  /** Each segment contributes exactly one line, so the list has one line
      per segment. */
  lemma {:induction false} FileListLines(segs: seq<Segment>, k: nat)
    ensures Newlines(FileList(segs, k)) == |segs|
    decreases |segs|
  {
    if segs != [] {
      var kind := if segs[0].Gap? then "gap_" else "clip_";
      var digits := DecimalString(k);
      NoNewlines(digits);
      NoNewlines("file " + kind);
      NoNewlines(".mp4");
      NewlinesAppend("file " + kind + digits + ".mp4", "\n");
      NewlinesAppend("file " + kind + digits, ".mp4");
      NewlinesAppend("file " + kind, digits);
      assert Newlines("\n") == 1;
      assert Line(segs[0], k) == "file " + kind + digits + ".mp4" + "\n";
      NewlinesAppend(Line(segs[0], k), FileList(segs[1..], k + 1));
      FileListLines(segs[1..], k + 1);
    }
  }

  /** How an export attempt ends: refused because the encoder is not
      loaded; thrown at segment `at`, a clip whose media is missing; or
      with the list file written, naming `inputs` segment files. */
  datatype Outcome = NotReady | Failed(at: nat) | Written(fileList: string, inputs: nat)

  /** Segment `j` is a clip whose media could not be found. */
  predicate MissingMedia(segs: seq<Segment>, j: int)
  {
    0 <= j < |segs| && segs[j].Part? && segs[j].media.None?
  }

  /** What the file-list loop makes of `segs`: it throws at the first clip
      without media; otherwise the list names every segment's file in
      order, one per input. */
  predicate Describes(outcome: Outcome, segs: seq<Segment>)
  {
    && !outcome.NotReady?
    && (outcome.Written? <==> forall j :: 0 <= j < |segs| ==> !MissingMedia(segs, j))
    && (outcome.Written? ==> outcome.fileList == FileList(segs, 0) && outcome.inputs == |segs|)
    && (outcome.Failed? ==> MissingMedia(segs, outcome.at) && forall j :: 0 <= j < outcome.at ==> !MissingMedia(segs, j))
  }

  /** The segment loop of `handleDownload` that builds `filelist.txt`
      (the encoder runs themselves are not modelled). */
  method BuildFileList(segs: seq<Segment>) returns (outcome: Outcome)
    ensures Describes(outcome, segs)
  {
    var fileList := "";
    var inputCount := 0;
    while inputCount < |segs|
      invariant 0 <= inputCount <= |segs|
      invariant fileList + FileList(segs[inputCount..], inputCount) == FileList(segs, 0)
      invariant forall j :: 0 <= j < inputCount ==> !MissingMedia(segs, j)
    {
      var segment := segs[inputCount];
      if segment.Part? && segment.media.None? {
        assert MissingMedia(segs, inputCount);
        return Failed(inputCount);
      }
      var line := Line(segment, inputCount);
      FileListExtend(fileList, segs, inputCount);
      fileList := fileList + line;
      inputCount := inputCount + 1;
    }
    assert segs[inputCount..] == [];
    return Written(fileList, inputCount);
  }

  /** `handleDownload`, from the encoder check to the list file. Without a
      loaded encoder nothing happens; otherwise the plan is built, the
      list is written or the attempt throws, and the loading flag ends
      cleared either way. */
  method HandleDownload(ffmpegLoaded: bool, tracks: seq<Track>, list: seq<Media>, projectDuration: real, loading: bool)
    returns (outcome: Outcome, loadingAfter: bool)
    ensures !ffmpegLoaded ==> outcome == NotReady && loadingAfter == loading
    ensures ffmpegLoaded ==> Describes(outcome, Plan(tracks, list, projectDuration)) && !loadingAfter
  {
    if !ffmpegLoaded {
      return NotReady, loading;
    }
    loadingAfter := true;
    var segments := PlanSegments(tracks, list, projectDuration);
    outcome := BuildFileList(segments);
    loadingAfter := false;
  }
}
