/** The assistant conversation of the editor page: one user message starts
    a task on the server, and while the server answers with function calls
    the page logs each call, performs it on the timeline, and asks the
    server to continue; a plain message ends the exchange. The server's
    answers are given as a sequence (the network is not modelled), and so
    are the ids and results the page would obtain from the clock and the
    video transforms. */
module Assistant {
  import opened Js
  import opened Timeline
  import opened Selection

  /** A chat entry. `Executing` and `Card` are the two entries logged for
      each function call; `ErrorNote` is the apology the page adds when
      the exchange throws. */
  datatype Entry =
    | UserText(text: string)
    | AssistantText(text: string)
    | Executing(name: string, args: string)
    | Card(name: string, args: string)
    | ErrorNote

  /** The parsed `function_args`: the fields the page reads, and the
      arguments as `JSON.stringify` renders them. */
  datatype Args = Args(clipId: Option<Id>, cutPoint: real, start: real, json: string)

  /** One answer of the server, after `response.json()`: a function call
      (whose arguments may fail to parse), a message, some other `type`, or
      a failure of the request or of reading its body. */
  datatype Response =
    | Call(name: string, args: Option<Args>, taskId: Option<Id>)
    | Reply(message: string)
    | Other
    | Broken

  /** What the page sends: the history, the selection context, and whether
      this starts a task or continues one. */
  datatype Kind = NewChat | ContinueTask(taskId: Option<Id>)
  datatype Request = Request(messages: seq<Entry>, contexts: seq<RangeEntry>, kind: Kind)

  /** What the page obtains, per call, from outside the model: the ids a
      cut mints and the media id a video transform returns. */
  datatype Supply = Supply(cut: CutIds, transformed: Id)

  /** The timeline as the exchange sees it: the handler's view of track 0
      (written in place by `moveClip`), and the latest tracks and media. */
  datatype Effect = Effect(view: Track, tracks: seq<Track>, media: seq<Media>)

  /** How an exchange ends: with the server's message; with an answer of
      another type; with the error entry; by the early `return` of
      `trim_video`; or waiting on an answer beyond the given ones. `Blank`
      is a send with nothing but white space, which does nothing. */
  datatype Ending = Replied(message: string) | Quiet | Failed | Abandoned | Pending | Blank

  /** `prevMessages.filter(msg => msg.role !== 'card')`. */
  function NoCards(log: seq<Entry>): (r: seq<Entry>)
    ensures |r| <= |log|
    ensures forall e :: e in r <==> e in log && !e.Card?
  {
    if log == [] then []
    else
      var rest := NoCards(log[1..]);
      assert forall e :: e in log <==> e == log[0] || e in log[1..];
      if log[0].Card? then rest else [log[0]] + rest
  }

  /** The filter works entry by entry: it distributes over concatenation,
      so the history keeps its order and its repeats (with `NoCardsOne`). */
  lemma {:induction false} NoCardsAppend(a: seq<Entry>, b: seq<Entry>)
    ensures NoCards(a + b) == NoCards(a) + NoCards(b)
    decreases |a|
  {
    if a == [] {
      assert a + b == b;
    } else {
      var ab := a + b;
      assert ab[0] == a[0] && ab[1..] == a[1..] + b;
      NoCardsAppend(a[1..], b);
    }
  }

  /** A single entry is dropped exactly when it is a card. */
  lemma NoCardsOne(x: Entry)
    ensures NoCards([x]) == if x.Card? then [] else [x]
  {
    assert [x][1..] == [];
  }

  /** The names of the five colour and blur transforms. */
  predicate IsTransform(name: string)
  {
    name == "adjustBrightness" || name == "applyColorGrading" || name == "adjustSaturation"
    || name == "addBlurEffect" || name == "convertToGrayscale"
  }

  /** The function names the page acts on. */
  predicate IsKnown(name: string)
  {
    name == "cutClip" || name == "moveClip" || name == "deleteClip" || IsTransform(name) || name == "trim_video"
  }

  /** The media of the view's clip with id `key`, looked up in the view's
      media list, when both exist. */
  function SelectedMedia(view: Track, viewMedia: seq<Media>, key: Option<Id>): (m: Option<Media>)
    ensures m.Some? <==> FindClip(view, ById, key) < |view| && FindMedia(viewMedia, view[FindClip(view, ById, key)].mediaId) < |viewMedia|
    ensures m.Some? ==> m.value in viewMedia && m.value.id == view[FindClip(view, ById, key)].mediaId
  {
    var i := FindClip(view, ById, key);
    if i == |view| then None
    else
      var k := FindMedia(viewMedia, view[i].mediaId);
      if k == |viewMedia| then None else Some(viewMedia[k])
  }

  /** A transform call as the page means it: when the clip's media has a
      (non-empty) URL, every clip with that id switches to the
      transformed media; otherwise nothing happens. */
  function Transform(view: Track, viewMedia: seq<Media>, tracks: seq<Track>, key: Option<Id>, newMediaId: Id): (r: seq<Track>)
    ensures var m := SelectedMedia(view, viewMedia, key);
      && (m.Some? && m.value.url != [] ==> r == SwapMedia(tracks, key, newMediaId))
      && (m.None? || m.value.url == [] ==> r == tracks)
  {
    var m := SelectedMedia(view, viewMedia, key);
    if m.Some? && m.value.url != [] then SwapMedia(tracks, key, newMediaId) else tracks
  }

  /** One function call performed: `None` when the handler returns early
      (`trim_video` on a clip whose media cannot be found), else the new
      timeline. A cut that throws leaves the timeline as it was, because
      the page does not await it; an unknown name does nothing. */
  function Perform(e: Effect, viewMedia: seq<Media>, name: string, a: Args, sup: Supply): (r: Option<Effect>)
    requires |e.tracks| >= 1
    ensures r.Some? ==> |r.value.tracks| >= 1
    ensures r.None? <==> name == "trim_video" && SelectedMedia(e.view, viewMedia, a.clipId).None?
    ensures !IsKnown(name) ==> r == Some(e)
    ensures name != "moveClip" && r.Some? ==> r.value.view == e.view
    ensures name == "deleteClip" ==> r == Some(e.(tracks := DeleteClip(e.tracks, a.clipId)))
    ensures name == "cutClip" ==>
      var ed := CutClip(e.view, viewMedia, e.tracks, e.media, a.clipId, a.cutPoint, sup.cut);
      r == Some(Effect(e.view, ed.tracks, ed.media))
    ensures name == "moveClip" ==>
      var i := FindClip(e.view, ById, a.clipId);
      r == if i == |e.view| then Some(e)
           else Some(Effect(e.view[i := e.view[i].(start := a.start)], MoveInTrack(e.tracks, e.view[i], a.start), e.media))
    ensures IsTransform(name) ==> r == Some(e.(tracks := Transform(e.view, viewMedia, e.tracks, a.clipId, sup.transformed)))
    ensures name == "trim_video" && SelectedMedia(e.view, viewMedia, a.clipId).Some? ==>
      r == Some(e.(tracks := SwapMedia(e.tracks, a.clipId, sup.transformed)))
  {
    if name == "cutClip" then
      var ed := CutClip(e.view, viewMedia, e.tracks, e.media, a.clipId, a.cutPoint, sup.cut);
      Some(Effect(e.view, ed.tracks, ed.media))
    else if name == "moveClip" then
      var i := FindClip(e.view, ById, a.clipId);
      if i == |e.view| then Some(e)
      else Some(Effect(e.view[i := e.view[i].(start := a.start)], MoveInTrack(e.tracks, e.view[i], a.start), e.media))
    else if name == "deleteClip" then
      Some(e.(tracks := DeleteClip(e.tracks, a.clipId)))
    else if IsTransform(name) then
      Some(e.(tracks := Transform(e.view, viewMedia, e.tracks, a.clipId, sup.transformed)))
    else if name == "trim_video" then
      if SelectedMedia(e.view, viewMedia, a.clipId).None? then None
      else Some(e.(tracks := SwapMedia(e.tracks, a.clipId, sup.transformed)))
    else Some(e)
  }

  /** The whole exchange after the first request: the final timeline, the
      entries logged for the calls, how many continue requests were sent,
      and the ending. */
  datatype Trace = Trace(effect: Effect, audit: seq<Entry>, continues: nat, ending: Ending)

  /** The answers `rs`, in order, from timeline `e`. Each well-formed call
      logs two entries, is performed, and is followed by one continue
      request; the first answer that is not such a call decides the
      ending. */
  function Converse(e: Effect, viewMedia: seq<Media>, rs: seq<Response>, sup: seq<Supply>): (t: Trace)
    requires |e.tracks| >= 1 && |rs| <= |sup|
    ensures |t.effect.tracks| >= 1
    ensures t.continues <= |rs|
    decreases |rs|
  {
    if rs == [] then Trace(e, [], 0, Pending)
    else
      var r := rs[0];
      if r.Reply? then Trace(e, [], 0, Replied(r.message))
      else if r.Other? then Trace(e, [], 0, Quiet)
      else if r.Broken? || r.args.None? then Trace(e, [], 0, Failed)
      else
        var a := r.args.value;
        var audit := [Executing(r.name, a.json), Card(r.name, a.json)];
        var next := Perform(e, viewMedia, r.name, a, sup[0]);
        if next.None? then Trace(e, audit, 0, Abandoned)
        else
          var rest := Converse(next.value, viewMedia, rs[1..], sup[1..]);
          Trace(rest.effect, audit + rest.audit, rest.continues + 1, rest.ending)
  }

  /** Which answer decides the ending: the continue requests follow the
      first `continues` answers, all well-formed calls; the answer after
      them is the message, the other type, the failure or the
      `trim_video` call that gives the ending, and the exchange is pending
      exactly when every answer was such a call. Two entries are logged
      per performed call. */
  lemma {:induction false} ConverseShape(e: Effect, viewMedia: seq<Media>, rs: seq<Response>, sup: seq<Supply>)
    requires |e.tracks| >= 1 && |rs| <= |sup|
    ensures Shaped(Converse(e, viewMedia, rs, sup), rs)
    decreases |rs|
  {
    if rs != [] && rs[0].Call? && rs[0].args.Some? {
      var next := Perform(e, viewMedia, rs[0].name, rs[0].args.value, sup[0]);
      if next.Some? {
        ConverseShape(next.value, viewMedia, rs[1..], sup[1..]);
        ConverseUnfold(e, viewMedia, rs, sup);
        ShapedCons(rs, Converse(next.value, viewMedia, rs[1..], sup[1..]),
          [Executing(rs[0].name, rs[0].args.value.json), Card(rs[0].name, rs[0].args.value.json)]);
      }
    }
  }

  /** What a trace says about the answers it consumed: every continued
      answer was a well-formed call, and the ending names the answer that
      stopped the loop (none, for `Pending`). */
  predicate Shaped(t: Trace, rs: seq<Response>)
  {
    && (forall j :: 0 <= j < t.continues ==> j < |rs| && rs[j].Call? && rs[j].args.Some?)
    && t.ending != Blank
    && (t.ending == Pending <==> t.continues == |rs|)
    && (t.ending.Replied? ==> t.continues < |rs| && rs[t.continues] == Reply(t.ending.message))
    && (t.ending == Quiet ==> t.continues < |rs| && rs[t.continues] == Other)
    && (t.ending == Failed ==> t.continues < |rs| && (rs[t.continues].Broken? || (rs[t.continues].Call? && rs[t.continues].args.None?)))
    && (t.ending == Abandoned ==> t.continues < |rs| && rs[t.continues].Call? && rs[t.continues].name == "trim_video" && rs[t.continues].args.Some?)
    && |t.audit| == 2 * t.continues + (if t.ending == Abandoned then 2 else 0)
  }

  /** One more well-formed call in front keeps a trace shaped. */
  lemma ShapedCons(rs: seq<Response>, rest: Trace, audit: seq<Entry>)
    requires rs != [] && rs[0].Call? && rs[0].args.Some? && |audit| == 2
    requires Shaped(rest, rs[1..])
    ensures Shaped(Trace(rest.effect, audit + rest.audit, rest.continues + 1, rest.ending), rs)
  {
    var t := Trace(rest.effect, audit + rest.audit, rest.continues + 1, rest.ending);
    forall j | 1 <= j < t.continues ensures rs[j] == rs[1..][j - 1] { }
    if rest.continues < |rs| - 1 {
      assert rs[t.continues] == rs[1..][rest.continues];
    }
  }


  /** `audit` holds two entries per call of `rs`, in order: for call `j`,
      the "Executing" line at `2j` and the card at `2j + 1`. */
  predicate LogsCalls(audit: seq<Entry>, rs: seq<Response>)
  {
    && |audit| % 2 == 0 && |audit| / 2 <= |rs|
    && forall j :: 0 <= j < |audit| / 2 ==>
         && rs[j].Call? && rs[j].args.Some?
         && audit[2 * j] == Executing(rs[j].name, rs[j].args.value.json)
         && audit[2 * j + 1] == Card(rs[j].name, rs[j].args.value.json)
  }

  /** Logging one more call in front keeps `LogsCalls`. */
  lemma LogsCallsCons(rs: seq<Response>, rest: seq<Entry>)
    requires rs != [] && rs[0].Call? && rs[0].args.Some?
    requires LogsCalls(rest, rs[1..])
    ensures LogsCalls([Executing(rs[0].name, rs[0].args.value.json), Card(rs[0].name, rs[0].args.value.json)] + rest, rs)
  {
    var audit := [Executing(rs[0].name, rs[0].args.value.json), Card(rs[0].name, rs[0].args.value.json)] + rest;
    assert |audit| / 2 == |rest| / 2 + 1;
    forall j | 1 <= j < |audit| / 2
      ensures rs[j] == rs[1..][j - 1]
      ensures audit[2 * j] == rest[2 * (j - 1)] && audit[2 * j + 1] == rest[2 * (j - 1) + 1]
    {
    }
  }

  /** The logged entries are those of the calls performed, two per call,
      in the order of the answers. */
  lemma {:induction false} AuditEntries(e: Effect, viewMedia: seq<Media>, rs: seq<Response>, sup: seq<Supply>)
    requires |e.tracks| >= 1 && |rs| <= |sup|
    ensures LogsCalls(Converse(e, viewMedia, rs, sup).audit, rs)
    decreases |rs|
  {
    if rs != [] && rs[0].Call? && rs[0].args.Some? {
      var next := Perform(e, viewMedia, rs[0].name, rs[0].args.value, sup[0]);
      if next.Some? {
        AuditEntries(next.value, viewMedia, rs[1..], sup[1..]);
        ConverseUnfold(e, viewMedia, rs, sup);
        LogsCallsCons(rs, Converse(next.value, viewMedia, rs[1..], sup[1..]).audit);
      }
    }
  }

  /** One well-formed call that does not return early, then the rest. */
  lemma ConverseUnfold(e: Effect, viewMedia: seq<Media>, rs: seq<Response>, sup: seq<Supply>)
    requires |e.tracks| >= 1 && |rs| <= |sup|
    requires rs != [] && rs[0].Call? && rs[0].args.Some?
    requires Perform(e, viewMedia, rs[0].name, rs[0].args.value, sup[0]).Some?
    ensures var a := rs[0].args.value;
      var rest := Converse(Perform(e, viewMedia, rs[0].name, a, sup[0]).value, viewMedia, rs[1..], sup[1..]);
      Converse(e, viewMedia, rs, sup)
        == Trace(rest.effect, [Executing(rs[0].name, a.json), Card(rs[0].name, a.json)] + rest.audit, rest.continues + 1, rest.ending)
  {
  }

  /** The first `k` responses are calls other than `trim_video`, with
      arguments that parse. */
  predicate PlainCalls(rs: seq<Response>, k: nat)
  {
    k <= |rs| && forall j :: 0 <= j < k ==> rs[j].Call? && rs[j].args.Some? && rs[j].name != "trim_video"
  }

  lemma PlainCallsTail(rs: seq<Response>, k: nat)
    requires 0 < k && PlainCalls(rs, k)
    ensures rs[0].Call? && rs[0].args.Some? && rs[0].name != "trim_video"
    ensures PlainCalls(rs[1..], k - 1)
  {
    assert forall j :: 0 <= j < k - 1 ==> rs[1..][j] == rs[j + 1];
  }

  /** A run of well-formed calls none of which is `trim_video`, answered
      last by a message, ends with that message after one continue request
      per call. A session with a `trim_video` call, even one whose media is
      found, is outside this lemma and `ReplyAfterCalls`. */
  lemma {:induction false} CallsThenReply(e: Effect, viewMedia: seq<Media>, rs: seq<Response>, sup: seq<Supply>, k: nat)
    requires |e.tracks| >= 1 && |rs| <= |sup|
    requires k < |rs| && rs[k].Reply?
    requires PlainCalls(rs, k)
    ensures Converse(e, viewMedia, rs, sup).ending == Replied(rs[k].message)
    ensures Converse(e, viewMedia, rs, sup).continues == k
    decreases k
  {
    if k > 0 {
      PlainCallsTail(rs, k);
      var next := Perform(e, viewMedia, rs[0].name, rs[0].args.value, sup[0]);
      assert rs[1..][k - 1] == rs[k];
      CallsThenReply(next.value, viewMedia, rs[1..], sup[1..], k - 1);
      ConverseUnfold(e, viewMedia, rs, sup);
    }
  }

  /** For `k` such calls answered by a message, the chat log grows by
      `2k + 2` entries (the user's text, two per call, the reply), as
      `SendMessage` builds it, and `k + 1` requests are sent in all (the
      first and `k` continue requests, one per call). As above, no call
      may be `trim_video`. */
  lemma ReplyAfterCalls(e: Effect, viewMedia: seq<Media>, rs: seq<Response>, sup: seq<Supply>, k: nat,
                        log0: seq<Entry>, text: string)
    requires |e.tracks| >= 1 && |rs| <= |sup|
    requires k < |rs| && rs[k].Reply?
    requires PlainCalls(rs, k)
    ensures var t := Converse(e, viewMedia, rs, sup);
      && |log0 + [UserText(text)] + t.audit + Closing(t.ending)| == |log0| + 2 * k + 2
      && t.continues == k
  {
    CallsThenReply(e, viewMedia, rs, sup, k);
    ConverseShape(e, viewMedia, rs, sup);
  }



  /** Calls to functions the page does not know leave the timeline, and
      the view of it, exactly as they were. */
  lemma {:induction false} UnknownCallsChangeNothing(e: Effect, viewMedia: seq<Media>, rs: seq<Response>, sup: seq<Supply>)
    requires |e.tracks| >= 1 && |rs| <= |sup|
    requires forall j :: 0 <= j < |rs| && rs[j].Call? ==> !IsKnown(rs[j].name)
    ensures Converse(e, viewMedia, rs, sup).effect == e
    decreases |rs|
  {
    if rs != [] && rs[0].Call? && rs[0].args.Some? {
      UnknownCallsChangeNothing(e, viewMedia, rs[1..], sup[1..]);
    }
  }

  /** The entries that close the exchange. */
  function Closing(ending: Ending): seq<Entry>
  {
    match ending
    case Replied(m) => [AssistantText(m)]
    case Failed => [ErrorNote]
    case _ => []
  }

  /** The task id of the first answer, which every continue request
      repeats. */
  function FirstTask(rs: seq<Response>): Option<Id>
  {
    if rs != [] && rs[0].Call? then rs[0].taskId else None
  }

  /** The page state the exchange leaves: chat log, tracks, media, the
      chat loading flag, the input box, and how it ended. */
  datatype Session = Session(log: seq<Entry>, tracks: seq<Track>, media: seq<Media>, loading: bool, draft: string, ending: Ending)

  /** The `while` loop of `handleSendMessage` and the `type` check after
      it, from the first answer on: it logs and performs the calls and
      sends `next` after each, exactly as `Converse` describes. */
  method Exchange(view: Snapshot, viewMedia: seq<Media>, tracks0: seq<Track>, media0: seq<Media>,
                  responses: seq<Response>, supplies: seq<Supply>, next: Request)
    returns (audit: seq<Entry>, tracks: seq<Track>, media: seq<Media>, continues: seq<Request>, ending: Ending)
    requires |tracks0| >= 1 && |responses| <= |supplies|
    modifies view
    ensures var t := Converse(Effect(old(view.track), tracks0, media0), viewMedia, responses, supplies);
      && t == Trace(Effect(view.track, tracks, media), audit, |continues|, ending)
      && forall j :: 0 <= j < |continues| ==> continues[j] == next
  {
    ghost var t0 := Converse(Effect(view.track, tracks0, media0), viewMedia, responses, supplies);
    ghost var rs, sup := responses, supplies;
    audit, tracks, media, continues := [], tracks0, media0, [];
    var i := 0;
    while i < |responses| && responses[i].Call?
      invariant 0 <= i <= |responses| && |tracks| >= 1
      invariant rs == responses[i..] && sup == supplies[i..]
      invariant Resumes(t0, audit, i, Converse(Effect(view.track, tracks, media), viewMedia, rs, sup))
      invariant |continues| == i && forall j :: 0 <= j < i ==> continues[j] == next
      decreases |responses| - i
    {
      var r := responses[i];
      if r.args.None? {
        return audit, tracks, media, continues, Failed;
      }
      var a := r.args.value;
      ghost var before := Effect(view.track, tracks, media);
      var went;
      went, tracks, media := Dispatch(view, viewMedia, tracks, media, r.name, a, supplies[i]);
      if !went {
        return audit + [Executing(r.name, a.json), Card(r.name, a.json)], tracks, media, continues, Abandoned;
      }
      ExchangeStep(before, viewMedia, rs, sup, t0, audit, i);
      audit := audit + [Executing(r.name, a.json), Card(r.name, a.json)];
      continues := continues + [next];
      rs, sup := rs[1..], sup[1..];
      i := i + 1;
    }
    if i == |responses| {
      return audit, tracks, media, continues, Pending;
    }
    match responses[i]
    case Reply(m) => ending := Replied(m);
    case Other => ending := Quiet;
    case Broken => ending := Failed;
  }

  /** `t0` is what is left of trace `tc` after `done` calls logged as
      `audit`. */
  predicate Resumes(t0: Trace, audit: seq<Entry>, done: nat, tc: Trace)
  {
    t0 == Trace(tc.effect, audit + tc.audit, done + tc.continues, tc.ending)
  }

  /** One turn of the loop: a well-formed call that is performed moves its
      two entries into the log and one continue request into the count. */
  lemma ExchangeStep(e: Effect, viewMedia: seq<Media>, rs: seq<Response>, sup: seq<Supply>,
                     t0: Trace, audit: seq<Entry>, done: nat)
    requires |e.tracks| >= 1 && |rs| <= |sup|
    requires rs != [] && rs[0].Call? && rs[0].args.Some?
    requires Perform(e, viewMedia, rs[0].name, rs[0].args.value, sup[0]).Some?
    requires Resumes(t0, audit, done, Converse(e, viewMedia, rs, sup))
    ensures var a := rs[0].args.value;
      Resumes(t0, audit + [Executing(rs[0].name, a.json), Card(rs[0].name, a.json)], done + 1,
              Converse(Perform(e, viewMedia, rs[0].name, a, sup[0]).value, viewMedia, rs[1..], sup[1..]))
  {
    var a := rs[0].args.value;
    var entries := [Executing(rs[0].name, a.json), Card(rs[0].name, a.json)];
    var rest := Converse(Perform(e, viewMedia, rs[0].name, a, sup[0]).value, viewMedia, rs[1..], sup[1..]);
    ConverseUnfold(e, viewMedia, rs, sup);
    assert audit + (entries + rest.audit) == (audit + entries) + rest.audit;
  }

  /** `handleSendMessage`. `log0`, `view`, `viewMedia` and `contexts` are
      the messages, track 0, media list and clips in range of the render
      the handler closes over; `tracks0` and `media0` are the latest
      state. A blank input does nothing. Otherwise the trimmed text is
      logged and sent with the history (cards removed) as a new chat; then
      the exchange goes as `Converse` says. Every continue request carries
      the same history, without the user's message, the same context and
      the first answer's task id. The loading flag is cleared only when
      the loop ends normally. */
  method SendMessage(draft: string, log0: seq<Entry>, loading0: bool, view: Snapshot, viewMedia: seq<Media>,
                     contexts: seq<RangeEntry>, tracks0: seq<Track>, media0: seq<Media>,
                     responses: seq<Response>, supplies: seq<Supply>)
    returns (s: Session, requests: seq<Request>)
    requires |tracks0| >= 1 && |responses| <= |supplies|
    modifies view
    ensures Trim(draft) == [] ==>
      s == Session(log0, tracks0, media0, loading0, draft, Blank) && requests == [] && view.track == old(view.track)
    ensures Trim(draft) != [] ==>
      var t := Converse(Effect(old(view.track), tracks0, media0), viewMedia, responses, supplies);
      && s.ending == t.ending
      && view.track == t.effect.view && s.tracks == t.effect.tracks && s.media == t.effect.media
      && s.log == log0 + [UserText(Trim(draft))] + t.audit + Closing(t.ending)
      && s.loading == !(t.ending.Replied? || t.ending == Quiet)
      && s.draft == []
      && |requests| == t.continues + 1
      && requests[0] == Request(NoCards(log0) + [UserText(Trim(draft))], contexts, NewChat)
      && forall j :: 1 <= j < |requests| ==> requests[j] == Request(NoCards(log0), contexts, ContinueTask(FirstTask(responses)))
  {
    var text := Trim(draft);
    if text == [] {
      return Session(log0, tracks0, media0, loading0, draft, Blank), [];
    }
    var toSend := NoCards(log0);
    var first := Request(toSend + [UserText(text)], contexts, NewChat);
    var next := Request(toSend, contexts, ContinueTask(FirstTask(responses)));
    var audit, tracks, media, continues, ending := Exchange(view, viewMedia, tracks0, media0, responses, supplies, next);
    requests := [first] + continues;
    var loading := !(ending.Replied? || ending == Quiet);
    s := Session(log0 + [UserText(text)] + audit + Closing(ending), tracks, media, loading, [], ending);
  }

  /** The `if` chain on `function_name` inside the loop: performs the
      call as `Perform` says, writing the view in place for `moveClip`;
      `went` is false when the handler returns early. */
  method Dispatch(view: Snapshot, viewMedia: seq<Media>, tracks: seq<Track>, media: seq<Media>, name: string, a: Args, sup: Supply)
    returns (went: bool, tracks': seq<Track>, media': seq<Media>)
    requires |tracks| >= 1
    modifies view
    ensures var r := Perform(Effect(old(view.track), tracks, media), viewMedia, name, a, sup);
      && (went <==> r.Some?)
      && (went ==> r.value == Effect(view.track, tracks', media'))
      && (!went ==> view.track == old(view.track) && tracks' == tracks && media' == media)
  {
    went, tracks', media' := true, tracks, media;
    if name == "cutClip" {
      var ed := CutClip(view.track, viewMedia, tracks, media, a.clipId, a.cutPoint, sup.cut);
      tracks', media' := ed.tracks, ed.media;
    } else if name == "moveClip" {
      tracks' := view.MoveClip(tracks, a.clipId, a.start);
    } else if name == "deleteClip" {
      tracks' := DeleteClip(tracks, a.clipId);
    } else if IsTransform(name) {
      tracks' := Transform(view.track, viewMedia, tracks, a.clipId, sup.transformed);
    } else if name == "trim_video" {
      if SelectedMedia(view.track, viewMedia, a.clipId).None? {
        went := false;
      } else {
        tracks' := SwapMedia(tracks, a.clipId, sup.transformed);
      }
    }
  }

  // ------------------------------------------------------- as written

  /** What a call step does in the code as written, where it differs from
      `Perform`. Each transform branch unpacks the object `parseModifyJson`
      returns with array destructuring, which throws because a plain object
      is not iterable; `trim_video` returns early when the media is
      missing and otherwise calls `trimVideo`, which the utilities module
      does not export, so the call throws. A throw here is caught by the
      handler and ends the exchange with the error entry. */
  datatype Step = Went(effect: Effect) | Returned | Raised

  function PerformAsWritten(e: Effect, viewMedia: seq<Media>, name: string, a: Args, sup: Supply): (r: Step)
    requires |e.tracks| >= 1
    ensures IsTransform(name) ==> r == Raised
    ensures name == "trim_video" ==>
      (r == Returned <==> SelectedMedia(e.view, viewMedia, a.clipId).None?)
      && (r == Raised <==> SelectedMedia(e.view, viewMedia, a.clipId).Some?)
    ensures !IsTransform(name) && name != "trim_video" ==> r.Went? && Some(r.effect) == Perform(e, viewMedia, name, a, sup)
  {
    if IsTransform(name) then Raised
    else if name == "trim_video" then
      if SelectedMedia(e.view, viewMedia, a.clipId).None? then Returned else Raised
    else Went(Perform(e, viewMedia, name, a, sup).value)
  }

  /** The discrepancy: for a clip in the view whose media has a URL and
      differs from the transformed media, the code as written throws on
      every transform call, whereas the intended step moves the clip onto
      the transformed media and leaves everything else alone. */
  lemma TransformAsWrittenThrows(e: Effect, viewMedia: seq<Media>, name: string, a: Args, sup: Supply)
    requires |e.tracks| >= 1
    requires IsTransform(name)
    requires FindClip(e.tracks[0], ById, a.clipId) < |e.tracks[0]|
    requires e.tracks[0][FindClip(e.tracks[0], ById, a.clipId)].mediaId != sup.transformed
    requires SelectedMedia(e.view, viewMedia, a.clipId).Some? && SelectedMedia(e.view, viewMedia, a.clipId).value.url != []
    ensures PerformAsWritten(e, viewMedia, name, a, sup) == Raised
    ensures var r := Perform(e, viewMedia, name, a, sup);
      && r.Some? && r.value.tracks != e.tracks
      && r.value.tracks[0][FindClip(e.tracks[0], ById, a.clipId)].mediaId == sup.transformed
  {
    var j := FindClip(e.tracks[0], ById, a.clipId);
    var r := Perform(e, viewMedia, name, a, sup).value;
    assert r.tracks == SwapMedia(e.tracks, a.clipId, sup.transformed);
    assert r.tracks[0][j].mediaId == sup.transformed;
  }
}
