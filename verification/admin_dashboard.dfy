/** The admin dashboard's state (AdminDashboard.js) with one pure transition per
    event handler: choosing a file, starting the simulated upload, one firing of
    the progress interval, sending a chatbot query, and the two inline text-field
    setters. `Date.now()` comes in as a parameter. */
module AdminDashboard {
  import opened Optional
  import JsString
  import JsArray

  /** A selected browser `File`; only what the dashboard shows of it. */
  datatype FileRef = FileRef(name: string, size: nat)

  /** A "Recent Queries" entry: `{ id, q, a }`. */
  datatype HistoryEntry = HistoryEntry(id: int, q: string, a: string)

  /** The component's `useState` cells, plus `intervals`, the number of progress
      intervals currently scheduled with `setInterval` and not yet cleared. */
  datatype State = State(
    file: Option<FileRef>,
    uploading: bool,
    progress: int,
    query: string,
    response: string,
    history: seq<HistoryEntry>,
    intervals: nat)

  const BotReply: string := "Thanks for your query. An admin will review and respond shortly."
  const ProgressStep: int := 8
  const ProgressDone: int := 100

  /** The `useState` initial values: no file, not uploading, progress 0, empty
      query, response and history, and no interval scheduled. */
  function Init(): (s: State)
    ensures s.file.None? && !s.uploading && s.progress == 0 && s.intervals == 0
    ensures s.query == "" && s.response == "" && s.history == []
    ensures Inv(s)
  {
    State(None, false, 0, "", "", [], 0)
  }

  /** `onFileChange`: keep the first chosen file (none when the list is absent or
      empty) and reset progress; an upload already under way keeps running. */
  function OnFileChange(s: State, files: Option<seq<FileRef>>): (s': State)
    ensures s'.file.Some? <==> files.Some? && |files.value| > 0
    ensures s'.file.Some? ==> s'.file.value == files.value[0]
    ensures s'.progress == 0
    ensures s' == s.(file := s'.file, progress := 0)
  {
    var first := if files.Some? && |files.value| > 0 then Some(files.value[0]) else None;
    s.(file := first, progress := 0)
  }

  /** `uploadFile`: ignored without a file or while uploading; otherwise mark the
      upload as running, restart progress and schedule one more interval. */
  function UploadFile(s: State): (s': State)
    ensures s.file.None? || s.uploading ==> s' == s
    ensures s.file.Some? && !s.uploading ==>
      s' == s.(uploading := true, progress := 0, intervals := s.intervals + 1)
  {
    if s.file.None? || s.uploading then s
    else s.(uploading := true, progress := 0, intervals := s.intervals + 1)
  }

  /** One firing of a scheduled progress interval. The updater reads the latest
      progress: at or past 100 it pins progress to 100, ends the upload and
      clears its own interval; below 100 it adds 8 without clamping. With no
      interval scheduled nothing fires. */
  function Tick(s: State): (s': State)
    ensures s'.file == s.file && s'.query == s.query && s'.response == s.response && s'.history == s.history
    ensures s.intervals == 0 ==> s' == s
    ensures s.intervals > 0 && s.progress < ProgressDone ==> s'.progress == s.progress + ProgressStep
    ensures s.intervals > 0 && s.progress < ProgressDone ==> s'.uploading == s.uploading && s'.intervals == s.intervals
    ensures s.intervals > 0 && s.progress >= ProgressDone ==>
      s'.progress == ProgressDone && !s'.uploading && s'.intervals == s.intervals - 1
  {
    if s.intervals == 0 then s
    else if s.progress >= ProgressDone then
      s.(progress := ProgressDone, uploading := false, intervals := s.intervals - 1)
    else s.(progress := s.progress + ProgressStep)
  }

  /** `handleSend`: a blank query (nothing but whitespace) is ignored; otherwise
      show the canned reply, put `{ now, trimmed query, reply }` in front of the
      history and clear the query box. The upload fields are never touched. */
  function HandleSend(s: State, now: int): (s': State)
    ensures JsString.AllWhitespace(s.query) ==> s' == s
    ensures !JsString.AllWhitespace(s.query) ==>
      && |s'.history| == |s.history| + 1
      && s'.history[1..] == s.history
      && s'.history[0].id == now
      && JsString.IsTrimOf(s.query, s'.history[0].q)
      && s'.history[0].q != ""
      && s'.history[0].a == BotReply
      && s'.response == BotReply
      && s'.query == ""
    ensures s'.file == s.file && s'.uploading == s.uploading && s'.progress == s.progress
      && s'.intervals == s.intervals
  {
    var q := JsString.Trim(s.query);
    if q == "" then s
    else
      s.(response := BotReply,
         history := [HistoryEntry(now, q, BotReply)] + s.history,
         query := "")
  }

  /** Everything that can happen to the dashboard. `EditQuery` and
      `EditResponse` are the inline `onChange` setters of the input box and the
      reply text area. */
  datatype Event =
    | FileChange(files: Option<seq<FileRef>>)
    | Upload
    | IntervalTick
    | Send(now: int)
    | EditQuery(text: string)
    | EditResponse(text: string)

  function Apply(s: State, e: Event): (s': State)
    ensures e.EditQuery? ==> s' == s.(query := e.text)
    ensures e.EditResponse? ==> s' == s.(response := e.text)
    ensures !e.FileChange? ==> s'.file == s.file
    ensures !e.Send? && !e.EditQuery? ==> s'.query == s.query
  {
    match e
    case FileChange(files) => OnFileChange(s, files)
    case Upload => UploadFile(s)
    case IntervalTick => Tick(s)
    case Send(now) => HandleSend(s, now)
    case EditQuery(text) => s.(query := text)
    case EditResponse(text) => s.(response := text)
  }

  function Run(s: State, events: seq<Event>): State
    decreases |events|
  {
    if events == [] then s else Run(Apply(s, events[0]), events[1..])
  }

  /** What holds of every reachable state: exactly one interval runs while
      uploading and none otherwise; while uploading, progress is a multiple of 8
      between 0 and 104; at rest it is 0 or 100. */
  predicate Inv(s: State)
  {
    && s.intervals == (if s.uploading then 1 else 0)
    && (s.uploading ==> 0 <= s.progress <= 104 && s.progress % ProgressStep == 0)
    && (!s.uploading ==> s.progress == 0 || s.progress == ProgressDone)
  }

  lemma ApplyPreservesInv(s: State, e: Event)
    requires Inv(s)
    ensures Inv(Apply(s, e))
  {
  }

  lemma {:induction false} RunPreservesInv(s: State, events: seq<Event>)
    requires Inv(s)
    ensures Inv(Run(s, events))
    decreases |events|
  {
    if events != [] {
      ApplyPreservesInv(s, events[0]);
      RunPreservesInv(Apply(s, events[0]), events[1..]);
    }
  }

  /** From a fresh dashboard, whatever happens, at most one progress interval is
      live, it is live exactly while uploading, and progress stays in [0, 104]. */
  lemma ReachableStatesAreBounded(events: seq<Event>)
    ensures var s := Run(Init(), events);
      && s.intervals <= 1
      && (s.intervals == 1 <==> s.uploading)
      && 0 <= s.progress <= 104
  {
    RunPreservesInv(Init(), events);
  }

  /** The event is a send the dashboard does not ignore: its query is not blank. */
  predicate Accepts(s: State, e: Event)
  {
    e.Send? && !JsString.AllWhitespace(s.query)
  }

  /** How many sends along a run of events are accepted. */
  function Accepted(s: State, events: seq<Event>): (n: nat)
    ensures n <= |events|
    decreases |events|
  {
    if events == [] then 0
    else (if Accepts(s, events[0]) then 1 else 0) + Accepted(Apply(s, events[0]), events[1..])
  }

  /** An accepted send puts exactly one entry, the newest, in front of the
      history; every other event leaves the history as it is. */
  lemma ApplyExtendsHistory(s: State, e: Event)
    ensures JsArray.PrependedTo(Apply(s, e).history, s.history)
    ensures |Apply(s, e).history| == |s.history| + (if Accepts(s, e) then 1 else 0)
    ensures Accepts(s, e) ==>
      && Apply(s, e).history[0].id == e.now
      && JsString.IsTrimOf(s.query, Apply(s, e).history[0].q)
      && Apply(s, e).history[0].a == BotReply
    ensures !Accepts(s, e) ==> Apply(s, e).history == s.history
  {
    if e.Send? {
      var t := HandleSend(s, e.now);
      assert Apply(s, e) == t;
      if Accepts(s, e) {
        assert t.history == [t.history[0]] + s.history;
      }
    }
  }

  /** History only ever grows at the front: the history before any run of events
      is a suffix of the history after it, and it has grown by exactly the
      number of accepted sends. From a fresh dashboard, N accepted sends leave N
      entries. */
  lemma {:induction false} HistoryIsAppendOnly(s: State, events: seq<Event>)
    ensures JsArray.PrependedTo(Run(s, events).history, s.history)
    ensures |Run(s, events).history| == |s.history| + Accepted(s, events)
    decreases |events|
  {
    if events != [] {
      var t := Apply(s, events[0]);
      var h := Run(t, events[1..]).history;
      ApplyExtendsHistory(s, events[0]);
      HistoryIsAppendOnly(t, events[1..]);
      assert Run(s, events).history == h;
      JsArray.PrependedTrans(h, t.history, s.history);
    }
  }

  function Ticks(s: State, n: nat): State
    decreases n
  {
    if n == 0 then s else Ticks(Tick(s), n - 1)
  }

  /** The first 13 ticks after an upload starts take progress 0, 8, ..., 104,
      changing nothing else. */
  lemma {:induction false} TicksClimbBy8(s: State, k: nat)
    requires s.intervals == 1 && s.uploading && s.progress == 0
    requires k <= 13
    ensures Ticks(s, k) == s.(progress := ProgressStep * k)
  {
    if k > 0 {
      TicksClimbBy8(s, k - 1);
      TicksSplit(s, k - 1, 1);
    }
  }

  lemma {:induction false} TicksSplit(s: State, m: nat, n: nat)
    ensures Ticks(s, m + n) == Ticks(Ticks(s, m), n)
    decreases m
  {
    if m > 0 {
      TicksSplit(Tick(s), m - 1, n);
    }
  }

  /** Once no interval is scheduled, further ticks change nothing. */
  lemma {:induction false} TicksIdle(s: State, n: nat)
    requires s.intervals == 0
    ensures Ticks(s, n) == s
  {
    if n > 0 {
      TicksIdle(s, n - 1);
    }
  }

  /** The simulated upload, tick by tick: starting an upload from rest, progress
      climbs by 8 to 104 after 13 ticks, and the 14th tick pulls it back to 100
      and ends the upload, leaving every other field as before the upload. From
      then on the state no longer changes. Progress is thus not monotone and
      overshoots 100. */
  lemma UploadSchedule(s: State, n: nat)
    requires s.file.Some? && !s.uploading && s.intervals == 0
    ensures Ticks(UploadFile(s), 13).progress == 104
    ensures Ticks(UploadFile(s), 13).uploading
    ensures n >= 14 ==> Ticks(UploadFile(s), n) == s.(progress := ProgressDone)
  {
    var u := UploadFile(s);
    TicksClimbBy8(u, 13);
    if n >= 14 {
      var done := s.(progress := ProgressDone);
      assert Tick(Ticks(u, 13)) == done;
      TicksSplit(u, 13, 1);
      TicksIdle(done, n - 14);
      TicksSplit(u, 14, n - 14);
    }
  }

  function TickEvents(n: nat): (es: seq<Event>)
    ensures |es| == n && forall i :: 0 <= i < n ==> es[i] == IntervalTick
  {
    seq(n, _ => IntervalTick)
  }

  lemma {:induction false} RunTicks(s: State, n: nat)
    ensures Run(s, TickEvents(n)) == Ticks(s, n)
    decreases n
  {
    if n > 0 {
      assert TickEvents(n)[1..] == TickEvents(n - 1);
      RunTicks(Tick(s), n - 1);
    }
  }

  /** Progress past 100 is reachable from a fresh dashboard: choose a file,
      upload, and let the interval fire 13 times. */
  lemma OvershootIsReachable(f: FileRef)
    ensures Run(Init(), [FileChange(Some([f])), Upload] + TickEvents(13)).progress == 104
  {
    var s := OnFileChange(Init(), Some([f]));
    var es := [FileChange(Some([f])), Upload] + TickEvents(13);
    var rest := [Upload] + TickEvents(13);
    assert es[0] == FileChange(Some([f])) && es[1..] == rest;
    assert Run(Init(), es) == Run(s, rest);
    assert rest[0] == Upload && rest[1..] == TickEvents(13);
    assert Run(s, rest) == Run(UploadFile(s), TickEvents(13));
    RunTicks(UploadFile(s), 13);
    UploadSchedule(s, 0);
  }

}
