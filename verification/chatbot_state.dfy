/** `useChatbotState` (hooks/use-chatbot-state.ts) as a transition system: one session
    record and one pure function per event. The clock, timers and the event source are
    explicit: `now` values, optional timer handles that an event fires, and transport
    events that act on the connection the session holds. */
module ChatbotState {
  import opened Wrappers
  import opened Strings
  import opened JsValues
  import opened Sections
  import TagParser
  import StreamingText
  import SectionMerge
  import SseNode

  const BatchUpdateMs: nat := 25
  const MaxRetryAttempts: nat := 3
  const RetryDelays: seq<nat> := [1000, 2000, 4000]
  const MaxQaHistory: nat := 100
  const CompletionDelayMs: nat := 500

  datatype Status = Idle | Connecting | Streaming | Done | Error

  /** The error banner, by the situation it reports rather than its wording. */
  datatype ErrorKind =
    | HistoryFull
    | Retrying(attempt: nat, delayMs: nat)
    | PartialSaved
    | RetriesExhausted
    | StartFailed

  /** The open event source, with the question and attempt its listeners were made for. */
  datatype Connection = Connection(question: string, attempt: nat)

  /** A scheduled reconnect. */
  datatype RetryTimer = RetryTimer(question: string, attempt: nat, delayMs: nat)

  /** The hook's state and refs. `updateTimer` and `completionTimer` hold the delay they
      were armed with. */
  datatype Session = Session(
    status: Status,
    history: seq<QAPair>,
    question: string,
    sections: seq<Section>,
    steps: seq<ProgressStep>,
    error: Option<ErrorKind>,
    retryCount: nat,
    pending: string,
    connection: Option<Connection>,
    updateTimer: Option<nat>,
    retryTimer: Option<RetryTimer>,
    completionTimer: Option<nat>,
    isCompleting: bool,
    lastUpdate: int)

  /** The state on mount; the mock history is empty. */
  const Initial: Session := Session(Idle, [], "", [], [], None, 0, "", None, None, None, None, false, 0)

  datatype Event =
    | Submit(input: string, constructorFails: bool)
    | Open
    | Message(data: string, now: int)
    | TransportError
    | Close
    | BatchTimerFired(now: int)
    | CompletionTimerFired
    | RetryTimerFired(constructorFails: bool)
    | Cancel(stamp: string)
    | Reset
    | DoneEffect(stamp: string)
    | Unmount

  // The helpers of the hook.

  /** `cleanup`: close the connection, clear the three timers and the completion flag. */
  function Cleanup(s: Session): (r: Session)
    ensures r.connection.None? && r.updateTimer.None? && r.retryTimer.None? && r.completionTimer.None? && !r.isCompleting
    ensures r.(connection := s.connection, updateTimer := s.updateTimer, retryTimer := s.retryTimer,
               completionTimer := s.completionTimer, isCompleting := s.isCompleting) == s
  {
    s.(connection := None, updateTimer := None, retryTimer := None, completionTimer := None, isCompleting := false)
  }

  /** `commitPendingText`: the buffer is parsed with tags and merged over the current
      sections, then emptied; with an empty buffer nothing happens. */
  function Commit(s: Session): (r: Session)
    ensures r.pending == []
    ensures s.pending == [] ==> r == s
    ensures s.pending != [] ==> r.sections == SectionMerge.MergeSections(s.sections, TagParser.ParseTaggedContent(s.pending))
    ensures r.(sections := s.sections, pending := s.pending) == s
  {
    if s.pending == [] then s
    else s.(sections := SectionMerge.MergeSections(s.sections, TagParser.ParseTaggedContent(s.pending)), pending := [])
  }

  /** `resetInteraction`. */
  function ResetInteraction(s: Session): (r: Session)
    ensures r.question == [] && r.sections == [] && r.steps == [] && r.pending == []
    ensures r.(question := s.question, sections := s.sections, steps := s.steps, pending := s.pending) == s
  {
    s.(question := [], sections := [], steps := [], pending := [])
  }

  /** `persistCurrentQA(sections)`: a pair is appended only for a non-empty question with
      non-empty sections; `stamp` is the id the clock provides. */
  function Persist(s: Session, sections: seq<Section>, stamp: string): (r: Session)
    ensures s.question != [] && sections != [] ==> r.history == s.history + [QAPair(stamp, s.question, sections, s.steps)]
    ensures s.question == [] || sections == [] ==> r.history == s.history
    ensures r.(history := s.history) == s
  {
    if s.question == [] || sections == [] then s
    else s.(history := s.history + [QAPair(stamp, s.question, sections, s.steps)])
  }

  /** `updateStreamingDisplay`: the sections shown while streaming are REPLACED by the
      streaming parse of the buffer, unless that parse is empty. */
  function UpdateDisplay(s: Session): (r: Session)
    ensures r.(sections := s.sections) == s
    ensures r.sections != s.sections ==> r.sections == StreamingText.ParseStreamingSections(s.pending) != []
  {
    if s.pending == [] then s
    else
      var shown := StreamingText.ParseStreamingSections(s.pending);
      if |shown| > 0 then s.(sections := shown) else s
  }

  /** `Math.max(0, BATCH_UPDATE_MS - elapsed)`. */
  function BatchDelay(now: int, lastUpdate: int): (delay: nat)
    ensures now >= lastUpdate ==> delay <= BatchUpdateMs
    ensures now - lastUpdate >= BatchUpdateMs ==> delay == 0
    ensures now - lastUpdate < BatchUpdateMs ==> now + delay == lastUpdate + BatchUpdateMs
  {
    if BatchUpdateMs - (now - lastUpdate) > 0 then BatchUpdateMs - (now - lastUpdate) else 0
  }

  /** `scheduleBatchedUpdate`: at most one display refresh is pending at a time. */
  function ScheduleUpdate(s: Session, now: int): (r: Session)
    ensures r.updateTimer.Some?
    ensures s.updateTimer.Some? ==> r == s
    ensures s.updateTimer.None? ==> r == s.(updateTimer := Some(BatchDelay(now, s.lastUpdate)))
  {
    if s.updateTimer.Some? then s else s.(updateTimer := Some(BatchDelay(now, s.lastUpdate)))
  }

  /** `attemptConnection(question, attempt)`: a throwing constructor leaves an error and the
      previous handle; otherwise the new connection is held. */
  function AttemptConnection(s: Session, question: string, attempt: nat, constructorFails: bool): (r: Session)
    ensures constructorFails ==> r == s.(error := Some(StartFailed), status := Error)
    ensures !constructorFails ==> r == s.(connection := Some(Connection(question, attempt)))
  {
    if constructorFails then s.(error := Some(StartFailed), status := Error)
    else s.(connection := Some(Connection(question, attempt)))
  }

  /** Commit, cleanup and status "done": what `[DONE]`, `Done`, `END`, close and the
      completion timer each do. */
  function Finish(s: Session): (r: Session)
    ensures r.status == Done && r.pending == []
    ensures r.connection.None? && r.updateTimer.None? && r.retryTimer.None? && r.completionTimer.None? && !r.isCompleting
    ensures r.sections == Commit(s).sections && r.history == s.history && r.question == s.question && r.steps == s.steps
    ensures r.error == s.error && r.retryCount == s.retryCount
  {
    Cleanup(Commit(s)).(status := Done)
  }

  // The listeners of one connection.

  /** Every step's own flag is the boolean `true`. */
  predicate AllCompleted(steps: seq<ProgressStep>) {
    forall i :: 0 <= i < |steps| ==> IsCompleted(steps[i])
  }

  /** A SEARCH_STEPS node: the list is shown, and a non-empty, fully completed list arms
      the completion timer unless completion is already under way. */
  function StepsArrived(s: Session, steps: seq<ProgressStep>): (r: Session)
    ensures r.steps == steps
    ensures (steps != [] && AllCompleted(steps) && !s.isCompleting) ==>
      r == s.(steps := steps, isCompleting := true, completionTimer := Some(CompletionDelayMs))
    ensures !(steps != [] && AllCompleted(steps) && !s.isCompleting) ==> r == s.(steps := steps)
  {
    var shown := s.(steps := steps);
    if |steps| > 0 && AllCompleted(steps) && !s.isCompleting then
      shown.(isCompleting := true, completionTimer := Some(CompletionDelayMs))
    else shown
  }

  /** The `END` node: a falsy answer finishes with what has arrived, a string answer
      replaces the buffer and finishes. Any other answer is stored and then throws in the
      commit, which the listener's catch swallows; the session is left as it was. */
  function HandleEnd(s: Session, answer: Js): Session {
    if !Truthy(answer) then Finish(s)
    else if answer.Str? then Finish(s.(pending := answer.s))
    else s
  }

  /** A classified node: truthy text is appended and a refresh scheduled, a step list is
      shown; anything else is ignored. */
  function HandleNode(s: Session, node: Option<SseNode.Node>, now: int): Session {
    if node.None? then s
    else if node.value.Stream? then
      if Truthy(node.value.content) then ScheduleUpdate(s.(pending := s.pending + ToJsString(node.value.content)), now)
      else s
    else if node.value.Steps? then StepsArrived(s, node.value.steps)
    else s
  }

  /** `parsed.content.outputs.vera_answer.value.answer`. */
  function EndAnswer(parsed: Js): Js {
    OptGet(OptGet(OptGet(OptGet(OptGet(parsed, "content"), "outputs"), "vera_answer"), "value"), "answer")
  }

  /** The message listener once the line has been decoded to `parsed`. A null value throws
      on `parsed.type`, and the listener's catch leaves the state as it was. */
  function HandleParsed(s: Session, parsed: Js, now: int): Session {
    var kind := Get(parsed, "type");
    if kind.None? then s
    else if kind.value == Str("Status") && OptGet(OptGet(parsed, "content"), "status") == Str("saving") then Commit(s)
    else if kind.value == Str("Done") then Finish(s)
    else if kind.value == Str("END") then HandleEnd(s, EndAnswer(parsed))
    else HandleNode(s, SseNode.ParseSSENode(parsed), now)
  }

  /** The line as the listener reads it: trimmed, and with a leading `data: ` stripped and
      the rest trimmed again. None for a line it skips (blank, or an SSE comment). */
  function Payload(data: string): (r: Option<string>)
    ensures r.Some? ==> r.value != [] && IsTrimmed(r.value)
    ensures Trim(data) == [] || Trim(data)[0] == ':' ==> r.None?
    ensures Trim(data) != [] && Trim(data)[0] != ':' && !("data: " <= Trim(data)) ==> r == Some(Trim(data))
    ensures "data: " <= Trim(data) ==>
      r == (if Trim(Trim(data)[6..]) == [] then None else Some(Trim(Trim(data)[6..])))
  {
    var line := Trim(data);
    if line == [] || line[0] == ':' then None
    else
      var body := if "data: " <= line then Trim(line[6..]) else line;
      if body == [] then None else Some(body)
  }

  /** The message listener. `decode` is `JSON.parse`, None where it throws. */
  function HandleMessage(s: Session, data: string, now: int, decode: string -> Option<Js>): Session {
    var body := Payload(data);
    if body.None? then s
    else if body.value == "[DONE]" then Finish(s)
    else
      var parsed := decode(body.value);
      if parsed.None? then s else HandleParsed(s, parsed.value, now)
  }

  /** The error listener of the held connection. */
  function HandleTransportError(s: Session): Session
    requires s.connection.Some?
  {
    var c := s.connection.value;
    var closed := Cleanup(s);
    if c.attempt < MaxRetryAttempts then
      var delay := RetryDelays[c.attempt];
      closed.(retryCount := c.attempt + 1, error := Some(Retrying(c.attempt + 1, delay)),
              retryTimer := Some(RetryTimer(c.question, c.attempt + 1, delay)))
    else if s.pending != [] || |s.sections| > 0 then
      Commit(closed).(status := Done, error := Some(PartialSaved))
    else closed.(error := Some(RetriesExhausted), status := Error)
  }

  /** The error listener as the source writes it. The listener is a closure made when the
      question was submitted, so its `currentSections` are the sections of that moment
      (`captured`), not the ones shown now; its commit merges over them and its give-up
      test reads them. `HandleTransportError` reads the shown sections instead. */
  function HandleTransportErrorAsWritten(s: Session, captured: seq<Section>): Session
    requires s.connection.Some?
  {
    var c := s.connection.value;
    var closed := Cleanup(s);
    if c.attempt < MaxRetryAttempts then HandleTransportError(s)
    else if s.pending != [] || |captured| > 0 then
      var saved := if s.pending == [] then closed
        else closed.(sections := SectionMerge.MergeSections(captured, TagParser.ParseTaggedContent(s.pending)), pending := []);
      saved.(status := Done, error := Some(PartialSaved))
    else closed.(error := Some(RetriesExhausted), status := Error)
  }

  // The actions and the effect.

  /** `submit`. It neither checks the status nor closes a connection or clears a timer
      that is still around. */
  function HandleSubmit(s: Session, input: string, constructorFails: bool): Session {
    var question := Trim(input);
    if question == [] then s
    else if |s.history| >= MaxQaHistory then s.(error := Some(HistoryFull))
    else
      var cleared := s.(error := None, question := question, sections := [], steps := [], pending := [],
                        retryCount := 0, isCompleting := false, status := Connecting);
      AttemptConnection(cleared, question, 0, constructorFails)
  }

  /** The effect that files a finished answer. With status "done" but no sections it does
      nothing, and the session stays "done". */
  function HandleDoneEffect(s: Session, stamp: string): Session {
    if s.status == Done && s.question != [] && |s.sections| > 0 then
      ResetInteraction(Persist(s, s.sections, stamp)).(status := Idle)
    else s
  }

  /** `cancel`: keep what has arrived, file it, and go idle. */
  function HandleCancel(s: Session, stamp: string): Session {
    var committed := Commit(s);
    ResetInteraction(Persist(Cleanup(committed), committed.sections, stamp)).(status := Idle)
  }

  /** `reset`. */
  function HandleReset(s: Session): Session {
    ResetInteraction(Cleanup(s)).(status := Idle, history := [], error := None, retryCount := 0)
  }

  /** One event. Transport events only reach the listeners of a held connection, and a
      timer event only fires an armed timer. */
  function Step(s: Session, e: Event, decode: string -> Option<Js>): Session {
    match e
    case Submit(input, fails) => HandleSubmit(s, input, fails)
    case Open => if s.connection.None? then s else s.(status := Streaming, retryCount := 0)
    case Message(data, now) => if s.connection.None? then s else HandleMessage(s, data, now, decode)
    case TransportError => if s.connection.None? then s else HandleTransportError(s)
    case Close => if s.connection.None? then s else Finish(s)
    case BatchTimerFired(now) =>
      if s.updateTimer.None? then s else UpdateDisplay(s).(lastUpdate := now, updateTimer := None)
    case CompletionTimerFired =>
      if s.completionTimer.None? then s
      else
        var fired := s.(completionTimer := None);
        if fired.connection.Some? then Finish(fired) else fired
    case RetryTimerFired(fails) =>
      if s.retryTimer.None? then s
      else
        var t := s.retryTimer.value;
        AttemptConnection(s.(retryTimer := None), t.question, t.attempt, fails)
    case Cancel(stamp) => HandleCancel(s, stamp)
    case Reset => HandleReset(s)
    case DoneEffect(stamp) => HandleDoneEffect(s, stamp)
    case Unmount => Cleanup(s)
  }

  /** A sequence of events, in order. */
  function Run(s: Session, events: seq<Event>, decode: string -> Option<Js>): Session
    decreases |events|
  {
    if events == [] then s else Run(Step(s, events[0], decode), events[1..], decode)
  }

  // The derived flags.

  predicate CanAsk(s: Session) {
    (s.status == Idle || s.status == Done || s.status == Error) && |s.history| < MaxQaHistory
  }

  predicate CanStop(s: Session) {
    s.status == Streaming || s.status == Connecting
  }

  predicate IsBusy(s: Session) {
    s.status == Connecting || s.status == Streaming
  }
}
