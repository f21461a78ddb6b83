/** What the session promises across events: the invariant every reachable session keeps,
    and the behaviour of each event the hook handles. */
module ChatbotProperties {
  import opened Wrappers
  import opened Strings
  import opened JsValues
  import opened Sections
  import opened ChatbotState
  import TagParser
  import StreamingText
  import SectionMerge
  import SseNode

  /** A filed question/answer pair: a trimmed, non-empty question with at least one section. */
  predicate FiledPair(p: QAPair) {
    p.question != [] && IsTrimmed(p.question) && p.sections != []
  }

  /** The invariant of every reachable session:
      - the retry counter and every attempt number stay within the retry budget;
      - a scheduled reconnect carries the delay `RETRY_DELAYS` gives its attempt;
      - an armed completion timer (500 ms) always has a connection to complete;
      - the history, counting the question under way, never exceeds `MAX_QA_HISTORY`;
      - every filed pair has a question and sections. */
  predicate Valid(s: Session) {
    && s.retryCount <= MaxRetryAttempts
    && (s.connection.Some? ==> s.connection.value.attempt <= MaxRetryAttempts)
    && (s.retryTimer.Some? ==>
          1 <= s.retryTimer.value.attempt <= MaxRetryAttempts
          && s.retryTimer.value.delayMs == RetryDelays[s.retryTimer.value.attempt - 1])
    && (s.completionTimer.Some? ==> s.connection.Some? && s.completionTimer.value == CompletionDelayMs)
    && (s.question != [] ==> IsTrimmed(s.question))
    && |s.history| + (if s.question != [] then 1 else 0) <= MaxQaHistory
    && (forall i :: 0 <= i < |s.history| ==> FiledPair(s.history[i]))
    && ShownDefaults(s.sections)
  }

  /** Every section keeps its type's default collapse state. */
  predicate ShownDefaults(ss: seq<Section>) {
    forall i :: 0 <= i < |ss| ==> DefaultCollapsed(ss[i])
  }

  /** A commit keeps every shown section at its type's default collapse state; the merge
      then adds nothing to the parse, so merging over the sections the listener captured
      at submit time gives what merging over the shown ones gives. */
  lemma CommitKeepsDefaults(s: Session, captured: seq<Section>)
    requires ShownDefaults(s.sections) && ShownDefaults(captured)
    ensures ShownDefaults(Commit(s).sections)
    ensures s.pending != [] ==>
      Commit(s).sections == TagParser.ParseTaggedContent(s.pending)
      == SectionMerge.MergeSections(captured, TagParser.ParseTaggedContent(s.pending))
  {
    if s.pending != [] {
      var parsed := TagParser.ParseTaggedContent(s.pending);
      SectionMerge.MergeOverDefaults(s.sections, parsed);
      SectionMerge.MergeOverDefaults(captured, parsed);
    }
  }

  lemma InitialIsValid()
    ensures Valid(Initial)
  {
  }

  function Pow2(n: nat): nat {
    if n == 0 then 1 else 2 * Pow2(n - 1)
  }

  /** `RETRY_DELAYS` is exponential back-off from one second. */
  lemma RetryDelaysDouble(attempt: nat)
    requires attempt < MaxRetryAttempts
    ensures RetryDelays[attempt] == 1000 * Pow2(attempt)
  {
  }

  /** What the message listener may change: the buffer, the shown sections (which keep
      their default collapse states) and steps, the update timer, the status, and the
      completion timer, which it only arms with 500 ms. */
  predicate ListenerFrame(r: Session, s: Session) {
    && r.history == s.history && r.question == s.question && r.retryCount == s.retryCount
    && r.retryTimer == s.retryTimer && r.connection == s.connection && ShownDefaults(r.sections)
    && (r.completionTimer.Some? ==> r.completionTimer == s.completionTimer || r.completionTimer == Some(CompletionDelayMs))
  }

  /** What a finishing listener leaves: connection and timers gone, the rest of the frame kept. */
  predicate FinishFrame(r: Session, s: Session) {
    && r.history == s.history && r.question == s.question && r.retryCount == s.retryCount
    && r.retryTimer.None? && r.connection.None? && r.completionTimer.None? && ShownDefaults(r.sections)
  }

  lemma FinishKeepsFrame(s: Session)
    requires ShownDefaults(s.sections)
    ensures FinishFrame(Finish(s), s)
  {
    CommitKeepsDefaults(s, []);
  }

  lemma ParsedFrame(s: Session, parsed: Js, now: int)
    requires ShownDefaults(s.sections)
    ensures ListenerFrame(HandleParsed(s, parsed, now), s) || FinishFrame(HandleParsed(s, parsed, now), s)
  {
    var kind := Get(parsed, "type");
    if kind.None? {
    } else if kind.value == Str("Status") && OptGet(OptGet(parsed, "content"), "status") == Str("saving") {
      CommitKeepsDefaults(s, []);
      assert ListenerFrame(Commit(s), s);
    } else if kind.value == Str("Done") {
      FinishKeepsFrame(s);
    } else if kind.value == Str("END") {
      EndFrame(s, EndAnswer(parsed));
    } else {
      NodeFrame(s, SseNode.ParseSSENode(parsed), now);
    }
  }

  lemma EndFrame(s: Session, answer: Js)
    requires ShownDefaults(s.sections)
    ensures ListenerFrame(HandleEnd(s, answer), s) || FinishFrame(HandleEnd(s, answer), s)
  {
    FinishKeepsFrame(s);
    if answer.Str? {
      FinishKeepsFrame(s.(pending := answer.s));
    }
  }

  lemma NodeFrame(s: Session, node: Option<SseNode.Node>, now: int)
    requires ShownDefaults(s.sections)
    ensures ListenerFrame(HandleNode(s, node, now), s)
  {
  }

  lemma MessageFrame(s: Session, data: string, now: int, decode: string -> Option<Js>)
    requires ShownDefaults(s.sections)
    ensures ListenerFrame(HandleMessage(s, data, now, decode), s) || FinishFrame(HandleMessage(s, data, now, decode), s)
  {
    FinishKeepsFrame(s);
    var body := Payload(data);
    if body.Some? && body.value != "[DONE]" && decode(body.value).Some? {
      ParsedFrame(s, decode(body.value).value, now);
    }
  }

  lemma MessagePreservesValid(s: Session, data: string, now: int, decode: string -> Option<Js>)
    requires Valid(s) && s.connection.Some?
    ensures Valid(HandleMessage(s, data, now, decode))
  {
    MessageFrame(s, data, now, decode);
  }

  lemma FinishPreservesValid(s: Session)
    requires Valid(s)
    ensures Valid(Finish(s))
  {
    FinishKeepsFrame(s);
  }

  lemma TransportErrorPreservesValid(s: Session)
    requires Valid(s) && s.connection.Some?
    ensures Valid(HandleTransportError(s))
  {
    var closed := Cleanup(s);
    assert Valid(closed);
    if s.connection.value.attempt >= MaxRetryAttempts && (s.pending != [] || |s.sections| > 0) {
      CommitKeepsDefaults(closed, []);
      assert Valid(Commit(closed));
    }
  }

  lemma SubmitPreservesValid(s: Session, input: string, fails: bool)
    requires Valid(s)
    ensures Valid(HandleSubmit(s, input, fails))
  {
    var question := Trim(input);
    if question != [] && |s.history| < MaxQaHistory {
      var cleared := s.(error := None, question := question, sections := [], steps := [], pending := [],
                        retryCount := 0, isCompleting := false, status := Connecting);
      assert Valid(cleared);
    }
  }

  lemma CancelPreservesValid(s: Session, stamp: string)
    requires Valid(s)
    ensures Valid(HandleCancel(s, stamp))
  {
    var r := HandleCancel(s, stamp);
    assert forall i :: 0 <= i < |s.history| ==> r.history[i] == s.history[i];
  }

  lemma DoneEffectPreservesValid(s: Session, stamp: string)
    requires Valid(s)
    ensures Valid(HandleDoneEffect(s, stamp))
  {
    var r := HandleDoneEffect(s, stamp);
    assert forall i :: 0 <= i < |s.history| ==> r.history[i] == s.history[i];
  }

  lemma TransportEventPreservesValid(s: Session, e: Event, decode: string -> Option<Js>)
    requires Valid(s) && (e.Open? || e.Message? || e.TransportError? || e.Close?)
    ensures Valid(Step(s, e, decode))
  {
    if s.connection.Some? {
      match e
      case Message(data, now) => MessagePreservesValid(s, data, now, decode);
      case TransportError => TransportErrorPreservesValid(s);
      case Close => FinishPreservesValid(s);
      case Open =>
    }
  }

  lemma ActionPreservesValid(s: Session, e: Event, decode: string -> Option<Js>)
    requires Valid(s) && (e.Submit? || e.Cancel? || e.Reset? || e.DoneEffect? || e.Unmount?)
    ensures Valid(Step(s, e, decode))
  {
    match e
    case Submit(input, fails) => SubmitPreservesValid(s, input, fails);
    case Cancel(stamp) => CancelPreservesValid(s, stamp);
    case DoneEffect(stamp) => DoneEffectPreservesValid(s, stamp);
    case Reset =>
    case Unmount =>
  }

  lemma TimerPreservesValid(s: Session, e: Event, decode: string -> Option<Js>)
    requires Valid(s) && (e.BatchTimerFired? || e.CompletionTimerFired? || e.RetryTimerFired?)
    ensures Valid(Step(s, e, decode))
  {
    match e
    case BatchTimerFired(now) =>
      if s.updateTimer.Some? {
        RefreshPreservesValid(s, now);
      }
    case CompletionTimerFired =>
      if s.completionTimer.Some? {
        FinishPreservesValid(s.(completionTimer := None));
      }
    case RetryTimerFired(fails) =>
      if s.retryTimer.Some? {
        var t := s.retryTimer.value;
        RetryPreservesValid(s.(retryTimer := None), t.question, t.attempt, fails);
      }
  }

  lemma RefreshPreservesValid(s: Session, now: int)
    requires Valid(s)
    ensures Valid(UpdateDisplay(s).(lastUpdate := now, updateTimer := None))
  {
    var shown := UpdateDisplay(s);
    assert ShownDefaults(shown.sections);
    ValidFrame(s, shown.(lastUpdate := now, updateTimer := None));
  }

  /** Validity does not look at the display, the pending text or the batching clock. */
  lemma ValidFrame(s: Session, r: Session)
    requires Valid(s) && ShownDefaults(r.sections)
    requires r.retryCount == s.retryCount && r.connection == s.connection && r.retryTimer == s.retryTimer
    requires r.completionTimer == s.completionTimer && r.question == s.question && r.history == s.history
    ensures Valid(r)
  {
  }

  lemma RetryPreservesValid(s: Session, question: string, attempt: nat, fails: bool)
    requires Valid(s) && attempt <= MaxRetryAttempts
    ensures Valid(AttemptConnection(s, question, attempt, fails))
  {
  }

  /** Every event keeps the invariant. */
  lemma StepPreservesValid(s: Session, e: Event, decode: string -> Option<Js>)
    requires Valid(s)
    ensures Valid(Step(s, e, decode))
  {
    if e.Open? || e.Message? || e.TransportError? || e.Close? {
      TransportEventPreservesValid(s, e, decode);
    } else if e.BatchTimerFired? || e.CompletionTimerFired? || e.RetryTimerFired? {
      TimerPreservesValid(s, e, decode);
    } else {
      ActionPreservesValid(s, e, decode);
    }
  }

  /** Every session reachable from a valid one keeps the invariant. */
  lemma {:induction false} RunPreservesValid(s: Session, events: seq<Event>, decode: string -> Option<Js>)
    requires Valid(s)
    ensures Valid(Run(s, events, decode))
    decreases |events|
  {
    if events != [] {
      StepPreservesValid(s, events[0], decode);
      RunPreservesValid(Step(s, events[0], decode), events[1..], decode);
    }
  }

  /** From mount on, the history never holds more than `MAX_QA_HISTORY` pairs, and each
      has a question and sections. */
  lemma HistoryBounded(events: seq<Event>, decode: string -> Option<Js>)
    ensures |Run(Initial, events, decode).history| <= MaxQaHistory
    ensures forall i :: 0 <= i < |Run(Initial, events, decode).history| ==> FiledPair(Run(Initial, events, decode).history[i])
  {
    InitialIsValid();
    RunPreservesValid(Initial, events, decode);
  }

  /** `canAsk` and `isBusy` are never both true, and `canStop` is `isBusy`. */
  lemma FlagsExclusive(s: Session)
    ensures !(CanAsk(s) && IsBusy(s))
    ensures CanStop(s) <==> IsBusy(s)
  {
  }

  // Messages.

  /** Blank lines and SSE comments are ignored. */
  lemma SkippedLinesChangeNothing(s: Session, data: string, now: int, decode: string -> Option<Js>)
    requires Trim(data) == [] || Trim(data)[0] == ':'
    ensures Step(s, Message(data, now), decode) == s
  {
  }

  /** A leading `data: ` is stripped: `data: X` carries X for a trimmed, non-empty X, and
      so does the bare line X when it is neither a comment nor itself prefixed. */
  lemma DataPrefixStripped(x: string)
    requires x != [] && IsTrimmed(x)
    ensures Payload("data: " + x) == Some(x)
    ensures x[0] != ':' && !("data: " <= x) ==> Payload(x) == Some(x)
  {
    var line := "data: " + x;
    assert line[0] == 'd' && line[|line| - 1] == x[|x| - 1];
    TrimOfTrimmed(line);
    assert "data: " <= line && line[6..] == x;
    TrimOfTrimmed(x);
  }

  /** A decoded line reaches the node handling. */
  lemma DecodedLineIsHandled(s: Session, data: string, now: int, decode: string -> Option<Js>)
    requires s.connection.Some? && Payload(data).Some? && Payload(data).value != "[DONE]"
    requires decode(Payload(data).value).Some?
    ensures Step(s, Message(data, now), decode) == HandleParsed(s, decode(Payload(data).value).value, now)
  {
  }

  /** A line that does not decode, or decodes to `null`, leaves the session as it was:
      the listener's catch swallows the error. */
  lemma MalformedLinesChangeNothing(s: Session, data: string, now: int, decode: string -> Option<Js>)
    requires s.connection.Some? && Payload(data).Some? && Payload(data).value != "[DONE]"
    requires decode(Payload(data).value).None? || decode(Payload(data).value) == Some(Null)
    ensures Step(s, Message(data, now), decode) == s
  {
  }

  /** The session after a completion signal: status "done", buffer committed and empty,
      connection and all timers gone; history and question untouched. */
  predicate FinishedFrom(r: Session, s: Session) {
    && r.status == Done && r.pending == [] && r.sections == Commit(s).sections
    && r.connection.None? && r.updateTimer.None? && r.retryTimer.None? && r.completionTimer.None? && !r.isCompleting
    && r.history == s.history && r.question == s.question && r.steps == s.steps
  }

  /** The line `[DONE]` finishes. */
  lemma DoneLineFinishes(s: Session, data: string, now: int, decode: string -> Option<Js>)
    requires s.connection.Some? && Payload(data) == Some("[DONE]")
    ensures FinishedFrom(Step(s, Message(data, now), decode), s)
  {
  }

  /** The close of the stream finishes. */
  lemma CloseFinishes(s: Session, decode: string -> Option<Js>)
    requires s.connection.Some?
    ensures FinishedFrom(Step(s, Close, decode), s)
  {
  }

  /** A `Done` node, and an `END` node whose answer is missing or falsy, finish. */
  lemma DoneNodesFinish(s: Session, parsed: Js, now: int)
    requires Get(parsed, "type") == Some(Str("Done"))
          || (Get(parsed, "type") == Some(Str("END")) && !Truthy(EndAnswer(parsed)))
    ensures FinishedFrom(HandleParsed(s, parsed, now), s)
  {
  }

  /** An `END` node with a string answer discards the buffer and files that answer. */
  lemma EndAnswerReplacesBuffer(s: Session, parsed: Js, now: int, answer: string)
    requires Get(parsed, "type") == Some(Str("END")) && EndAnswer(parsed) == Str(answer) && answer != []
    ensures FinishedFrom(HandleParsed(s, parsed, now), s.(pending := answer))
    ensures HandleParsed(s, parsed, now).sections
      == SectionMerge.MergeSections(s.sections, TagParser.ParseTaggedContent(answer))
  {
    assert HandleParsed(s, parsed, now) == HandleEnd(s, Str(answer)) == Finish(s.(pending := answer));
  }

  /** A `Status` node with status "saving" only commits. */
  lemma SavingOnlyCommits(s: Session, parsed: Js, now: int)
    requires Get(parsed, "type") == Some(Str("Status")) && OptGet(OptGet(parsed, "content"), "status") == Str("saving")
    ensures HandleParsed(s, parsed, now) == Commit(s)
  {
  }

  /** A text chunk with truthy content (a STREAM or SEARCH_REASONING node, or a value with
      truthy `content`, `text` or `chunk`) appends its string form to the buffer and makes
      sure exactly one display refresh is pending. A newly armed refresh lands 25 ms after
      the previous one, or at once when that is already past. The shown sections wait for
      that refresh. */
  lemma StreamChunkAppends(s: Session, content: Js, now: int)
    requires Truthy(content)
    ensures HandleNode(s, Some(SseNode.Stream(content)), now).pending == s.pending + ToJsString(content)
    ensures s.updateTimer.Some? ==> HandleNode(s, Some(SseNode.Stream(content)), now).updateTimer == s.updateTimer
    ensures s.updateTimer.None? && now >= s.lastUpdate ==>
      HandleNode(s, Some(SseNode.Stream(content)), now).updateTimer.Some?
      && HandleNode(s, Some(SseNode.Stream(content)), now).updateTimer.value <= BatchUpdateMs
    ensures s.updateTimer.None? && now - s.lastUpdate < BatchUpdateMs ==>
      now + HandleNode(s, Some(SseNode.Stream(content)), now).updateTimer.value == s.lastUpdate + BatchUpdateMs
    ensures s.updateTimer.None? && now - s.lastUpdate >= BatchUpdateMs ==>
      HandleNode(s, Some(SseNode.Stream(content)), now).updateTimer == Some(0)
    ensures HandleNode(s, Some(SseNode.Stream(content)), now).sections == s.sections
  {
  }

  /** A node chunk named STREAM with truthy content reaches the buffer. */
  lemma StreamNodeIsText(parsed: Js)
    requires Get(parsed, "type") == Some(Str("NodeChunk")) && SseNode.NodeName(parsed) == Str("STREAM")
    requires Truthy(SseNode.Payload(parsed))
    ensures SseNode.ParseSSENode(parsed) == Some(SseNode.Stream(SseNode.Payload(parsed)))
  {
  }

  /** A node chunk goes to the node handler. */
  lemma NodeChunkIsNode(s: Session, parsed: Js, now: int)
    requires Get(parsed, "type") == Some(Str("NodeChunk"))
    ensures HandleParsed(s, parsed, now) == HandleNode(s, SseNode.ParseSSENode(parsed), now)
  {
  }

  /** A SEARCH_STEPS node chunk whose payload is a list of well-formed steps is that list
      read step by step. */
  lemma StepsNodeIsList(parsed: Js)
    requires Get(parsed, "type") == Some(Str("NodeChunk")) && SseNode.NodeName(parsed) == Str("SEARCH_STEPS")
    requires SseNode.Payload(parsed).Arr? && SseNode.StepsOf(SseNode.Payload(parsed).items).Some?
    ensures SseNode.ParseSSENode(parsed) == Some(SseNode.Steps(SseNode.StepsOf(SseNode.Payload(parsed).items).value))
  {
    assert Truthy(parsed) && SseNode.IsNodeChunk(parsed);
  }

  /** A SUGGEST node chunk is classified as suggestions, which the session ignores: the
      shown steps, the buffer and the sections all stay as they are. */
  lemma SuggestNodeChangesNothing(s: Session, parsed: Js, now: int)
    requires Get(parsed, "type") == Some(Str("NodeChunk")) && SseNode.NodeName(parsed) == Str("SUGGEST")
    ensures SseNode.ParseSSENode(parsed).Some? && SseNode.ParseSSENode(parsed).value.Suggest?
    ensures HandleParsed(s, parsed, now) == s
  {
  }

  /** A message line carrying a STREAM node chunk with truthy content, end to end: its
      content's string form is appended to the buffer, a display refresh is pending, and
      the shown sections wait for it. */
  lemma StreamMessageAppends(s: Session, data: string, now: int, decode: string -> Option<Js>, parsed: Js)
    requires s.connection.Some? && Payload(data).Some? && Payload(data).value != "[DONE]"
    requires decode(Payload(data).value) == Some(parsed)
    requires Get(parsed, "type") == Some(Str("NodeChunk")) && SseNode.NodeName(parsed) == Str("STREAM")
    requires Truthy(SseNode.Payload(parsed))
    ensures Step(s, Message(data, now), decode).pending == s.pending + ToJsString(SseNode.Payload(parsed))
    ensures Step(s, Message(data, now), decode).updateTimer.Some?
    ensures Step(s, Message(data, now), decode).sections == s.sections
  {
    DecodedLineIsHandled(s, data, now, decode);
    NodeChunkIsNode(s, parsed, now);
    StreamNodeIsText(parsed);
    StreamChunkAppends(s, SseNode.Payload(parsed), now);
  }

  /** A message line carrying a SEARCH_STEPS node chunk whose payload is a list of
      well-formed steps, end to end: the shown steps become that list read step by step,
      and when every one of them is completed the completion timer is armed once. */
  lemma StepsMessageArrives(s: Session, data: string, now: int, decode: string -> Option<Js>, parsed: Js)
    requires s.connection.Some? && Payload(data).Some? && Payload(data).value != "[DONE]"
    requires decode(Payload(data).value) == Some(parsed)
    requires Get(parsed, "type") == Some(Str("NodeChunk")) && SseNode.NodeName(parsed) == Str("SEARCH_STEPS")
    requires SseNode.Payload(parsed).Arr? && SseNode.StepsOf(SseNode.Payload(parsed).items).Some?
    ensures var steps := SseNode.StepsOf(SseNode.Payload(parsed).items).value;
      && Step(s, Message(data, now), decode) == StepsArrived(s, steps)
      && Step(s, Message(data, now), decode).steps == steps
      && |steps| == |SseNode.Payload(parsed).items|
      && (steps != [] && AllCompleted(steps) && !s.isCompleting ==>
            Step(s, Message(data, now), decode).completionTimer == Some(CompletionDelayMs))
  {
    var steps := SseNode.StepsOf(SseNode.Payload(parsed).items).value;
    DecodedLineIsHandled(s, data, now, decode);
    NodeChunkIsNode(s, parsed, now);
    StepsNodeIsList(parsed);
    SseNode.StepsNodeFollowsList(parsed);
    CompletedStepsArmOnce(s, steps);
  }

  /** A non-empty step list whose every step is completed arms the completion timer,
      unless completion is already under way; then nothing new is armed. */
  lemma CompletedStepsArmOnce(s: Session, steps: seq<ProgressStep>)
    ensures StepsArrived(s, steps).steps == steps
    ensures steps != [] && AllCompleted(steps) && !s.isCompleting ==>
      StepsArrived(s, steps).isCompleting && StepsArrived(s, steps).completionTimer == Some(CompletionDelayMs)
    ensures s.isCompleting ==> StepsArrived(s, steps).completionTimer == s.completionTimer
    ensures steps == [] || !AllCompleted(steps) ==> StepsArrived(s, steps).completionTimer == s.completionTimer
  {
  }

  /** In a reachable session the completion timer always finds its connection, so its
      firing always finishes. */
  lemma CompletionTimerFinishes(s: Session, decode: string -> Option<Js>)
    requires Valid(s) && s.completionTimer.Some?
    ensures FinishedFrom(Step(s, CompletionTimerFired, decode), s)
  {
  }

  /** A display refresh replaces the shown sections only with a non-empty streaming parse
      of the buffer, and clears its own timer. */
  lemma BatchRefresh(s: Session, now: int, decode: string -> Option<Js>)
    requires s.updateTimer.Some?
    ensures var r := Step(s, BatchTimerFired(now), decode);
      && r.updateTimer.None? && r.lastUpdate == now && r.pending == s.pending
      && (r.sections != s.sections ==> r.sections == StreamingText.ParseStreamingSections(s.pending) != [])
      && (s.pending != [] && StreamingText.ParseStreamingSections(s.pending) != [] ==>
            r.sections == StreamingText.ParseStreamingSections(s.pending))
  {
  }

  // Transport.

  /** Events from the transport are ignored when no connection is held. */
  lemma TransportNeedsConnection(s: Session, data: string, now: int, decode: string -> Option<Js>)
    requires s.connection.None?
    ensures Step(s, Open, decode) == s && Step(s, Close, decode) == s
    ensures Step(s, TransportError, decode) == s && Step(s, Message(data, now), decode) == s
  {
  }

  /** Open sets "streaming" and clears the retry counter. */
  lemma OpenResetsRetries(s: Session, decode: string -> Option<Js>)
    requires s.connection.Some?
    ensures Step(s, Open, decode).status == Streaming && Step(s, Open, decode).retryCount == 0
  {
  }

  /** A transport error within the budget cleans up and schedules a reconnect for the same
      question at the next attempt, after 1000 * 2^attempt ms. */
  lemma ErrorWithinBudgetRetries(s: Session, decode: string -> Option<Js>)
    requires s.connection.Some? && s.connection.value.attempt < MaxRetryAttempts
    ensures var a := s.connection.value.attempt; var r := Step(s, TransportError, decode);
      && r.connection.None? && r.updateTimer.None? && r.completionTimer.None? && !r.isCompleting
      && r.retryCount == a + 1
      && r.retryTimer == Some(RetryTimer(s.connection.value.question, a + 1, 1000 * Pow2(a)))
      && r.error == Some(Retrying(a + 1, 1000 * Pow2(a)))
      && r.status == s.status && r.sections == s.sections && r.pending == s.pending
  {
    RetryDelaysDouble(s.connection.value.attempt);
  }

  /** Beyond the budget there is no reconnect: what arrived is kept and the session ends
      "done" with the partial-save error, or, when nothing arrived, ends in "error". */
  lemma ErrorBeyondBudgetGivesUp(s: Session, decode: string -> Option<Js>)
    requires s.connection.Some? && s.connection.value.attempt >= MaxRetryAttempts
    ensures var r := Step(s, TransportError, decode);
      && r.retryTimer.None? && r.connection.None?
      && (s.pending != [] || s.sections != [] ==>
            r.status == Done && r.error == Some(PartialSaved) && r.sections == Commit(s).sections)
      && (s.pending == [] && s.sections == [] ==> r.status == Error && r.error == Some(RetriesExhausted))
  {
  }

  /** A reconnect opens a connection for the scheduled question and attempt. */
  lemma RetryReconnects(s: Session, decode: string -> Option<Js>)
    requires s.retryTimer.Some?
    ensures var t := s.retryTimer.value; var r := Step(s, RetryTimerFired(false), decode);
      r.connection == Some(Connection(t.question, t.attempt)) && r.retryTimer.None?
  {
  }

  /** A connection that cannot even be constructed reports the failure and sets "error",
      leaving the handle it had. */
  lemma ConstructorFailureReported(s: Session, t: RetryTimer, input: string, decode: string -> Option<Js>)
    requires s.retryTimer == Some(t)
    ensures var r := Step(s, RetryTimerFired(true), decode);
      r.status == Error && r.error == Some(StartFailed) && r.connection == s.connection && r.retryTimer.None?
    ensures Trim(input) != [] && |s.history| < MaxQaHistory ==>
      var r := Step(s, Submit(input, true), decode);
      r.status == Error && r.error == Some(StartFailed) && r.connection == s.connection && r.question == Trim(input)
  {
  }

  // Actions.

  /** `submit`: blank input is ignored; a full history only raises the error; otherwise
      the interaction starts afresh at attempt 0, without closing what is still open. */
  lemma SubmitBehaviour(s: Session, input: string, decode: string -> Option<Js>)
    ensures Trim(input) == [] ==> Step(s, Submit(input, false), decode) == s
    ensures Trim(input) != [] && |s.history| >= MaxQaHistory ==>
      Step(s, Submit(input, false), decode) == s.(error := Some(HistoryFull))
    ensures Trim(input) != [] && |s.history| < MaxQaHistory ==>
      var r := Step(s, Submit(input, false), decode);
      && r.status == Connecting && r.question == Trim(input) && r.error.None?
      && r.sections == [] && r.steps == [] && r.pending == [] && r.retryCount == 0 && !r.isCompleting
      && r.connection == Some(Connection(Trim(input), 0))
      && r.history == s.history && r.retryTimer == s.retryTimer && r.updateTimer == s.updateTimer
  {
  }

  /** A question can be asked whenever the flags say so, and it starts a connection. */
  lemma CanAskStartsConnection(s: Session, input: string, decode: string -> Option<Js>)
    requires CanAsk(s) && Trim(input) != []
    ensures IsBusy(Step(s, Submit(input, false), decode))
  {
  }

  /** The done-effect files the answer exactly when the session is "done" with a question
      and sections, then goes idle with the interaction cleared; otherwise nothing changes,
      so "done" without sections stays "done". */
  lemma DoneEffectFiles(s: Session, stamp: string, decode: string -> Option<Js>)
    ensures s.status == Done && s.question != [] && s.sections != [] ==>
      var r := Step(s, DoneEffect(stamp), decode);
      && r.history == s.history + [QAPair(stamp, s.question, s.sections, s.steps)]
      && r.status == Idle && r.question == [] && r.sections == [] && r.steps == [] && r.pending == []
    ensures !(s.status == Done && s.question != [] && s.sections != []) ==> Step(s, DoneEffect(stamp), decode) == s
  {
  }

  /** `cancel` files what has arrived (committed) when there is a question and something to
      file, and always ends idle, disconnected and cleared. */
  lemma CancelFiles(s: Session, stamp: string, decode: string -> Option<Js>)
    ensures var r := Step(s, Cancel(stamp), decode);
      && r.status == Idle && r.connection.None? && r.retryTimer.None? && r.updateTimer.None? && r.completionTimer.None?
      && r.question == [] && r.sections == [] && r.pending == []
      && (s.question != [] && Commit(s).sections != [] ==>
            r.history == s.history + [QAPair(stamp, s.question, Commit(s).sections, s.steps)])
      && (s.question == [] || Commit(s).sections == [] ==> r.history == s.history)
  {
  }

  /** A second `cancel` files nothing. */
  lemma RepeatedCancelFilesNothing(s: Session, a: string, b: string, decode: string -> Option<Js>)
    ensures Step(Step(s, Cancel(a), decode), Cancel(b), decode).history == Step(s, Cancel(a), decode).history
  {
  }

  /** Unmounting closes the connection and cancels every timer; nothing else changes. */
  lemma UnmountClosesEverything(s: Session, decode: string -> Option<Js>)
    ensures var r := Step(s, Unmount, decode);
      && r.connection.None? && r.updateTimer.None? && r.retryTimer.None? && r.completionTimer.None? && !r.isCompleting
      && r.status == s.status && r.history == s.history && r.question == s.question && r.sections == s.sections
      && r.pending == s.pending && r.error == s.error
  {
  }

  /** `reset` empties the history and the interaction, clears the error and the retry
      counter, and closes everything. */
  lemma ResetClearsAll(s: Session, decode: string -> Option<Js>)
    ensures var r := Step(s, Reset, decode);
      && r.status == Idle && r.history == [] && r.question == [] && r.sections == [] && r.steps == []
      && r.pending == [] && r.error.None? && r.retryCount == 0
      && r.connection.None? && r.updateTimer.None? && r.retryTimer.None? && r.completionTimer.None?
  {
  }

  // The error listener's captured sections.

  /** The listener's captured sections change nothing but the give-up test: where the
      captured and the shown sections are both empty or both not, the listener as written
      and the model agree. */
  lemma CapturedSectionsOnlyAffectGiveUp(s: Session, captured: seq<Section>)
    requires s.connection.Some? && ShownDefaults(s.sections) && ShownDefaults(captured)
    requires (captured == []) == (s.sections == [])
    ensures HandleTransportErrorAsWritten(s, captured) == HandleTransportError(s)
  {
    CommitKeepsDefaults(Cleanup(s), captured);
  }

  /** As written: once a "saving" commit has emptied the buffer, a final transport error
      reads the sections captured at submit time (none, for a question asked from a
      cleared session), reports failure and never files the answer that is shown. */
  lemma StaleGiveUpDropsSavedAnswer(s: Session, stamp: string, decode: string -> Option<Js>)
    requires s.connection.Some? && s.connection.value.attempt >= MaxRetryAttempts
    requires s.pending == [] && s.sections != [] && s.question != []
    ensures HandleTransportErrorAsWritten(s, []).status == Error
    ensures HandleTransportErrorAsWritten(s, []).error == Some(RetriesExhausted)
    ensures Step(HandleTransportErrorAsWritten(s, []), DoneEffect(stamp), decode).history == s.history
  {
  }

  /** Reading the shown sections, the same final error keeps the answer: the session ends
      "done" with the partial-save notice, and the done-effect files it. */
  lemma GiveUpFilesSavedAnswer(s: Session, stamp: string, decode: string -> Option<Js>)
    requires s.connection.Some? && s.connection.value.attempt >= MaxRetryAttempts
    requires s.pending == [] && s.sections != [] && s.question != []
    ensures Step(s, TransportError, decode).status == Done
    ensures Step(s, TransportError, decode).error == Some(PartialSaved)
    ensures Step(Step(s, TransportError, decode), DoneEffect(stamp), decode).history
      == s.history + [QAPair(stamp, s.question, s.sections, s.steps)]
  {
  }
}
