/** `parseSSENode` (utils/content-parser.ts): classify one decoded stream event. */
module SseNode {
  import opened Wrappers
  import opened JsValues
  import opened Sections

  /** The classified node: text to append, a progress-step list, or suggestions (which the
      session ignores). */
  datatype Node = Stream(content: Js) | Steps(steps: seq<ProgressStep>) | Suggest(content: Js)

  /** `data.type === 'NodeChunk' && data.content?.nodeName`, for a truthy `data`. */
  predicate IsNodeChunk(data: Js) {
    OptGet(data, "type") == Str("NodeChunk") && Truthy(OptGet(OptGet(data, "content"), "nodeName"))
  }

  /** `data.content.nodeName`. */
  function NodeName(data: Js): Js {
    OptGet(OptGet(data, "content"), "nodeName")
  }

  /** `data.content.content`, the node's payload. */
  function Payload(data: Js): Js {
    OptGet(OptGet(data, "content"), "content")
  }

  /** One element of a SEARCH_STEPS list. Reading a field of a null or undefined element
      throws, which the classifier turns into "no node". A missing or falsy flag becomes
      `false`; a truthy one is kept as it is. */
  function StepOf(step: Js): (r: Option<ProgressStep>)
    ensures r.None? <==> step == Null || step == Undefined
    ensures r.Some? ==> Truthy(r.value.isActive) == Truthy(OptGet(step, "isActive"))
    ensures r.Some? ==> Truthy(r.value.isCompleted) == Truthy(OptGet(step, "isCompleted"))
    ensures r.Some? && !Truthy(OptGet(step, "isCompleted")) ==> r.value.isCompleted == Bool(false)
    ensures r.Some? && !Truthy(OptGet(step, "isActive")) ==> r.value.isActive == Bool(false)
    ensures r.Some? && Truthy(OptGet(step, "isActive")) ==> r.value.isActive == OptGet(step, "isActive")
    ensures r.Some? && Truthy(OptGet(step, "isCompleted")) ==> r.value.isCompleted == OptGet(step, "isCompleted")
    ensures r.Some? && !Truthy(OptGet(step, "text")) ==> r.value.text == Str("")
    ensures r.Some? && Truthy(OptGet(step, "text")) ==> r.value.text == OptGet(step, "text")
    ensures r.Some? ==> Truthy(r.value.extraInfo) == (Truthy(OptGet(step, "info")) || Truthy(OptGet(step, "extraInfo")))
    ensures r.Some? && Truthy(OptGet(step, "info")) ==> r.value.extraInfo == OptGet(step, "info")
    ensures r.Some? && !Truthy(OptGet(step, "info")) ==> r.value.extraInfo == OptGet(step, "extraInfo")
  {
    if step == Null || step == Undefined then None
    else
      Some(ProgressStep(
        Or(OptGet(step, "text"), Str("")),
        Or(OptGet(step, "isActive"), Bool(false)),
        Or(OptGet(step, "isCompleted"), Bool(false)),
        Or(OptGet(step, "info"), OptGet(step, "extraInfo"))))
  }

  /** `steps.map(...)`: fails as soon as one element fails. */
  function StepsOf(items: seq<Js>): (r: Option<seq<ProgressStep>>)
    ensures r.None? <==> exists i :: 0 <= i < |items| && StepOf(items[i]).None?
    ensures r.Some? ==> |r.value| == |items| && forall i :: 0 <= i < |items| ==> StepOf(items[i]) == Some(r.value[i])
  {
    if items == [] then Some([])
    else
      var head := StepOf(items[0]);
      var tail := StepsOf(items[1..]);
      if head.None? || tail.None? then
        assert head.None? ==> StepOf(items[0]).None?;
        assert tail.None? ==> exists i :: 0 <= i < |items[1..]| && StepOf(items[1..][i]).None?;
        None
      else Some([head.value] + tail.value)
  }

  /** `parseSSENode`; None stands for `null`, whether returned or caught. */
  function ParseSSENode(data: Js): (r: Option<Node>)
    ensures !Truthy(data) ==> r.None?
    ensures Truthy(data) && IsNodeChunk(data) && (NodeName(data) == Str("STREAM") || NodeName(data) == Str("SEARCH_REASONING")) ==>
      r == Some(Stream(if Truthy(Payload(data)) then Payload(data) else Str("")))
    ensures Truthy(data) && IsNodeChunk(data) && NodeName(data) == Str("SEARCH_STEPS") && !Or(Payload(data), Arr([])).Arr? ==>
      r == Some(Steps([]))
    ensures Truthy(data) && !IsNodeChunk(data) ==>
      (r.Some? <==> Truthy(OptGet(data, "content")) || Truthy(OptGet(data, "text")) || Truthy(OptGet(data, "chunk")))
    ensures r.Some? && r.value.Stream? ==> Truthy(r.value.content) || (IsNodeChunk(data) && r.value.content == Str(""))
    ensures Truthy(data) && IsNodeChunk(data) && NodeName(data) == Str("SEARCH_STEPS") && Or(Payload(data), Arr([])).Arr? ==>
      var items := Or(Payload(data), Arr([])).items;
      && (r.Some? <==> StepsOf(items).Some?)
      && (r.Some? ==> r.value == Steps(StepsOf(items).value))
    ensures Truthy(data) && IsNodeChunk(data) && NodeName(data) == Str("SUGGEST") ==>
      r == Some(Suggest(Or(Payload(data), Arr([]))))
    ensures Truthy(data) && !IsNodeChunk(data) && r.Some? ==>
      r.value == Stream(Or(OptGet(data, "content"), Or(OptGet(data, "text"), OptGet(data, "chunk"))))
  {
    if !Truthy(data) then None
    else if IsNodeChunk(data) then
      var name := NodeName(data);
      var payload := Payload(data);
      if name == Str("STREAM") || name == Str("SEARCH_REASONING") then Some(Stream(Or(payload, Str(""))))
      else if name == Str("SEARCH_STEPS") then
        var steps := Or(payload, Arr([]));
        if !steps.Arr? then Some(Steps([]))
        else
          var mapped := StepsOf(steps.items);
          if mapped.Some? then Some(Steps(mapped.value)) else None
      else if name == Str("SUGGEST") then Some(Suggest(Or(payload, Arr([]))))
      else None
    else
      var fallback := Or(OptGet(data, "content"), Or(OptGet(data, "text"), OptGet(data, "chunk")));
      if Truthy(fallback) then Some(Stream(fallback)) else None
  }

  /** Exactly these inputs yield no node: falsy data, a node chunk with an unknown name, a
      step list holding null or undefined, and a value that is no node chunk and has no
      truthy `content`, `text` or `chunk`. */
  lemma NoNodeCases(data: Js)
    ensures ParseSSENode(data).None? <==>
      || !Truthy(data)
      || (IsNodeChunk(data) && NodeName(data) !in {Str("STREAM"), Str("SEARCH_REASONING"), Str("SEARCH_STEPS"), Str("SUGGEST")})
      || (IsNodeChunk(data) && NodeName(data) == Str("SEARCH_STEPS") && Or(Payload(data), Arr([])).Arr?
          && exists i :: 0 <= i < |Or(Payload(data), Arr([])).items| && Or(Payload(data), Arr([])).items[i] in {Null, Undefined})
      || (!IsNodeChunk(data) && !Truthy(OptGet(data, "content")) && !Truthy(OptGet(data, "text")) && !Truthy(OptGet(data, "chunk")))
  {
  }

  /** A step list node keeps the list's length and order, each step is the element read
      as `StepOf` reads it, and a step counts as completed exactly when its own flag is
      the boolean `true`. */
  lemma StepsNodeFollowsList(data: Js)
    requires Truthy(data) && IsNodeChunk(data) && NodeName(data) == Str("SEARCH_STEPS")
    requires Payload(data).Arr? && ParseSSENode(data).Some?
    ensures ParseSSENode(data).value.Steps?
    ensures |ParseSSENode(data).value.steps| == |Payload(data).items|
    ensures forall i :: 0 <= i < |Payload(data).items| ==> StepOf(Payload(data).items[i]) == Some(ParseSSENode(data).value.steps[i])
    ensures forall i :: 0 <= i < |Payload(data).items| ==>
      (IsCompleted(ParseSSENode(data).value.steps[i]) <==> OptGet(Payload(data).items[i], "isCompleted") == Bool(true))
  {
    var items := Payload(data).items;
    var steps := ParseSSENode(data).value.steps;
    forall i | 0 <= i < |items|
      ensures IsCompleted(steps[i]) <==> OptGet(items[i], "isCompleted") == Bool(true)
    {
      assert StepOf(items[i]) == Some(steps[i]);
    }
  }

  /** A STREAM node chunk as the server sends it, `{"type": "NodeChunk", "content":
      {"nodeName": "STREAM", "content": "hi"}}`, is the text "hi". */
  lemma StreamChunkExample()
    ensures ParseSSENode(Obj(map["type" := Str("NodeChunk"),
                                 "content" := Obj(map["nodeName" := Str("STREAM"), "content" := Str("hi")])]))
      == Some(Stream(Str("hi")))
  {
    var inner := Obj(map["nodeName" := Str("STREAM"), "content" := Str("hi")]);
    var data := Obj(map["type" := Str("NodeChunk"), "content" := inner]);
    assert OptGet(data, "type") == Str("NodeChunk") && OptGet(data, "content") == inner;
    assert NodeName(data) == Str("STREAM") && Payload(data) == Str("hi");
  }
}
