/** The messages of an agent conversation and their saved form. The message
    library's own serialisation is a parameter with the two properties the loop
    relies on. */
module AgentMessages {
  import opened Results
  import opened Json
  import opened LegacyHistory

  datatype ToolCall = ToolCall(id: CallId, name: string, arguments: Json)

  datatype ToolResult = ToolResult(call: CallId, name: string, text: string)

  datatype AssistantContent = Text(text: string) | Calling(call: ToolCall) | Opaque(value: Json)

  datatype UserContent = Prompt(text: string) | Answer(result: ToolResult)

  datatype Message =
    | User(answers: seq<UserContent>)
    | Assistant(id: Option<string>, content: seq<AssistantContent>)

  /** The id the provider issued, or the minted handle when it issued none. */
  function WireId(id: CallId): string {
    match id
    case Wire(c) => c
    case Dual(_, c) => c
    case Local(h) => h
  }

  function ItemId(id: CallId): Option<string> {
    if id.Dual? then Some(id.itemId) else None
  }

  // ---- The saved form ------------------------------------------------------------

  datatype Codec = Codec(encode: Message -> Json, decode: Json -> Option<Message>)
  {
    /** Every message parses back to itself and is written in the current schema. */
    ghost predicate Faithful() {
      forall m :: decode(encode(m)) == Some(m) && IsCurrent(encode(m))
    }
  }

  /** The saved conversation as messages; one that does not parse is skipped. */
  function ParseHistory(codec: Codec, saved: seq<Json>): seq<Message> {
    if saved == [] then []
    else
      var last := codec.decode(saved[|saved| - 1]);
      ParseHistory(codec, saved[..|saved| - 1]) + if last.Some? then [last.value] else []
  }

  function EncodeAll(codec: Codec, ms: seq<Message>): seq<Json> {
    seq(|ms|, i requires 0 <= i < |ms| => codec.encode(ms[i]))
  }

  lemma EncodePush(codec: Codec, ms: seq<Message>, m: Message)
    ensures EncodeAll(codec, ms + [m]) == EncodeAll(codec, ms) + [codec.encode(m)]
  {}

  lemma EncodeConcat(codec: Codec, a: seq<Message>, b: seq<Message>)
    ensures EncodeAll(codec, a + b) == EncodeAll(codec, a) + EncodeAll(codec, b)
  {}

  /** What the loop appends is what it reads back. */
  lemma {:induction false} ParseAppended(codec: Codec, saved: seq<Json>, ms: seq<Message>)
    requires codec.Faithful()
    ensures ParseHistory(codec, saved + EncodeAll(codec, ms)) == ParseHistory(codec, saved) + ms
    decreases |ms|
  {
    if ms == [] {
      assert saved + EncodeAll(codec, ms) == saved;
    } else {
      var init, last := ms[..|ms| - 1], ms[|ms| - 1];
      assert ms == init + [last];
      EncodePush(codec, init, last);
      var all := saved + EncodeAll(codec, ms);
      assert all[..|all| - 1] == saved + EncodeAll(codec, init);
      assert all[|all| - 1] == codec.encode(last) && codec.decode(codec.encode(last)) == Some(last);
      ParseAppended(codec, saved, init);
    }
  }

  // ---- Finding the call a saved handle stands for ------------------------------------

  predicate Matches(call: ToolCall, handle: string) {
    WireId(call.id) == handle || ItemId(call.id) == Some(handle)
  }

  /** A call saved under a legacy `id` or `call_id` is found under exactly those once it is lifted. */
  lemma LegacyHandlesStillMatch(id: Option<string>, callId: Option<string>, minted: string, name: string,
                                arguments: Json, handle: string)
    requires id.Some? || callId.Some?
    ensures Matches(ToolCall(LegacyCallId(id, callId, minted), name, arguments), handle)
            <==> id == Some(handle) || callId == Some(handle)
    ensures WireId(LegacyCallId(id, callId, minted)) == if callId.Some? then callId.value else id.value
  {}

  function CallsOf(content: seq<AssistantContent>): seq<ToolCall> {
    if content == [] then []
    else (if content[0].Calling? then [content[0].call] else []) + CallsOf(content[1..])
  }

  function FirstMatch(calls: seq<ToolCall>, handle: string): Option<ToolCall> {
    if calls == [] then None
    else if Matches(calls[0], handle) then Some(calls[0])
    else FirstMatch(calls[1..], handle)
  }

  /** Latest message first; within a message, in order. */
  function FindCall(history: seq<Message>, handle: string): Option<ToolCall> {
    if history == [] then None
    else
      var last := history[|history| - 1];
      var here := if last.Assistant? then FirstMatch(CallsOf(last.content), handle) else None;
      if here.Some? then here else FindCall(history[..|history| - 1], handle)
  }

  function ResultFor(call: ToolCall, text: string): ToolResult {
    ToolResult(call.id, call.name, text)
  }

  function ResumedToolResult(history: seq<Message>, handle: string, text: string): ToolResult {
    match FindCall(history, handle)
    case Some(call) => ResultFor(call, text)
    case None => ToolResult(Wire(handle), UNKNOWN_TOOL_NAME, text)
  }

  /** Some assistant message of the history holds `call`, and it answers to the handle. */
  ghost predicate CallIsAt(history: seq<Message>, i: nat, call: ToolCall, handle: string) {
    i < |history| && history[i].Assistant? && call in CallsOf(history[i].content) && Matches(call, handle)
  }

  lemma {:induction false} FirstMatchIff(calls: seq<ToolCall>, handle: string)
    ensures FirstMatch(calls, handle).None? <==> forall c :: c in calls ==> !Matches(c, handle)
    ensures FirstMatch(calls, handle).Some? ==>
      FirstMatch(calls, handle).value in calls && Matches(FirstMatch(calls, handle).value, handle)
    decreases |calls|
  {
    hide Matches;
    if calls != [] {
      FirstMatchIff(calls[1..], handle);
      assert calls == [calls[0]] + calls[1..];
    }
  }

  /** A handle finds a call of the latest message that has one answering to it, and nothing when there is none. */
  lemma {:induction false} FindsInTheLatest(history: seq<Message>, handle: string)
    ensures FindCall(history, handle).None? <==> forall i: nat, c :: !CallIsAt(history, i, c, handle)
    ensures FindCall(history, handle).Some? ==>
      exists i: nat :: CallIsAt(history, i, FindCall(history, handle).value, handle)
                  && forall k: nat, c :: i < k ==> !CallIsAt(history, k, c, handle)
    decreases |history|
  {
    hide Matches, CallsOf, FirstMatch;
    if history != [] {
      var n := |history| - 1;
      var init, last := history[..n], history[n];
      FindsInTheLatest(init, handle);
      forall i: nat, c ensures CallIsAt(init, i, c, handle) <==> i < n && CallIsAt(history, i, c, handle) {}
      if last.Assistant? { FirstMatchIff(CallsOf(last.content), handle); }
      var found := FindCall(history, handle);
      if last.Assistant? && FirstMatch(CallsOf(last.content), handle).Some? {
        assert CallIsAt(history, n, found.value, handle);
      } else if found.Some? {
        var i: nat :| CallIsAt(init, i, found.value, handle)
                      && forall k: nat, c :: i < k ==> !CallIsAt(init, k, c, handle);
        assert CallIsAt(history, i, found.value, handle);
      }
    }
  }

  /** A result whose handle finds no call keeps the handle as the provider's id, under a placeholder tool. */
  lemma UnmatchedResult(history: seq<Message>, handle: string, text: string)
    requires forall i: nat, c :: !CallIsAt(history, i, c, handle)
    ensures ResumedToolResult(history, handle, text) == ToolResult(Wire(handle), "unknown_tool", text)
  {
    FindsInTheLatest(history, handle);
  }
}
