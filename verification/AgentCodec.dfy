/** A concrete message codec with the properties the loop relies on, so that
    what is proved of faithful codecs is proved of something. */
module AgentCodec {
  import opened Results
  import opened Json
  import opened Bags
  import opened LegacyHistory
  import opened AgentMessages

  function Tagged(tag: string, a: Json, b: Json): Json {
    Obj(map["type" := Str(tag), "call" := a, "value" := b])
  }

  function Part(item: Json, key: string): Json {
    if item.Obj? && key in item.fields then item.fields[key] else Null
  }

  function EncodeId(id: CallId): Json {
    match id
    case Wire(c) => Arr([Str(c)])
    case Dual(i, c) => Arr([Str(i), Str(c)])
    case Local(h) => Str(h)
  }

  function DecodeId(v: Json): Option<CallId> {
    if v.Str? then Some(Local(v.s))
    else if v.Arr? && |v.items| == 1 && v.items[0].Str? then Some(Wire(v.items[0].s))
    else if v.Arr? && |v.items| == 2 && v.items[0].Str? && v.items[1].Str? then Some(Dual(v.items[0].s, v.items[1].s))
    else None
  }

  function EncodeUser(c: UserContent): Json {
    match c
    case Prompt(text) => Tagged("text", Null, Str(text))
    case Answer(ToolResult(call, name, text)) => Tagged("toolresult", EncodeId(call), Arr([Str(name), Str(text)]))
  }

  function DecodeUser(item: Json): Option<UserContent> {
    var id, value := DecodeId(Part(item, "call")), Part(item, "value");
    if value.Str? then Some(Prompt(value.s))
    else if id.Some? && value.Arr? && |value.items| == 2 && value.items[0].Str? && value.items[1].Str? then
      Some(Answer(ToolResult(id.value, value.items[0].s, value.items[1].s)))
    else None
  }

  function EncodeAssistant(c: AssistantContent): Json {
    match c
    case Text(text) => Tagged("text", Null, Str(text))
    case Calling(ToolCall(id, name, arguments)) => Tagged("toolcall", EncodeId(id), Arr([Str(name), arguments]))
    case Opaque(v) => Tagged("opaque", Null, Arr([v]))
  }

  function DecodeAssistant(item: Json): Option<AssistantContent> {
    var id, value := DecodeId(Part(item, "call")), Part(item, "value");
    if value.Str? then Some(Text(value.s))
    else if value.Arr? && |value.items| == 1 then Some(Opaque(value.items[0]))
    else if id.Some? && value.Arr? && |value.items| == 2 && value.items[0].Str? then
      Some(Calling(ToolCall(id.value, value.items[0].s, value.items[1])))
    else None
  }

  function All<T>(decode: Json -> Option<T>, items: seq<Json>): Option<seq<T>> {
    if items == [] then Some([])
    else
      var rest, last := All(decode, items[..|items| - 1]), decode(items[|items| - 1]);
      if rest.Some? && last.Some? then Some(rest.value + [last.value]) else None
  }

  lemma {:induction false} MapThenAll<T>(encode: T -> Json, decode: Json -> Option<T>, s: seq<T>)
    requires forall i :: 0 <= i < |s| ==> decode(encode(s[i])) == Some(s[i])
    ensures All(decode, Map(encode, s)) == Some(s)
    decreases |s|
  {
    if s != [] {
      MapThenAll(encode, decode, s[..|s| - 1]);
      assert s == s[..|s| - 1] + [s[|s| - 1]];
      assert Map(encode, s)[..|s| - 1] == Map(encode, s[..|s| - 1]);
    }
  }

  function MessageJson(role: string, id: Json, items: seq<Json>): Json {
    Obj(map["role" := Str(role), "id" := id, "content" := Arr(items)])
  }

  function Encode(m: Message): Json {
    match m
    case User(answers) => MessageJson("user", Null, Map(EncodeUser, answers))
    case Assistant(id, content) =>
      MessageJson("assistant", if id.Some? then Str(id.value) else Null, Map(EncodeAssistant, content))
  }

  function Decode(v: Json): Option<Message> {
    if Content(v).None? then None
    else if Role(v) == Some("user") then
      var answers := All(DecodeUser, Content(v).value);
      if answers.Some? then Some(User(answers.value)) else None
    else if Role(v) == Some("assistant") then
      var content := All(DecodeAssistant, Content(v).value);
      if content.Some? then Some(Assistant(AsStr(Get(v, "id")), content.value)) else None
    else None
  }

  lemma MessageParts(role: string, id: Json, items: seq<Json>)
    ensures var v := MessageJson(role, id, items);
      Role(v) == Some(role) && Content(v) == Some(items) && Get(v, "id") == Some(id)
  {}

  lemma ItemsAreCurrent(tag: string, a: Json, b: Json)
    ensures var item := Tagged(tag, a, b);
      !IsLegacyItem(item) && !IsLegacyResult(item) && Part(item, "call") == a && Part(item, "value") == b
  {}

  lemma RoundTrip(m: Message)
    ensures Decode(Encode(m)) == Some(m) && IsCurrent(Encode(m))
  {
    hide Tagged, MessageJson, Part, IsLegacyItem, IsLegacyResult, Role, Content, Get;
    match m
    case User(answers) =>
      MessageParts("user", Null, Map(EncodeUser, answers));
      forall i | 0 <= i < |answers|
        ensures DecodeUser(EncodeUser(answers[i])) == Some(answers[i]) && !IsLegacyResult(EncodeUser(answers[i]))
      {
        match answers[i]
        case Prompt(text) => ItemsAreCurrent("text", Null, Str(text));
        case Answer(ToolResult(call, name, text)) =>
          ItemsAreCurrent("toolresult", EncodeId(call), Arr([Str(name), Str(text)]));
      }
      MapThenAll(EncodeUser, DecodeUser, answers);
    case Assistant(id, content) =>
      MessageParts("assistant", if id.Some? then Str(id.value) else Null, Map(EncodeAssistant, content));
      forall i | 0 <= i < |content|
        ensures DecodeAssistant(EncodeAssistant(content[i])) == Some(content[i]) &&
          !IsLegacyItem(EncodeAssistant(content[i]))
      {
        match content[i]
        case Text(text) => ItemsAreCurrent("text", Null, Str(text));
        case Calling(ToolCall(cid, name, arguments)) =>
          ItemsAreCurrent("toolcall", EncodeId(cid), Arr([Str(name), arguments]));
        case Opaque(v) => ItemsAreCurrent("opaque", Null, Arr([v]));
      }
      MapThenAll(EncodeAssistant, DecodeAssistant, content);
  }

  lemma FaithfulCodecExists()
    ensures Codec(Encode, Decode).Faithful()
  {
    forall m: Message ensures Decode(Encode(m)) == Some(m) && IsCurrent(Encode(m)) {
      RoundTrip(m);
    }
  }
}
