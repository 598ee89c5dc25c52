/** Lifting a conversation saved by rig-core 0.36 into the current message
    schema, in place. */
module LegacyHistory {
  import opened Results
  import opened Json

  /** How a tool call is identified: the provider's correlator, the provider's item id beside
      it, or a handle minted locally. */
  datatype CallId = Wire(callId: string) | Dual(itemId: string, callId: string) | Local(handle: string)

  const UNKNOWN_TOOL_NAME := "unknown_tool"

  /** What one upgrade takes from its surroundings: the provider that reasoning is sealed to, the
      serialised form of a call id, and the handle minted for the item at each position. */
  datatype Lift = Lift(issuer: string, encode: CallId -> Json, mint: (nat, nat) -> string)

  function Role(message: Json): Option<string> {
    AsStr(Get(message, "role"))
  }

  function Content(message: Json): Option<seq<Json>> {
    match Get(message, "content")
    case Some(Arr(items)) => Some(items)
    case _ => None
  }

  function WithContent(message: Json, items: seq<Json>): Json
    requires message.Obj?
  {
    Obj(message.fields["content" := Arr(items)])
  }

  function NonEmptyStr(item: map<string, Json>, key: string): Option<string> {
    var s := AsStr(Get(Obj(item), key));
    if s.Some? && s.value != "" then s else None
  }

  function LegacyCallId(id: Option<string>, callId: Option<string>, minted: string): CallId {
    match (id, callId)
    case (Some(i), Some(c)) => if i != c then Dual(i, c) else Wire(c)
    case (None, Some(c)) => Wire(c)
    case (Some(i), None) => Wire(i)
    case (None, None) => Local(minted)
  }

  // ---- Legacy tool calls -------------------------------------------------------

  /** A legacy tool call: where it is, the ids it was saved under, its current id and its tool. */
  datatype Call = Call(message: nat, index: nat, id: Option<string>, callId: Option<string>, current: Json, name: Json)
  {
    predicate HasKey(key: string) {
      id == Some(key) || callId == Some(key)
    }
  }

  predicate IsLegacyItem(item: Json) {
    item.Obj? && "type" !in item.fields
  }

  predicate IsLegacyCall(item: Json) {
    IsLegacyItem(item) && "function" in item.fields
  }

  predicate IsLegacyResult(item: Json) {
    item.Obj? && AsStr(Get(item, "type")) == Some("toolresult") && "call" !in item.fields
  }

  function FunctionName(item: map<string, Json>): Json {
    match Get(Obj(item), "function")
    case Some(f) => (match Get(f, "name") case Some(n) => n case None => Null)
    case None => Null
  }

  function CallOf(item: map<string, Json>, i: nat, j: nat, lift: Lift): Call {
    var id, callId := NonEmptyStr(item, "id"), NonEmptyStr(item, "call_id");
    Call(i, j, id, callId, lift.encode(LegacyCallId(id, callId, lift.mint(i, j))), FunctionName(item))
  }

  /** The legacy calls among the first `j` items of message `i`, in order. */
  ghost function ItemCalls(items: seq<Json>, i: nat, j: nat, lift: Lift): seq<Call>
    requires j <= |items|
  {
    if j == 0 then []
    else ItemCalls(items, i, j - 1, lift)
         + if IsLegacyCall(items[j - 1]) then [CallOf(items[j - 1].fields, i, j - 1, lift)] else []
  }

  ghost function MessageCalls(message: Json, i: nat, lift: Lift): seq<Call> {
    if Role(message) == Some("assistant") && Content(message).Some?
    then ItemCalls(Content(message).value, i, |Content(message).value|, lift)
    else []
  }

  /** The legacy calls of the first `i` messages, in order. */
  ghost function Calls(ms: seq<Json>, i: nat, lift: Lift): seq<Call>
    requires i <= |ms|
  {
    if i == 0 then [] else Calls(ms, i - 1, lift) + MessageCalls(ms[i - 1], i - 1, lift)
  }

  /** The first call saved under `key`. */
  ghost function Find(calls: seq<Call>, key: string): Option<Call> {
    if calls == [] then None
    else if Find(calls[..|calls| - 1], key).Some? then Find(calls[..|calls| - 1], key)
    else if calls[|calls| - 1].HasKey(key) then Some(calls[|calls| - 1])
    else None
  }

  // ---- The lifted form of one item ------------------------------------------------

  function LiftAssistantItem(item: map<string, Json>, i: nat, j: nat, lift: Lift): map<string, Json> {
    if "function" in item then
      (item - {"call_id"})["id" := CallOf(item, i, j, lift).current]["type" := Str("toolcall")]
    else if "content" in item && item["content"].Arr? then
      item["issuer" := Str(lift.issuer)]["type" := Str("reasoning")]
    else if "data" in item then item["type" := Str("image")]
    else if "text" in item then item["type" := Str("text")]
    else item
  }

  function AssistantItem(item: Json, i: nat, j: nat, lift: Lift): Json {
    if IsLegacyItem(item) then Obj(LiftAssistantItem(item.fields, i, j, lift)) else item
  }

  /** The call a legacy result answers: found by its `id`, then by its `call_id`. */
  ghost function Answered(item: map<string, Json>, calls: seq<Call>): Option<Call> {
    var id, callId := NonEmptyStr(item, "id"), NonEmptyStr(item, "call_id");
    if id.Some? && Find(calls, id.value).Some? then Find(calls, id.value)
    else if callId.Some? then Find(calls, callId.value)
    else None
  }

  ghost function LiftResult(item: map<string, Json>, i: nat, j: nat, calls: seq<Call>, lift: Lift): map<string, Json> {
    var known := Answered(item, calls);
    var orphan := LegacyCallId(NonEmptyStr(item, "id"), NonEmptyStr(item, "call_id"), lift.mint(i, j));
    var call := if known.Some? then known.value.current else lift.encode(orphan);
    var name := if known.Some? then known.value.name else Str(UNKNOWN_TOOL_NAME);
    (item - {"id", "call_id"})["call" := call]["name" := name]
  }

  ghost function UserItem(item: Json, i: nat, j: nat, calls: seq<Call>, lift: Lift): Json {
    if IsLegacyResult(item) then Obj(LiftResult(item.fields, i, j, calls, lift)) else item
  }

  // ---- The lifted form of a conversation -----------------------------------------------

  ghost function LiftedItem(message: Json, item: Json, i: nat, j: nat, calls: seq<Call>, lift: Lift): Json {
    if Role(message) == Some("assistant") then AssistantItem(item, i, j, lift)
    else if Role(message) == Some("user") then UserItem(item, i, j, calls, lift)
    else item
  }

  ghost function LiftedItems(message: Json, items: seq<Json>, i: nat, calls: seq<Call>, lift: Lift): seq<Json> {
    seq(|items|, j requires 0 <= j < |items| => LiftedItem(message, items[j], i, j, calls, lift))
  }

  ghost function LiftedMessage(message: Json, i: nat, calls: seq<Call>, lift: Lift): Json {
    if message.Obj? && Content(message).Some?
    then WithContent(message, LiftedItems(message, Content(message).value, i, calls, lift))
    else message
  }

  ghost function Lifted(ms: seq<Json>, lift: Lift): seq<Json> {
    seq(|ms|, i requires 0 <= i < |ms| => LiftedMessage(ms[i], i, Calls(ms, |ms|, lift), lift))
  }

  // ---- Upgrading in place ----------------------------------------------------------------

  type Index = map<string, (Json, Json)>

  /** `index` answers every key as the first call saved under it. */
  ghost predicate Indexes(index: Index, calls: seq<Call>) {
    forall key :: (key in index <==> Find(calls, key).Some?)
                  && (key in index ==> index[key] == (Find(calls, key).value.current, Find(calls, key).value.name))
  }

  /** Files a call under the ids it was saved with; an id that already answers for an earlier call keeps doing so. */
  method RegisterCall(call: Call, index: Index, ghost calls: seq<Call>) returns (index': Index)
    requires Indexes(index, calls)
    ensures Indexes(index', calls + [call])
  {
    var keys := [call.id, call.callId];
    index' := index;
    for k := 0 to |keys|
      invariant forall key :: key in index' <==> key in index || Some(key) in keys[..k]
      invariant forall key :: key in index' ==>
        index'[key] == if key in index then index[key] else (call.current, call.name)
    {
      if keys[k].Some? && keys[k].value !in index' {
        index' := index'[keys[k].value := (call.current, call.name)];
      }
    }
    assert keys[..|keys|] == keys && forall key :: Some(key) in keys <==> call.HasKey(key);
    assert (calls + [call])[..|calls|] == calls;
  }

  method UpgradeAssistantItem(item: map<string, Json>, i: nat, j: nat, lift: Lift, index: Index, ghost calls: seq<Call>)
    returns (item': map<string, Json>, index': Index)
    requires "type" !in item && Indexes(index, calls)
    ensures item' == LiftAssistantItem(item, i, j, lift)
    ensures Indexes(index', calls + if "function" in item then [CallOf(item, i, j, lift)] else [])
  {
    hide CallOf;
    item', index' := item, index;
    if "function" in item {
      var call := CallOf(item, i, j, lift);
      index' := RegisterCall(call, index', calls);
      item' := item' - {"call_id"};
      item' := item'["id" := call.current];
      item' := item'["type" := Str("toolcall")];
    } else {
      assert calls + [] == calls;
      if "content" in item && item["content"].Arr? {
        item' := item'["issuer" := Str(lift.issuer)];
        item' := item'["type" := Str("reasoning")];
      } else if "data" in item {
        item' := item'["type" := Str("image")];
      } else if "text" in item {
        item' := item'["type" := Str("text")];
      }
    }
  }

  method UpgradeToolResult(item: map<string, Json>, i: nat, j: nat, lift: Lift, index: Index, ghost calls: seq<Call>)
    returns (item': map<string, Json>)
    requires Indexes(index, calls)
    ensures item' == LiftResult(item, i, j, calls, lift)
  {
    var id, callId := NonEmptyStr(item, "id"), NonEmptyStr(item, "call_id");
    var known := if id.Some? && id.value in index then Some(index[id.value])
                 else if callId.Some? && callId.value in index then Some(index[callId.value])
                 else None;
    var entry := if known.Some? then known.value
                 else (lift.encode(LegacyCallId(id, callId, lift.mint(i, j))), Str(UNKNOWN_TOOL_NAME));
    item' := item - {"id"};
    item' := item' - {"call_id"};
    item' := item'["call" := entry.0];
    item' := item'["name" := entry.1];
    assert item - {"id"} - {"call_id"} == item - {"id", "call_id"};
  }

  method UpgradeAssistant(message: Json, i: nat, lift: Lift, index: Index, ghost calls: seq<Call>)
    returns (message': Json, index': Index)
    requires Role(message) == Some("assistant") && Indexes(index, calls)
    ensures message' == LiftedMessage(message, i, [], lift)
    ensures Indexes(index', calls + MessageCalls(message, i, lift))
  {
    hide Indexes, CallOf, LiftAssistantItem;
    message', index' := message, index;
    if Content(message).None? {
      assert calls + [] == calls;
      return;
    }
    var items := Content(message).value;
    var items' := items;
    assert calls + [] == calls;
    for j := 0 to |items|
      invariant |items'| == |items|
      invariant forall k :: 0 <= k < j ==> items'[k] == AssistantItem(items[k], i, k, lift)
      invariant forall k :: j <= k < |items| ==> items'[k] == items[k]
      invariant Indexes(index', calls + ItemCalls(items, i, j, lift))
    {
      ghost var before := calls + ItemCalls(items, i, j, lift);
      if IsLegacyItem(items[j]) {
        var item';
        item', index' := UpgradeAssistantItem(items[j].fields, i, j, lift, index', before);
        items' := items'[j := Obj(item')];
      } else {
        assert before + [] == before;
      }
      assert calls + ItemCalls(items, i, j + 1, lift)
          == before + if IsLegacyCall(items[j]) then [CallOf(items[j].fields, i, j, lift)] else [];
    }
    message' := WithContent(message, items');
    assert items' == LiftedItems(message, items, i, [], lift);
  }

  method UpgradeUser(message: Json, i: nat, lift: Lift, index: Index, ghost calls: seq<Call>)
    returns (message': Json)
    requires Role(message) == Some("user") && Indexes(index, calls)
    ensures message' == LiftedMessage(message, i, calls, lift)
  {
    if Content(message).None? {
      return message;
    }
    var items := Content(message).value;
    var items' := items;
    for j := 0 to |items|
      invariant |items'| == |items|
      invariant forall k :: 0 <= k < j ==> items'[k] == UserItem(items[k], i, k, calls, lift)
      invariant forall k :: j <= k < |items| ==> items'[k] == items[k]
    {
      if IsLegacyResult(items[j]) {
        var item' := UpgradeToolResult(items[j].fields, i, j, lift, index, calls);
        items' := items'[j := Obj(item')];
      }
    }
    message' := WithContent(message, items');
    assert items' == LiftedItems(message, items, i, calls, lift);
  }

  /** The collected calls matter to user messages only. */
  lemma AssistantIgnoresCalls(message: Json, i: nat, calls: seq<Call>, calls': seq<Call>, lift: Lift)
    requires Role(message) == Some("assistant")
    ensures LiftedMessage(message, i, calls, lift) == LiftedMessage(message, i, calls', lift)
  {
    if message.Obj? && Content(message).Some? {
      assert LiftedItems(message, Content(message).value, i, calls, lift)
          == LiftedItems(message, Content(message).value, i, calls', lift);
    }
  }

  lemma OtherRolesUntouched(message: Json, i: nat, calls: seq<Call>, lift: Lift)
    requires Role(message) != Some("assistant") && Role(message) != Some("user")
    ensures LiftedMessage(message, i, calls, lift) == message
  {
    if message.Obj? && Content(message).Some? {
      assert LiftedItems(message, Content(message).value, i, calls, lift) == Content(message).value;
      assert message.fields["content" := message.fields["content"]] == message.fields;
    }
  }

  /** Two passes over the conversation: assistant turns first, collecting their calls, then the
      tool results that answer them. */
  method Upgrade(messages: array<Json>, lift: Lift)
    modifies messages
    ensures messages[..] == Lifted(old(messages[..]), lift)
  {
    ghost var ms := messages[..];
    var index := UpgradeAssistants(messages, lift);
    ghost var calls := Calls(ms, |ms|, lift);
    for i := 0 to messages.Length
      invariant forall k :: 0 <= k < i ==> messages[k] == LiftedMessage(ms[k], k, calls, lift)
      invariant forall k :: i <= k < messages.Length ==> messages[k] == AssistantLifted(ms[k], k, lift)
    {
      LiftKeepsRole(ms[i], i, [], lift);
      if Role(messages[i]) == Some("user") {
        messages[i] := UpgradeUser(messages[i], i, lift, index, calls);
      } else if Role(ms[i]) == Some("assistant") {
        AssistantIgnoresCalls(ms[i], i, [], calls, lift);
      } else {
        OtherRolesUntouched(ms[i], i, calls, lift);
      }
    }
  }

  ghost function AssistantLifted(message: Json, i: nat, lift: Lift): Json {
    if Role(message) == Some("assistant") then LiftedMessage(message, i, [], lift) else message
  }

  lemma NothingIndexed()
    ensures Indexes(map[], [])
  {}

  /** The first pass. */
  method UpgradeAssistants(messages: array<Json>, lift: Lift) returns (index: Index)
    modifies messages
    ensures Indexes(index, Calls(old(messages[..]), messages.Length, lift))
    ensures forall k :: 0 <= k < messages.Length ==> messages[k] == AssistantLifted(old(messages[k]), k, lift)
  {
    hide Indexes, LiftedMessage;
    ghost var ms := messages[..];
    index := map[];
    NothingIndexed();
    for i := 0 to messages.Length
      invariant forall k :: 0 <= k < i ==> messages[k] == AssistantLifted(ms[k], k, lift)
      invariant forall k :: i <= k < messages.Length ==> messages[k] == ms[k]
      invariant Indexes(index, Calls(ms, i, lift))
    {
      if Role(messages[i]) == Some("assistant") {
        messages[i], index := UpgradeAssistant(messages[i], i, lift, index, Calls(ms, i, lift));
      } else {
        assert Calls(ms, i, lift) + [] == Calls(ms, i, lift);
      }
    }
  }

  // ---- What an upgrade keeps -----------------------------------------------------------

  lemma LiftKeepsRole(message: Json, i: nat, calls: seq<Call>, lift: Lift)
    ensures Role(LiftedMessage(message, i, calls, lift)) == Role(message)
  {}

  /** Same messages in the same order, each with its role, its other fields and its number of items. */
  lemma UpgradeKeepsShape(ms: seq<Json>, lift: Lift, i: nat)
    requires i < |ms|
    ensures |Lifted(ms, lift)| == |ms|
    ensures Role(Lifted(ms, lift)[i]) == Role(ms[i])
    ensures Lifted(ms, lift)[i].Obj? <==> ms[i].Obj?
    ensures ms[i].Obj? ==> Lifted(ms, lift)[i].fields - {"content"} == ms[i].fields - {"content"}
    ensures Content(Lifted(ms, lift)[i]).Some? <==> Content(ms[i]).Some?
    ensures Content(ms[i]).Some? ==> |Content(Lifted(ms, lift)[i]).value| == |Content(ms[i]).value|
  {
    LiftKeepsRole(ms[i], i, Calls(ms, |ms|, lift), lift);
  }

  /** What an upgrade may rewrite in an item of a message. */
  const LIFTED_KEYS := {"id", "call_id", "type", "issuer", "call", "name"}

  /** Nothing else in any item is touched, and an item that is not an object not at all. */
  lemma UpgradeKeepsPayload(ms: seq<Json>, lift: Lift, i: nat, j: nat)
    requires i < |ms| && Content(ms[i]).Some? && j < |Content(ms[i]).value|
    ensures Content(Lifted(ms, lift)[i]).Some? && j < |Content(Lifted(ms, lift)[i]).value|
    ensures var item, lifted := Content(ms[i]).value[j], Content(Lifted(ms, lift)[i]).value[j];
      if item.Obj? then lifted.Obj? && lifted.fields - LIFTED_KEYS == item.fields - LIFTED_KEYS else lifted == item
  {
    var item, calls := Content(ms[i]).value[j], Calls(ms, |ms|, lift);
    UpgradeKeepsShape(ms, lift, i);
    hide Calls, CallOf, Answered, LegacyCallId, NonEmptyStr;
    assert Content(Lifted(ms, lift)[i]).value[j] == LiftedItem(ms[i], item, i, j, calls, lift);
  }

  /** Every item already carries what the current schema requires of it. */
  ghost predicate IsCurrent(message: Json) {
    Content(message).Some? ==> forall item :: item in Content(message).value ==>
      && (Role(message) == Some("assistant") ==> !IsLegacyItem(item))
      && (Role(message) == Some("user") ==> !IsLegacyResult(item))
  }

  /** No item of the message is one an upgrade rewrites. */
  ghost predicate IsInert(message: Json) {
    Content(message).Some? ==> forall item :: item in Content(message).value ==>
      && (Role(message) == Some("assistant") && IsLegacyItem(item) ==> !Recognised(item.fields))
      && (Role(message) == Some("user") ==> !IsLegacyResult(item))
  }

  ghost predicate Recognised(item: map<string, Json>) {
    "function" in item || ("content" in item && item["content"].Arr?) || "data" in item || "text" in item
  }

  lemma CurrentIsInert(message: Json)
    requires IsCurrent(message)
    ensures IsInert(message)
  {}

  /** A conversation of inert messages is left alone, under whatever issuer, encoding and minted handles. */
  lemma InertIsUntouched(ms: seq<Json>, lift: Lift)
    requires forall m :: m in ms ==> IsInert(m)
    ensures Lifted(ms, lift) == ms
  {
    var calls := Calls(ms, |ms|, lift);
    forall i | 0 <= i < |ms| ensures LiftedMessage(ms[i], i, calls, lift) == ms[i] {
      assert IsInert(ms[i]);
      if ms[i].Obj? && Content(ms[i]).Some? {
        assert LiftedItems(ms[i], Content(ms[i]).value, i, calls, lift) == Content(ms[i]).value;
        assert ms[i].fields["content" := Arr(Content(ms[i]).value)] == ms[i].fields;
      }
    }
  }

  lemma UpgradeLeavesInert(ms: seq<Json>, lift: Lift)
    ensures forall m :: m in Lifted(ms, lift) ==> IsInert(m)
  {
    forall i | 0 <= i < |ms| ensures IsInert(Lifted(ms, lift)[i]) {
      LiftKeepsRole(ms[i], i, Calls(ms, |ms|, lift), lift);
    }
  }

  /** A second upgrade changes nothing. */
  lemma UpgradeIsIdempotent(ms: seq<Json>, first: Lift, second: Lift)
    ensures Lifted(Lifted(ms, first), second) == Lifted(ms, first)
  {
    UpgradeLeavesInert(ms, first);
    InertIsUntouched(Lifted(ms, first), second);
  }

  // ---- Every result finds the call it answers -----------------------------------------------

  /** `(i, j)` is a legacy call of the conversation. */
  ghost predicate CallAt(ms: seq<Json>, i: nat, j: nat) {
    && i < |ms| && Role(ms[i]) == Some("assistant") && Content(ms[i]).Some?
    && j < |Content(ms[i]).value| && IsLegacyCall(Content(ms[i]).value[j])
  }

  ghost function RecordAt(ms: seq<Json>, i: nat, j: nat, lift: Lift): Call
    requires CallAt(ms, i, j)
  {
    CallOf(Content(ms[i]).value[j].fields, i, j, lift)
  }

  ghost predicate ResultAt(ms: seq<Json>, i: nat, j: nat) {
    && i < |ms| && Role(ms[i]) == Some("user") && Content(ms[i]).Some?
    && j < |Content(ms[i]).value| && IsLegacyResult(Content(ms[i]).value[j])
  }

  /** No id is saved for two calls. */
  ghost predicate UniqueIds(ms: seq<Json>, lift: Lift) {
    forall i, j, i', j', key ::
      CallAt(ms, i, j) && CallAt(ms, i', j') ==>
      RecordAt(ms, i, j, lift).HasKey(key) && RecordAt(ms, i', j', lift).HasKey(key) ==>
      i == i' && j == j'
  }

  lemma {:induction false} ItemCallsAreCalls(ms: seq<Json>, i: nat, j: nat, lift: Lift)
    requires i < |ms| && Role(ms[i]) == Some("assistant") && Content(ms[i]).Some? && j <= |Content(ms[i]).value|
    ensures forall c :: c in ItemCalls(Content(ms[i]).value, i, j, lift) ==>
      CallAt(ms, c.message, c.index) && c == RecordAt(ms, c.message, c.index, lift)
    ensures forall k :: 0 <= k < j && CallAt(ms, i, k) ==>
      RecordAt(ms, i, k, lift) in ItemCalls(Content(ms[i]).value, i, j, lift)
    decreases j
  {
    if j > 0 { ItemCallsAreCalls(ms, i, j - 1, lift); }
  }

  lemma {:induction false} CallsAreCalls(ms: seq<Json>, i: nat, lift: Lift)
    requires i <= |ms|
    ensures forall c :: c in Calls(ms, i, lift) ==>
      CallAt(ms, c.message, c.index) && c == RecordAt(ms, c.message, c.index, lift)
    ensures forall k, j :: 0 <= k < i && CallAt(ms, k, j) ==> RecordAt(ms, k, j, lift) in Calls(ms, i, lift)
    decreases i
  {
    if i > 0 {
      CallsAreCalls(ms, i - 1, lift);
      var m := ms[i - 1];
      if Role(m) == Some("assistant") && Content(m).Some? {
        ItemCallsAreCalls(ms, i - 1, |Content(m).value|, lift);
      }
    }
  }

  lemma {:induction false} FindIsACall(calls: seq<Call>, key: string)
    ensures Find(calls, key).Some? <==> exists c :: c in calls && c.HasKey(key)
    ensures Find(calls, key).Some? ==> Find(calls, key).value in calls && Find(calls, key).value.HasKey(key)
    decreases |calls|
  {
    if calls != [] {
      var init, last := calls[..|calls| - 1], calls[|calls| - 1];
      FindIsACall(init, key);
      assert calls == init + [last];
    }
  }

  /** The id a legacy result is matched by: its `id` when some call was saved under it, otherwise its `call_id`. */
  ghost predicate MatchedBy(ms: seq<Json>, item: map<string, Json>, key: string, lift: Lift) {
    var id, callId := NonEmptyStr(item, "id"), NonEmptyStr(item, "call_id");
    || id == Some(key)
    || (callId == Some(key) && (id.Some? ==> Find(Calls(ms, |ms|, lift), id.value).None?))
  }

  lemma UniqueIdFindsItsCall(ms: seq<Json>, lift: Lift, i: nat, j: nat, key: string)
    requires UniqueIds(ms, lift) && CallAt(ms, i, j) && RecordAt(ms, i, j, lift).HasKey(key)
    ensures Find(Calls(ms, |ms|, lift), key) == Some(RecordAt(ms, i, j, lift))
  {
    var calls := Calls(ms, |ms|, lift);
    CallsAreCalls(ms, |ms|, lift);
    FindIsACall(calls, key);
    assert RecordAt(ms, i, j, lift) in calls;
    var found := Find(calls, key).value;
    assert RecordAt(ms, found.message, found.index, lift).HasKey(key);
  }

  /** With unique ids, an upgraded tool result carries exactly the upgraded call's id and the name of its tool. */
  lemma ResultAnswersItsCall(ms: seq<Json>, lift: Lift, i: nat, j: nat, k: nat, l: nat, key: string)
    requires UniqueIds(ms, lift) && CallAt(ms, i, j) && ResultAt(ms, k, l)
    requires RecordAt(ms, i, j, lift).HasKey(key) && MatchedBy(ms, Content(ms[k]).value[l].fields, key, lift)
    ensures Content(Lifted(ms, lift)[i]).Some? && j < |Content(Lifted(ms, lift)[i]).value|
    ensures Content(Lifted(ms, lift)[k]).Some? && l < |Content(Lifted(ms, lift)[k]).value|
    ensures var call, result := Content(Lifted(ms, lift)[i]).value[j], Content(Lifted(ms, lift)[k]).value[l];
            && Get(result, "call") == Get(call, "id") == Some(RecordAt(ms, i, j, lift).current)
            && Get(result, "name") == Some(FunctionName(call.fields))
  {
    UniqueIdFindsItsCall(ms, lift, i, j, key);
    UpgradeKeepsShape(ms, lift, i);
    UpgradeKeepsShape(ms, lift, k);
    assert Answered(Content(ms[k]).value[l].fields, Calls(ms, |ms|, lift)) == Some(RecordAt(ms, i, j, lift));
  }

  // ---- What each item becomes ---------------------------------------------------------------

  ghost predicate HasType(item: Json, tag: string) {
    item.Obj? && "type" in item.fields && item.fields["type"] == Str(tag)
  }

  /** The non-empty string the item holds under `key` is `text`. */
  ghost predicate Holds(item: map<string, Json>, key: string, text: string) {
    key in item && item[key] == Str(text) && text != ""
  }

  ghost predicate Lacks(item: map<string, Json>, key: string) {
    forall text :: !Holds(item, key, text)
  }

  /** The current id of an item saved under an `id`, a `call_id`, both or neither. */
  ghost predicate IdFor(item: map<string, Json>, minted: string, id: CallId) {
    match id
    case Dual(i, c) => Holds(item, "id", i) && Holds(item, "call_id", c) && i != c
    case Wire(c) =>
      || (Holds(item, "call_id", c) && (Holds(item, "id", c) || Lacks(item, "id")))
      || (Holds(item, "id", c) && Lacks(item, "call_id"))
    case Local(handle) => Lacks(item, "id") && Lacks(item, "call_id") && handle == minted
  }

  lemma HeldIsNonEmptyStr(item: map<string, Json>, key: string)
    ensures forall text :: NonEmptyStr(item, key) == Some(text) <==> Holds(item, key, text)
    ensures NonEmptyStr(item, key).None? <==> Lacks(item, key)
  {
    var s := NonEmptyStr(item, key);
    if s.Some? { assert Holds(item, key, s.value); }
  }

  lemma LegacyCallIdIsFor(item: map<string, Json>, minted: string, id: CallId)
    ensures id == LegacyCallId(NonEmptyStr(item, "id"), NonEmptyStr(item, "call_id"), minted) <==>
      IdFor(item, minted, id)
  {
    HeldIsNonEmptyStr(item, "id");
    HeldIsNonEmptyStr(item, "call_id");
    hide NonEmptyStr;
  }

  /** A message is an object with a role, and with the list of its items as content. */
  lemma MessageHas(m: Json, role: string, items: seq<Json>)
    ensures Role(m) == Some(role) <==> m.Obj? && "role" in m.fields && m.fields["role"] == Str(role)
    ensures Content(m) == Some(items) <==> m.Obj? && "content" in m.fields && m.fields["content"] == Arr(items)
  {}

  /** The tool a call names: the name in its function, or null. */
  lemma NamedTool(item: map<string, Json>, f: map<string, Json>)
    requires "function" in item
    ensures item["function"] == Obj(f) && "name" in f ==> FunctionName(item) == f["name"]
    ensures item["function"] == Obj(f) && "name" !in f ==> FunctionName(item) == Null
    ensures !item["function"].Obj? ==> FunctionName(item) == Null
  {}

  /** A tagless assistant item becomes a tool call if it has a function, otherwise sealed reasoning if its content is an
      array, otherwise an image if it has data, otherwise text if it has text, and otherwise stays. */
  lemma TaggedByShape(ms: seq<Json>, lift: Lift, i: nat, j: nat)
    requires i < |ms| && Role(ms[i]) == Some("assistant") && Content(ms[i]).Some? && j < |Content(ms[i]).value|
    requires Content(ms[i]).value[j].Obj? && "type" !in Content(ms[i]).value[j].fields
    ensures Content(Lifted(ms, lift)[i]).Some? && j < |Content(Lifted(ms, lift)[i]).value|
    ensures var item, lifted := Content(ms[i]).value[j].fields, Content(Lifted(ms, lift)[i]).value[j];
      var listed := "content" in item && item["content"].Arr?;
      && (HasType(lifted, "toolcall") <==> "function" in item)
      && (HasType(lifted, "reasoning") <==> "function" !in item && listed)
      && (HasType(lifted, "image") <==> "function" !in item && !listed && "data" in item)
      && (HasType(lifted, "text") <==> "function" !in item && !listed && "data" !in item && "text" in item)
      && (lifted == Obj(item) <==> "function" !in item && !listed && "data" !in item && "text" !in item)
      && (HasType(lifted, "reasoning") ==> Get(lifted, "issuer") == Some(Str(lift.issuer)))
      && (HasType(lifted, "toolcall") ==> "call_id" !in lifted.fields)
      && (HasType(lifted, "toolcall") ==>
            exists id :: IdFor(item, lift.mint(i, j), id) && Get(lifted, "id") == Some(lift.encode(id)))
  {
    var item, calls := Content(ms[i]).value[j].fields, Calls(ms, |ms|, lift);
    UpgradeKeepsShape(ms, lift, i);
    assert Content(Lifted(ms, lift)[i]).value[j] == LiftedItem(ms[i], Obj(item), i, j, calls, lift);
    var id := LegacyCallId(NonEmptyStr(item, "id"), NonEmptyStr(item, "call_id"), lift.mint(i, j));
    LegacyCallIdIsFor(item, lift.mint(i, j), id);
    hide IdFor, LegacyCallId, NonEmptyStr, Calls, FunctionName;
  }

  /** A legacy result that no call was saved for keeps its own ids under a placeholder tool. */
  lemma OrphanKeepsItsIds(ms: seq<Json>, lift: Lift, k: nat, l: nat)
    requires ResultAt(ms, k, l)
    requires forall i, j, key :: CallAt(ms, i, j) && RecordAt(ms, i, j, lift).HasKey(key) ==>
      !Holds(Content(ms[k]).value[l].fields, "id", key) && !Holds(Content(ms[k]).value[l].fields, "call_id", key)
    ensures Content(Lifted(ms, lift)[k]).Some? && l < |Content(Lifted(ms, lift)[k]).value|
    ensures var item, lifted := Content(ms[k]).value[l].fields, Content(Lifted(ms, lift)[k]).value[l];
      && Get(lifted, "name") == Some(Str("unknown_tool"))
      && lifted.Obj? && "id" !in lifted.fields && "call_id" !in lifted.fields
      && exists id :: IdFor(item, lift.mint(k, l), id) && Get(lifted, "call") == Some(lift.encode(id))
  {
    var item, calls := Content(ms[k]).value[l].fields, Calls(ms, |ms|, lift);
    UpgradeKeepsShape(ms, lift, k);
    NoCallAnswers(ms, lift, item);
    var id := LegacyCallId(NonEmptyStr(item, "id"), NonEmptyStr(item, "call_id"), lift.mint(k, l));
    LegacyCallIdIsFor(item, lift.mint(k, l), id);
    hide IdFor, LegacyCallId, Calls, Answered;
    assert Content(Lifted(ms, lift)[k]).value[l] == LiftedItem(ms[k], Obj(item), k, l, calls, lift);
  }

  lemma NoCallAnswers(ms: seq<Json>, lift: Lift, item: map<string, Json>)
    requires forall i, j, key :: CallAt(ms, i, j) && RecordAt(ms, i, j, lift).HasKey(key) ==>
      !Holds(item, "id", key) && !Holds(item, "call_id", key)
    ensures Answered(item, Calls(ms, |ms|, lift)).None?
  {
    var calls := Calls(ms, |ms|, lift);
    HeldIsNonEmptyStr(item, "id");
    HeldIsNonEmptyStr(item, "call_id");
    CallsAreCalls(ms, |ms|, lift);
    hide NonEmptyStr, Calls, Find, CallAt;
    forall key | Holds(item, "id", key) || Holds(item, "call_id", key) ensures Find(calls, key).None? {
      FindIsACall(calls, key);
    }
  }

  /** Every other item stays: tagged ones, current results, and everything in messages of another role. */
  lemma OtherItemsStay(ms: seq<Json>, lift: Lift, i: nat, j: nat)
    requires i < |ms| && Content(ms[i]).Some? && j < |Content(ms[i]).value|
    requires var item := Content(ms[i]).value[j];
      && !(Role(ms[i]) == Some("assistant") && item.Obj? && "type" !in item.fields)
      && !(Role(ms[i]) == Some("user") && HasType(item, "toolresult") && "call" !in item.fields)
    ensures Content(Lifted(ms, lift)[i]).Some? && j < |Content(Lifted(ms, lift)[i]).value|
    ensures Content(Lifted(ms, lift)[i]).value[j] == Content(ms[i]).value[j]
  {
    UpgradeKeepsShape(ms, lift, i);
    hide Calls;
    assert Content(Lifted(ms, lift)[i]).value[j]
        == LiftedItem(ms[i], Content(ms[i]).value[j], i, j, Calls(ms, |ms|, lift), lift);
  }
}
