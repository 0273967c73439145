/** Rewriting an OpenAI-compatible chat request into the gateway's own form. */
module ChatRewrite {
  import opened Basics
  import opened Text

  datatype Json = Null | Bool(value: bool) | Number(digits: string) | Str(text: string) | Arr(items: seq<Json>) | Obj(fields: map<string, Json>)

  type Fields = map<string, Json>

  /** JSON text to value, if it is valid, and back, and which tokens are numbers. */
  datatype Codec = Codec(parse: string -> Option<Json>, render: Json -> string, isNumber: string -> bool)

  /** Every number in the value is one. */
  ghost predicate Proper(codec: Codec, v: Json) {
    match v
    case Number(digits) => codec.isNumber(digits)
    case Arr(items) => forall i | 0 <= i < |items| :: Proper(codec, items[i])
    case Obj(fields) => forall k | k in fields :: Proper(codec, fields[k])
    case _ => true
  }

  /** What JSON promises: a rendered value parses to itself, and the text of a string is
      shorter than its literal. */
  ghost predicate Faithful(codec: Codec) {
    && (forall v | Proper(codec, v) :: codec.parse(codec.render(v)) == Some(v))
    && (forall t :: codec.parse(t).Some? ==> Proper(codec, codec.parse(t).value))
    && (forall t :: codec.parse(t).Some? && codec.parse(t).value.Str? ==> |codec.parse(t).value.text| < |t|)
  }

  // ----- Roles

  function MapRole(role: string): string {
    match Lower(role)
    case "system" => "ROLE_SYSTEM"
    case "user" => "ROLE_USER"
    case "assistant" => "ROLE_ASSISTANT"
    case "function" => "ROLE_FUNCTION"
    case "tool" => "ROLE_TOOL"
    case _ => role
  }

  /** The roles that the OpenAI format knows. */
  const ROLES: set<string> := {"system", "user", "assistant", "function", "tool"}

  /** The gateway's name of a role: its name in capitals, marked as a role. */
  predicate Enumerates(enumerated: string, role: string) {
    Lower(enumerated) == "role_" + Lower(role) && forall c | c in enumerated :: 'A' <= c <= 'Z' || c == '_'
  }

  lemma Named(enumerated: string, capitals: string, role: string)
    requires enumerated == "ROLE_" + capitals && |capitals| == |role|
    requires forall i | 0 <= i < |role| :: 'A' <= capitals[i] <= 'Z' && LowerChar(capitals[i]) == role[i] == LowerChar(role[i])
    ensures Enumerates(enumerated, role)
  {
    assert Lower("ROLE_") == "role_";
    assert Lower(enumerated) == Lower("ROLE_") + Lower(capitals) && Lower(capitals) == role == Lower(role);
  }

  lemma EachEnumerates()
    ensures Enumerates("ROLE_SYSTEM", "system") && Enumerates("ROLE_USER", "user") && Enumerates("ROLE_ASSISTANT", "assistant")
    ensures Enumerates("ROLE_FUNCTION", "function") && Enumerates("ROLE_TOOL", "tool")
  {
    hide Enumerates;
    Named("ROLE_SYSTEM", "SYSTEM", "system");
    Named("ROLE_USER", "USER", "user");
    Named("ROLE_ASSISTANT", "ASSISTANT", "assistant");
    Named("ROLE_FUNCTION", "FUNCTION", "function");
    Named("ROLE_TOOL", "TOOL", "tool");
  }

  /** Exactly the known roles, in any case, are mapped, each to its own name. */
  lemma MapRoleExactly(role: string)
    ensures if Lower(role) in ROLES then Enumerates(MapRole(role), role) && MapRole(role) != role else MapRole(role) == role
  {
    if Lower(role) in ROLES {
      EachEnumerates();
      LowerTwice(role);
      assert Enumerates(MapRole(role), Lower(role));
      assert |Lower(MapRole(role))| == |Lower(role)| + 5;
    }
  }

  lemma EnumeratedIsNoRole(enumerated: string, role: string)
    requires Enumerates(enumerated, role)
    ensures Lower(enumerated) !in ROLES
  {
    assert Lower(enumerated)[4] == '_';
  }

  /** The role mapping leaves its own results alone. */
  lemma MapRoleTwice(role: string)
    ensures MapRole(MapRole(role)) == MapRole(role)
  {
    MapRoleExactly(role);
    MapRoleExactly(MapRole(role));
    if Lower(role) in ROLES {
      EnumeratedIsNoRole(MapRole(role), role);
    }
  }

  // ----- The form that needs no rewriting

  const SAMPLING := ["temperature", "top_p", "max_tokens", "max_completion_tokens", "stop", "frequency_penalty",
                     "presence_penalty", "reasoning_effort", "reasoning_budget_tokens", "reasoning_enabled"]

  predicate HasStr(fields: Fields, key: string) {
    key in fields && fields[key].Str?
  }

  predicate HasObj(fields: Fields, key: string) {
    key in fields && fields[key].Obj?
  }

  predicate NormalPart(p: Json) {
    p.Obj? ==> "type" in p.fields || !HasStr(p.fields, "text")
  }

  predicate NormalContent(c: Json) {
    !c.Str? && (c.Arr? ==> forall i | 0 <= i < |c.items| :: NormalPart(c.items[i]))
  }

  predicate NormalRole(fields: Fields) {
    HasStr(fields, "role") ==> Lower(fields["role"].text) !in ROLES
  }

  predicate NormalMessage(m: Json) {
    m.Obj? ==>
      && NormalRole(m.fields) && "provider_content" !in m.fields
      && ("content" in m.fields ==> NormalContent(m.fields["content"]))
  }

  predicate NormalMessages(messages: Json) {
    messages.Arr? ==> forall i | 0 <= i < |messages.items| :: NormalMessage(messages.items[i])
  }

  predicate Normal(request: Fields) {
    && ("messages" in request ==> NormalMessages(request["messages"]))
    && !HasStr(request, "tool_choice")
    && (forall i | 0 <= i < |SAMPLING| :: SAMPLING[i] !in request)
  }

  // ----- What a rewritten request means

  function TextPart(text: string): Json {
    Obj(map["type" := Str("text"), "text" := Str(text)])
  }

  function TypedPart(p: Json): Json {
    if NormalPart(p) then p else Obj(p.fields["type" := Str("text")])
  }

  function TypedParts(items: seq<Json>): (r: seq<Json>)
    ensures |r| == |items|
  {
    seq(|items|, i requires 0 <= i < |items| => TypedPart(items[i]))
  }

  /** The JSON text a replayed provider chunk is sent as. */
  function RawOf(codec: Codec, item: Json): string {
    if item.Str? && codec.parse(item.text).Some? then item.text else codec.render(item)
  }

  function PartType(metadata: Option<Json>): string {
    if metadata.Some? && metadata.value.Obj? && HasStr(metadata.value.fields, "type") && metadata.value.fields["type"].text != ""
    then metadata.value.fields["type"].text else "provider"
  }

  function ProviderPart(codec: Codec, item: Json): Json {
    var raw := RawOf(codec, item);
    var metadata := codec.parse(raw);
    var part := map["type" := Str(PartType(metadata)), "provider_json" := Str(raw)];
    if PartType(metadata) == "text" && HasStr(metadata.value.fields, "text")
    then Obj(part["text" := metadata.value.fields["text"]]) else Obj(part)
  }

  predicate Replays(fields: Fields) {
    "provider_content" in fields && fields["provider_content"].Arr? && fields["provider_content"].items != []
  }

  predicate ReplayOf(codec: Codec, items: seq<Json>, parts: seq<Json>) {
    |parts| == |items| && forall i | 0 <= i < |items| :: parts[i] == ProviderPart(codec, items[i])
  }

  /** The content of a message, if it has any, after the rewrite. */
  predicate ContentBecomes(codec: Codec, before: Fields, after: Fields) {
    if Replays(before) then
      "content" in after && after["content"].Arr? && ReplayOf(codec, before["provider_content"].items, after["content"].items)
    else if "content" !in before then "content" !in after
    else
      "content" in after &&
      match before["content"]
      case Str(text) => after["content"] == Arr([TextPart(text)])
      case Arr(items) => after["content"] == Arr(TypedParts(items))
      case other => after["content"] == other
  }

  predicate RoleBecomes(before: Fields, after: Fields) {
    if HasStr(before, "role") && Lower(before["role"].text) in ROLES
    then HasStr(after, "role") && Enumerates(after["role"].text, before["role"].text)
    else ("role" in before <==> "role" in after) && ("role" in before ==> after["role"] == before["role"])
  }

  predicate SameElsewhere(before: Fields, after: Fields, keys: set<string>) {
    && (forall k | k in before && k !in keys :: k in after && after[k] == before[k])
    && (forall k | k in after && k !in keys :: k in before)
  }

  predicate MessageBecomes(codec: Codec, before: Json, after: Json) {
    if !before.Obj? then after == before
    else
      && after.Obj? && RoleBecomes(before.fields, after.fields) && ContentBecomes(codec, before.fields, after.fields)
      && "provider_content" !in after.fields && SameElsewhere(before.fields, after.fields, {"role", "content", "provider_content"})
  }

  predicate MessagesBecome(codec: Codec, before: Json, after: Json) {
    if !before.Arr? then after == before
    else
      && after.Arr? && |after.items| == |before.items|
      && forall i | 0 <= i < |before.items| :: MessageBecomes(codec, before.items[i], after.items[i])
  }

  /** A sampling value under its new key; a lone stop string becomes a list. */
  function Moved(key: string, value: Json): Json {
    if key == "stop" && value.Str? then Arr([value]) else value
  }

  function SamplingBefore(request: Fields): Fields {
    if HasObj(request, "sampling") then request["sampling"].fields else map[]
  }

  /** Each of the keys that the request has at the top is among the fields, with its value (a
      lone stop string as a list), next to what the request had under "sampling"; nothing else is. */
  predicate Gathers(keys: seq<string>, request: Fields, fields: Fields) {
    && (forall k | k in keys && k in request ::
          k in fields && fields[k] == if k == "stop" && request[k].Str? then Arr([request[k]]) else request[k])
    && (HasObj(request, "sampling") ==>
          forall k | k in request["sampling"].fields && !(k in keys && k in request) ::
            k in fields && fields[k] == request["sampling"].fields[k])
    && (forall k | k in fields ::
          (HasObj(request, "sampling") && k in request["sampling"].fields) || (k in keys && k in request))
  }

  /** Every sampling key at the top is found, zeroes included, under "sampling", and what
      was there under other keys still is. */
  predicate SamplingBecomes(before: Fields, after: Fields) {
    if forall i | 0 <= i < |SAMPLING| :: SAMPLING[i] !in before then
      ("sampling" in before <==> "sampling" in after) && ("sampling" in before ==> after["sampling"] == before["sampling"])
    else
      HasObj(after, "sampling") && Gathers(SAMPLING, before, after["sampling"].fields)
  }

  predicate ToolChoiceBecomes(before: Fields, after: Fields) {
    if HasStr(before, "tool_choice") then "tool_choice" in after && after["tool_choice"] == Obj(map["mode" := before["tool_choice"]])
    else ("tool_choice" in before <==> "tool_choice" in after) && ("tool_choice" in before ==> after["tool_choice"] == before["tool_choice"])
  }

  predicate Rewritten(codec: Codec, before: Fields, after: Fields) {
    && ("messages" in before <==> "messages" in after)
    && ("messages" in before ==> MessagesBecome(codec, before["messages"], after["messages"]))
    && ToolChoiceBecomes(before, after) && SamplingBecomes(before, after)
    && (forall i | 0 <= i < |SAMPLING| :: SAMPLING[i] !in after)
    && (forall k | k in before && k !in SAMPLING && k != "messages" && k != "tool_choice" && k != "sampling" :: k in after && after[k] == before[k])
    && (forall k | k in after && k !in SAMPLING && k != "messages" && k != "tool_choice" && k != "sampling" :: k in before)
  }

  // ----- The rewrite

  method ProviderParts(codec: Codec, content: Json) returns (parts: seq<Json>)
    ensures if content.Arr? then ReplayOf(codec, content.items, parts) else parts == []
  {
    parts := [];
    if !content.Arr? {
      return;
    }
    for i := 0 to |content.items|
      invariant ReplayOf(codec, content.items[..i], parts)
    {
      var item := content.items[i];
      var raw := if item.Str? && codec.parse(item.text).Some? then item.text else codec.render(item);
      var metadata := codec.parse(raw);
      var fields := if metadata.Some? && metadata.value.Obj? then metadata.value.fields else map[];
      var partType := if HasStr(fields, "type") then fields["type"].text else "";
      if partType == "" {
        partType := "provider";
      }
      var part := map["type" := Str(partType), "provider_json" := Str(raw)];
      if partType == "text" && HasStr(fields, "text") {
        part := part["text" := fields["text"]];
      }
      parts := parts + [Obj(part)];
    }
    assert content.items[..|content.items|] == content.items;
  }

  method TypeParts(items: seq<Json>) returns (parts: seq<Json>, modified: bool)
    ensures parts == TypedParts(items)
    ensures modified <==> exists i :: 0 <= i < |items| && !NormalPart(items[i])
  {
    parts, modified := items, false;
    for j := 0 to |items|
      invariant |parts| == |items|
      invariant forall k | 0 <= k < |items| :: parts[k] == if k < j then TypedPart(items[k]) else items[k]
      invariant modified <==> exists i :: 0 <= i < j && !NormalPart(items[i])
    {
      if items[j].Obj? && "type" !in items[j].fields && HasStr(items[j].fields, "text") {
        var part := items[j].fields["type" := Str("text")]["text" := items[j].fields["text"]];
        assert part == items[j].fields["type" := Str("text")];
        parts := parts[j := Obj(part)];
        modified := true;
      }
    }
  }

  method RewriteContent(fields: Fields, replayed: bool) returns (r: Fields, modified: bool)
    ensures SameElsewhere(fields, r, {"content"})
    ensures if replayed || "content" !in fields then r == fields && !modified
            else "content" in r && (modified <==> !NormalContent(fields["content"])) && (!modified ==> r == fields) &&
                 match fields["content"]
                 case Str(text) => r["content"] == Arr([TextPart(text)])
                 case Arr(items) => r["content"] == Arr(TypedParts(items))
                 case other => r["content"] == other
  {
    r, modified := fields, false;
    if replayed || "content" !in fields {
      return;
    }
    if fields["content"].Str? {
      r := fields["content" := Arr([TextPart(fields["content"].text)])];
      modified := true;
    } else if fields["content"].Arr? {
      var parts;
      parts, modified := TypeParts(fields["content"].items);
      if !modified {
        assert parts == fields["content"].items;
      }
      r := fields["content" := Arr(parts)];
    }
  }

  method RewriteMessage(codec: Codec, m: Json) returns (r: Json, modified: bool)
    ensures MessageBecomes(codec, m, r)
    ensures modified <==> !NormalMessage(m)
    ensures !modified ==> r == m
  {
    if !m.Obj? {
      return m, false;
    }
    var fields := m.fields;
    modified := false;
    if HasStr(fields, "role") {
      MapRoleExactly(fields["role"].text);
      var role := MapRole(fields["role"].text);
      if role != fields["role"].text {
        fields := fields["role" := Str(role)];
        modified := true;
      }
    }
    var replayed := false;
    if "provider_content" in fields {
      var content := fields["provider_content"];
      fields := fields - {"provider_content"};
      modified := true;
      var parts := ProviderParts(codec, content);
      if parts != [] {
        fields := fields["content" := Arr(parts)];
        replayed := true;
      }
    }
    var changed;
    fields, changed := RewriteContent(fields, replayed);
    modified := modified || changed;
    r := Obj(fields);
  }

  method RewriteMessages(codec: Codec, messages: Json) returns (r: Json, modified: bool)
    ensures MessagesBecome(codec, messages, r)
    ensures modified <==> !NormalMessages(messages)
    ensures !modified ==> r == messages
  {
    hide MessageBecomes, NormalMessage;
    r, modified := messages, false;
    if messages.Arr? {
      var items := messages.items;
      for i := 0 to |items|
        invariant |items| == |messages.items|
        invariant forall k | 0 <= k < i :: MessageBecomes(codec, messages.items[k], items[k])
        invariant forall k | i <= k < |items| :: items[k] == messages.items[k]
        invariant modified <==> exists k :: 0 <= k < i && !NormalMessage(messages.items[k])
        invariant !modified ==> items == messages.items
      {
        var message, changed := RewriteMessage(codec, items[i]);
        items := items[i := message];
        modified := modified || changed;
      }
      r := Arr(items);
    }
  }

  /** The keys in `done` have been moved out of the request. */
  ghost predicate Partway(request: Fields, done: set<string>, r: Fields, sampling: Fields) {
    && r == request - done
    && sampling.Keys == SamplingBefore(request).Keys + done * request.Keys
    && forall k | k in sampling :: sampling[k] == if k in done && k in request then Moved(k, request[k]) else SamplingBefore(request)[k]
  }

  lemma MoveOne(request: Fields, done: set<string>, r: Fields, sampling: Fields, key: string)
    requires Partway(request, done, r, sampling) && key !in done
    ensures if key in r then Partway(request, done + {key}, r - {key}, sampling[key := Moved(key, r[key])])
            else Partway(request, done + {key}, r, sampling)
  {
    hide SamplingBefore;
    if key in r {
      assert r - {key} == request - (done + {key});
    } else {
      assert r == request - (done + {key});
    }
  }

  ghost function KeySet(keys: seq<string>): set<string> {
    set k | k in keys
  }

  ghost predicate Distinct(keys: seq<string>) {
    forall i, j | 0 <= i < j < |keys| :: keys[i] != keys[j]
  }

  method MoveKeys(request: Fields, keys: seq<string>) returns (r: Fields, sampling: Fields, modified: bool)
    requires Distinct(keys)
    ensures Partway(request, KeySet(keys), r, sampling)
    ensures modified <==> exists i :: 0 <= i < |keys| && keys[i] in request
  {
    hide Partway;
    r, modified := request, false;
    sampling := SamplingBefore(request);
    assert Partway(request, KeySet(keys[..0]), r, sampling) by { NothingMoved(request, KeySet(keys[..0])); }
    for i := 0 to |keys|
      invariant Partway(request, KeySet(keys[..i]), r, sampling)
      invariant modified <==> exists j :: 0 <= j < i && keys[j] in request
    {
      var key := keys[i];
      assert keys[..i + 1] == keys[..i] + [key] && key !in KeySet(keys[..i]);
      assert KeySet(keys[..i + 1]) == KeySet(keys[..i]) + {key};
      assert key in r <==> key in request by { StillThere(request, KeySet(keys[..i]), r, sampling, key); }
      MoveOne(request, KeySet(keys[..i]), r, sampling, key);
      if key in r {
        var value := r[key];
        if key == "stop" && value.Str? {
          value := Arr([value]);
        }
        sampling := sampling[key := value];
        r := r - {key};
        modified := true;
      }
    }
    assert keys[..|keys|] == keys;
  }

  lemma NothingMoved(request: Fields, done: set<string>)
    requires done == {}
    ensures Partway(request, done, request, SamplingBefore(request))
  {
    assert request - done == request;
  }

  lemma StillThere(request: Fields, done: set<string>, r: Fields, sampling: Fields, key: string)
    requires Partway(request, done, r, sampling) && key !in done
    ensures key in r <==> key in request
  {
  }

  /** The keys that belong under "sampling". */
  lemma SamplingKeys()
    ensures KeySet(SAMPLING) == {"temperature", "top_p", "max_tokens", "max_completion_tokens", "stop", "frequency_penalty",
                                 "presence_penalty", "reasoning_effort", "reasoning_budget_tokens", "reasoning_enabled"}
  {
    assert SAMPLING == SAMPLING[..9] + ["reasoning_enabled"];
  }

  lemma SamplingKeysAreDistinct()
    ensures Distinct(SAMPLING) && "sampling" !in SAMPLING && "messages" !in SAMPLING && "tool_choice" !in SAMPLING
  {
  }

  lemma NoKeyMoved(request: Fields, keys: seq<string>, r: Fields, sampling: Fields)
    requires Partway(request, KeySet(keys), r, sampling) && forall i | 0 <= i < |keys| :: keys[i] !in request
    ensures r == request
  {
  }

  lemma MovedIsGathered(request: Fields, keys: seq<string>, r: Fields, sampling: Fields)
    requires Partway(request, KeySet(keys), r, sampling)
    ensures Gathers(keys, request, sampling)
    ensures SameElsewhere(request, r, KeySet(keys)) && forall k | k in keys :: k !in r
  {
    forall k ensures k in KeySet(keys) <==> k in keys {
    }
  }

  lemma AllKeysMoved(request: Fields, r: Fields, sampling: Fields)
    requires Partway(request, KeySet(SAMPLING), r, sampling) && exists i :: 0 <= i < |SAMPLING| && SAMPLING[i] in request
    ensures SamplingBecomes(request, r["sampling" := Obj(sampling)])
    ensures SameElsewhere(request, r["sampling" := Obj(sampling)], KeySet(SAMPLING) + {"sampling"})
    ensures forall i | 0 <= i < |SAMPLING| :: SAMPLING[i] !in r["sampling" := Obj(sampling)]
  {
    hide Partway, Gathers, KeySet;
    SamplingKeysAreDistinct();
    MovedIsGathered(request, SAMPLING, r, sampling);
  }

  method MoveSampling(request: Fields) returns (r: Fields, modified: bool)
    ensures SamplingBecomes(request, r)
    ensures SameElsewhere(request, r, KeySet(SAMPLING) + {"sampling"})
    ensures forall i | 0 <= i < |SAMPLING| :: SAMPLING[i] !in r
    ensures modified <==> exists i :: 0 <= i < |SAMPLING| && SAMPLING[i] in request
    ensures !modified ==> r == request
  {
    hide Partway, KeySet, Gathers;
    SamplingKeysAreDistinct();
    hide Distinct;
    var sampling;
    r, sampling, modified := MoveKeys(request, SAMPLING);
    if modified {
      AllKeysMoved(request, r, sampling);
      r := r["sampling" := Obj(sampling)];
    } else {
      NoKeyMoved(request, SAMPLING, r, sampling);
    }
  }

  /** One pass over a request body; a body that is not a JSON object is left alone. It
      changes exactly the bodies that are not in normal form, and leaves a normal one. */
  method Transform(codec: Codec, body: Json) returns (r: Json, modified: bool)
    ensures if body.Obj? then r.Obj? && Rewritten(codec, body.fields, r.fields) else r == body && !modified
    ensures body.Obj? ==> (modified <==> !Normal(body.fields)) && Normal(r.fields)
    ensures !modified ==> r == body
  {
    hide Rewritten, Normal, KeySet, SamplingBecomes, SameElsewhere, NormalMessages, MessagesBecome;
    if !body.Obj? {
      return body, false;
    }
    var request := body.fields;
    modified := false;
    if "messages" in request {
      var messages;
      messages, modified := RewriteMessages(codec, request["messages"]);
      request := request["messages" := messages];
    }
    if HasStr(request, "tool_choice") {
      request := request["tool_choice" := Obj(map["mode" := request["tool_choice"]])];
      modified := true;
    }
    ghost var middle := request;
    var moved;
    request, moved := MoveSampling(request);
    ThreeParts(codec, body.fields, middle, request, moved);
    modified := modified || moved;
    r := Obj(request);
  }

  /** The messages and the tool choice are rewritten, and nothing else yet. */
  ghost predicate HalfWay(codec: Codec, before: Fields, middle: Fields) {
    && SameElsewhere(before, middle, {"messages", "tool_choice"})
    && ("messages" in before <==> "messages" in middle)
    && ("messages" in before ==> MessagesBecome(codec, before["messages"], middle["messages"]))
    && ToolChoiceBecomes(before, middle)
  }

  lemma ThreeParts(codec: Codec, before: Fields, middle: Fields, after: Fields, moved: bool)
    requires middle == (var m := if "messages" in before && "messages" in middle then before["messages" := middle["messages"]] else before;
                        if HasStr(m, "tool_choice") then m["tool_choice" := Obj(map["mode" := m["tool_choice"]])] else m)
    requires "messages" in before ==> "messages" in middle && MessagesBecome(codec, before["messages"], middle["messages"])
    requires SamplingBecomes(middle, after) && SameElsewhere(middle, after, KeySet(SAMPLING) + {"sampling"})
    requires forall i | 0 <= i < |SAMPLING| :: SAMPLING[i] !in after
    requires moved <==> exists i :: 0 <= i < |SAMPLING| && SAMPLING[i] in middle
    ensures Rewritten(codec, before, after) && Normal(after)
    ensures Normal(before) <==> ("messages" in before ==> NormalMessages(before["messages"])) && !HasStr(before, "tool_choice") && !moved
  {
    SamplingKeysAreDistinct();
    hide MessagesBecome, NormalMessages, SamplingBecomes, Distinct;
    assert HalfWay(codec, before, middle);
    SamplingIgnores(before, middle, after);
    if "messages" in before {
      RewrittenIsNormal(codec, before["messages"], middle["messages"]);
    }
    AfterSampling(codec, before, middle, after);
  }

  lemma AfterSampling(codec: Codec, before: Fields, middle: Fields, after: Fields)
    requires HalfWay(codec, before, middle) && SamplingBecomes(before, after)
    requires SameElsewhere(middle, after, KeySet(SAMPLING) + {"sampling"})
    requires forall i | 0 <= i < |SAMPLING| :: SAMPLING[i] !in after
    requires "messages" in middle ==> NormalMessages(middle["messages"])
    ensures Rewritten(codec, before, after) && Normal(after)
  {
    SamplingKeysAreDistinct();
    hide MessagesBecome, NormalMessages, SamplingBecomes, Distinct;
  }

  lemma SamplingIgnores(before: Fields, middle: Fields, after: Fields)
    requires SamplingBecomes(middle, after) && SameElsewhere(before, middle, {"messages", "tool_choice"})
    ensures SamplingBecomes(before, after)
    ensures forall i | 0 <= i < |SAMPLING| :: SAMPLING[i] in before <==> SAMPLING[i] in middle
  {
    SamplingKeysAreDistinct();
    forall k | k in SAMPLING ensures (k in before <==> k in middle) && (k in before ==> before[k] == middle[k]) {
    }
    assert SamplingBefore(before) == SamplingBefore(middle);
  }

  lemma MessageIsNormal(codec: Codec, before: Json, after: Json)
    requires MessageBecomes(codec, before, after)
    ensures NormalMessage(after)
  {
    if before.Obj? && HasStr(before.fields, "role") && Lower(before.fields["role"].text) in ROLES {
      EnumeratedIsNoRole(after.fields["role"].text, before.fields["role"].text);
    }
  }

  lemma RewrittenIsNormal(codec: Codec, before: Json, after: Json)
    requires MessagesBecome(codec, before, after)
    ensures NormalMessages(after)
  {
    hide MessageBecomes, NormalMessage;
    if after.Arr? {
      forall i | 0 <= i < |after.items| ensures NormalMessage(after.items[i]) {
        MessageIsNormal(codec, before.items[i], after.items[i]);
      }
    }
  }

  /** The route that rewrites twice: the second pass finds nothing to do. */
  method ConnectRoute(codec: Codec, body: Json) returns (once: Json, twice: Json, again: bool)
    ensures twice == once && !again
    ensures body.Obj? ==> once.Obj? && Rewritten(codec, body.fields, once.fields) && Normal(once.fields)
  {
    hide Rewritten, Normal;
    var modified;
    once, modified := Transform(codec, body);
    twice, again := Transform(codec, once);
  }

  // ----- Nothing the model reads is lost

  /** The text of a content part that counts as text. */
  function PartText(p: Json): string {
    if p.Obj? && HasStr(p.fields, "text") && ("type" in p.fields ==> p.fields["type"] == Str("text")) then p.fields["text"].text else ""
  }

  function PartsText(items: seq<Json>): string {
    if items == [] then "" else PartText(items[0]) + PartsText(items[1..])
  }

  function TextOf(content: Json): string {
    match content
    case Str(text) => text
    case Arr(items) => PartsText(items)
    case _ => ""
  }

  lemma {:induction false} TypedPartsKeepText(items: seq<Json>)
    ensures PartsText(TypedParts(items)) == PartsText(items)
  {
    if items != [] {
      assert TypedParts(items)[1..] == TypedParts(items[1..]);
      TypedPartsKeepText(items[1..]);
    }
  }

  /** A message that replays no provider content keeps its text. */
  lemma TextIsKept(codec: Codec, before: Json, after: Json)
    requires MessageBecomes(codec, before, after) && before.Obj? && !Replays(before.fields) && "content" in before.fields
    ensures "content" in after.fields && TextOf(after.fields["content"]) == TextOf(before.fields["content"])
  {
    match before.fields["content"]
    case Str(text) => assert PartsText([TextPart(text)]) == text;
    case Arr(items) => TypedPartsKeepText(items);
    case _ =>
  }

  /** The part a chunk is replayed as: under its own type if it has one, with its text if it
      is of type "text", and with its JSON. */
  lemma ReplayedPart(codec: Codec, item: Json, fields: Fields)
    requires Faithful(codec) && Proper(codec, item) && item == Obj(fields)
    ensures var part := ProviderPart(codec, item).fields;
            && "provider_json" in part && "type" in part && part["provider_json"] == Str(codec.render(item))
            && part["type"] == (if HasStr(fields, "type") && fields["type"] != Str("") then fields["type"] else Str("provider"))
            && ("text" in part <==> HasStr(fields, "type") && fields["type"] == Str("text") && HasStr(fields, "text"))
            && ("text" in part ==> part["text"] == fields["text"])
  {
    assert codec.parse(codec.render(item)) == Some(item);
  }

  /** A replayed chunk reads back as the same value exactly when it is not a string that
      is itself valid JSON text; such a string is read as the value it spells. */
  lemma ReplayReadsBackExactly(codec: Codec, item: Json)
    requires Faithful(codec) && Proper(codec, item)
    ensures var part := ProviderPart(codec, item);
            && part.Obj? && HasStr(part.fields, "provider_json")
            && (codec.parse(part.fields["provider_json"].text) == Some(item) <==> !(item.Str? && codec.parse(item.text).Some?))
  {
    assert codec.parse(codec.render(item)) == Some(item);
    if item.Str? && codec.parse(item.text).Some? {
      assert codec.parse(item.text) != Some(item);
    }
  }
}
