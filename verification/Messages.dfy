/** Messages of the subscriptions-transport-ws protocol: taking them apart and building them. */
module Messages {
  import opened Basics

  datatype Value =
    | Null
    | Map(members: seq<Member>)
    | List(items: seq<Value>)
    | String(text: string)
    | Boolean(flag: bool)
    | Int(number: int)
    | Float(approx: real)
    | EnumValue(name: string)

  datatype Member = Member(key: string, value: Value)

  datatype InvalidPayload = InvalidPayload(message: string)

  datatype Result<T> = Ok(value: T) | Err(error: InvalidPayload)

  const GQL_CONNECTION_ERROR := "connection_error"
  const GQL_DATA := "data"
  const GQL_ERROR := "error"
  const GQL_COMPLETE := "complete"
  const GQL_TYPE := "type"
  const GQL_ID := "id"
  const GQL_PAYLOAD := "payload"
  const GQL_QUERY := "query"
  const GQL_VARIABLES := "variables"
  const GQL_OPERATION_NAME := "operationName"
  const GQL_MESSAGE := "message"
  const GQL_STATUS_CODE := "statusCode"

  const HTTP_OK := 200
  const HTTP_BAD_REQUEST := 400
  const HTTP_UNAUTHORIZED := 401
  const HTTP_NOT_IMPLEMENTED := 501

  const TOKEN_ERROR_PREFIX := "Token error: "

  /** `(type, id, payload)` of a message. */
  type MessageParts = (string, string, Value)

  /** `(query, operationName, variables)` of an operation. */
  type OperationDefinitionParts = (string, string, Value)

  // ---------------------------------------------------------------- taking apart

  /** The first non-empty text under `key`, or the empty one. */
  function FirstText(ms: seq<Member>, key: string): string {
    if ms == [] then ""
    else if ms[0].key == key && ms[0].value.String? && ms[0].value.text != "" then ms[0].value.text
    else FirstText(ms[1..], key)
  }

  /** The first map under `key`, or null. */
  function FirstMap(ms: seq<Member>, key: string): Value {
    if ms == [] then Null
    else if ms[0].key == key && ms[0].value.Map? then ms[0].value
    else FirstMap(ms[1..], key)
  }

  lemma {:induction false} FirstTextMore(ms: seq<Member>, m: Member, key: string)
    ensures FirstText(ms + [m], key) == (if FirstText(ms, key) == "" then FirstText([m], key) else FirstText(ms, key))
  {
    if ms == [] {
      assert ms + [m] == [m];
    } else {
      assert (ms + [m])[1..] == ms[1..] + [m];
      FirstTextMore(ms[1..], m, key);
    }
  }

  lemma {:induction false} FirstMapMore(ms: seq<Member>, m: Member, key: string)
    ensures FirstMap(ms + [m], key) == (if FirstMap(ms, key) == Null then FirstMap([m], key) else FirstMap(ms, key))
  {
    if ms == [] {
      assert ms + [m] == [m];
    } else {
      assert (ms + [m])[1..] == ms[1..] + [m];
      FirstMapMore(ms[1..], m, key);
    }
  }

  lemma FirstsMore(ms: seq<Member>, i: nat, key: string)
    requires i < |ms|
    ensures var m := ms[i];
      && FirstText(ms[..i + 1], key) == (if FirstText(ms[..i], key) == "" && m.key == key && m.value.String?
                                         then m.value.text else FirstText(ms[..i], key))
      && FirstMap(ms[..i + 1], key) == (if FirstMap(ms[..i], key) == Null && m.key == key && m.value.Map?
                                        then m.value else FirstMap(ms[..i], key))
  {
    assert ms[..i + 1] == ms[..i] + [ms[i]];
    FirstTextMore(ms[..i], ms[i], key);
    FirstMapMore(ms[..i], ms[i], key);
  }

  /** `text` is what the first member under `key` with a non-empty text says; it is empty when there is none. */
  ghost predicate IsFirstText(ms: seq<Member>, key: string, text: string) {
    (text == "" && NoText(ms, key)) || exists i | 0 <= i < |ms| :: text != "" && ms[i] == Member(key, String(text)) && NoText(ms[..i], key)
  }

  ghost predicate NoText(ms: seq<Member>, key: string) {
    forall i | 0 <= i < |ms| && ms[i].key == key && ms[i].value.String? :: ms[i].value.text == ""
  }

  /** `v` is the first map under `key`; it is null when there is none. */
  ghost predicate IsFirstMap(ms: seq<Member>, key: string, v: Value) {
    (v == Null && NoMap(ms, key)) || exists i | 0 <= i < |ms| :: v.Map? && ms[i] == Member(key, v) && NoMap(ms[..i], key)
  }

  ghost predicate NoMap(ms: seq<Member>, key: string) {
    forall i | 0 <= i < |ms| && ms[i].key == key :: !ms[i].value.Map?
  }

  lemma {:induction false} FirstsArePlaced(ms: seq<Member>, key: string)
    ensures IsFirstText(ms, key, FirstText(ms, key)) && IsFirstMap(ms, key, FirstMap(ms, key))
  {
    if ms != [] {
      FirstsArePlaced(ms[1..], key);
      if FirstText(ms, key) != "" {
        FirstTextPlaced(ms, key);
      } else {
        assert forall i | 0 < i < |ms| :: ms[i] == ms[1..][i - 1];
      }
      if FirstMap(ms, key) != Null {
        FirstMapPlaced(ms, key);
      } else {
        assert forall i | 0 < i < |ms| :: ms[i] == ms[1..][i - 1];
      }
    }
  }

  lemma FirstTextPlaced(ms: seq<Member>, key: string)
    requires ms != [] && IsFirstText(ms[1..], key, FirstText(ms[1..], key)) && FirstText(ms, key) != ""
    ensures IsFirstText(ms, key, FirstText(ms, key))
  {
    if ms[0].key == key && ms[0].value.String? && ms[0].value.text != "" {
      assert ms[0] == Member(key, String(FirstText(ms, key))) && NoText(ms[..0], key);
    } else {
      var j :| 0 <= j < |ms[1..]| && ms[1..][j] == Member(key, String(FirstText(ms[1..], key))) && NoText(ms[1..][..j], key);
      assert ms[j + 1] == ms[1..][j];
      assert ms[..j + 1] == [ms[0]] + ms[1..][..j];
      assert NoText(ms[..j + 1], key);
    }
  }

  lemma FirstMapPlaced(ms: seq<Member>, key: string)
    requires ms != [] && IsFirstMap(ms[1..], key, FirstMap(ms[1..], key)) && FirstMap(ms, key) != Null
    ensures IsFirstMap(ms, key, FirstMap(ms, key))
  {
    if ms[0].key == key && ms[0].value.Map? {
      assert ms[0] == Member(key, FirstMap(ms, key)) && NoMap(ms[..0], key);
    } else {
      var j :| 0 <= j < |ms[1..]| && FirstMap(ms[1..], key).Map? && ms[1..][j] == Member(key, FirstMap(ms[1..], key)) && NoMap(ms[1..][..j], key);
      assert ms[j + 1] == ms[1..][j];
      assert ms[..j + 1] == [ms[0]] + ms[1..][..j];
      assert NoMap(ms[..j + 1], key);
    }
  }

  /** There is only one first text and only one first map. */
  lemma OnlyFirsts(ms: seq<Member>, key: string, text: string, v: Value)
    ensures IsFirstText(ms, key, text) ==> forall other :: IsFirstText(ms, key, other) ==> other == text
    ensures IsFirstMap(ms, key, v) ==> forall other :: IsFirstMap(ms, key, other) ==> other == v
  {
  }

  /** When no key occurs twice, the text and the map read under a key are those of its only member. */
  lemma PlacedByUniqueKeys(ms: seq<Member>, key: string, text: string, v: Value)
    requires UniqueKeys(ms) && IsFirstText(ms, key, text) && IsFirstMap(ms, key, v)
    ensures forall i | 0 <= i < |ms| && ms[i].key == key ::
      && text == (if ms[i].value.String? then ms[i].value.text else "")
      && v == (if ms[i].value.Map? then ms[i].value else Null)
    ensures (forall i | 0 <= i < |ms| :: ms[i].key != key) ==> text == "" && v == Null
  {
    if text == "" && NoText(ms, key) {
    } else {
      var i :| 0 <= i < |ms| && ms[i] == Member(key, String(text)) && text != "" && NoText(ms[..i], key);
    }
  }

  /** What both decoders read of a map: two texts and a map. */
  function Read(ms: seq<Member>, keys: (string, string, string)): (string, string, Value) {
    (FirstText(ms, keys.0), FirstText(ms, keys.1), FirstMap(ms, keys.2))
  }

  const MESSAGE_KEYS := (GQL_TYPE, GQL_ID, GQL_PAYLOAD)
  const OPERATION_KEYS := (GQL_QUERY, GQL_OPERATION_NAME, GQL_VARIABLES)

  method ToMessageParts(message: Value) returns (r: Result<MessageParts>)
    ensures r.Err? <==> !message.Map?
    ensures message.Map? ==> r == Ok(Read(message.members, MESSAGE_KEYS))
    ensures message.Map? && r.Ok? ==>
      && IsFirstText(message.members, "type", r.value.0) && IsFirstText(message.members, "id", r.value.1)
      && IsFirstMap(message.members, "payload", r.value.2)
  {
    if !message.Map? {
      return Err(InvalidPayload("message is not an object"));
    }
    hide FirstText, FirstMap, IsFirstText, IsFirstMap;
    var ms := message.members;
    var id, type_, payload := "", "", Null;
    FirstsEmpty(GQL_TYPE);
    FirstsEmpty(GQL_ID);
    FirstsEmpty(GQL_PAYLOAD);
    for i := 0 to |ms|
      invariant type_ == FirstText(ms[..i], GQL_TYPE)
      invariant id == FirstText(ms[..i], GQL_ID)
      invariant payload == FirstMap(ms[..i], GQL_PAYLOAD)
    {
      FirstsMore(ms, i, GQL_TYPE);
      FirstsMore(ms, i, GQL_ID);
      FirstsMore(ms, i, GQL_PAYLOAD);
      var m := ms[i];
      match m.value
      case String(text) =>
        if type_ == "" && m.key == GQL_TYPE {
          type_ := text;
        } else if id == "" && m.key == GQL_ID {
          id := text;
        }
      case Map(_) =>
        if payload.Null? && m.key == GQL_PAYLOAD {
          payload := m.value;
        }
      case _ =>
    }
    assert ms[..|ms|] == ms;
    FirstsArePlaced(ms, "type");
    FirstsArePlaced(ms, "id");
    FirstsArePlaced(ms, "payload");
    return Ok((type_, id, payload));
  }

  method ToOperationDefinitionParts(payload: Value) returns (r: Result<OperationDefinitionParts>)
    ensures r.Err? <==> !payload.Map?
    ensures payload.Map? ==> r == Ok(Read(payload.members, OPERATION_KEYS))
    ensures payload.Map? && r.Ok? ==>
      && IsFirstText(payload.members, "query", r.value.0) && IsFirstText(payload.members, "operationName", r.value.1)
      && IsFirstMap(payload.members, "variables", r.value.2)
  {
    if !payload.Map? {
      return Err(InvalidPayload("start payload is not an object"));
    }
    hide FirstText, FirstMap, IsFirstText, IsFirstMap;
    var ms := payload.members;
    var query, operationName, variables := "", "", Null;
    FirstsEmpty(GQL_QUERY);
    FirstsEmpty(GQL_OPERATION_NAME);
    FirstsEmpty(GQL_VARIABLES);
    for i := 0 to |ms|
      invariant query == FirstText(ms[..i], GQL_QUERY)
      invariant operationName == FirstText(ms[..i], GQL_OPERATION_NAME)
      invariant variables == FirstMap(ms[..i], GQL_VARIABLES)
    {
      FirstsMore(ms, i, GQL_QUERY);
      FirstsMore(ms, i, GQL_OPERATION_NAME);
      FirstsMore(ms, i, GQL_VARIABLES);
      var m := ms[i];
      match m.value
      case String(text) =>
        if query == "" && m.key == GQL_QUERY {
          query := text;
        } else if operationName == "" && m.key == GQL_OPERATION_NAME {
          operationName := text;
        }
      case Map(_) =>
        if variables.Null? && m.key == GQL_VARIABLES {
          variables := m.value;
        }
      case _ =>
    }
    assert ms[..|ms|] == ms;
    FirstsArePlaced(ms, "query");
    FirstsArePlaced(ms, "operationName");
    FirstsArePlaced(ms, "variables");
    return Ok((query, operationName, variables));
  }

  lemma FirstsEmpty(key: string)
    ensures FirstText([], key) == "" && FirstMap([], key) == Null
  {
  }

  // ---------------------------------------------------------------- order and extra members do not matter

  ghost predicate UniqueKeys(ms: seq<Member>) {
    forall i, j | 0 <= i < j < |ms| :: ms[i].key != ms[j].key
  }

  /** With unique keys the result is what the only member of that key says, wherever it stands. */
  lemma {:induction false} FirstsAreLookups(ms: seq<Member>, key: string)
    requires UniqueKeys(ms)
    ensures forall i | 0 <= i < |ms| && ms[i].key == key ::
      && FirstText(ms, key) == (if ms[i].value.String? then ms[i].value.text else "")
      && FirstMap(ms, key) == (if ms[i].value.Map? then ms[i].value else Null)
    ensures (forall i | 0 <= i < |ms| :: ms[i].key != key) ==> FirstText(ms, key) == "" && FirstMap(ms, key) == Null
  {
    if ms != [] {
      FirstsAreLookups(ms[1..], key);
      assert forall i | 0 < i < |ms| :: ms[i] == ms[1..][i - 1];
    }
  }

  /** Any reordering, and any added members under other keys, leave what is read under `key` alone. */
  lemma SameFirsts(ms: seq<Member>, other: seq<Member>, key: string)
    requires UniqueKeys(ms) && UniqueKeys(other)
    requires forall m: Member :: m.key == key ==> (m in ms <==> m in other)
    ensures FirstText(ms, key) == FirstText(other, key) && FirstMap(ms, key) == FirstMap(other, key)
  {
    FirstsAreLookups(ms, key);
    FirstsAreLookups(other, key);
    if i :| 0 <= i < |ms| && ms[i].key == key {
      assert ms[i] in other;
    } else {
      assert forall i | 0 <= i < |other| && other[i].key == key :: other[i] in ms;
    }
  }

  lemma PermutationIrrelevant(ms: seq<Member>, other: seq<Member>, keys: (string, string, string))
    requires UniqueKeys(ms) && multiset(ms) == multiset(other)
    ensures Read(ms, keys) == Read(other, keys)
  {
    PermutedUnique(ms, other);
    forall m: Member
      ensures m in ms <==> m in other
    {
      assert m in ms <==> m in multiset(ms);
      assert m in other <==> m in multiset(other);
    }
    SameFirsts(ms, other, keys.0);
    SameFirsts(ms, other, keys.1);
    SameFirsts(ms, other, keys.2);
  }

  /** An operation comes back from its three members, in whatever order they are sent. */
  lemma OperationComesBack(query: string, operationName: string, variables: Value, ms: seq<Member>)
    requires variables.Map?
    requires multiset(ms) == multiset{Member("query", String(query)), Member("operationName", String(operationName)), Member("variables", variables)}
    ensures Read(ms, OPERATION_KEYS) == (query, operationName, variables)
  {
    var sent := [Member("query", String(query)), Member("operationName", String(operationName)), Member("variables", variables)];
    DifferentOperationKeys();
    assert UniqueKeys(sent);
    assert multiset(sent) == multiset(ms);
    PermutationIrrelevant(sent, ms, OPERATION_KEYS);
    ReadInOrder(sent, OPERATION_KEYS);
  }

  lemma DifferentOperationKeys()
    ensures "query" != "operationName" && "query" != "variables" && "operationName" != "variables"
  {
    assert |"query"| == 5 && |"operationName"| == 13 && |"variables"| == 9;
  }

  /** A message, too, comes back from its three members in any order. */
  lemma MessageComesBack(type_: string, id: string, payload: Value, ms: seq<Member>)
    requires payload.Map?
    requires multiset(ms) == multiset{Member("type", String(type_)), Member("id", String(id)), Member("payload", payload)}
    ensures Read(ms, MESSAGE_KEYS) == (type_, id, payload)
  {
    var sent := [Member("type", String(type_)), Member("id", String(id)), Member("payload", payload)];
    DifferentKeys();
    assert UniqueKeys(sent);
    assert multiset(sent) == multiset(ms);
    PermutationIrrelevant(sent, ms, MESSAGE_KEYS);
    ReadInOrder(sent, MESSAGE_KEYS);
  }

  lemma ReadInOrder(ms: seq<Member>, keys: (string, string, string))
    requires UniqueKeys(ms) && |ms| == 3 && ms[0].key == keys.0 && ms[1].key == keys.1 && ms[2].key == keys.2
    requires ms[0].value.String? && ms[1].value.String? && ms[2].value.Map?
    ensures Read(ms, keys) == (ms[0].value.text, ms[1].value.text, ms[2].value)
  {
    FirstsAreLookups(ms, keys.0);
    FirstsAreLookups(ms, keys.1);
    FirstsAreLookups(ms, keys.2);
  }

  lemma PermutedUnique(ms: seq<Member>, other: seq<Member>)
    requires UniqueKeys(ms) && multiset(ms) == multiset(other)
    ensures UniqueKeys(other)
  {
    forall i, j | 0 <= i < j < |other|
      ensures other[i].key != other[j].key
    {
      TwoPlaces(other, i, j);
      assert other[i] in multiset(ms) && other[j] in multiset(ms);
      var a :| 0 <= a < |ms| && ms[a] == other[i];
      var b :| 0 <= b < |ms| && ms[b] == other[j];
      OnePlace(ms, a);
    }
  }

  /** Two places holding the same member count twice. */
  lemma TwoPlaces(ms: seq<Member>, i: nat, j: nat)
    requires i < j < |ms|
    ensures ms[i] == ms[j] ==> multiset(ms)[ms[i]] >= 2
  {
    assert ms == ms[..i] + [ms[i]] + ms[i + 1..j] + [ms[j]] + ms[j + 1..];
  }

  lemma OnePlace(ms: seq<Member>, i: nat)
    requires UniqueKeys(ms) && i < |ms|
    ensures multiset(ms)[ms[i]] == 1
  {
    assert ms == ms[..i] + [ms[i]] + ms[i + 1..];
    assert ms[i] !in ms[..i] && ms[i] !in ms[i + 1..];
  }

  lemma ExtraMembersIrrelevant(ms: seq<Member>, extra: seq<Member>, keys: (string, string, string))
    requires UniqueKeys(ms + extra)
    requires forall i | 0 <= i < |extra| :: extra[i].key !in {keys.0, keys.1, keys.2}
    ensures Read(ms + extra, keys) == Read(ms, keys)
  {
    var all := ms + extra;
    assert forall i | 0 <= i < |ms| :: all[i] == ms[i];
    assert forall m: Member :: m in all <==> m in ms || m in extra;
    SameFirsts(ms, all, keys.0);
    SameFirsts(ms, all, keys.1);
    SameFirsts(ms, all, keys.2);
  }

  // ---------------------------------------------------------------- building

  function Response(type_: string, id: string, payload: Value): seq<Member> {
    [Member(GQL_TYPE, String(CString(type_)))]
    + (if id != "" then [Member(GQL_ID, String(id))] else [])
    + (if !payload.Null? then [Member(GQL_PAYLOAD, payload)] else [])
  }

  /** `type` is passed on as a C string. */
  method CreateResponse(type_: string, id: string, payload: Value) returns (response: Value)
    ensures response == Map(Response(type_, id, payload)) && UniqueKeys(response.members)
    ensures |response.members| == 1 + (if id == "" then 0 else 1) + (if payload.Null? then 0 else 1)
    ensures response.members[0] == Member("type", String(CString(type_)))
    ensures id != "" ==> response.members[1] == Member("id", String(id))
    ensures !payload.Null? ==> response.members[|response.members| - 1] == Member("payload", payload)
  {
    var members := [Member(GQL_TYPE, String(CString(type_)))];
    if id != "" {
      members := members + [Member(GQL_ID, String(id))];
    }
    if !payload.Null? {
      members := members + [Member(GQL_PAYLOAD, payload)];
    }
    response := Map(members);
    DifferentKeys();
  }

  lemma DifferentKeys()
    ensures GQL_TYPE != GQL_ID && GQL_TYPE != GQL_PAYLOAD && GQL_ID != GQL_PAYLOAD
  {
    assert |GQL_TYPE| == 4 && |GQL_ID| == 2 && |GQL_PAYLOAD| == 7;
  }

  lemma ResponseUnique(type_: string, id: string, payload: Value)
    ensures UniqueKeys(Response(type_, id, payload))
  {
    DifferentKeys();
  }

  /** The decoder gives back the type as a C string, the id, and the payload unless it is neither null nor a map. */
  lemma ResponseRead(type_: string, id: string, payload: Value)
    ensures Read(Response(type_, id, payload), MESSAGE_KEYS) == (CString(type_), id, if payload.Map? then payload else Null)
  {
    var ms := Response(type_, id, payload);
    DifferentKeys();
    ResponseUnique(type_, id, payload);
    FirstsAreLookups(ms, GQL_TYPE);
    FirstsAreLookups(ms, GQL_ID);
    FirstsAreLookups(ms, GQL_PAYLOAD);
    assert ms[0] == Member(GQL_TYPE, String(CString(type_)));
    assert id != "" ==> ms[1] == Member(GQL_ID, String(id));
    assert !payload.Null? ==> ms[|ms| - 1] == Member(GQL_PAYLOAD, payload);
  }

  /** What was built comes back exactly when the type has no NUL and the payload is null or a map. */
  lemma RoundTrip(type_: string, id: string, payload: Value)
    ensures Read(Response(type_, id, payload), MESSAGE_KEYS) == (type_, id, payload)
            <==> '\0' !in type_ && (payload.Null? || payload.Map?)
  {
    ResponseRead(type_, id, payload);
    CStringWhole(type_);
  }

  /** Two messages that do not come back: a list is dropped, and a type is cut at a NUL. */
  lemma DoesNotComeBack(id: string)
    ensures Read(Response(GQL_DATA, id, List([])), MESSAGE_KEYS) == (GQL_DATA, id, Null)
    ensures Read(Response("da\0ta", id, Null), MESSAGE_KEYS) == ("da", id, Null)
  {
    DifferentTypes();
    CStringWhole(GQL_DATA);
    ResponseRead(GQL_DATA, id, List([]));
    ResponseRead("da\0ta", id, Null);
    assert "da\0ta"[1..] == "a\0ta" && "a\0ta"[1..] == "\0ta";
    assert CString("\0ta") == "" && CString("a\0ta") == "a" && CString("da\0ta") == "da";
  }

  /** The status an error maps to; the only known prefix must be a proper one. */
  function ErrorStatus(message: string): int {
    if |message| > |TOKEN_ERROR_PREFIX| && message[..|TOKEN_ERROR_PREFIX|] == TOKEN_ERROR_PREFIX then HTTP_UNAUTHORIZED
    else HTTP_BAD_REQUEST
  }

  function ErrorPayload(what: string): Value {
    Map([Member(GQL_MESSAGE, String(CString(what))), Member(GQL_STATUS_CODE, Int(ErrorStatus(CString(what))))])
  }

  method CreateErrorResponse(type_: string, id: string, what: string) returns (response: Value)
    ensures response == Map(Response(type_, id, ErrorPayload(what)))
    ensures |response.members| == (if id == "" then 2 else 3) && response.members[0] == Member("type", String(CString(type_)))
    ensures id != "" ==> response.members[1] == Member("id", String(id))
    ensures var last := response.members[|response.members| - 1];
      && last.key == "payload" && last.value.Map? && |last.value.members| == 2
      && last.value.members[0] == Member("message", String(CString(what)))
      && last.value.members[1] == Member("statusCode", Int(if "Token error: " < CString(what) then 401 else 400))
  {
    var errorMapping := [(TOKEN_ERROR_PREFIX, HTTP_UNAUTHORIZED)];
    var message := CString(what);
    var statusCode := HTTP_BAD_REQUEST;
    for i := 0 to |errorMapping|
      invariant statusCode == if i == 0 then HTTP_BAD_REQUEST else ErrorStatus(message)
    {
      var prefix := errorMapping[i].0;
      if |message| > |prefix| && message[..|prefix|] == prefix {
        statusCode := errorMapping[i].1;
        break;
      }
    }
    var error := Map([Member(GQL_MESSAGE, String(message)), Member(GQL_STATUS_CODE, Int(statusCode))]);
    response := CreateResponse(type_, id, error);
  }

  /** `InvalidToken` puts its prefix before the reason. */
  function InvalidTokenText(reason: string): string {
    TOKEN_ERROR_PREFIX + reason
  }

  // ---------------------------------------------------------------- answering over HTTP

  function Find(ms: seq<Member>, key: string): Option<Value> {
    if ms == [] then None else if ms[0].key == key then Some(ms[0].value) else Find(ms[1..], key)
  }

  /** Exactly the first member under the key is found, whatever its value. */
  lemma {:induction false} FindsFirst(ms: seq<Member>, key: string)
    ensures Find(ms, key).None? <==> forall i | 0 <= i < |ms| :: ms[i].key != key
    ensures Find(ms, key).Some? ==> exists i | 0 <= i < |ms| ::
      ms[i] == Member(key, Find(ms, key).value) && forall j | 0 <= j < i :: ms[j].key != key
  {
    if ms == [] {
    } else if ms[0].key == key {
      assert ms[0] == Member(key, Find(ms, key).value);
    } else {
      FindsFirst(ms[1..], key);
      assert forall i | 0 < i < |ms| :: ms[i] == ms[1..][i - 1];
      if Find(ms, key).Some? {
        var i :| 0 <= i < |ms[1..]| && ms[1..][i] == Member(key, Find(ms, key).value) && forall j | 0 <= j < i :: ms[1..][j].key != key;
        assert ms[i + 1] == Member(key, Find(ms, key).value);
      }
    }
  }

  ghost predicate HasKey(ms: seq<Member>, key: string) {
    exists i | 0 <= i < |ms| :: ms[i].key == key
  }

  /** `v` is the value of the first member under `key`. */
  ghost predicate IsFirst(ms: seq<Member>, key: string, v: Value) {
    exists i | 0 <= i < |ms| :: ms[i] == Member(key, v) && forall j | 0 <= j < i :: ms[j].key != key
  }

  /** The statuses, literally. */
  lemma StatusTable(type_: string, payload: Value)
    ensures HttpStatus(type_, payload).None? <==> type_ == "complete"
    ensures type_ == "data" && payload.Map? ==> HttpStatus(type_, payload) == Some(if HasKey(payload.members, "data") then 200 else 400)
    ensures type_ == "error" || type_ == "connection_error" ==>
      && (payload.Map? ==> forall n :: IsFirst(payload.members, "statusCode", Int(n)) ==> HttpStatus(type_, payload) == Some(n))
      && ((payload.Map? ==> forall n :: !IsFirst(payload.members, "statusCode", Int(n))) ==> HttpStatus(type_, payload) == Some(400))
    ensures type_ !in {"complete", "error", "connection_error"} && !(type_ == "data" && payload.Map?) ==>
      HttpStatus(type_, payload) == Some(501)
  {
    DifferentTypes();
    if payload.Map? {
      FindsFirst(payload.members, "data");
      FindsFirst(payload.members, "statusCode");
    }
  }

  /** The status of the HTTP answer a reply leads to; the completion of an operation leads to none. */
  function HttpStatus(type_: string, payload: Value): Option<int> {
    if type_ == GQL_COMPLETE then None
    else if type_ == GQL_DATA && payload.Map? then
      Some(if Find(payload.members, GQL_DATA).Some? then HTTP_OK else HTTP_BAD_REQUEST)
    else if type_ == GQL_ERROR || type_ == GQL_CONNECTION_ERROR then
      if payload.Map? && Find(payload.members, GQL_STATUS_CODE).Some? && Find(payload.members, GQL_STATUS_CODE).value.Int? then
        Some(Find(payload.members, GQL_STATUS_CODE).value.number)
      else Some(HTTP_BAD_REQUEST)
    else Some(HTTP_NOT_IMPLEMENTED)
  }

  datatype Answer = Answer(statusCode: int, body: Value)

  /** What `onHttpReply` answers to a message: its status and, as body, its payload. */
  function Answered(response: Value): Option<Answer>
    requires response.Map?
  {
    var parts := Read(response.members, MESSAGE_KEYS);
    var status := HttpStatus(parts.0, parts.2);
    if status.Some? then Some(Answer(status.value, parts.2)) else None
  }

  /** Only an object can be taken apart; anything else would end the program. */
  method OnHttpReply(response: Value) returns (answer: Option<Answer>)
    requires response.Map?
    ensures answer == Answered(response)
    ensures forall type_, payload :: IsFirstText(response.members, "type", type_) && IsFirstMap(response.members, "payload", payload) ==>
      if type_ == "complete" then answer == None
      else answer.Some? && Some(answer.value.statusCode) == HttpStatus(type_, payload) && answer.value.body == payload
  {
    var message := ToMessageParts(response);
    var (type_, id, payload) := message.value;
    OnlyFirsts(response.members, "type", type_, Null);
    OnlyFirsts(response.members, "payload", "", payload);
    if type_ == GQL_COMPLETE {
      return None;
    }
    var statusCode := HTTP_NOT_IMPLEMENTED;
    if type_ == GQL_DATA && payload.Map? {
      if Find(payload.members, GQL_DATA).Some? {
        statusCode := HTTP_OK;
      } else {
        statusCode := HTTP_BAD_REQUEST;
      }
    } else if type_ == GQL_ERROR || type_ == GQL_CONNECTION_ERROR {
      statusCode := HTTP_BAD_REQUEST;
      if payload.Map? {
        var itr := Find(payload.members, GQL_STATUS_CODE);
        if itr.Some? && itr.value.Int? {
          statusCode := itr.value.number;
        }
      }
    }
    return Some(Answer(statusCode, payload));
  }

  lemma DifferentTypes()
    ensures GQL_DATA != GQL_COMPLETE && GQL_DATA != GQL_ERROR && GQL_DATA != GQL_CONNECTION_ERROR
    ensures GQL_COMPLETE != GQL_CONNECTION_ERROR && GQL_MESSAGE != GQL_STATUS_CODE
    ensures '\0' !in GQL_DATA && '\0' !in GQL_COMPLETE && '\0' !in GQL_CONNECTION_ERROR
  {
    assert |GQL_DATA| == 4 && |GQL_COMPLETE| == 8 && |GQL_ERROR| == 5 && |GQL_CONNECTION_ERROR| == 16;
    assert |GQL_MESSAGE| == 7 && |GQL_STATUS_CODE| == 10;
  }

  /** A result arrives unchanged, as 200 when it has data; its completion adds nothing. */
  lemma DataAnswer(id: string, result: Value)
    requires result.Map?
    ensures Answered(Map(Response(GQL_DATA, id, result)))
            == Some(Answer(if Find(result.members, GQL_DATA).Some? then HTTP_OK else HTTP_BAD_REQUEST, result))
    ensures Answered(Map(Response(GQL_COMPLETE, id, Null))) == None
  {
    DifferentTypes();
    CStringWhole(GQL_DATA);
    CStringWhole(GQL_COMPLETE);
    ResponseRead(GQL_DATA, id, result);
    ResponseRead(GQL_COMPLETE, id, Null);
  }

  /** A refused token maps to 401 exactly when it comes with a reason, any other error to 400. */
  lemma UnauthorizedExactly(message: string)
    ensures ErrorStatus(message) == HTTP_UNAUTHORIZED <==> exists reason :: reason != "" && message == InvalidTokenText(reason)
    ensures ErrorStatus(message) != HTTP_UNAUTHORIZED ==> ErrorStatus(message) == HTTP_BAD_REQUEST
  {
    if ErrorStatus(message) == HTTP_UNAUTHORIZED {
      assert message == InvalidTokenText(message[|TOKEN_ERROR_PREFIX|..]);
    }
    forall reason: string | reason != "" && message == InvalidTokenText(reason)
      ensures ErrorStatus(message) == HTTP_UNAUTHORIZED
    {
      assert message[..|TOKEN_ERROR_PREFIX|] == TOKEN_ERROR_PREFIX;
    }
  }

  /** A refused token without a reason is no 401. */
  lemma NoReason()
    ensures ErrorStatus(InvalidTokenText("")) == HTTP_BAD_REQUEST
  {
  }

  /** An error arrives with the status it maps to. */
  lemma ErrorAnswer(id: string, what: string)
    ensures Answered(Map(Response(GQL_CONNECTION_ERROR, id, ErrorPayload(what))))
            == Some(Answer(ErrorStatus(CString(what)), ErrorPayload(what)))
  {
    hide ErrorStatus, CString, Read, Response;
    DifferentTypes();
    CStringWhole(GQL_CONNECTION_ERROR);
    ResponseRead(GQL_CONNECTION_ERROR, id, ErrorPayload(what));
    FoundStatus(String(CString(what)), Int(ErrorStatus(CString(what))));
  }

  lemma FoundStatus(message: Value, status: Value)
    ensures Find([Member(GQL_MESSAGE, message), Member(GQL_STATUS_CODE, status)], GQL_STATUS_CODE) == Some(status)
  {
    DifferentTypes();
    var ms := [Member(GQL_MESSAGE, message), Member(GQL_STATUS_CODE, status)];
    assert ms[1..][0] == Member(GQL_STATUS_CODE, status);
  }
}
