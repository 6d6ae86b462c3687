/** How an answer of the Telegram Bot API to a news request is classified. */
module NewsReceipts {
  import opened Text

  datatype Json = Null | Bool(value: bool) | Int(number: int) | Str(text: string) | List(items: seq<Json>)
    | Object(fields: map<string, Json>)

  /** `Unknown` stands for every exception that leaves the outcome open. */
  datatype Reply = Unknown | RateLimited(seconds: int) | RemoteMediaRejected | Rejected | Delivered(ids: seq<int>) {
    predicate Refuses() { RateLimited? || RemoteMediaRejected? || Rejected? }
  }

  /** Library calls: reading a number out of a text, and finding a download error in a description. */
  datatype Reader = Reader(parseInt: string -> Option<int>, namesUrlError: Option<Json> -> bool)

  function Get(j: Json, name: string): Option<Json> {
    if j.Object? && name in j.fields then Some(j.fields[name]) else None
  }

  predicate Falsy(j: Json) {
    match j
    case Null => true
    case Bool(b) => !b
    case Int(n) => n == 0
    case Str(s) => s == ""
    case List(items) => items == []
    case Object(fields) => fields == map[]
  }

  /** The pause asked for by a 429, or nothing if it cannot be read. */
  function RetryAfter(reader: Reader, body: Json): Option<int> {
    match Get(body, "parameters")
    case None => Some(60)
    case Some(parameters) =>
      if Falsy(parameters) then Some(60)
      else if !parameters.Object? then None
      else
        match Get(parameters, "retry_after")
        case None => Some(60)
        case Some(Int(n)) => Some(n)
        case Some(Bool(b)) => Some(if b then 1 else 0)
        case Some(Str(s)) => reader.parseInt(s)
        case _ => None
  }

  function Clamp(seconds: int): int {
    if seconds > 86400 then 86400 else if seconds < 1 then 1 else seconds
  }

  function ErrorCode(status: int, body: Json): Option<int> {
    match Get(body, "error_code")
    case None => Some(status)
    case Some(Int(n)) => Some(n)
    case _ => None
  }

  function Messages(body: Json): seq<Json> {
    match Get(body, "result")
    case Some(List(items)) => items
    case Some(other) => [other]
    case None => [Null]
  }

  predicate HasId(message: Json) {
    Get(message, "message_id").Some? && Get(message, "message_id").value.Int?
  }

  predicate Denies(body: Option<Json>) {
    body.Some? && Get(body.value, "ok") == Some(Bool(false))
  }

  function ParseDenial(reader: Reader, status: int, body: Json, remoteMedia: bool): Reply {
    match ErrorCode(status, body)
    case None => Unknown
    case Some(code) =>
      if code >= 500 then Unknown
      else if code == 429 then
        match RetryAfter(reader, body)
        case None => Unknown
        case Some(seconds) => RateLimited(Clamp(seconds))
      else if remoteMedia && status == 400 && code == 400 && reader.namesUrlError(Get(body, "description")) then
        RemoteMediaRejected
      else Rejected
  }

  /** The message ids, in order; stops at the first message without one. */
  function Ids(messages: seq<Json>): Option<seq<int>> {
    if messages == [] then Some([])
    else if !HasId(messages[0]) then None
    else
      match Ids(messages[1..])
      case None => None
      case Some(rest) => Some([Get(messages[0], "message_id").value.number] + rest)
  }

  function ParseReceipt(reader: Reader, status: int, body: Option<Json>, expected: nat, remoteMedia: bool): Reply {
    if status >= 500 then Unknown
    else if Denies(body) then ParseDenial(reader, status, body.value, remoteMedia)
    else if body.None? || Get(body.value, "ok") != Some(Bool(true)) || !(200 <= status < 300) then Unknown
    else if |Messages(body.value)| != expected then Unknown
    else
      match Ids(Messages(body.value))
      case None => Unknown
      case Some(ids) => Delivered(ids)
  }

  lemma {:induction false} IdsExact(messages: seq<Json>)
    ensures Ids(messages).Some? <==> forall m <- messages :: HasId(m)
    ensures Ids(messages).Some? ==>
      && |Ids(messages).value| == |messages|
      && forall k :: 0 <= k < |messages| ==> Get(messages[k], "message_id") == Some(Int(Ids(messages).value[k]))
  {
    if messages != [] {
      IdsExact(messages[1..]);
      assert messages == [messages[0]] + messages[1..];
    }
  }

  /**
   A send counts as refused only on an explicit denial below 500, and then always, unless a 429 names no readable
   pause.
   */
  lemma RefusedExactly(reader: Reader, status: int, body: Option<Json>, expected: nat, remoteMedia: bool)
    ensures ParseReceipt(reader, status, body, expected, remoteMedia).Refuses() <==>
      && status < 500 && Denies(body)
      && ErrorCode(status, body.value).Some? && ErrorCode(status, body.value).value < 500
      && (ErrorCode(status, body.value).value == 429 ==> RetryAfter(reader, body.value).Some?)
  {
  }

  /** The body denies the request, with a code below 500 of its own or of the answer. */
  ghost predicate DeniesWith(status: int, body: Option<Json>, code: int) {
    && status < 500 && code < 500 && body.Some? && body.value.Object?
    && "ok" in body.value.fields && body.value.fields["ok"] == Bool(false)
    && (if "error_code" in body.value.fields then body.value.fields["error_code"] == Int(code) else code == status)
  }

  /** The pause that a body asks for: 60 seconds when it names none. */
  ghost predicate AsksPause(reader: Reader, body: Json, pause: int)
    requires body.Object?
  {
    if "parameters" !in body.fields
      || body.fields["parameters"] in {Null, Bool(false), Int(0), Str(""), List([]), Object(map[])} then pause == 60
    else if !body.fields["parameters"].Object? then false
    else
      var parameters := body.fields["parameters"].fields;
      if "retry_after" !in parameters then pause == 60
      else
        match parameters["retry_after"]
        case Int(n) => pause == n
        case Bool(b) => pause == if b then 1 else 0
        case Str(s) => reader.parseInt(s) == Some(pause)
        case _ => false
  }

  ghost predicate NamesDownload(reader: Reader, body: Json)
    requires body.Object?
  {
    reader.namesUrlError(if "description" in body.fields then Some(body.fields["description"]) else None)
  }

  /**
   Which refusal an answer is: a rate limit exactly for a denial with code 429 and a readable pause, which is kept
   between a second and a day; a download error exactly for remote media with 400 twice and its description; any other
   denial is a plain rejection.
   */
  lemma RefusalsExactly(reader: Reader, status: int, body: Option<Json>, expected: nat, remoteMedia: bool)
    ensures var r := ParseReceipt(reader, status, body, expected, remoteMedia);
      && (r.RateLimited? <==> DeniesWith(status, body, 429) && exists pause :: AsksPause(reader, body.value, pause))
      && (r.RateLimited? ==> 1 <= r.seconds <= 86400 && forall pause :: AsksPause(reader, body.value, pause) ==>
            r.seconds == if pause < 1 then 1 else if pause > 86400 then 86400 else pause)
      && (r.RemoteMediaRejected? <==>
            remoteMedia && status == 400 && DeniesWith(status, body, 400) && NamesDownload(reader, body.value))
      && (r.Rejected? <==>
            && (exists code :: DeniesWith(status, body, code) && code != 429)
            && !(remoteMedia && status == 400 && DeniesWith(status, body, 400) && NamesDownload(reader, body.value)))
  {
    var r := ParseReceipt(reader, status, body, expected, remoteMedia);
    if body.Some? && body.value.Object? {
      PauseExactly(reader, body.value);
      assert forall code :: DeniesWith(status, body, code) <==>
        status < 500 && Denies(body) && ErrorCode(status, body.value) == Some(code) && code < 500;
    }
    hide RetryAfter, AsksPause;
  }

  lemma PauseExactly(reader: Reader, body: Json)
    requires body.Object?
    ensures forall pause :: AsksPause(reader, body, pause) <==> RetryAfter(reader, body) == Some(pause)
  {
  }

  /** The messages that a body reports: the listed ones, a single one, or none at all as one without an id. */
  ghost predicate Reports(body: Json, messages: seq<Json>) {
    match Get(body, "result")
    case None => messages == [Null]
    case Some(result) => messages == if result.List? then result.items else [result]
  }

  /** A send counts as delivered only on a success that names as many messages as were sent, each with its id. */
  lemma DeliveredExactly(reader: Reader, status: int, body: Option<Json>, expected: nat, remoteMedia: bool,
                         messages: seq<Json>)
    requires body.Some? ==> Reports(body.value, messages)
    ensures ParseReceipt(reader, status, body, expected, remoteMedia).Delivered? <==>
      && 200 <= status < 300 && body.Some? && Get(body.value, "ok") == Some(Bool(true))
      && |messages| == expected && forall m <- messages :: Get(m, "message_id").Some? && Get(m, "message_id").value.Int?
    ensures ParseReceipt(reader, status, body, expected, remoteMedia).Delivered? ==>
      var ids := ParseReceipt(reader, status, body, expected, remoteMedia).ids;
      |ids| == expected && forall k :: 0 <= k < expected ==> Get(messages[k], "message_id") == Some(Int(ids[k]))
  {
    if body.Some? { IdsExact(Messages(body.value)); }
  }
}
