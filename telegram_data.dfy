/** `src/finder/telegram_logic/data.py`: the `Message` read out of a Telegram
    update, a JSON document decoded into Python values. */
module TelegramData {
  import opened Wrappers
  import opened Exceptions

  /** A decoded JSON value (`Null` is Python's None). Numbers are integers here. */
  datatype Json =
    | Null
    | Bool(b: bool)
    | Int(i: int)
    | Str(s: string)
    | List(items: seq<Json>)
    | Dict(entries: map<string, Json>)

  /** The Python type name of a decoded value, as AttributeError texts show it. */
  function TypeName(j: Json): string
  {
    match j
    case Null => "NoneType"
    case Bool(_) => "bool"
    case Int(_) => "int"
    case Str(_) => "str"
    case List(_) => "list"
    case Dict(_) => "dict"
  }

  /** `obj.get(key, default)`: a dict answers with the value under `key`, or
      `default` when the key is missing; any other value has no `get`. */
  function DictGet(obj: Json, key: string, default: Json): (r: Result<Json, string>)
    ensures obj.Dict? && key in obj.entries ==> r == Success(obj.entries[key])
    ensures obj.Dict? && key !in obj.entries ==> r == Success(default)
    ensures !obj.Dict? ==> r == Failure(AttributeErrorText(TypeName(obj), "get"))
  {
    if !obj.Dict? then Failure(AttributeErrorText(TypeName(obj), "get"))
    else if key in obj.entries then Success(obj.entries[key])
    else Success(default)
  }

  /** The value under `key` when `j` is a dict holding it. */
  function Field(j: Json, key: string): Option<Json>
  {
    if j.Dict? && key in j.entries then Some(j.entries[key]) else None
  }

  /** `Message`: the chat to answer and the text sent, None when missing. */
  datatype Message = Message(chatId: Json, orderId: Json)

  /** The updates `Message` can read: a dict whose `message`, when present, is
      a dict whose `chat`, when present, is a dict. */
  predicate WellShaped(data: Json) {
    && data.Dict?
    && (Field(data, "message").None? || MessageShaped(Field(data, "message").value))
  }

  predicate MessageShaped(raw: Json) {
    raw.Dict? && (Field(raw, "chat").None? || Field(raw, "chat").value.Dict?)
  }

  /** `Message(data)`: `__post_init__` reads `message.chat.id` into `chat_id` and
      `message.text` into `order_id`, a missing `message` or `chat` standing for `{}`. */
  function ParseMessage(data: Json): (r: Result<Message, string>)
    ensures r.Success? <==> WellShaped(data)
    ensures !data.Dict? ==> r == Failure(AttributeErrorText(TypeName(data), "get"))
    // A missing `message` gives two Nones.
    ensures data.Dict? && "message" !in data.entries ==> r == Success(Message(Null, Null))
    // The fields are copied as they are, without conversion.
    ensures r.Success? ==>
              var raw := if "message" in data.entries then data.entries["message"] else Dict(map[]);
              r.value.orderId == (if Field(raw, "text").Some? then Field(raw, "text").value else Null)
    ensures r.Success? ==>
              var raw := if "message" in data.entries then data.entries["message"] else Dict(map[]);
              var chat := if Field(raw, "chat").Some? then Field(raw, "chat").value else Dict(map[]);
              r.value.chatId == (if Field(chat, "id").Some? then Field(chat, "id").value else Null)
  {
    var rawMessage :- DictGet(data, "message", Dict(map[]));
    var chat :- DictGet(rawMessage, "chat", Dict(map[]));
    var chatId :- DictGet(chat, "id", Null);
    // `rawMessage` answered `get` above, so it is a dict and this `get` cannot raise.
    var orderId := DictGet(rawMessage, "text", Null).value;
    Success(Message(chatId, orderId))
  }

  /** The shape of a Telegram text-message update carrying `m`'s fields. */
  function Update(m: Message): Json
  {
    Dict(map["message" := Dict(map["chat" := Dict(map["id" := m.chatId]), "text" := m.orderId])])
  }

  /** Reading a message out of the update that carries it gives it back. */
  lemma ParseUpdate(m: Message)
    ensures ParseMessage(Update(m)) == Success(m)
  {
  }

  /** A message whose `chat` is missing has no chat id but still has its text. */
  lemma MissingChatKeepsText(text: Json)
    ensures ParseMessage(Dict(map["message" := Dict(map["text" := text])])) == Success(Message(Null, text))
  {
  }

  /** `to_dict()`: exactly the keys `chat_id` and `order_id`, with the fields' values. */
  function ToDict(m: Message): (d: Json)
    ensures d.Dict? && d.entries.Keys == {"chat_id", "order_id"}
    ensures d.entries["chat_id"] == m.chatId && d.entries["order_id"] == m.orderId
  {
    Dict(map["chat_id" := m.chatId, "order_id" := m.orderId])
  }
}
