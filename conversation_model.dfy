/**
 * The Message record (models/conversation.py) and its conversion to and from
 * a dict. The `model` field is optional and defaults to None; as for the
 * knowledge entry, field annotations are not enforced at run time.
 */
module ConversationModel {
  import opened Python

  /** The keywords `Message(**data)` requires. */
  const RequiredFields: set<string> := {"role", "content", "timestamp"}

  /** Every keyword `Message(**data)` accepts. */
  const MessageFields: set<string> := RequiredFields + {"model"}

  datatype Message = Message(role: Value, content: Value, timestamp: Value, model: Value)
  {
    /** `to_dict`: one key per field, `model` included even when it is None. */
    function ToDict(): (d: Record)
      ensures d.Keys == MessageFields
      ensures "model" in d
    {
      map["role" := role, "content" := content, "timestamp" := timestamp, "model" := model]
    }
  }

  /** `Message(role, content, timestamp)`: the model is left at its default, None. */
  function NewMessage(role: Value, content: Value, timestamp: Value): (m: Message)
    ensures m.model == Null
    ensures m.role == role && m.content == content && m.timestamp == timestamp
  {
    Message(role, content, timestamp, Null)
  }

  /**
   * `from_dict`, i.e. `Message(**data)`: role, content and timestamp must be
   * supplied, model may be, and any other keyword raises TypeError.
   */
  function FromDict(data: Record): (r: Result<Message>)
    ensures r.Ok? <==> RequiredFields <= data.Keys <= MessageFields
    ensures r.Ok? && "model" !in data ==> r.value.model == Null
    ensures r.Err? ==> r.error == TypeError
  {
    if RequiredFields <= data.Keys <= MessageFields then
      Ok(Message(data["role"], data["content"], data["timestamp"],
                 if "model" in data then data["model"] else Null))
    else
      Err(TypeError)
  }

  /** Converting a message to a dict and back gives the same message. */
  lemma {:induction false} FromToDict(m: Message)
    ensures FromDict(m.ToDict()) == Ok(m)
  {
  }

  /**
   * A dict that `from_dict` accepts comes back from `to_dict` unchanged,
   * except that a missing `model` key now appears, holding None.
   */
  lemma {:induction false} ToFromDict(data: Record)
    requires FromDict(data).Ok?
    ensures FromDict(data).value.ToDict() == if "model" in data then data else data["model" := Null]
  {
    var d := FromDict(data).value.ToDict();
    var e := if "model" in data then data else data["model" := Null];
    assert d.Keys == e.Keys;
    assert forall k :: k in d ==> d[k] == e[k];
  }
}
