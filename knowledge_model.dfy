/**
 * The KnowledgeEntry record (models/knowledge.py) and its conversion to and
 * from a dict. Dataclass field annotations are not enforced at run time, so a
 * field holds whatever value the dict held under its name.
 */
module KnowledgeModel {
  import opened Python

  /** The dict keys of a knowledge entry, which are also the dataclass's field names. */
  const EntryFields: set<string> := {"topic", "content", "question", "answer", "timestamp"}

  datatype KnowledgeEntry = KnowledgeEntry(
    topic: Value,
    content: Value,
    question: Value,
    answer: Value,
    timestamp: Value)
  {
    /** `to_dict`: one key per field, each holding that field's value unchanged. */
    function ToDict(): (d: Record)
      ensures d.Keys == EntryFields
    {
      map["topic" := topic, "content" := content, "question" := question,
          "answer" := answer, "timestamp" := timestamp]
    }
  }

  /**
   * `from_dict`, i.e. `KnowledgeEntry(**data)`: every field must be supplied
   * and no other keyword is accepted; otherwise the call raises TypeError.
   */
  function FromDict(data: Record): (r: Result<KnowledgeEntry>)
    ensures r.Ok? <==> data.Keys == EntryFields
    ensures r.Err? ==> r.error == TypeError
  {
    if data.Keys == EntryFields then
      Ok(KnowledgeEntry(data["topic"], data["content"], data["question"], data["answer"], data["timestamp"]))
    else
      Err(TypeError)
  }

  /** Converting an entry to a dict and back gives the same entry. */
  lemma {:induction false} FromToDict(e: KnowledgeEntry)
    ensures FromDict(e.ToDict()) == Ok(e)
  {
  }

  /** Every dict that `from_dict` accepts is exactly the dict of the entry it builds. */
  lemma {:induction false} ToFromDict(data: Record)
    requires FromDict(data).Ok?
    ensures FromDict(data).value.ToDict() == data
  {
    var d := FromDict(data).value.ToDict();
    assert d.Keys == data.Keys;
    assert forall k :: k in d ==> d[k] == data[k];
  }
}
