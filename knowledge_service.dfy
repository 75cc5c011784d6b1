/**
 * The knowledge base (services/knowledge_service.py): the extraction rule
 * that decides whether a question/answer pair is worth remembering, and the
 * service that keeps the remembered entries in memory and in their own store.
 */
module KnowledgeBase {
  import opened Python
  import opened Storage
  import KnowledgeModel

  /** Phrases that mark a question as asking for an explanation. */
  const Triggers: seq<string> := ["explain", "what is", "define", "describe", "how does", "why"]

  /** An answer must be strictly longer than this to be remembered. */
  const MinAnswerLength: nat := 50

  /** How much of the question becomes the topic. */
  const TopicLength: nat := 100

  /** How much of the answer becomes the content. */
  const ContentLength: nat := 300

  /** `any(keyword in text for keyword in keywords)` */
  function AnyIn(text: string, keywords: seq<string>): (b: bool)
    ensures b <==> exists k :: k in keywords && Contains(text, k)
  {
    if keywords == [] then false
    else Contains(text, keywords[0]) || AnyIn(text, keywords[1..])
  }

  /** `v` is the string made of the first `min(cap, |s|)` characters of `s`. */
  predicate IsCappedPrefix(v: Value, s: string, cap: nat)
  {
    v.Str? && v.s <= s && |v.s| == Min(cap, |s|)
  }

  /**
   * `extract_knowledge`: an entry is produced exactly when the lower-cased
   * question holds a trigger phrase and the answer is longer than 50
   * characters. It reads no service state.
   */
  function ExtractKnowledge(question: string, answer: string): (r: Option<Record>)
    ensures r.Some? <==>
              (exists k :: k in Triggers && Contains(Lower(question), k)) && |answer| > MinAnswerLength
    ensures r.Some? ==>
              && r.value.Keys == {"topic", "content", "question", "answer"}
              && IsCappedPrefix(r.value["topic"], question, TopicLength)
              && IsCappedPrefix(r.value["content"], answer, ContentLength)
              && r.value["question"] == Str(question)
              && r.value["answer"] == Str(answer)
  {
    if AnyIn(Lower(question), Triggers) && |answer| > MinAnswerLength then
      Some(map["topic" := Str(SliceTo(question, TopicLength)),
               "content" := Str(SliceTo(answer, ContentLength)),
               "question" := Str(question),
               "answer" := Str(answer)])
    else
      None
  }

  /** The answer-length test is strict: 50 characters are refused, 51 accepted. */
  lemma {:induction false} ExtractLengthBoundary(question: string, short: string, long: string)
    requires AnyIn(Lower(question), Triggers)
    requires |short| == 50 && |long| == 51
    ensures ExtractKnowledge(question, short) == None
    ensures ExtractKnowledge(question, long).Some?
  {
  }

  /** The worked examples of the extraction rule: an explanatory question is kept, a greeting is not. */
  lemma {:induction false} ExtractExamples(answer: string)
    requires |answer| > MinAnswerLength
    ensures ExtractKnowledge("What is entropy?", answer).Some?
    ensures ExtractKnowledge("What is entropy?", answer).value["topic"] == Str("What is entropy?")
    ensures ExtractKnowledge("What is entropy?", answer).value["content"] == Str(SliceTo(answer, 300))
    ensures ExtractKnowledge("Hello there", "short") == None
  {
    assert Lower("What is entropy?")[0..7] == "what is";
    assert OccursAt(Lower("What is entropy?"), "what is", 0);
  }

  /**
   * An extracted entry, once add_knowledge has stamped it, has exactly the
   * fields of a KnowledgeEntry, so `KnowledgeEntry.from_dict` accepts it.
   */
  lemma {:induction false} StampedEntryIsKnowledgeEntry(question: string, answer: string, now: string)
    requires ExtractKnowledge(question, answer).Some?
    ensures var stamped := ExtractKnowledge(question, answer).value["timestamp" := Str(now)];
      && KnowledgeModel.FromDict(stamped).Ok?
      && KnowledgeModel.FromDict(stamped).value.question == Str(question)
      && KnowledgeModel.FromDict(stamped).value.answer == Str(answer)
      && KnowledgeModel.FromDict(stamped).value.timestamp == Str(now)
  {
    var stamped := ExtractKnowledge(question, answer).value["timestamp" := Str(now)];
    assert stamped.Keys == KnowledgeModel.EntryFields;
  }

  /** The boundary on a concrete question: "Why ..." with a 51-character answer is kept, with 50 it is not. */
  lemma {:induction false} ExtractBoundaryExample(short: string, long: string)
    requires |short| == 50 && |long| == 51
    ensures ExtractKnowledge("Why is the sky blue", long).Some?
    ensures ExtractKnowledge("Why is the sky blue", short) == None
  {
    assert Lower("Why is the sky blue")[0..3] == "why";
    assert OccursAt(Lower("Why is the sky blue"), "why", 0);
  }

  /** `entry.get(key, '').lower()`: a missing key reads as '', and None has no `lower`. */
  function FieldLower(entry: Record, key: string): (r: Result<string>)
    ensures r.Err? <==> key in entry && entry[key].Null?
    ensures r.Err? ==> r.error == AttributeError(key)
    ensures key !in entry ==> r == Ok("")
    ensures key in entry && entry[key].Str? ==> r == Ok(Lower(entry[key].s))
    ensures key in entry && entry[key].Str? ==> r.Ok? && |r.value| == |entry[key].s| && IsLowerCase(r.value)
  {
    if key !in entry then Ok("")
    else match entry[key]
      case Str(s) => Ok(Lower(s))
      case Null => Err(AttributeError(key))
  }

  /**
   * The test search_knowledge applies to one entry, with `or`
   * short-circuiting: the content is read only when the topic does not match.
   */
  function Matches(entry: Record, queryLower: string): (r: Result<bool>)
    ensures r.Err? ==> r.error == AttributeError("topic") || r.error == AttributeError("content")
    ensures FieldLower(entry, "topic").Err? ==> r == Err(AttributeError("topic"))
    ensures FieldLower(entry, "topic").Ok? && Contains(FieldLower(entry, "topic").value, queryLower) ==> r == Ok(true)
    ensures r == Ok(true) ==>
              && FieldLower(entry, "topic").Ok?
              && (|| Contains(FieldLower(entry, "topic").value, queryLower)
                  || (FieldLower(entry, "content").Ok? && Contains(FieldLower(entry, "content").value, queryLower)))
  {
    match FieldLower(entry, "topic")
    case Err(e) => Err(e)
    case Ok(topic) =>
      if Contains(topic, queryLower) then Ok(true)
      else match FieldLower(entry, "content")
        case Err(e) => Err(e)
        case Ok(content) => Ok(Contains(content, queryLower))
  }

  /**
   * The topic and the content are tested independently: a content hit
   * matches too, and the test raises exactly when the topic is None, or the
   * topic misses and the content is None.
   */
  lemma {:induction false} MatchesEither(entry: Record, queryLower: string)
    ensures (&& FieldLower(entry, "topic").Ok? && FieldLower(entry, "content").Ok?
             && Contains(FieldLower(entry, "content").value, queryLower)) ==> Matches(entry, queryLower) == Ok(true)
    ensures Matches(entry, queryLower).Err? <==>
              || FieldLower(entry, "topic").Err?
              || (!Contains(FieldLower(entry, "topic").value, queryLower) && FieldLower(entry, "content").Err?)
  {
  }

  /** The entries of `entries`, in order, that match `queryLower`; the first failing test raises. */
  function Search(entries: seq<Record>, queryLower: string): (r: Result<seq<Record>>)
    ensures r.Ok? ==> |r.value| <= |entries|
    decreases |entries|
  {
    if entries == [] then Ok([])
    else
      match Search(entries[..|entries| - 1], queryLower)
      case Err(e) => Err(e)
      case Ok(found) =>
        var last := entries[|entries| - 1];
        match Matches(last, queryLower)
        case Err(e) => Err(e)
        case Ok(hit) => Ok(if hit then found + [last] else found)
  }

  /** `xs` is `ys` with some elements left out and the rest kept in order. */
  ghost predicate IsSubsequence<T>(xs: seq<T>, ys: seq<T>)
    decreases |ys|
  {
    if xs == [] then true
    else if ys == [] then false
    else (xs[|xs| - 1] == ys[|ys| - 1] && IsSubsequence(xs[..|xs| - 1], ys[..|ys| - 1]))
         || IsSubsequence(xs, ys[..|ys| - 1])
  }

  /** A search raises exactly when the test raises on some entry. */
  lemma {:induction false} SearchFails(entries: seq<Record>, queryLower: string)
    ensures Search(entries, queryLower).Err? <==>
              exists i :: 0 <= i < |entries| && Matches(entries[i], queryLower).Err?
    decreases |entries|
  {
    if entries != [] {
      var init := entries[..|entries| - 1];
      SearchFails(init, queryLower);
      assert forall i :: 0 <= i < |init| ==> init[i] == entries[i];
    }
  }

  /**
   * A successful search keeps exactly the matching entries, in their order:
   * the result is a subsequence of the entries, everything in it matches,
   * every matching entry is in it, and it holds each matching record as
   * many times as the entries do.
   */
  lemma {:induction false} SearchSelects(entries: seq<Record>, queryLower: string)
    requires Search(entries, queryLower).Ok?
    ensures IsSubsequence(Search(entries, queryLower).value, entries)
    ensures forall e :: e in Search(entries, queryLower).value ==> Matches(e, queryLower) == Ok(true)
    ensures forall i :: 0 <= i < |entries| && Matches(entries[i], queryLower) == Ok(true) ==>
              entries[i] in Search(entries, queryLower).value
    ensures forall e :: multiset(Search(entries, queryLower).value)[e] ==
              if Matches(e, queryLower) == Ok(true) then multiset(entries)[e] else 0
  {
    SearchInOrder(entries, queryLower);
    SearchKeepsCopies(entries, queryLower);
  }

  /** A successful search is a subsequence of the entries that holds every matching entry and nothing else. */
  lemma {:induction false} SearchInOrder(entries: seq<Record>, queryLower: string)
    requires Search(entries, queryLower).Ok?
    ensures IsSubsequence(Search(entries, queryLower).value, entries)
    ensures forall e :: e in Search(entries, queryLower).value ==> Matches(e, queryLower) == Ok(true)
    ensures forall i :: 0 <= i < |entries| && Matches(entries[i], queryLower) == Ok(true) ==>
              entries[i] in Search(entries, queryLower).value
    decreases |entries|
  {
    if entries != [] {
      var init := entries[..|entries| - 1];
      var last := entries[|entries| - 1];
      SearchInOrder(init, queryLower);
      var found := Search(init, queryLower).value;
      var r := Search(entries, queryLower).value;
      SubsequenceExtend(found, init, last);
      forall i | 0 <= i < |entries| && Matches(entries[i], queryLower) == Ok(true)
        ensures entries[i] in r
      {
        if i < |init| {
          assert entries[i] == init[i];
        }
      }
    }
  }

  /** A successful search holds each matching record as often as the entries do, and no other record. */
  lemma {:induction false} SearchKeepsCopies(entries: seq<Record>, queryLower: string)
    requires Search(entries, queryLower).Ok?
    ensures forall e :: multiset(Search(entries, queryLower).value)[e] ==
              if Matches(e, queryLower) == Ok(true) then multiset(entries)[e] else 0
    decreases |entries|
  {
    if entries != [] {
      var init := entries[..|entries| - 1];
      var last := entries[|entries| - 1];
      assert entries == init + [last];
      SearchKeepsCopies(init, queryLower);
      var found := Search(init, queryLower).value;
      var r := Search(entries, queryLower).value;
      assert multiset(entries) == multiset(init) + multiset{last};
      assert r == (if Matches(last, queryLower) == Ok(true) then found + [last] else found);
    }
  }

  /** Appending the same element to both sides, or to the larger side only, keeps a subsequence. */
  lemma {:induction false} SubsequenceExtend<T>(xs: seq<T>, ys: seq<T>, y: T)
    requires IsSubsequence(xs, ys)
    ensures IsSubsequence(xs + [y], ys + [y])
    ensures IsSubsequence(xs, ys + [y])
    decreases |ys|
  {
    assert (xs + [y])[..|xs|] == xs;
    assert (ys + [y])[..|ys|] == ys;
  }

  /** The empty query matches every entry whose topic is not None, so it returns all of them. */
  lemma {:induction false} SearchEmptyQuery(entries: seq<Record>)
    ensures Search(entries, "").Ok? <==>
              forall i :: 0 <= i < |entries| ==> ("topic" in entries[i] ==> entries[i]["topic"].Str?)
    ensures Search(entries, "").Ok? ==> Search(entries, "").value == entries
    decreases |entries|
  {
    if entries != [] {
      var init := entries[..|entries| - 1];
      var last := entries[|entries| - 1];
      SearchEmptyQuery(init);
      assert forall i :: 0 <= i < |init| ==> init[i] == entries[i];
      MatchesEmpty(last);
      assert init + [last] == entries;
    }
  }

  /** Every topic contains the empty query, so only a None topic stops an entry from matching it. */
  lemma {:induction false} MatchesEmpty(entry: Record)
    ensures Matches(entry, "") ==
              if "topic" in entry && entry["topic"].Null? then Err(AttributeError("topic")) else Ok(true)
  {
    match FieldLower(entry, "topic") {
      case Ok(topic) => ContainsEmpty(topic);
      case Err(_) =>
    }
  }

  /** The knowledge service: its entries in memory and the store that persists them. */
  class KnowledgeService {
    const storage: Store
    var knowledge: seq<Record>

    /** Opens the knowledge store, whose file is found in state `initial`, and loads it. */
    constructor (initial: FileState)
      ensures fresh(storage)
      ensures initial.Missing? ==> storage.file == Holds([])
      ensures !initial.Missing? ==> storage.file == initial
      ensures knowledge == Loaded(storage.file)
    {
      var store := new Store(initial);
      var loaded := store.Load();
      storage := store;
      knowledge := loaded;
    }

    /**
     * `add_knowledge`: stamps the entry with `now`, overwriting any timestamp
     * it had, appends it, and rewrites the store with the whole list.
     */
    method AddKnowledge(entry: Record, now: string)
      modifies this, storage
      ensures knowledge == old(knowledge) + [entry["timestamp" := Str(now)]]
      ensures storage.file == Holds(knowledge)
    {
      var stamped := entry["timestamp" := Str(now)];
      knowledge := knowledge + [stamped];
      storage.Save(knowledge);
    }

    /** `get_all_knowledge`: every entry, in the order added. */
    method GetAllKnowledge() returns (entries: seq<Record>)
      ensures entries == knowledge
    {
      entries := knowledge;
    }

    /** `clear_knowledge`: forgets every entry and saves the empty list. */
    method ClearKnowledge()
      modifies this, storage
      ensures knowledge == []
      ensures storage.file == Holds([])
    {
      knowledge := [];
      storage.Save(knowledge);
    }

    /**
     * `search_knowledge`: the entries whose lower-cased topic or content
     * contains the lower-cased query, in their stored order. It changes nothing.
     */
    method SearchKnowledge(query: string) returns (r: Result<seq<Record>>)
      ensures r == Search(knowledge, Lower(query))
    {
      var queryLower := Lower(query);
      var results: seq<Record> := [];
      for i := 0 to |knowledge|
        invariant Search(knowledge[..i], queryLower) == Ok(results)
      {
        var entry := knowledge[i];
        assert knowledge[..i + 1][..i] == knowledge[..i];
        var hit := Matches(entry, queryLower);
        if hit.Err? {
          SearchFailsFrom(knowledge, i + 1, queryLower);
          return Err(hit.error);
        }
        if hit.value {
          results := results + [entry];
        }
      }
      assert knowledge[..|knowledge|] == knowledge;
      r := Ok(results);
    }
  }

  /** Once a prefix of the entries fails, the whole search fails with the same error. */
  lemma {:induction false} SearchFailsFrom(entries: seq<Record>, n: nat, queryLower: string)
    requires n <= |entries|
    requires Search(entries[..n], queryLower).Err?
    ensures Search(entries, queryLower) == Search(entries[..n], queryLower)
    decreases |entries| - n
  {
    if n < |entries| {
      assert entries[..n + 1][..n] == entries[..n];
      SearchFailsFrom(entries, n + 1, queryLower);
    } else {
      assert entries[..n] == entries;
    }
  }
}
