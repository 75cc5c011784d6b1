/**
 * The conversation memory (services/memory_service.py): the chronological
 * chat log, kept in memory and rewritten to its own store on every change.
 */
module Memory {
  import opened Python
  import opened Storage
  import ConversationModel

  /** The record `add_message` stores for one chat turn. */
  function Turn(role: string, content: string, timestamp: string): (turn: Record)
    ensures turn.Keys == ConversationModel.RequiredFields
    ensures "role" in turn && turn["role"] == Str(role)
  {
    map["role" := Str(role), "content" := Str(content), "timestamp" := Str(timestamp)]
  }

  /** A stored turn is the dict of a Message with the given fields and no model. */
  lemma {:induction false} TurnIsMessage(role: string, content: string, now: string)
    ensures ConversationModel.FromDict(Turn(role, content, now)) ==
              Ok(ConversationModel.NewMessage(Str(role), Str(content), Str(now)))
  {
    assert Turn(role, content, now).Keys == ConversationModel.RequiredFields;
  }

  /**
   * `history[-limit:] if history else []`. For a positive limit this is the
   * last `limit` turns (all of them when there are fewer); Python reads
   * `history[-0:]` as `history[0:]`, so a limit of 0 gives the whole history,
   * and a negative limit drops that many turns from the front.
   */
  function Recent(history: seq<Record>, limit: int): (r: seq<Record>)
    ensures history == [] ==> r == []
    ensures limit >= 1 ==> |r| == Min(limit, |history|) && r == history[|history| - |r|..]
    ensures limit == 0 ==> r == history
    ensures limit < 0 ==> r == history[Min(-limit, |history|)..]
  {
    if history == [] then [] else SliceFrom(history, -limit)
  }

  /** What `get_conversation_summary` returns. */
  datatype Summary = Summary(totalMessages: nat, userMessages: nat, assistantMessages: nat)

  /** `sum(1 for msg in history if msg['role'] == role)`: a turn without a role raises KeyError. */
  function CountRole(history: seq<Record>, role: string): (r: Result<nat>)
    ensures r.Ok? <==> forall i :: 0 <= i < |history| ==> "role" in history[i]
    ensures r.Err? ==> r.error == KeyError("role")
    ensures r.Ok? ==> r.value <= |history|
  {
    if history == [] then Ok(0)
    else if "role" !in history[0] then Err(KeyError("role"))
    else match CountRole(history[1..], role)
      case Err(e) => Err(e)
      case Ok(n) => Ok(if history[0]["role"] == Str(role) then n + 1 else n)
  }

  /**
   * `get_conversation_summary`: the number of turns, and of turns whose role
   * is exactly 'user' and 'assistant'; it raises when some turn has no role.
   */
  function SummaryOf(history: seq<Record>): (r: Result<Summary>)
    ensures r.Ok? <==> forall i :: 0 <= i < |history| ==> "role" in history[i]
    ensures r.Err? ==> r.error == KeyError("role")
    ensures r.Ok? ==> r.value.totalMessages == |history|
  {
    match CountRole(history, "user")
    case Err(e) => Err(e)
    case Ok(users) =>
      match CountRole(history, "assistant")
      case Err(e) => Err(e)
      case Ok(assistants) => Ok(Summary(|history|, users, assistants))
  }

  /** No turn is both a user turn and an assistant turn, so the two counts never exceed the total. */
  lemma {:induction false} RoleCountsBounded(history: seq<Record>)
    requires SummaryOf(history).Ok?
    ensures SummaryOf(history).value.userMessages + SummaryOf(history).value.assistantMessages
              <= SummaryOf(history).value.totalMessages
    decreases |history|
  {
    if history != [] {
      RoleCountsBounded(history[1..]);
    }
  }

  /** Appending a turn with role `role` adds one to that role's count and leaves other counts alone. */
  lemma {:induction false} CountRoleAppend(history: seq<Record>, turn: Record, role: string)
    requires "role" in turn
    ensures CountRole(history + [turn], role) ==
              match CountRole(history, role)
              case Err(e) => Err(e)
              case Ok(n) => Ok(if turn["role"] == Str(role) then n + 1 else n)
    decreases |history|
  {
    if history == [] {
      assert [] + [turn] == [turn];
    } else {
      assert (history + [turn])[1..] == history[1..] + [turn];
      CountRoleAppend(history[1..], turn, role);
    }
  }

  /** The summary after add_message(role, ...) counts one more turn, and one more of that role. */
  lemma {:induction false} SummaryAfterAdd(history: seq<Record>, role: string, content: string, now: string)
    requires SummaryOf(history).Ok?
    ensures SummaryOf(history + [Turn(role, content, now)]).Ok?
    ensures var before := SummaryOf(history).value;
            var after := SummaryOf(history + [Turn(role, content, now)]).value;
            && after.totalMessages == before.totalMessages + 1
            && after.userMessages == before.userMessages + (if role == "user" then 1 else 0)
            && after.assistantMessages == before.assistantMessages + (if role == "assistant" then 1 else 0)
  {
    CountRoleAppend(history, Turn(role, content, now), "user");
    CountRoleAppend(history, Turn(role, content, now), "assistant");
  }

  /** The memory service: the chat log in memory and the store that persists it. */
  class MemoryService {
    const storage: Store
    var history: seq<Record>

    /** Opens the conversation store, whose file is found in state `initial`, and loads it. */
    constructor (initial: FileState)
      ensures fresh(storage)
      ensures initial.Missing? ==> storage.file == Holds([])
      ensures !initial.Missing? ==> storage.file == initial
      ensures history == Loaded(storage.file)
    {
      var store := new Store(initial);
      var loaded := store.Load();
      storage := store;
      history := loaded;
    }

    /**
     * `add_message`: appends the turn {role, content, timestamp} with role and
     * content exactly as given (no role is refused), then saves the whole log.
     */
    method AddMessage(role: string, content: string, now: string)
      modifies this, storage
      ensures history == old(history) + [Turn(role, content, now)]
      ensures storage.file == Holds(history)
    {
      var message := Turn(role, content, now);
      history := history + [message];
      storage.Save(history);
    }

    /** `get_recent_history` */
    method GetRecentHistory(limit: int) returns (recent: seq<Record>)
      ensures recent == Recent(history, limit)
    {
      recent := Recent(history, limit);
    }

    /** `get_all_history`: every turn, in the order added. */
    method GetAllHistory() returns (all: seq<Record>)
      ensures all == history
    {
      all := history;
    }

    /** `clear_history`: forgets every turn and saves the empty list. */
    method ClearHistory()
      modifies this, storage
      ensures history == []
      ensures storage.file == Holds([])
    {
      history := [];
      storage.Save(history);
    }

    /** `get_conversation_summary` */
    method GetConversationSummary() returns (summary: Result<Summary>)
      ensures summary == SummaryOf(history)
    {
      summary := SummaryOf(history);
    }
  }
}
