/**
 * The assistant's front to the language models (services/ai_service.py):
 * the API-key check made when the service is built, the context assembled
 * from the knowledge base and the recent conversation, the prompt, and the
 * choice of backend. The vendor clients are not modelled: each backend is a
 * function from prompt to reply, given by the caller.
 */
module AI {
  import opened Python

  /** The fixed opening of every context. */
  const Preamble: string := "You are an academic AI assistant. Help students clearly and accurately.\n\n"

  const KnowledgeHeader: string := "Knowledge Base:\n"

  const HistoryHeader: string := "Recent Conversation:\n"

  /** How many of the latest knowledge entries, and of the latest turns, the context shows. */
  const Window: nat := 5

  /** What separates the context from the user's message in the prompt. */
  const QuestionLabel: string := "\n\nUser Question: "

  /** `f"{d.get(key)}"`: the string held under `key`, or "None" when the key is missing or holds None. */
  function Shown(d: Record, key: string): (shown: string)
    ensures key in d && d[key].Str? ==> shown == d[key].s
    ensures key !in d || d[key].Null? ==> shown == "None"
  {
    if key in d && d[key].Str? then d[key].s else "None"
  }

  /** The line `_build_context` writes for one knowledge entry. */
  function KnowledgeLine(item: Record): (line: string)
    ensures "- " <= line && line[|line| - 1] == '\n'
    ensures |line| == |Shown(item, "topic")| + |Shown(item, "content")| + 5
  {
    "- " + Shown(item, "topic") + ": " + Shown(item, "content") + "\n"
  }

  /**
   * An entry's line is `- topic: content` and a newline, each field shown
   * as its string, or as "None" when it is missing or None.
   */
  lemma {:induction false} KnowledgeLineText(item: Record)
    ensures var line, t, c := KnowledgeLine(item), Shown(item, "topic"), Shown(item, "content");
      && line[..2] == "- "
      && line[2..2 + |t|] == t
      && line[2 + |t|..4 + |t|] == ": "
      && line[4 + |t|..|line| - 1] == c
      && line[|line| - 1] == '\n'
  {
  }

  /** The lines `render` writes for `items`, one after another in their order. */
  function Lines(items: seq<Record>, render: Record -> string): (lines: string)
    ensures items == [] ==> lines == ""
    ensures |items| == 1 ==> lines == render(items[0])
    decreases |items|
  {
    if items == [] then ""
    else Lines(items[..|items| - 1], render) + render(items[|items| - 1])
  }

  /** The lines of all of `items`, in order: nothing for no items, otherwise text ending in a newline. */
  function KnowledgeLines(items: seq<Record>): (lines: string)
    ensures lines == "" <==> items == []
    ensures items != [] ==> lines[|lines| - 1] == '\n'
  {
    Lines(items, KnowledgeLine)
  }

  /** `'user'.capitalize()`, the label of a turn stored without a role. */
  const DefaultRole: string := "User"

  lemma {:induction false} DefaultRoleIsCapitalizedUser()
    ensures Capitalize("user") == DefaultRole
  {
    assert Lower("ser") == "ser";
  }

  /** `msg.get('role', 'user').capitalize()`: a missing role reads as 'user', and None has no `capitalize`. */
  function RoleLabel(msg: Record): (r: Result<string>)
    ensures r.Ok? <==> !NullRole(msg)
    ensures r.Err? ==> r.error == AttributeError("role")
  {
    if "role" !in msg then Ok(DefaultRole)
    else match msg["role"]
      case Str(s) => Ok(Capitalize(s))
      case Null => Err(AttributeError("role"))
  }

  /** A missing role is labelled 'user'.capitalize(), and a string role is capitalised. */
  lemma {:induction false} RoleLabelCases(msg: Record)
    ensures "role" !in msg ==> RoleLabel(msg) == Ok(Capitalize("user"))
    ensures "role" in msg && msg["role"].Str? ==> RoleLabel(msg) == Ok(Capitalize(msg["role"].s))
  {
    DefaultRoleIsCapitalizedUser();
  }

  /** The line of a turn whose role can be read is `Role: content` and a newline. */
  lemma {:induction false} TurnLineText(msg: Record)
    requires TurnLine(msg).Ok?
    ensures var line, role, content := TurnLine(msg).value, RoleLabel(msg).value, Shown(msg, "content");
      && |line| == |role| + |content| + 3
      && line[..|role|] == role
      && line[|role|..|role| + 2] == ": "
      && line[|role| + 2..|line| - 1] == content
      && line[|line| - 1] == '\n'
  {
  }

  /** A turn whose role is present and None: rendering it raises. */
  predicate NullRole(msg: Record)
  {
    "role" in msg && msg["role"].Null?
  }

  /** The line `_build_context` writes for one turn. */
  function TurnLine(msg: Record): (r: Result<string>)
    ensures r.Ok? <==> !NullRole(msg)
    ensures r.Err? ==> r.error == AttributeError("role")
  {
    match RoleLabel(msg)
    case Err(e) => Err(e)
    case Ok(role) => Ok(role + ": " + Shown(msg, "content") + "\n")
  }

  /** The lines of all of `turns`, in order; the first turn with a None role raises. */
  function TurnLines(turns: seq<Record>): (r: Result<string>)
    ensures r.Err? ==> r.error == AttributeError("role")
    decreases |turns|
  {
    if turns == [] then Ok("")
    else
      var init := turns[..|turns| - 1];
      match TurnLines(init)
      case Err(e) => Err(e)
      case Ok(lines) =>
        match TurnLine(turns[|turns| - 1])
        case Err(e) => Err(e)
        case Ok(line) => Ok(lines + line)
  }

  /** Rendering turns raises exactly when one of them has a None role, and always with the same error. */
  lemma {:induction false} TurnLinesFails(turns: seq<Record>)
    ensures TurnLines(turns).Ok? <==> forall i :: 0 <= i < |turns| ==> !NullRole(turns[i])
    ensures TurnLines(turns).Err? ==> TurnLines(turns).error == AttributeError("role")
    decreases |turns|
  {
    if turns != [] {
      var init := turns[..|turns| - 1];
      TurnLinesFails(init);
      assert forall i :: 0 <= i < |init| ==> init[i] == turns[i];
    }
  }

  /** The text of one turn's line, or nothing when the line raises. */
  function TurnText(msg: Record): string
  {
    if TurnLine(msg).Ok? then TurnLine(msg).value else ""
  }

  /** Turns that render without error render as their lines, one after another. */
  lemma {:induction false} TurnLinesAsLines(turns: seq<Record>)
    requires TurnLines(turns).Ok?
    ensures TurnLines(turns).value == Lines(turns, TurnText)
    decreases |turns|
  {
    if turns != [] {
      TurnLinesAsLines(turns[..|turns| - 1]);
    }
  }

  /**
   * Each of the rendered turns is written as its own `Role: content` line,
   * after the lines of the turns before it and before those of the turns after it.
   */
  lemma {:induction false} TurnLineAt(turns: seq<Record>, i: nat)
    requires i < |turns| && TurnLines(turns).Ok?
    ensures TurnLines(turns[..i]).Ok? && TurnLine(turns[i]).Ok? && TurnLines(turns[i + 1..]).Ok?
    ensures TurnLines(turns).value ==
              TurnLines(turns[..i]).value + TurnLine(turns[i]).value + TurnLines(turns[i + 1..]).value
  {
    var before, after := turns[..i], turns[i + 1..];
    TurnLinesFails(turns);
    TurnLinesFails(before);
    TurnLinesFails(after);
    assert forall k :: 0 <= k < |before| ==> before[k] == turns[k];
    assert forall k :: 0 <= k < |after| ==> after[k] == turns[i + 1 + k];
    TurnLinesAsLines(turns);
    TurnLinesAsLines(before);
    TurnLinesAsLines(after);
    LineAt(turns, i, TurnText);
  }

  /** When the line of turn `i` raises, rendering all the turns raises the same error. */
  lemma {:induction false} TurnLineFails(turns: seq<Record>, i: nat)
    requires i < |turns| && TurnLine(turns[i]).Err?
    ensures TurnLines(turns) == Err(TurnLine(turns[i]).error)
  {
    TurnLinesFails(turns);
  }

  /** `s[-5:]`: the last `min(5, |s|)` elements, in order. */
  function Latest<T>(s: seq<T>): (r: seq<T>)
    ensures |r| == Min(Window, |s|)
    ensures r == s[|s| - |r|..]
  {
    SliceFrom(s, -(Window as int))
  }

  /** The knowledge part of the context: nothing for an empty knowledge base. */
  function KnowledgeSection(knowledge: seq<Record>): (section: string)
    ensures section == [] <==> knowledge == []
    ensures knowledge != [] ==> KnowledgeHeader <= section && section[|section| - 1] == '\n'
    ensures knowledge != [] ==> section == KnowledgeHeader + KnowledgeLines(Latest(knowledge)) + "\n"
  {
    if knowledge == [] then "" else KnowledgeHeader + KnowledgeLines(Latest(knowledge)) + "\n"
  }

  /** The conversation part of the context: nothing for an empty history. */
  function HistorySection(history: seq<Record>): (r: Result<string>)
    ensures history == [] ==> r == Ok("")
    ensures r.Err? ==> r.error == AttributeError("role")
    ensures history != [] && r.Ok? ==> HistoryHeader <= r.value
  {
    TurnLinesFails(Latest(history));
    if history == [] then Ok("")
    else match TurnLines(Latest(history))
      case Err(e) => Err(e)
      case Ok(lines) => Ok(HistoryHeader + lines)
  }

  /**
   * `_build_context`: the preamble, then the knowledge section, then the
   * conversation section. It raises exactly when one of the last five turns
   * has a None role, and otherwise begins with the preamble.
   */
  function Context(history: seq<Record>, knowledge: seq<Record>): (r: Result<string>)
    ensures r.Ok? <==> forall i :: |history| - Min(Window, |history|) <= i < |history| ==> !NullRole(history[i])
    ensures r.Err? ==> r.error == AttributeError("role")
    ensures r.Ok? ==> Preamble <= r.value
  {
    var latest := Latest(history);
    TurnLinesFails(latest);
    assert forall i :: 0 <= i < |latest| ==> latest[i] == history[|history| - |latest| + i];
    match HistorySection(history)
    case Err(e) => Err(e)
    case Ok(h) => Ok(Preamble + KnowledgeSection(knowledge) + h)
  }

  /** Rendering a list in two parts gives the two renderings one after the other. */
  lemma {:induction false} LinesAppend(a: seq<Record>, b: seq<Record>, render: Record -> string)
    ensures Lines(a + b, render) == Lines(a, render) + Lines(b, render)
    decreases |b|
  {
    if b == [] {
      assert a + b == a;
    } else {
      var init, last := b[..|b| - 1], b[|b| - 1];
      assert (a + b)[..|a + b| - 1] == a + init;
      assert (a + b)[|a + b| - 1] == last;
      LinesAppend(a, init, render);
      var x, y, z := Lines(a, render), Lines(init, render), render(last);
      assert Lines(a + b, render) == (x + y) + z;
      assert (x + y) + z == x + (y + z);
    }
  }

  /** Item `i` is rendered as its own line, after the lines of the items before it and before those after it. */
  lemma {:induction false} LineAt(items: seq<Record>, i: nat, render: Record -> string)
    requires i < |items|
    ensures Lines(items, render) == Lines(items[..i], render) + render(items[i]) + Lines(items[i + 1..], render)
  {
    var upto := items[..i + 1];
    assert upto + items[i + 1..] == items;
    LinesAppend(upto, items[i + 1..], render);
    assert upto[..i] == items[..i];
  }

  /**
   * Entry `i` of the window is listed as its own `- topic: content` line,
   * after the lines of the entries before it and before those after it.
   */
  lemma {:induction false} KnowledgeLineAt(items: seq<Record>, i: nat)
    requires i < |items|
    ensures KnowledgeLines(items) ==
              KnowledgeLines(items[..i]) + KnowledgeLine(items[i]) + KnowledgeLines(items[i + 1..])
  {
    LineAt(items, i, KnowledgeLine);
  }

  /**
   * The "Knowledge Base:" header follows the preamble exactly when there is
   * knowledge, and the "Recent Conversation:" header follows the knowledge
   * section exactly when there is history; with no history the context ends
   * after the knowledge section, and otherwise with the header and the lines
   * of the latest turns.
   */
  lemma {:induction false} ContextSections(history: seq<Record>, knowledge: seq<Record>)
    requires Context(history, knowledge).Ok?
    ensures var c := Context(history, knowledge).value;
      && (knowledge != [] <==> OccursAt(c, KnowledgeHeader, |Preamble|))
      && (history != [] <==> OccursAt(c, HistoryHeader, |Preamble| + |KnowledgeSection(knowledge)|))
      && (history == [] ==> c == Preamble + KnowledgeSection(knowledge))
    ensures history != [] ==>
      && TurnLines(Latest(history)).Ok?
      && Context(history, knowledge).value ==
           Preamble + KnowledgeSection(knowledge) + HistoryHeader + TurnLines(Latest(history)).value
  {
    var k := KnowledgeSection(knowledge);
    var h := HistorySection(history).value;
    assert Context(history, knowledge).value == Preamble + k + h;
    if history != [] {
      Regroup(Preamble + k, HistoryHeader, TurnLines(Latest(history)).value);
    }
    KnowledgeHeaderPlaced(knowledge, h);
    HistoryHeaderPlaced(Preamble + k, history);
  }

  /** The knowledge header follows the preamble exactly when there is knowledge. */
  lemma {:induction false} KnowledgeHeaderPlaced(knowledge: seq<Record>, rest: string)
    requires rest == [] || rest[0] == 'R'
    ensures knowledge != [] <==> OccursAt(Preamble + KnowledgeSection(knowledge) + rest, KnowledgeHeader, |Preamble|)
  {
    var k := KnowledgeSection(knowledge);
    if knowledge != [] {
      HeaderAt(Preamble, k, rest, KnowledgeHeader);
    } else {
      assert Preamble + k + rest == Preamble + rest;
      NoHeaderAt(Preamble, rest, KnowledgeHeader);
    }
  }

  /** The conversation header follows `start` exactly when there is history, which is otherwise the end. */
  lemma {:induction false} HistoryHeaderPlaced(start: string, history: seq<Record>)
    requires HistorySection(history).Ok?
    ensures history != [] <==> OccursAt(start + HistorySection(history).value, HistoryHeader, |start|)
    ensures history == [] ==> start + HistorySection(history).value == start
  {
    var h := HistorySection(history).value;
    if history != [] {
      HeaderAt(start, h, "", HistoryHeader);
      assert start + h + "" == start + h;
    } else {
      assert start + h == start;
      NoHeaderAt(start, h, HistoryHeader);
    }
  }

  /** A string that opens the middle part of `p + s + rest` occurs right after `p`. */
  lemma {:induction false} HeaderAt(p: string, s: string, rest: string, header: string)
    requires header <= s
    ensures OccursAt(p + s + rest, header, |p|)
  {
    assert (p + s + rest)[|p|..|p| + |header|] == s[..|header|];
  }

  /** A nonempty header does not occur right after `p` when what follows is empty or starts differently. */
  lemma {:induction false} NoHeaderAt(p: string, rest: string, header: string)
    requires header != [] && (rest == [] || rest[0] != header[0])
    ensures !OccursAt(p + rest, header, |p|)
  {
    if rest != [] {
      assert (p + rest)[|p|] == rest[0];
    }
  }

  /** Only the last five entries and the last five turns shape the context: items before a full window change nothing. */
  lemma {:induction false} ContextUsesLatest(history: seq<Record>, knowledge: seq<Record>, olderTurns: seq<Record>, olderEntries: seq<Record>)
    requires olderTurns == [] || |history| >= Window
    requires olderEntries == [] || |knowledge| >= Window
    ensures Context(olderTurns + history, olderEntries + knowledge) == Context(history, knowledge)
  {
    var h := olderTurns + history;
    var k := olderEntries + knowledge;
    LatestUnchanged(olderTurns, history);
    LatestUnchanged(olderEntries, knowledge);
    assert KnowledgeSection(k) == KnowledgeSection(knowledge);
    assert HistorySection(h) == HistorySection(history);
  }

  /** Items before a full window are not among the latest, and leave an empty list empty. */
  lemma {:induction false} LatestUnchanged<T>(older: seq<T>, s: seq<T>)
    requires older == [] || |s| >= Window
    ensures Latest(older + s) == Latest(s)
    ensures older + s == [] <==> s == []
  {
    var all := older + s;
    if older == [] {
      assert all == s;
    } else {
      assert all[|all| - Window..] == s[|s| - Window..];
    }
  }

  /** `_build_context`, accumulating the context in one string as `_build_context` in services/ai_service.py does. */
  method BuildContext(history: seq<Record>, knowledge: seq<Record>) returns (r: Result<string>)
    ensures r == Context(history, knowledge)
  {
    var context := Preamble;
    context := AppendKnowledge(context, knowledge);
    r := AppendConversation(context, history);
  }

  /**
   * Joining strings does not depend on the grouping. A solver hint only: the
   * loops below call it so that each step regroups one concatenation.
   */
  lemma {:induction false} Regroup(a: string, b: string, c: string)
    ensures (a + b) + c == a + (b + c)
  {
  }

  /** The first `if` of `_build_context`: adds the knowledge section to `context`. */
  method AppendKnowledge(context: string, knowledge: seq<Record>) returns (extended: string)
    ensures extended == context + KnowledgeSection(knowledge)
  {
    extended := context;
    if knowledge != [] {
      extended := extended + KnowledgeHeader;
      var items := Latest(knowledge);
      ghost var opening := extended;
      for i := 0 to |items|
        invariant extended == opening + Lines(items[..i], KnowledgeLine)
      {
        assert items[..i + 1][..i] == items[..i];
        Regroup(opening, Lines(items[..i], KnowledgeLine), KnowledgeLine(items[i]));
        extended := extended + KnowledgeLine(items[i]);
      }
      assert items[..|items|] == items;
      Regroup(context, KnowledgeHeader, KnowledgeLines(items));
      Regroup(context, KnowledgeHeader + KnowledgeLines(items), "\n");
      extended := extended + "\n";
    } else {
      assert context + "" == context;
    }
  }

  /** The second `if` of `_build_context`: adds the conversation section to `context`, or raises. */
  method AppendConversation(context: string, history: seq<Record>) returns (r: Result<string>)
    ensures HistorySection(history).Err? ==> r == HistorySection(history)
    ensures HistorySection(history).Ok? ==> r == Ok(context + HistorySection(history).value)
  {
    var extended := context;
    if history == [] {
      assert context + "" == context;
      return Ok(extended);
    }
    extended := extended + HistoryHeader;
    var turns := Latest(history);
    ghost var opening := extended;
    ghost var lines := "";
    for i := 0 to |turns|
      invariant TurnLines(turns[..i]) == Ok(lines)
      invariant extended == opening + lines
    {
      assert turns[..i + 1][..i] == turns[..i];
      var line := TurnLine(turns[i]);
      if line.Err? {
        TurnLineFails(turns, i);
        return Err(line.error);
      }
      Regroup(opening, lines, line.value);
      extended := extended + line.value;
      lines := lines + line.value;
    }
    assert turns[..|turns|] == turns;
    assert HistorySection(history) == Ok(HistoryHeader + lines);
    Regroup(context, HistoryHeader, lines);
    r := Ok(extended);
  }

  /** Which keys `AIService.__init__` finds set: a key counts when it is present and not empty or None. */
  predicate KeySet(config: map<string, Value>, name: string): (isSet: bool)
    ensures isSet <==> name in config && config[name] != Null && config[name] != Str("")
  {
    name in config && config[name].Str? && config[name].s != ""
  }

  /** A built service: which of the two vendor clients it holds. */
  datatype AIService = AIService(openaiConfigured: bool, geminiConfigured: bool)

  /**
   * `AIService.__init__`: refuses a configuration with neither API key set,
   * and otherwise creates a client for each key that is set.
   */
  function NewAIService(config: map<string, Value>): (r: Result<AIService>)
    ensures r.Err? <==> !KeySet(config, "OPENAI_API_KEY") && !KeySet(config, "GEMINI_API_KEY")
    ensures r.Err? ==> r.error == RuntimeError("No AI API keys configured")
    ensures r.Ok? ==> && r.value.openaiConfigured == KeySet(config, "OPENAI_API_KEY")
                      && r.value.geminiConfigured == KeySet(config, "GEMINI_API_KEY")
    ensures r.Ok? ==> r.value.openaiConfigured || r.value.geminiConfigured
  {
    var openai := KeySet(config, "OPENAI_API_KEY");
    var gemini := KeySet(config, "GEMINI_API_KEY");
    if !openai && !gemini then Err(RuntimeError("No AI API keys configured"))
    else Ok(AIService(openai, gemini))
  }

  /** `f"{context}\n\nUser Question: {message}"` */
  function Prompt(context: string, message: string): (p: string)
    ensures context <= p
    ensures |p| == |context| + |QuestionLabel| + |message|
    ensures p[|context|..|context| + |QuestionLabel|] == QuestionLabel
    ensures p[|p| - |message|..] == message
  {
    context + QuestionLabel + message
  }

  /** `_openai_response`: a fixed reply when no OpenAI client was built, the backend's reply otherwise. */
  function OpenAIResponse(service: AIService, prompt: string, backend: string -> string): (reply: string)
    ensures !service.openaiConfigured ==> reply == "OpenAI is not configured"
    ensures service.openaiConfigured ==> reply == backend(prompt)
  {
    if !service.openaiConfigured then "OpenAI is not configured" else backend(prompt)
  }

  /** `_gemini_response`: a fixed reply when no Gemini client was built, the backend's reply otherwise. */
  function GeminiResponse(service: AIService, prompt: string, backend: string -> string): (reply: string)
    ensures !service.geminiConfigured ==> reply == "Gemini is not configured"
    ensures service.geminiConfigured ==> reply == backend(prompt)
  {
    if !service.geminiConfigured then "Gemini is not configured" else backend(prompt)
  }

  /**
   * The model selector of `generate_response`: "openai" and "gemini" go to
   * their own backend, and any other name raises; an unconfigured backend
   * answers with its fixed message instead of raising.
   */
  function Dispatch(service: AIService, prompt: string, model: string,
                    openai: string -> string, gemini: string -> string): (r: Result<string>)
    ensures r.Ok? <==> model == "openai" || model == "gemini"
    ensures r.Err? ==> r.error == ValueError("Unknown model: " + model)
    ensures model == "openai" ==> r == Ok(if service.openaiConfigured then openai(prompt) else "OpenAI is not configured")
    ensures model == "gemini" ==> r == Ok(if service.geminiConfigured then gemini(prompt) else "Gemini is not configured")
  {
    if model == "openai" then Ok(OpenAIResponse(service, prompt, openai))
    else if model == "gemini" then Ok(GeminiResponse(service, prompt, gemini))
    else Err(ValueError("Unknown model: " + model))
  }

  /**
   * `generate_response`: builds the context (whose error propagates), forms
   * the prompt, and hands it to the selected backend. The OpenAI backend never
   * sees a request for Gemini and the other way round, and an unknown model
   * name is an error whatever the keys.
   */
  method GenerateResponse(service: AIService, message: string, history: seq<Record>, knowledge: seq<Record>,
                          model: string, openai: string -> string, gemini: string -> string)
    returns (r: Result<string>)
    ensures Context(history, knowledge).Err? ==> r == Err(AttributeError("role"))
    ensures Context(history, knowledge).Ok? ==>
              r == Dispatch(service, Prompt(Context(history, knowledge).value, message), model, openai, gemini)
  {
    var context := BuildContext(history, knowledge);
    if context.Err? {
      return Err(context.error);
    }
    var prompt := Prompt(context.value, message);
    r := Dispatch(service, prompt, model, openai, gemini);
  }
}
