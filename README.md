# Academic chat assistant: record keeping and text routines in Dafny

This project models the deterministic core of a small academic chat
assistant. The assistant keeps two append-only lists, each persisted to its
own JSON file: the conversation log and a knowledge base of question/answer
pairs it judged educational. It assembles a prompt from the latest items of
both lists and routes it to one of two language-model backends.

The modules follow the repository's files:

| module | file | form |
|---|---|---|
| `Python` | (runtime) | the values, exceptions, slicing and ASCII string behaviour the code relies on |
| `Storage` | utils/storage.py | class `Store` over an abstract file state `Missing`, `Corrupt` or `Holds(records)` |
| `KnowledgeModel` | models/knowledge.py | datatype `KnowledgeEntry` with `to_dict`/`from_dict` |
| `ConversationModel` | models/conversation.py | datatype `Message` with its optional `model` field |
| `KnowledgeBase` | services/knowledge_service.py | the extraction rule, the search specification, and class `KnowledgeService` |
| `Memory` | services/memory_service.py | the recent window, the role counts, and class `MemoryService` |
| `TextProcessing` | utils/text_processing.py | `clean_text`, `truncate_text` and `extract_keywords` (the counting loop as a method) |
| `AI` | services/ai_service.py | the key check, `_build_context` (two accumulating loops), the prompt and the model dispatch |

Modelling choices:

- **Dicts and values.** A dict is a `map<string, Value>` whose values are
  `Str(s)` or `Null` (Python's None).
- **Exceptions.** An exception the code can raise is the `Err` side of a
  `Result`.
- **Services.** Each service is a class with a `storage` store and a list
  field. Every mutating method states the new list and that the store now
  holds exactly that list.
- **Ordinary Python behaviour that is modelled:**
  - a zero or negative limit given to slicing;
  - the `AttributeError` raised when a stored field is None;
  - the `KeyError` raised by a turn without a role.
- **Ordinary Python behaviour the model keeps, even where a caller might
  not expect it:**
  - `get_recent_history(0)` returns the whole history, because `h[-0:]` is
    `h[0:]`. A negative limit drops that many turns from the front.
  - A search raises `AttributeError` on a stored entry whose topic is None,
    and likewise on one whose content is None when the topic does not
    match. The empty query therefore returns every entry only when no topic
    is None.
  - The response path can raise:
    - the constructor raises `RuntimeError` without API keys;
    - `generate_response` raises `ValueError` for an unknown model;
    - building the context raises `AttributeError` when one of the last
      five turns has a None role.

## Model

| member | source | states |
|---|---|---|
| Storage.Store.constructor | utils/storage.py:6-8 | opening a store creates an empty array when the file is missing and keeps any existing file, even a corrupt one |
| Storage.Loaded | utils/storage.py:17-23 | a file holding a list loads as that list, and a non-empty load can only come from a file holding exactly that list |
| Storage.Store.EnsureFileExists | utils/storage.py:10-15 | a missing file becomes an empty array; an existing file is untouched |
| Storage.Store.Load | utils/storage.py:17-23 | returns the stored list when the file holds one, and the empty list when the file is missing or corrupt |
| Storage.Store.Save | utils/storage.py:25-28 | the whole file is overwritten, so the next load returns exactly the saved list |
| Storage.Store.Clear | utils/storage.py:30-32 | behaves as saving the empty list; a later load returns the empty list |
| KnowledgeModel.KnowledgeEntry.ToDict | models/knowledge.py:12-19 | the dict has exactly the five field names as keys |
| KnowledgeModel.FromDict | models/knowledge.py:21-23 | succeeds exactly when the dict has the five field names and no other key; otherwise TypeError |
| KnowledgeModel.FromToDict | models/knowledge.py:12-23 | from_dict(e.to_dict()) == e for every entry |
| KnowledgeModel.ToFromDict | models/knowledge.py:12-23 | every dict from_dict accepts is returned unchanged by to_dict, so each field value is copied verbatim |
| ConversationModel.Message.ToDict | models/conversation.py:12-18 | the dict has the four field names as keys, `model` included even when it is None |
| ConversationModel.NewMessage | models/conversation.py:6-10 | a message built from role, content and timestamp has model None |
| ConversationModel.FromDict | models/conversation.py:20-22 | succeeds exactly when role, content and timestamp are present and no key beyond model is; a missing model gives None; otherwise TypeError |
| ConversationModel.FromToDict | models/conversation.py:12-22 | from_dict(m.to_dict()) == m for every message |
| ConversationModel.ToFromDict | models/conversation.py:12-22 | an accepted dict comes back from to_dict unchanged, except that a missing model key now appears, holding None |
| KnowledgeBase.AnyIn | services/knowledge_service.py:26 | true exactly when some keyword is a substring of the text |
| KnowledgeBase.FieldLower | services/knowledge_service.py:47-48 | `entry.get(key, '').lower()` raises AttributeError(key) exactly when the key holds None; a missing key reads as the empty string, and a string field gives exactly its lower-cased text, a lower-case string of the same length |
| KnowledgeBase.Matches | services/knowledge_service.py:47-48 | a None topic raises AttributeError on the topic; a topic containing the query matches without reading the content; a match means the topic or the readable content contains the query; only topic or content errors arise |
| KnowledgeBase.MatchesEither | services/knowledge_service.py:47-48 | a content hit matches even when the topic misses, and the test raises exactly when the topic is None, or the topic misses and the content is None |
| KnowledgeBase.Search | services/knowledge_service.py:41-51 | a successful search returns no more entries than there are |
| KnowledgeBase.ExtractKnowledge | services/knowledge_service.py:21-34 | an entry is produced exactly when the lower-cased question holds one of the six trigger phrases and the answer is longer than 50; the entry has the keys topic, content, question and answer; topic is the question cut to 100 characters, content is the answer cut to 300, and question and answer are verbatim |
| KnowledgeBase.ExtractLengthBoundary | services/knowledge_service.py:27 | with a trigger present, a 50-character answer is refused and a 51-character one accepted |
| KnowledgeBase.ExtractExamples | services/knowledge_service.py:23-34 | "What is entropy?" with a long answer gives topic "What is entropy?" and the answer's first 300 characters; "Hello there"/"short" gives nothing |
| KnowledgeBase.ExtractBoundaryExample | services/knowledge_service.py:26-27 | "Why is the sky blue" is kept with a 51-character answer and refused with a 50-character one |
| KnowledgeBase.StampedEntryIsKnowledgeEntry | services/knowledge_service.py:11-14 | an extracted entry stamped by add_knowledge has exactly the KnowledgeEntry fields, so from_dict accepts it with question, answer and timestamp as given |
| KnowledgeBase.SearchFails | services/knowledge_service.py:46-49 | a search raises exactly when reading some entry's topic (or its content, when the topic does not match) meets None |
| KnowledgeBase.SearchSelects | services/knowledge_service.py:41-51 | a successful search returns a subsequence of the entries in their order, every returned entry matches, every matching entry is returned, and each record appears as often as it does among the matching entries, so the result is exactly the matching entries in order |
| KnowledgeBase.SearchInOrder | services/knowledge_service.py:44-49 | the result is a subsequence of the entries that holds every matching entry and only matching ones |
| KnowledgeBase.SearchKeepsCopies | services/knowledge_service.py:44-49 | each record occurs in the result as many times as among the entries when it matches, and not at all otherwise |
| KnowledgeBase.MatchesEmpty | services/knowledge_service.py:47 | the empty query is in every topic, so it matches every entry except one whose topic is None, which raises |
| KnowledgeBase.SearchEmptyQuery | services/knowledge_service.py:43-49 | the empty query succeeds exactly when no topic is None, and then returns every entry |
| KnowledgeBase.SearchFailsFrom | services/knowledge_service.py:46-49 | once a prefix of the entries raises, the whole search raises the same error, which is why the loop may stop there |
| KnowledgeBase.KnowledgeService.constructor | services/knowledge_service.py:7-9 | the service opens its store and loads it: the list is what the file holds, or empty for a missing or corrupt file |
| KnowledgeBase.KnowledgeService.AddKnowledge | services/knowledge_service.py:11-15 | exactly one entry is appended, with its timestamp overwritten by `now`; earlier entries are unchanged and the store holds the whole new list |
| KnowledgeBase.KnowledgeService.GetAllKnowledge | services/knowledge_service.py:17-19 | returns the whole list unchanged |
| KnowledgeBase.KnowledgeService.ClearKnowledge | services/knowledge_service.py:36-39 | the list is empty and the store holds the empty list |
| KnowledgeBase.KnowledgeService.SearchKnowledge | services/knowledge_service.py:41-51 | the loop computes the search specification over the stored list (selection and failure proved by the lemmas above) and changes nothing |
| Memory.TurnIsMessage | services/memory_service.py:12-16 | a stored turn is the dict of a Message with that role, content and timestamp and model None |
| Memory.Turn | services/memory_service.py:12-16 | the stored turn has exactly the keys Message requires, and its role is the given role, unvalidated |
| Memory.Recent | services/memory_service.py:20-22 | empty for an empty history; for limit >= 1 the last min(limit, n) turns as a suffix; for limit 0 the whole history; for a negative limit the history without its first -limit turns |
| Memory.CountRole | services/memory_service.py:35-36 | succeeds exactly when every turn has a role key (KeyError otherwise), and never counts more than the number of turns |
| Memory.SummaryOf | services/memory_service.py:33-42 | raises KeyError exactly when some turn lacks a role; otherwise total_messages is the number of turns |
| Memory.RoleCountsBounded | services/memory_service.py:35-42 | user_messages + assistant_messages <= total_messages |
| Memory.CountRoleAppend | services/memory_service.py:35-36 | appending a turn adds one to the count of its own role and leaves other counts unchanged |
| Memory.SummaryAfterAdd | services/memory_service.py:33-42 | after add_message(role, ...) the total grows by one, and the user or assistant count grows by one exactly when role is 'user' or 'assistant' |
| Memory.MemoryService.constructor | services/memory_service.py:6-8 | the service opens its store and loads the history from it |
| Memory.MemoryService.AddMessage | services/memory_service.py:10-18 | appends {role, content, timestamp} with role and content as given (no validation); earlier turns are unchanged and the store holds the whole history |
| Memory.MemoryService.GetRecentHistory | services/memory_service.py:20-22 | returns the recent window described by Memory.Recent and changes nothing |
| Memory.MemoryService.GetAllHistory | services/memory_service.py:24-26 | returns the whole history unchanged |
| Memory.MemoryService.ClearHistory | services/memory_service.py:28-31 | history is empty and the store holds the empty list |
| Memory.MemoryService.GetConversationSummary | services/memory_service.py:33-42 | returns the summary described by Memory.SummaryOf and changes nothing |
| Python.SliceIndex | services/memory_service.py:22 | a Python slice bound is clamped into 0..n, with a negative bound counted from the end |
| Python.SliceFrom | services/memory_service.py:22-22 | `s[i:]` is a suffix of `s`: a bound from 0 drops that many items (all when it exceeds the length), a negative bound keeps that many from the end (all when it exceeds the length) |
| Python.SliceTo | services/knowledge_service.py:29-30 | `s[:j]` is a prefix of `s`: a bound from 0 keeps min(j, len) items, a negative bound drops that many from the end (everything when it exceeds the length) |
| Python.Contains | services/knowledge_service.py:47-48 | the substring test `needle in haystack`: a needle longer than the haystack never occurs, and a prefix of the haystack, the empty string included, always does |
| Python.Lower | services/knowledge_service.py:43 | lower-casing keeps the length and maps each character to its lower-case form |
| Python.Capitalize | services/ai_service.py:51 | capitalising keeps the length, leaves no lower-case letter first and no upper-case letter after it |
| TextProcessing.Runs | utils/text_processing.py:15 | every run is non-empty and made of characters of the text that satisfy the class |
| TextProcessing.CollapseSpaces | utils/text_processing.py:8 | the substitution never lengthens the text and empties only the empty text |
| TextProcessing.StripStartShape | utils/text_processing.py:9 | `lstrip` leaves a suffix of the text that does not start with whitespace |
| TextProcessing.StripEndShape | utils/text_processing.py:9 | `rstrip` leaves a prefix of the text that does not end with whitespace |
| TextProcessing.Strip | utils/text_processing.py:9 | `strip` never lengthens the text and leaves no whitespace at either end |
| TextProcessing.CleanText | utils/text_processing.py:6-10 | clean_text never lengthens the text and leaves no whitespace at either end |
| TextProcessing.CollapseShape | utils/text_processing.py:8 | the whitespace substitution yields the words joined by single spaces, plus one space at each end that began or ended with whitespace |
| TextProcessing.CleanTextIsJoinOfWords | utils/text_processing.py:6-10 | clean_text(t) equals `' '.join(t.split())`: each maximal whitespace run inside the text becomes one space |
| TextProcessing.StripPadded | utils/text_processing.py:9 | stripping a clean non-empty string padded by at most one space at each end gives the string back |
| TextProcessing.CleanTextIsClean | utils/text_processing.py:6-10 | clean_text output has no leading or trailing whitespace, and its only whitespace is single spaces |
| TextProcessing.CollapseSingleSpaced | utils/text_processing.py:8 | the substitution leaves single-spaced text unchanged |
| TextProcessing.CleanTextIdempotent | utils/text_processing.py:6-10 | clean_text(clean_text(t)) == clean_text(t) |
| TextProcessing.TruncateText | utils/text_processing.py:31-36 | text of length <= max_length is returned unchanged; longer text becomes its first max_length characters plus "...", of length max_length + 3 when max_length >= 0 |
| TextProcessing.Candidates | utils/text_processing.py:18-19 | a word is a candidate exactly when it is one of the words, is not a stop word and is longer than 3 |
| TextProcessing.KeywordCandidates | utils/text_processing.py:15-19 | the words counted are exactly the word tokens of the lower-cased text that are longer than three characters and not stop words; `RankedAreKeywords` adds that they are lower case |
| TextProcessing.FindWords | utils/text_processing.py:15 | every found word is a non-empty run of word characters of the text |
| TextProcessing.Frequencies | utils/text_processing.py:22-27 | `word_freq.items()` has one item per distinct word, each a word that occurs with its positive count |
| TextProcessing.WordsOf | utils/text_processing.py:29-29 | the comprehension keeps one word per ranked item, in the ranking's order, each the item's word; `RankingCovers` and `RankingPrefix` say which words those are |
| TextProcessing.Count | utils/text_processing.py:22-24 | a word's count is positive exactly when the word occurs |
| TextProcessing.Distinct | utils/text_processing.py:22-24 | the dict's keys: each word that occurs, exactly once |
| TextProcessing.InsertByCount | utils/text_processing.py:27 | inserting keeps every item, adding exactly one |
| TextProcessing.SortByCount | utils/text_processing.py:27 | the sort is a permutation of the items |
| TextProcessing.InsertByCountOrdered | utils/text_processing.py:27 | inserting into a ranking sorted by descending count, stable with respect to the input order, gives such a ranking again |
| TextProcessing.SortByCountOrdered | utils/text_processing.py:27 | the sort orders by descending count, and equal counts keep their input order, as Python's stable `sorted(..., reverse=True)` does |
| TextProcessing.SortByCountElements | utils/text_processing.py:27 | an item is in the sorted list exactly when it is in the input |
| TextProcessing.FrequenciesRanked | utils/text_processing.py:22-27 | the dict's items have no repeats, and the sorted items run by non-increasing count with ties in the dict's key order |
| TextProcessing.SortedCounts | utils/text_processing.py:22-27 | there is one ranked item per distinct word, and each pairs a word that occurs with exactly its number of occurrences |
| TextProcessing.SortedCovers | utils/text_processing.py:22-27 | every word that occurs has an item in the ranking |
| TextProcessing.ItemsBeforeWords | utils/text_processing.py:22-27 | items in the dict's order stand for words in first-occurrence order |
| TextProcessing.RankingCovers | utils/text_processing.py:22-29 | the ranked words are exactly the words that occur, as many as there are distinct words |
| TextProcessing.RankingSorted | utils/text_processing.py:22-29 | the ranked words have no repeats, run by non-increasing count, and equal counts keep first-occurrence order |
| TextProcessing.TallyStep | utils/text_processing.py:23-24 | one loop step keeps the dict's keys in first-occurrence order and each value equal to the word's count so far |
| TextProcessing.TallyItems | utils/text_processing.py:22-27 | once every word is tallied, `word_freq.items()` is the list of distinct words with their counts |
| TextProcessing.RankingOrdered | utils/text_processing.py:22-27 | the ranking lists each distinct candidate once, by non-increasing count, ties in first-occurrence order |
| TextProcessing.RankingPrefix | utils/text_processing.py:27-29 | a cut of the ranking keeps its order and ties; any word it leaves out counts no more than every word it keeps, and a left-out word tied with a kept one occurs for the first time after it |
| TextProcessing.RankingKept | utils/text_processing.py:27-29 | the words a cut keeps have no repeats, run by non-increasing count, and keep ties in first-occurrence order |
| TextProcessing.RankingLeftOut | utils/text_processing.py:27-29 | a word a cut leaves out counts no more than any kept word, and one tied with a kept word first occurs after it |
| TextProcessing.RankedAreKeywords | utils/text_processing.py:15-19 | every ranked word is a lower-case `\w+` token of the text, not a stop word, longer than 3 |
| TextProcessing.LowerIsLowerCase | utils/text_processing.py:15 | a word made of characters of the lower-cased text has no upper-case letter |
| TextProcessing.TopOfRanking | utils/text_processing.py:13-29 | the ranking cut at max_keywords, with Python's slice semantics for any max_keywords including negative ones, satisfies everything extract_keywords promises, including which of several equally frequent candidates survive the cut |
| TextProcessing.ExtractKeywords | utils/text_processing.py:13-29 | returns as many distinct keywords as the slice `[:max_keywords]` keeps of the distinct candidates (min(max_keywords, #distinct) when max_keywords >= 0; all but the last -max_keywords when negative), each a lower-case token of the text that is not a stop word and longer than 3, by non-increasing frequency, ties in first-occurrence order; no left-out candidate is more frequent than a returned keyword, and a left-out candidate as frequent as a returned one first occurs after it |
| AI.DefaultRoleIsCapitalizedUser | services/ai_service.py:51 | a turn without a role is labelled 'user'.capitalize(), that is "User" |
| AI.RoleLabel | services/ai_service.py:51 | the label raises exactly when the role is present and None, and then with AttributeError on role |
| AI.RoleLabelCases | services/ai_service.py:51 | a missing role is labelled `'user'.capitalize()` and a string role is capitalised |
| AI.TurnLine | services/ai_service.py:51 | a turn's line raises exactly when its role is None, and then with AttributeError on role |
| AI.TurnLineText | services/ai_service.py:51-51 | a turn's line that renders is exactly the capitalised role, ": ", the shown content and a newline |
| AI.TurnLinesAsLines | services/ai_service.py:50-51 | turns that render without error render as their own lines one after another |
| AI.TurnLines | services/ai_service.py:50-51 | the conversation loop raises only AttributeError on a role; `TurnLinesFails` says it raises exactly when a turn's role is None, `TurnLinesAsLines` that otherwise it is each turn's line in order, and `TurnLineAt` where each line sits |
| AI.TurnLineAt | services/ai_service.py:50-51 | each rendered turn is its own `Role: content` line, after the lines of the turns before it and before those after it |
| AI.TurnLinesFails | services/ai_service.py:50-51 | rendering turns raises exactly when one of them has a None role, always with AttributeError on role |
| AI.TurnLineFails | services/ai_service.py:50-51 | when one turn's line raises, the whole rendering raises that error |
| AI.Latest | services/ai_service.py:44 | `s[-5:]` is the last min(5, n) items, in order |
| AI.Context | services/ai_service.py:39-53 | the context raises exactly when one of the last five turns has a None role, and otherwise begins with the fixed preamble |
| AI.LinesAppend | services/ai_service.py:44-45 | rendering items in two parts gives the two renderings in sequence |
| AI.Lines | services/ai_service.py:44-45 | the lines a loop writes: nothing for no items and one item's line for one item; `LinesAppend` and `LineAt` place every item's line in order |
| AI.LineAt | services/ai_service.py:44-45 | item i's line sits in the rendering between the lines of the items before it and the lines of the items after it |
| AI.KnowledgeLineAt | services/ai_service.py:44-45 | each listed entry appears as its own `- topic: content` line, after the lines of the entries before it and before those after it |
| AI.KnowledgeLines | services/ai_service.py:44-45 | the knowledge loop writes nothing exactly when there are no entries, and otherwise text ending in a newline; `KnowledgeLineAt` places each entry's line |
| AI.Shown | services/ai_service.py:45-45 | a value formatted into an f-string is the string itself, or "None" when the key is missing or holds None |
| AI.KnowledgeLine | services/ai_service.py:45 | an entry's line starts with "- " and ends with a newline, and its length is that of the shown topic and content plus the five characters of "- ", ": " and the newline |
| AI.KnowledgeLineText | services/ai_service.py:45-45 | an entry's line is exactly "- ", the shown topic, ": ", the shown content and a newline, in that order |
| AI.KnowledgeSection | services/ai_service.py:42-46 | the knowledge section is empty exactly when there is no knowledge, and otherwise is the header, then the lines of the last five entries in order, then a closing newline |
| AI.HistorySection | services/ai_service.py:48-51 | the conversation section is empty for no history, starts with its header otherwise, and can only raise the role AttributeError |
| AI.ContextSections | services/ai_service.py:40-53 | the "Knowledge Base:" header follows the preamble exactly when there is knowledge; the "Recent Conversation:" header follows the knowledge section exactly when there is history; with no history the context ends after the knowledge section, and otherwise with the header and the lines of the last five turns |
| AI.KnowledgeHeaderPlaced | services/ai_service.py:42-46 | the knowledge header is present right after the preamble exactly when the knowledge list is non-empty |
| AI.HistoryHeaderPlaced | services/ai_service.py:48-51 | the conversation header is present exactly when the history is non-empty |
| AI.ContextUsesLatest | services/ai_service.py:44-51 | only the last five entries and the last five turns shape the context: items before a full window, in either list, change nothing |
| AI.LatestUnchanged | services/ai_service.py:44-50 | items before a full window of five are not among the latest five, and an empty list stays empty |
| AI.BuildContext | services/ai_service.py:39-53 | the accumulating method computes the context specification |
| AI.AppendKnowledge | services/ai_service.py:42-46 | the first loop appends exactly the knowledge section |
| AI.AppendConversation | services/ai_service.py:48-51 | the second loop appends exactly the conversation section, or raises its error |
| AI.NewAIService | services/ai_service.py:6-20 | raises RuntimeError("No AI API keys configured") exactly when neither key is set; otherwise a client exists for each key that is set, and at least one exists |
| AI.KeySet | services/ai_service.py:7-10 | a key counts as set exactly when the configuration holds it and it is neither None nor the empty string, as Python's truth test reads it |
| AI.Prompt | services/ai_service.py:29-30 | the prompt starts with the context, then "\n\nUser Question: ", and ends with the message |
| AI.OpenAIResponse | services/ai_service.py:55-57 | without an OpenAI client the reply is "OpenAI is not configured" and the backend is not consulted; with one it is the backend's reply |
| AI.GeminiResponse | services/ai_service.py:73-75 | without a Gemini client the reply is "Gemini is not configured" and the backend is not consulted; with one it is the backend's reply |
| AI.Dispatch | services/ai_service.py:32-37 | "openai" and "gemini" reach their own backend, or its fixed "not configured" reply when no client was built; any other name raises ValueError("Unknown model: ...") |
| AI.GenerateResponse | services/ai_service.py:22-37 | a context error propagates; otherwise the prompt of the context and message goes through the dispatch |

## Left out

- **Real file I/O and JSON encoding** (utils/storage.py):
  - directory creation, paths, indentation and encoding are not modelled;
  - a write that fails with an I/O error is not modelled;
  - a file is assumed to hold a list of records.
- Storage.Store.Load: never fails in the model, but `load` catches only
  `json.JSONDecodeError` and `FileNotFoundError` (utils/storage.py:22). A
  file that exists but cannot be read or decoded (`PermissionError`,
  `IsADirectoryError`, a `UnicodeDecodeError`) raises out of `load`, and so
  out of both service constructors. `Corrupt` stands only for readable text
  that is not JSON, and no file state models an unreadable file.
- Values other than strings and None inside a record (numbers, nested
  objects) are not modelled. Reading such a value as text is therefore not
  covered.
- `datetime.now().isoformat()` is not modelled. Timestamps are parameters of
  `AddKnowledge` and `AddMessage`.
- `str.lower`, `str.capitalize`, `str.isspace`/`\s` and `\w` are modelled
  over ASCII only; full Unicode case mapping and character classes are not.
- **Aliasing:** `add_knowledge` writes the timestamp into the caller's own
  dict, and the getters return the service's list itself rather than a copy.
  The model works on values, so neither mutation is visible to a caller.
- The vendor SDK calls and the wrapping of their exceptions into
  "OpenAI Error: ..." / "Gemini Error: ..." text are not modelled. Each
  backend is a function from prompt to reply, supplied by the caller.
- The service object and its two clients are a value recording which
  clients exist. A configuration value is "set" when it is a non-empty
  string. Other falsy values are not modelled.
- Default arguments (`limit=10`, `max_keywords=5`, `max_length=200`,
  `model="openai"`) are not modelled. Callers pass every argument.
- The HTTP routes (app.py), the browser script (static/script.js),
  environment loading (config.py), and concurrent writers to the same file
  are not part of this model.
