# Local chatbot core, modelled in Dafny

This project models the core of a small internal question-answering chat tool.
Staff ask questions in a web page. A two-node graph answers them:

- **classify** picks a department, `hr_finance` or `it`. It first looks for
  HR/finance keywords, then for IT keywords, in the lower-cased question. If
  neither list matches, it asks the language model once with a closed-choice
  prompt and reads `hr` anywhere in the reply as HR/finance and anything else
  as IT.
- **qa** looks for the department's vector index under `vectorDB/<department>`.
  - If the index is missing, it answers with a message naming the department
    whose index is missing.
    The history is left as it was and no service is called.
  - Otherwise it serialises the conversation so far as `User: …\nAI: …` blocks
    joined by newlines. It merges that with the question under two headers, runs
    the retrieval chain once on the merged query, and appends the exchange to
    the history.
- The graph runs classify, then follows a conditional edge keyed by the
  department, whose two values both lead to qa.
- The chat page runs the graph once per non-empty submission and keeps the
  returned history.

The model also covers `clean_text`, the normaliser applied to uploaded PDF pages.
It deletes every character outside an allow-set, collapses whitespace runs to
one space, and strips both ends.

Files:

- `pytext.dfy` (module `PyText`): the Python `str` built-ins the core relies on.
  - The whitespace class shared by `str.isspace`, `str.strip` and the
    regular-expression `\s`, which is exactly U+0009–000D, U+001C–001F, U+0020,
    U+0085, U+00A0, U+1680, U+2000–200A, U+2028, U+2029, U+202F, U+205F and
    U+3000.
  - `lower`, the substring test `k in s`, `lstrip`, `rstrip`, `strip` and
    `sep.join`.
- `utils.dfy` (module `Utils`): `clean_text`.
  - It is proved equal to an independent reference definition, the input's
    allowed characters split into whitespace-free words and joined with single
    spaces.
  - Its output invariants and its idempotence are derived from that reference,
    through the round trip `Words(Join(" ", ws)) == ws`.
- `langgraph_chat.dfy` (module `LangGraphChat`): the chat state, both nodes,
  the graph, and the chat page's threading of history through a session.

The services the nodes call are parameters:

- `llm` is the model's reply to a prompt.
- `pathExists` is the file-system test.
- `chain` is the answer of the retrieval chain built over the index at a path
  and run on a query.

Every node also returns the list of calls it made. "No model call", "exactly one
model call" and "no chain run" are therefore statements about results.

Four details of the code shape what the model states:

- The fallback looks for the substring `hr` in the model's reply, not for the
  whole token `hr_finance`. So a reply such as "chrome" counts as HR/finance.
- The whole history goes into the merged query. There is no bounded window.
- The keyword lists are the code's own, mostly Chinese words.
- The chain's retrieval and completion are one `RetrievalQA` run. They are
  modelled as one `RunChain` call.

## Model

| member | source | states |
|---|---|---|
| LangGraphChat.ClassifyNode | modules/langgraph_chat.py:28-41 | The node changes only `department`. The department is always a key of the route map, and the node makes at most one model call. |
| LangGraphChat.ClassifyHrFinanceKeyword | modules/langgraph_chat.py:29-31 | An HR/finance keyword in the lower-cased question gives `hr_finance` with no model call. The result is the same whatever the model would have said. |
| LangGraphChat.ClassifyItKeyword | modules/langgraph_chat.py:29-33 | An IT keyword and no HR/finance keyword gives `it` with no model call, independent of the model. |
| LangGraphChat.ClassifyTieBreak | modules/langgraph_chat.py:30-33 | A question with keywords from both lists goes to `hr_finance`. |
| LangGraphChat.ClassifyByModel | modules/langgraph_chat.py:34-40 | With no keyword, the node makes exactly one call, to the model, with the prompt built from the question as typed. The department is `hr_finance` exactly when the lower-cased reply contains `hr`; whitespace around the reply plays no part. |
| LangGraphChat.ReplyDefaultsToIt | modules/langgraph_chat.py:39-40 | A reply without `hr` in any case, the empty reply included, resolves to `it`. |
| LangGraphChat.ReplyDepartment | modules/langgraph_chat.py:39-40 | Parsing a reply always yields one of the two department tokens. |
| LangGraphChat.ClassifyItKeywordAnyCase | modules/langgraph_chat.py:29-33 | An IT keyword written in any capitalisation (for example `VPN`), with no HR/finance keyword, gives `it` with no model call. |
| LangGraphChat.ClassifyHrFinanceKeywordAnyCase | modules/langgraph_chat.py:29-31 | An HR/finance keyword in any capitalisation gives `hr_finance` with no model call. |
| LangGraphChat.ClassifyRoutesToQa | modules/langgraph_chat.py:76 | The route map has exactly the two department keys, and whatever the classifier picks is routed to `qa`. |
| LangGraphChat.ClassifyPrompt | modules/langgraph_chat.py:35-38 | The fallback prompt ends with the question as typed, not lower-cased. |
| LangGraphChat.QaNode | modules/langgraph_chat.py:44-68 | The node keeps the question and the department. The history either stays as it was or gains exactly one turn, the question with the node's answer, at its end. The node runs the chain at most once. |
| LangGraphChat.QaMissingIndex | modules/langgraph_chat.py:45-48 | With no index, the answer is the sentinel naming the department, nothing else in the state changes, and no service is called. |
| LangGraphChat.QaAppendsTurn | modules/langgraph_chat.py:46-68 | With an index, there is exactly one chain run, on that department's index and on the merged query. Its result is the answer and is appended with the question as the last turn; nothing else changes. |
| LangGraphChat.IndexPath | modules/langgraph_chat.py:46 | The index path is `vectorDB/` followed by the department. |
| LangGraphChat.IndexPathInjective | modules/langgraph_chat.py:46 | Distinct departments never share an index directory. |
| LangGraphChat.MissingIndexAnswer | modules/langgraph_chat.py:48 | The sentinel is `⚠️ 尚未建立 `, the department name, then ` 向量庫`. |
| LangGraphChat.MentionsAny | modules/langgraph_chat.py:30-32 | `any(k in q for k in keywords)`: some keyword occurs in the question. Its effect on the department is stated by `ClassifyHrFinanceKeyword`, `ClassifyItKeyword` and `ClassifyByModel`. |
| LangGraphChat.RenderTurn | modules/langgraph_chat.py:63 | A rendered turn is `User: `, the user's text, a newline and `AI: `, then the assistant's text. |
| LangGraphChat.RenderTurns | modules/langgraph_chat.py:63 | One rendered line per turn, in history order. |
| LangGraphChat.PastContext | modules/langgraph_chat.py:63 | The past context is empty exactly when the history is empty, and otherwise starts with the first turn's block. How it grows is `PastContextSnoc`. |
| LangGraphChat.MergedQuery | modules/langgraph_chat.py:64 | The merged query holds the whole past context right after the first header, and ends with the question; the headers add 16 characters. The empty-history case is `MergedQueryNoHistory`. |
| LangGraphChat.PastContextEmpty | modules/langgraph_chat.py:63 | An empty history serialises to the empty string. |
| LangGraphChat.PastContextSnoc | modules/langgraph_chat.py:63 | Adding a turn adds one `User: …\nAI: …` block. The block is preceded by a newline unless the history was empty. |
| LangGraphChat.MergedQueryNoHistory | modules/langgraph_chat.py:64 | With no history, the merged query is the two headers around an empty past section, then the question. |
| LangGraphChat.QaExtendsContext | modules/langgraph_chat.py:63-68 | After an answered question, the next question's past context is the old context followed by the new turn's block. |
| LangGraphChat.Chat | modules/langgraph_chat.py:71-78 | A graph run keeps the question, ends in a department routed to `qa`, and makes at most two service calls. The history either stays as it was or gains one turn for the question at its end. |
| LangGraphChat.ChatOutcome | modules/langgraph_chat.py:71-78 | A graph run keeps the classifier's department. Either the sentinel is the answer, the history is unchanged and only the classifier's calls were made; or the answer is the chain's result on that department's index and the merged query, it is appended with the question, and the calls are the classifier's followed by that one chain run. |
| LangGraphChat.KeywordRouteSkipsModel | modules/langgraph_chat.py:73-77 | When classification needs no model call, the whole graph run is the qa step on the classified state. |
| LangGraphChat.OvertimeIsHrFinance | modules/langgraph_chat.py:30-31 | "請問加班費怎麼算？" contains 加班 (overtime), so it is HR/finance with no model call, whatever the history. |
| LangGraphChat.OvertimeQuestion | modules/langgraph_chat.py:28-78 | On a fresh session with the HR/finance index built, that question gives `hr_finance` and exactly one chain run on `vectorDB/hr_finance`. The query has an empty past section, and the history becomes that one exchange. |
| LangGraphChat.Ask | main.py:23-37 | An empty submission leaves the history as it was. Otherwise the history either stays as it was or gains exactly one turn at its end, asked by that submission. |
| LangGraphChat.Session | main.py:23-37 | A session of submissions only appends. The old history is a prefix of the new one, which grows by at most one turn per submission. |
| LangGraphChat.AskAppendsOne | main.py:23-37 | With both indexes built, a non-empty submission appends exactly one turn, asked by that submission. |
| LangGraphChat.SessionHistoryLaw | main.py:23-37 | With both indexes built and no empty submissions, N questions add exactly N turns, in the order asked, after the untouched earlier turns. |
| PyText.IsSpace | modules/utils.py:11-12 | No contract: exactly Python's `str.isspace` set, which is also `\s` and what `strip()` removes: U+0009–000D, U+001C–001F, U+0020, U+0085, U+00A0, U+1680, U+2000–200A, U+2028, U+2029, U+202F, U+205F and U+3000. |
| PyText.Contains | modules/langgraph_chat.py:30-40 | Python's `k in s`: the empty needle is always found, and a needle longer than the text never is. |
| PyText.Lower | modules/langgraph_chat.py:29 | Lower-casing keeps the length and maps each character on its own: `A`–`Z` to `a`–`z`, everything else to itself. |
| PyText.Strip | modules/utils.py:12 | The result is no longer than the input and has no whitespace at either end. That it is a slice with only whitespace cut away is `StripIsTrim`. |
| PyText.Join | modules/langgraph_chat.py:63 | Joining nothing gives the empty string. The result starts with the first part, followed by the separator when there are more parts. |
| PyText.StripLowerContains | modules/langgraph_chat.py:39-40 | Testing a whitespace-free needle in `reply.strip().lower()` gives the same verdict as testing it in `reply.lower()`. |
| PyText.ContainsLower | modules/langgraph_chat.py:29-32 | Lower-casing both sides keeps an occurrence. This is why keyword matching ignores the question's case. |
| PyText.StripIsTrim | modules/utils.py:12 | `strip` keeps one contiguous slice, removes only whitespace around it, and leaves no whitespace at either end. |
| Utils.RemoveDisallowed | modules/utils.py:11 | The first substitution leaves only allowed characters and never lengthens its input. |
| Utils.Allowed | modules/utils.py:11 | Every whitespace character is in the allow-set, so the first substitution leaves all whitespace for the second. |
| Utils.CollapseSpaces | modules/utils.py:12 | Collapsing never lengthens a string. Its meaning once stripped is `CollapseStripIsJoin`. |
| Utils.CollapseNoSpace | modules/utils.py:12 | A string without whitespace passes through the collapse unchanged. |
| Utils.CleanText | modules/utils.py:9-13 | `clean_text` never lengthens its input. |
| Utils.CleanTextIsJoinedWords | modules/utils.py:9-13 | `clean_text` equals the reference: the whitespace-free words of the allowed characters, joined by single spaces. |
| Utils.CollapseStripIsJoin | modules/utils.py:12 | Collapsing whitespace runs and then stripping equals joining the string's words with single spaces. |
| Utils.WordsOfJoin | modules/utils.py:12 | Splitting words that were joined with single spaces gives the words back. |
| Utils.JoinIsClean | modules/utils.py:12 | Words joined by single spaces have no whitespace at either end, never two whitespace characters in a row, and every whitespace character is `' '`. |
| Utils.CleanTextIsClean | modules/utils.py:9-13 | The output has no whitespace at either end and no two whitespace characters in a row, and its only whitespace character is `' '`. |
| Utils.CleanTextKeepsAllowed | modules/utils.py:9-13 | The output's non-space characters are exactly the input's allowed non-space characters, in order. |
| Utils.CleanTextOnlyAllowed | modules/utils.py:9-13 | Every output character is `' '` or an allowed character that is not whitespace. |
| Utils.CleanTextIdempotent | modules/utils.py:9-13 | Cleaning cleaned text changes nothing. |
| Utils.ConcatWords | modules/utils.py:12 | The words of a string, concatenated, are its non-whitespace characters in order. |

## Left out

- The services are parameters, not models:
  - The language model (modules/config.py builds it).
  - The embeddings, the Chroma store and the `RetrievalQA` chain with its `qa_prompt` template. The chain's retrieval and completion appear as one `chain(indexPath, query)` value and one `RunChain` call.
  - `os.path.exists`.
- `StateGraph` itself is not modelled. Its compiled behaviour for this graph, classify then the routed qa then END, is written out as `Chat`.
- Service failures and exceptions are not modelled. No code in the core catches them; they propagate to the page.
- `build_vector_db_from_pdfs` and the upload pages are not modelled. They are I/O: saving files, loading PDFs, splitting text and writing indexes.
- The chat page's rendering is not modelled: message bubbles, the spinner and the Chinese display name of the department.
- `Lower` uses the ASCII case mapping only. Python's full mapping also changes non-ASCII letters. No non-ASCII character lower-cases to a letter of `hr`, `vpn` or `teams`, and the Chinese keywords have no case, so the department chosen is unaffected.
- `Utils.CleanText`: its own contract states only that it never lengthens its input. Its full meaning is stated by `Utils.CleanTextIsJoinedWords` and the lemmas derived from it.
- `LangGraphChat.Session` fixes the services for a whole session. So an index built from the upload page in the middle of a session, or a model that answers the same prompt differently twice, is outside it. Every property of a single step holds for all services.
- Unicode beyond code points is not modelled: there is no normalisation and no surrogate handling. Strings are sequences of code points, as in Python.
