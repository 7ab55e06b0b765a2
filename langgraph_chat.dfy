/** The question-answering graph of modules/langgraph_chat.py: a classifier node
    that picks a department, a question-answering node that consults that
    department's vector index and records the exchange in the history, and the
    graph that runs one after the other.

    The services the nodes call are parameters: `llm` is the language model's
    reply to a prompt, `pathExists` is the file-system test for a path, and
    `chain` is the retrieval chain built over the index at a path and run on a
    query. Every node also reports the calls it made, so "no model call" and
    "exactly one model call" are statements about the result. */
module LangGraphChat {
  import opened PyText

  /** One entry of `history`: the dictionary `{"user": ..., "assistant": ...}`. */
  datatype Turn = Turn(user: string, assistant: string)

  /** `ChatState`: the dictionary every node receives and returns. */
  datatype ChatState = ChatState(question: string, department: string, answer: string, history: seq<Turn>)

  /** A call to a service outside the core. */
  datatype Call =
    | Complete(prompt: string)                 // llm.invoke(prompt)
    | RunChain(indexPath: string, query: string) // a RetrievalQA chain over the index at indexPath, run on query

  /** What a node returns, with the calls it made on the way, in order. */
  datatype Step = Step(state: ChatState, calls: seq<Call>)

  const HrFinance: string := "hr_finance"
  const It: string := "it"

  /** Keywords that send a question to HR/finance: leave request, expense claim,
      salary, paid leave, overtime, marriage leave, insurance, fees. */
  const HrFinanceKeywords: seq<string> := ["請假", "報帳", "薪資", "特休", "加班", "婚假", "保險", "費用"]

  /** Keywords that send a question to IT: VPN, computer, Teams, log-in, server,
      network, printer. */
  const ItKeywords: seq<string> := ["vpn", "電腦", "teams", "登入", "伺服器", "網路", "印表機"]

  /** The conditional edge out of "classify": department value to next node. */
  const Routes: map<string, string> := map[HrFinance := "qa", It := "qa"]

  // ---------------------------------------------------------------------------
  // Node 1: classify

  /** `any(k in q for k in keywords)`. */
  predicate MentionsAny(q: string, keywords: seq<string>)
    ensures (forall j :: 0 <= j < |keywords| ==> keywords[j] != []) && q == [] ==> !MentionsAny(q, keywords)
  {
    exists j :: 0 <= j < |keywords| && Contains(q, keywords[j])
  }

  /** The closed-choice prompt sent to the model when no keyword matches; it
      carries the question as typed, not lower-cased. */
  function ClassifyPrompt(question: string): (p: string)
    ensures |p| > |question| && p[|p| - |question|..] == question
  {
    "你是公司助理，請判斷下列問題屬於哪個部門：『人事財務』或『資訊』，只回答 hr_finance 或 it。\n\n問題：" + question
  }

  /** Reading the model's reply: `"hr_finance" if "hr" in reply.strip().lower() else "it"`. */
  function ReplyDepartment(reply: string): (d: string)
    ensures d == HrFinance || d == It
  {
    if Contains(Lower(Strip(reply)), "hr") then HrFinance else It
  }

  /** `classify_node`: keyword lists first (HR/finance before IT), the model otherwise. */
  function ClassifyNode(state: ChatState, llm: string -> string): (r: Step)
    ensures r.state == state.(department := r.state.department)
    ensures r.state.department in Routes
    ensures |r.calls| <= 1
  {
    var q := Lower(state.question);
    if MentionsAny(q, HrFinanceKeywords) then
      Step(state.(department := HrFinance), [])
    else if MentionsAny(q, ItKeywords) then
      Step(state.(department := It), [])
    else
      var prompt := ClassifyPrompt(state.question);
      Step(state.(department := ReplyDepartment(llm(prompt))), [Complete(prompt)])
  }

  // ---------------------------------------------------------------------------
  // Node 2: qa

  /** `f"vectorDB/{department}"`. */
  function IndexPath(department: string): (p: string)
    ensures |p| == 9 + |department| && p[..9] == "vectorDB/" && p[9..] == department
  {
    "vectorDB/" + department
  }

  /** The answer given when the department's index was never built. */
  function MissingIndexAnswer(department: string): (a: string)
    ensures |a| == 12 + |department| && a[8..|a| - 4] == department
    ensures a[..8] == "⚠️ 尚未建立 " && a[|a| - 4..] == " 向量庫"
  {
    "⚠️ 尚未建立 " + department + " 向量庫"
  }

  /** `f"User: {x['user']}\nAI: {x['assistant']}"`. */
  function RenderTurn(t: Turn): (s: string)
    ensures |s| == 11 + |t.user| + |t.assistant|
    ensures s[..6] == "User: " && s[6..6 + |t.user|] == t.user
    ensures s[6 + |t.user|..|s| - |t.assistant|] == "\nAI: " && s[|s| - |t.assistant|..] == t.assistant
  {
    "User: " + t.user + "\nAI: " + t.assistant
  }

  /** The list comprehension over `history`: one rendered string per turn. */
  function RenderTurns(history: seq<Turn>): (lines: seq<string>)
    ensures |lines| == |history|
    ensures forall i :: 0 <= i < |history| ==> lines[i] == RenderTurn(history[i])
  {
    if history == [] then [] else [RenderTurn(history[0])] + RenderTurns(history[1..])
  }

  /** `past_context`: the rendered turns joined by newlines. */
  function PastContext(history: seq<Turn>): (r: string)
    ensures r == "" <==> history == []
    ensures history != [] ==> RenderTurn(history[0]) <= r
  {
    Join("\n", RenderTurns(history))
  }

  /** `merged_query`: the text handed to the retrieval chain. */
  function MergedQuery(history: seq<Turn>, question: string): (r: string)
    ensures |r| == 16 + |PastContext(history)| + |question|
    ensures r[7..7 + |PastContext(history)|] == PastContext(history)
    ensures r[|r| - |question|..] == question
  {
    "【過去對話】\n" + PastContext(history) + "\n\n【目前問題】\n" + question
  }

  /** `qa_node`: the sentinel answer when the index is missing, otherwise one
      chain run and one new turn at the end of the history. */
  function QaNode(state: ChatState, pathExists: string -> bool, chain: (string, string) -> string): (r: Step)
    ensures r.state.question == state.question && r.state.department == state.department
    ensures r.state.history == state.history
         || r.state.history == state.history + [Turn(state.question, r.state.answer)]
    ensures |r.calls| <= 1
  {
    var path := IndexPath(state.department);
    if !pathExists(path) then
      Step(state.(answer := MissingIndexAnswer(state.department)), [])
    else
      var query := MergedQuery(state.history, state.question);
      var result := chain(path, query);
      Step(state.(answer := result, history := state.history + [Turn(state.question, result)]),
           [RunChain(path, query)])
  }

  // ---------------------------------------------------------------------------
  // The graph and its use by the chat page

  /** The compiled graph: entry "classify", a conditional edge on the department
      whose two values both lead to "qa", then END. */
  function Chat(state: ChatState, llm: string -> string, pathExists: string -> bool,
                chain: (string, string) -> string): (r: Step)
    ensures r.state.question == state.question
    ensures r.state.department in Routes && Routes[r.state.department] == "qa"
    ensures r.state.history == state.history
         || r.state.history == state.history + [Turn(state.question, r.state.answer)]
    ensures |r.calls| <= 2
  {
    var c := ClassifyNode(state, llm);
    var a := QaNode(c.state, pathExists, chain);
    Step(a.state, c.calls + a.calls)
  }

  /** One submission on the chat page: an empty input does nothing; otherwise the
      graph runs from a state with empty department and answer and the session's
      history, and the history it returns becomes the session's history. */
  function Ask(history: seq<Turn>, question: string, llm: string -> string,
               pathExists: string -> bool, chain: (string, string) -> string): (h: seq<Turn>)
    ensures question == "" ==> h == history
    ensures h == history || (|h| == |history| + 1 && h[..|history|] == history && h[|history|].user == question)
  {
    if question == "" then history
    else Chat(ChatState(question, "", "", history), llm, pathExists, chain).state.history
  }

  /** A session: the questions submitted one after another. */
  function Session(history: seq<Turn>, questions: seq<string>, llm: string -> string,
                   pathExists: string -> bool, chain: (string, string) -> string): (h: seq<Turn>)
    ensures history <= h && |h| <= |history| + |questions|
    decreases |questions|
  {
    if questions == [] then history
    else Session(Ask(history, questions[0], llm, pathExists, chain), questions[1..], llm, pathExists, chain)
  }

  // ---------------------------------------------------------------------------
  // Classifier properties

  /** An HR/finance keyword decides the department without asking the model:
      the result is the same whatever the model would say. */
  lemma ClassifyHrFinanceKeyword(state: ChatState, llm: string -> string, llm': string -> string)
    requires MentionsAny(Lower(state.question), HrFinanceKeywords)
    ensures ClassifyNode(state, llm).state.department == HrFinance
    ensures ClassifyNode(state, llm).calls == []
    ensures ClassifyNode(state, llm) == ClassifyNode(state, llm')
  {
  }

  /** An IT keyword with no HR/finance keyword gives IT, without asking the model. */
  lemma ClassifyItKeyword(state: ChatState, llm: string -> string, llm': string -> string)
    requires !MentionsAny(Lower(state.question), HrFinanceKeywords)
    requires MentionsAny(Lower(state.question), ItKeywords)
    ensures ClassifyNode(state, llm).state.department == It
    ensures ClassifyNode(state, llm).calls == []
    ensures ClassifyNode(state, llm) == ClassifyNode(state, llm')
  {
  }

  /** Tie-break: a question with keywords from both lists goes to HR/finance. */
  lemma ClassifyTieBreak(state: ChatState, llm: string -> string)
    requires MentionsAny(Lower(state.question), HrFinanceKeywords)
    requires MentionsAny(Lower(state.question), ItKeywords)
    ensures ClassifyNode(state, llm).state.department == HrFinance
  {
  }

  /** No keyword: exactly one model call, with the prompt built from the question
      as typed, and HR/finance exactly when the reply contains "hr" in any case
      (surrounding whitespace in the reply plays no part). */
  lemma ClassifyByModel(state: ChatState, llm: string -> string)
    requires !MentionsAny(Lower(state.question), HrFinanceKeywords)
    requires !MentionsAny(Lower(state.question), ItKeywords)
    ensures ClassifyNode(state, llm).calls == [Complete(ClassifyPrompt(state.question))]
    ensures var reply := llm(ClassifyPrompt(state.question));
            ClassifyNode(state, llm).state.department == (if Contains(Lower(reply), "hr") then HrFinance else It)
  {
    StripLowerContains(llm(ClassifyPrompt(state.question)), "hr");
  }

  /** A reply without "hr", the empty one included, defaults to IT. */
  lemma ReplyDefaultsToIt(reply: string)
    requires !Contains(Lower(reply), "hr")
    ensures ReplyDepartment(reply) == It
  {
    StripLowerContains(reply, "hr");
  }

  /** Whatever the model answers, the classified state goes on to "qa". */
  lemma ClassifyRoutesToQa(state: ChatState, llm: string -> string)
    ensures ClassifyNode(state, llm).state.department in {HrFinance, It}
    ensures Routes[ClassifyNode(state, llm).state.department] == "qa"
    ensures Routes.Keys == {HrFinance, It}
  {
  }

  /** Keyword matching ignores case: a question that contains an IT keyword in
      any capitalisation ("VPN", "Teams") and no HR/finance keyword is IT. */
  lemma ClassifyItKeywordAnyCase(state: ChatState, llm: string -> string, k: string, j: nat)
    requires j < |ItKeywords| && Lower(k) == ItKeywords[j]
    requires Contains(state.question, k)
    requires !MentionsAny(Lower(state.question), HrFinanceKeywords)
    ensures ClassifyNode(state, llm) == Step(state.(department := It), [])
  {
    ContainsLower(state.question, k);
  }

  /** The same for HR/finance keywords, which win whatever else the question says. */
  lemma ClassifyHrFinanceKeywordAnyCase(state: ChatState, llm: string -> string, k: string, j: nat)
    requires j < |HrFinanceKeywords| && Lower(k) == HrFinanceKeywords[j]
    requires Contains(state.question, k)
    ensures ClassifyNode(state, llm) == Step(state.(department := HrFinance), [])
  {
    ContainsLower(state.question, k);
  }

  // ---------------------------------------------------------------------------
  // Question-answering properties

  /** A missing index: the sentinel answer naming the department, the history
      untouched, and no chain built or run. */
  lemma QaMissingIndex(state: ChatState, pathExists: string -> bool,
                       chain: (string, string) -> string)
    requires !pathExists(IndexPath(state.department))
    ensures QaNode(state, pathExists, chain).state == state.(answer := MissingIndexAnswer(state.department))
    ensures QaNode(state, pathExists, chain).calls == []
  {
  }

  /** An existing index: one chain run on the merged query, whose result is the
      answer and is appended, as the only change, to the end of the history. */
  lemma QaAppendsTurn(state: ChatState, pathExists: string -> bool,
                      chain: (string, string) -> string)
    requires pathExists(IndexPath(state.department))
    ensures var r := QaNode(state, pathExists, chain);
            var query := MergedQuery(state.history, state.question);
            && r.calls == [RunChain(IndexPath(state.department), query)]
            && r.state.answer == chain(IndexPath(state.department), query)
            && r.state.history == state.history + [Turn(state.question, r.state.answer)]
            && r.state == state.(answer := r.state.answer, history := r.state.history)
  {
  }

  /** Distinct departments use distinct index directories. */
  lemma IndexPathInjective(d: string, d': string)
    requires IndexPath(d) == IndexPath(d')
    ensures d == d'
  {
    assert d == IndexPath(d)[9..];
  }

  /** An empty history serialises to the empty string. */
  lemma PastContextEmpty()
    ensures PastContext([]) == ""
  {
  }

  /** With no history the merged query is the two headers, an empty past
      section between them, and the question. */
  lemma MergedQueryNoHistory(question: string)
    ensures MergedQuery([], question) == "【過去對話】\n\n\n【目前問題】\n" + question
  {
    PastContextEmpty();
    assert "【過去對話】\n" + "" + "\n\n【目前問題】\n" == "【過去對話】\n\n\n【目前問題】\n";
  }

  /** Serialising one more turn extends the text by a newline and that turn. */
  lemma PastContextSnoc(history: seq<Turn>, t: Turn)
    ensures PastContext(history + [t])
         == if history == [] then RenderTurn(t) else PastContext(history) + "\n" + RenderTurn(t)
  {
    assert RenderTurns(history + [t]) == RenderTurns(history) + [RenderTurn(t)];
    if history != [] {
      JoinSnoc("\n", RenderTurns(history), RenderTurn(t));
    }
  }

  /** The context the next question sees after an answered one is the old context
      followed by the new turn. */
  lemma QaExtendsContext(state: ChatState, pathExists: string -> bool,
                         chain: (string, string) -> string)
    requires pathExists(IndexPath(state.department))
    ensures var r := QaNode(state, pathExists, chain);
            var t := RenderTurn(Turn(state.question, r.state.answer));
            PastContext(r.state.history)
              == if state.history == [] then t else PastContext(state.history) + "\n" + t
  {
    var r := QaNode(state, pathExists, chain);
    PastContextSnoc(state.history, Turn(state.question, r.state.answer));
  }

  // ---------------------------------------------------------------------------
  // Graph and session properties

  /** One run of the graph: the department chosen by the classifier, then either
      the sentinel with the history unchanged, or the chain's answer appended. */
  lemma ChatOutcome(state: ChatState, llm: string -> string, pathExists: string -> bool,
                    chain: (string, string) -> string)
    ensures var r := Chat(state, llm, pathExists, chain);
            var d := ClassifyNode(state, llm).state.department;
            && r.state.department == d
            && (if pathExists(IndexPath(d))
                then r.state.answer == chain(IndexPath(d), MergedQuery(state.history, state.question))
                     && r.state.history == state.history + [Turn(state.question, r.state.answer)]
                     && r.calls == ClassifyNode(state, llm).calls + [RunChain(IndexPath(d), MergedQuery(state.history, state.question))]
                else r.state.history == state.history
                     && r.state.answer == MissingIndexAnswer(d)
                     && r.calls == ClassifyNode(state, llm).calls)
  {
    var c := ClassifyNode(state, llm);
    if pathExists(IndexPath(c.state.department)) {
      QaAppendsTurn(c.state, pathExists, chain);
    } else {
      QaMissingIndex(c.state, pathExists, chain);
    }
  }

  /** `after` is `before` followed by one turn per question, asked by those
      questions in that order. */
  predicate AppendsInOrder(before: seq<Turn>, after: seq<Turn>, questions: seq<string>) {
    && |after| == |before| + |questions|
    && after[..|before|] == before
    && forall i :: 0 <= i < |questions| ==> after[|before| + i].user == questions[i]
  }

  /** With both indexes built, a non-empty submission appends exactly one turn,
      asked by that question. */
  lemma AskAppendsOne(history: seq<Turn>, question: string, llm: string -> string,
                      pathExists: string -> bool, chain: (string, string) -> string)
    requires pathExists(IndexPath(HrFinance)) && pathExists(IndexPath(It))
    requires question != ""
    ensures AppendsInOrder(history, Ask(history, question, llm, pathExists, chain), [question])
  {
    var s := ChatState(question, "", "", history);
    ChatOutcome(s, llm, pathExists, chain);
    var h := Ask(history, question, llm, pathExists, chain);
    assert h == history + [Turn(question, Chat(s, llm, pathExists, chain).state.answer)];
    assert h[..|history|] == history;
  }

  /** Appending in order composes: one question, then the rest. */
  lemma AppendsInOrderCons(before: seq<Turn>, mid: seq<Turn>, after: seq<Turn>, questions: seq<string>)
    requires questions != []
    requires AppendsInOrder(before, mid, [questions[0]])
    requires AppendsInOrder(mid, after, questions[1..])
    ensures AppendsInOrder(before, after, questions)
  {
    assert |mid| == |before| + 1;
    assert after[..|mid|] == mid;
    assert after[..|before|] == mid[..|before|];
    forall i | 0 <= i < |questions|
      ensures after[|before| + i].user == questions[i]
    {
      if i == 0 {
        assert mid[|before| + 0].user == [questions[0]][0];
        assert after[..|mid|][|before|] == after[|before|];
      } else {
        assert after[|mid| + (i - 1)].user == questions[1..][i - 1];
        assert |before| + i == |mid| + (i - 1);
      }
    }
  }

  /** With both indexes built and no empty submissions, N questions add exactly N
      turns, in the order they were asked, and leave the earlier turns alone. */
  lemma {:induction false} SessionHistoryLaw(history: seq<Turn>, questions: seq<string>,
      llm: string -> string, pathExists: string -> bool, chain: (string, string) -> string)
    requires pathExists(IndexPath(HrFinance)) && pathExists(IndexPath(It))
    requires forall i :: 0 <= i < |questions| ==> questions[i] != ""
    ensures AppendsInOrder(history, Session(history, questions, llm, pathExists, chain), questions)
    decreases |questions|
  {
    if questions == [] {
      assert history[..|history|] == history;
    } else {
      var h1 := Ask(history, questions[0], llm, pathExists, chain);
      AskAppendsOne(history, questions[0], llm, pathExists, chain);
      SessionHistoryLaw(h1, questions[1..], llm, pathExists, chain);
      AppendsInOrderCons(history, h1, Session(h1, questions[1..], llm, pathExists, chain), questions);
    }
  }

  // ---------------------------------------------------------------------------
  // Worked example

  /** "How is overtime pay calculated?" contains 加班 (overtime), so it is an
      HR/finance question and the model is not asked. */
  lemma OvertimeIsHrFinance(history: seq<Turn>, llm: string -> string)
    ensures var s := ChatState("請問加班費怎麼算？", "", "", history);
            ClassifyNode(s, llm) == Step(s.(department := HrFinance), [])
  {
    var q := "請問加班費怎麼算？";
    assert Lower("加班") == HrFinanceKeywords[4];
    assert "加班" <= q[2..];
    ClassifyHrFinanceKeywordAnyCase(ChatState(q, "", "", history), llm, "加班", 4);
  }

  /** Where the HR/finance index lives. */
  lemma HrFinanceIndexPath()
    ensures IndexPath(HrFinance) == "vectorDB/hr_finance"
  {
  }

  /** When the classifier settles a state without calling the model, the graph's
      whole run is the answering step on the classified state. */
  lemma KeywordRouteSkipsModel(s: ChatState, llm: string -> string,
                               pathExists: string -> bool, chain: (string, string) -> string)
    requires ClassifyNode(s, llm).calls == []
    ensures Chat(s, llm, pathExists, chain) == QaNode(ClassifyNode(s, llm).state, pathExists, chain)
  {
    var cl := ClassifyNode(s, llm);
    var a := QaNode(cl.state, pathExists, chain);
    assert cl.calls + a.calls == a.calls;
  }

  /** The same question on a fresh session with the HR/finance index built: one
      chain run on the merged query with an empty past-conversation section, and
      a one-turn history. */
  lemma OvertimeQuestion(llm: string -> string, pathExists: string -> bool,
                         chain: (string, string) -> string)
    requires pathExists("vectorDB/hr_finance")
    ensures var q := "請問加班費怎麼算？";
            var query := "【過去對話】\n\n\n【目前問題】\n" + q;
            var r := Chat(ChatState(q, "", "", []), llm, pathExists, chain);
            && r.state.department == "hr_finance"
            && r.calls == [RunChain("vectorDB/hr_finance", query)]
            && r.state.history == [Turn(q, chain("vectorDB/hr_finance", query))]
  {
    var q := "請問加班費怎麼算？";
    var s := ChatState(q, "", "", []);
    var c := s.(department := HrFinance);
    OvertimeIsHrFinance([], llm);
    KeywordRouteSkipsModel(s, llm, pathExists, chain);
    HrFinanceIndexPath();
    QaAppendsTurn(c, pathExists, chain);
    MergedQueryNoHistory(q);
  }
}
