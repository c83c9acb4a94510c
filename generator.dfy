/** The answer generator: the retrieved documents and the recent conversation
    are rendered as text, framed in a fixed prompt, and sent to the language
    model, which is an oracle here (`None` when the call raises). */
module Generator {
  import opened Text
  import opened Json
  import opened Documents

  const NoContext: string := "No relevant context found."
  const NoHistory: string := "No previous conversation."

  /** How many of the latest messages the prompt shows. */
  const RecentLimit: nat := 5

  // ---------------------------------------------------------------- context

  /** Line `k` of the context block, numbered from 1. */
  function NumberedLine(k: nat, content: string): string {
    Decimal(k) + ". " + content
  }

  function ContextLines(docs: seq<Doc>): (lines: seq<string>)
    ensures |lines| == |docs|
    ensures forall k :: 0 <= k < |docs| ==> lines[k] == NumberedLine(k + 1, docs[k].content)
  {
    seq(|docs|, k requires 0 <= k < |docs| => NumberedLine(k + 1, docs[k].content))
  }

  /** The context block: one numbered line per document, in retrieval order. */
  function Context(docs: seq<Doc>): string {
    if |docs| == 0 then NoContext else Join("\n", ContextLines(docs))
  }

  /** `_build_context`. */
  method BuildContext(docs: seq<Doc>) returns (context: string)
    ensures context == Context(docs)
  {
    if |docs| == 0 {
      return NoContext;
    }
    var parts: seq<string> := [];
    var i := 0;
    while i < |docs|
      invariant 0 <= i <= |docs|
      invariant parts == ContextLines(docs[..i])
    {
      parts := parts + [NumberedLine(i + 1, docs[i].content)];
      i := i + 1;
    }
    assert docs[..i] == docs;
    context := Join("\n", parts);
  }

  lemma NumberedLineOneLine(k: nat, content: string)
    requires '\n' !in content
    ensures '\n' !in NumberedLine(k, content)
  {
    var d := Decimal(k);
    assert forall i :: 0 <= i < |d| ==> IsDigit(d[i]);
  }

  /** With single-line contents, splitting the context block on newlines gives
      back exactly one numbered line per document, in order. */
  lemma ContextRecoverable(docs: seq<Doc>)
    requires |docs| > 0
    requires forall k :: 0 <= k < |docs| ==> '\n' !in docs[k].content
    ensures SplitOn(Context(docs), '\n') == ContextLines(docs)
    ensures |SplitOn(Context(docs), '\n')| == |docs|
  {
    var lines := ContextLines(docs);
    forall k | 0 <= k < |lines|
      ensures '\n' !in lines[k]
    {
      NumberedLineOneLine(k + 1, docs[k].content);
    }
    SplitOnJoin(lines, '\n');
  }

  /** The placeholder appears exactly when there is nothing retrieved. */
  lemma NoContextIffEmpty(docs: seq<Doc>)
    ensures Context(docs) == NoContext <==> |docs| == 0
  {
    if |docs| > 0 {
      var lines := ContextLines(docs);
      var c := Context(docs);
      JoinStartsWith("\n", lines);
      assert StartsWith(c, lines[0]);
      assert c[0] == Decimal(1)[0];
      assert IsDigit(c[0]);
      assert NoContext[0] == 'N';
    }
  }

  // ---------------------------------------------------------------- history

  /** `history[-5:]`: the latest five messages, or all when there are fewer. */
  function Recent(h: History): (r: History)
    ensures |r| == if |h| <= RecentLimit then |h| else RecentLimit
    ensures r == h[|h| - |r|..]
  {
    if |h| <= RecentLimit then h else h[|h| - RecentLimit..]
  }

  /** One rendered message: the capitalised role (default `user`), a colon,
      and the content (default empty). */
  function HistoryLine(m: Message): string {
    Capitalize(Get(m, "role", "user")) + ": " + Get(m, "content", "")
  }

  function HistoryLines(h: History): (lines: seq<string>)
    ensures |lines| == |h|
    ensures forall k :: 0 <= k < |h| ==> lines[k] == HistoryLine(h[k])
  {
    seq(|h|, k requires 0 <= k < |h| => HistoryLine(h[k]))
  }

  /** The history block of the prompt. */
  function HistoryText(h: History): string {
    if |h| == 0 then NoHistory else Join("\n", HistoryLines(Recent(h)))
  }

  /** `_format_history`. */
  method FormatHistory(history: History) returns (text: string)
    ensures text == HistoryText(history)
  {
    if |history| == 0 {
      return NoHistory;
    }
    var recent := Recent(history);
    var formatted: seq<string> := [];
    for i := 0 to |recent|
      invariant formatted == HistoryLines(recent[..i])
    {
      assert recent[..i + 1] == recent[..i] + [recent[i]];
      formatted := formatted + [HistoryLine(recent[i])];
    }
    assert recent[..|recent|] == recent;
    text := Join("\n", formatted);
  }

  /** Appending at the front leaves the latest five alone. */
  lemma RecentOfAppend(older: History, h: History)
    requires |h| >= RecentLimit
    ensures Recent(older + h) == Recent(h)
  {
    var all := older + h;
    assert all[|all| - RecentLimit..] == h[|h| - RecentLimit..];
  }

  /** Messages older than the latest five never reach the prompt. */
  lemma OnlyRecentMatter(older: History, h: History)
    requires |h| >= RecentLimit
    ensures HistoryText(older + h) == HistoryText(h)
  {
    RecentOfAppend(older, h);
  }

  /** With single-line messages, the history block splits back into one line
      per recent message: the renderings of the latest `min(5, n)` messages,
      in order. */
  lemma HistoryRecoverable(h: History)
    requires |h| > 0
    requires forall k :: 0 <= k < |h| ==> '\n' !in HistoryLine(h[k])
    ensures var c := if |h| <= RecentLimit then |h| else RecentLimit;
      SplitOn(HistoryText(h), '\n') == HistoryLines(h[|h| - c..])
  {
    var r := Recent(h);
    var lines := HistoryLines(r);
    assert HistoryText(h) == Join("\n", lines);
    assert forall k :: 0 <= k < |lines| ==> '\n' !in lines[k] by {
      forall k | 0 <= k < |lines|
        ensures '\n' !in lines[k]
      {
        assert r[k] == h[|h| - |r| + k];
      }
    }
    SplitOnJoin(lines, '\n');
  }

  /** The value under `key` when no member carries that name is the default. */
  lemma {:induction false} GetAbsent(m: Message, key: string, default: string)
    requires forall i :: 0 <= i < |m| ==> m[i].0 != key
    ensures Get(m, key, default) == default
    decreases |m|
  {
    if |m| > 0 {
      GetAbsent(m[..|m| - 1], key, default);
    }
  }

  lemma CapitalizedUser()
    ensures Capitalize("user") == "User"
  {
    var c := Capitalize("user");
    assert c[0] == 'U' && c[1..] == Lower("ser");
    assert c[1..] == "ser";
  }

  /** A message without a role is shown as the user's. */
  lemma DefaultRole(m: Message)
    requires forall i :: 0 <= i < |m| ==> m[i].0 != "role"
    ensures HistoryLine(m) == "User" + ": " + Get(m, "content", "")
  {
    GetAbsent(m, "role", "user");
    CapitalizedUser();
  }

  /** A message without content is shown with nothing after the colon. */
  lemma DefaultContent(m: Message)
    requires forall i :: 0 <= i < |m| ==> m[i].0 != "content"
    ensures HistoryLine(m) == Capitalize(Get(m, "role", "user")) + ": "
  {
    GetAbsent(m, "content", "");
  }

  // ---------------------------------------------------------------- prompt

  const EnglishInstruction: string := "Respond in English"
  const HindiInstruction: string := "Respond in Hindi (Devanagari script)"

  /** The language line of the prompt: Hindi only for `hi-IN`. */
  function LangInstruction(language: string): (r: string)
    ensures r == HindiInstruction <==> language == "hi-IN"
    ensures r == EnglishInstruction <==> language != "hi-IN"
  {
    if language == "hi-IN" then HindiInstruction else EnglishInstruction
  }

  const Preamble: string := "You are a helpful AI assistant for a company's voice support system.\n\nContext from knowledge base:\n"
  const HistoryHeading: string := "\n\nConversation history:\n"
  const QueryHeading: string := "\n\nUser query: "
  const InstructionsHead: string :=
    "\n\nInstructions:\n1. Answer based on the context provided above\n2. If the answer is not in the context, politely say you don't know\n3. Be concise and helpful (2-3 sentences maximum for voice)\n4. "
  const InstructionsTail: string :=
    "\n5. Do not mention that you're reading from a knowledge base\n6. Sound natural and conversational\n\nResponse:"

  /** The fixed instructions, with the language line as item 4. */
  function Instructions(language: string): string {
    InstructionsHead + LangInstruction(language) + InstructionsTail
  }

  /** Where each part of a five-part concatenation sits. */
  lemma Layout(a: string, b: string, c: string, d: string, e: string)
    ensures var p := a + b + c + d + e;
      && StartsWith(p, a)
      && OccursAt(p, b, |a|)
      && OccursAt(p, c, |a| + |b|)
      && OccursAt(p, d, |a| + |b| + |c|)
      && OccursAt(p, e, |a| + |b| + |c| + |d|)
  {
    var p := a + b + c + d + e;
    assert p[..|a|] == a;
    assert p[|a|..|a| + |b|] == b;
    assert p[|a| + |b|..|a| + |b| + |c|] == c;
    assert p[|a| + |b| + |c|..|a| + |b| + |c| + |d|] == d;
    assert p[|a| + |b| + |c| + |d|..] == e;
  }

  /** The prompt's layout, with its fixed texts as parameters. */
  lemma PromptShape(pre: string, context: string, hh: string, history: string, qh: string, query: string,
                    tail: string)
    ensures var p := pre + context + (hh + history) + (qh + query) + tail;
      && StartsWith(p, pre)
      && OccursAt(p, context, |pre|)
      && OccursAt(p, hh + history, |pre| + |context|)
      && OccursAt(p, qh + query, |pre| + |context| + |hh| + |history|)
      && OccursAt(p, tail, |pre| + |context| + |hh| + |history| + |qh| + |query|)
      && |p| == |pre| + |context| + |hh| + |history| + |qh| + |query| + |tail|
  {
    Layout(pre, context, hh + history, qh + query, tail);
  }

  /** `_create_prompt`: context, history, query and the instructions appear
      verbatim, in that order, each after its fixed heading. */
  function CreatePrompt(query: string, context: string, history: string, language: string): (p: string)
    ensures StartsWith(p, Preamble)
    ensures OccursAt(p, context, |Preamble|)
    ensures OccursAt(p, HistoryHeading + history, |Preamble| + |context|)
    ensures OccursAt(p, QueryHeading + query, |Preamble| + |context| + |HistoryHeading| + |history|)
    ensures OccursAt(p, Instructions(language),
                     |Preamble| + |context| + |HistoryHeading| + |history| + |QueryHeading| + |query|)
    ensures |p| == |Preamble| + |context| + |HistoryHeading| + |history| + |QueryHeading| + |query| +
                   |Instructions(language)|
  {
    PromptShape(Preamble, context, HistoryHeading, history, QueryHeading, query, Instructions(language));
    Preamble + context + (HistoryHeading + history) + (QueryHeading + query) + Instructions(language)
  }

  // ---------------------------------------------------------------- fallback and generation

  const EnglishFallback: string :=
    "I apologize, I'm having trouble processing your request right now. Please try again in a moment."
  const HindiFallback: string :=
    "क्षमा करें, मुझे आपका अनुरोध संसाधित करने में समस्या हो रही है। कृपया कुछ समय बाद पुनः प्रयास करें।"

  /** `_fallback_response`: Hindi only for `hi-IN`, English for every other code. */
  function Fallback(language: string): (r: string)
    ensures r != ""
    ensures r == HindiFallback <==> language == "hi-IN"
    ensures r == EnglishFallback <==> language != "hi-IN"
  {
    if language == "hi-IN" then HindiFallback else EnglishFallback
  }

  /** The prompt `generate_response` sends for these inputs. */
  function PromptFor(query: string, docs: seq<Doc>, history: History, language: string): string {
    CreatePrompt(query, Context(docs), HistoryText(history), language)
  }

  /** `generate_response`: never fails and never answers with an empty text;
      the model's text when it gave a non-empty one, the fallback otherwise. */
  function GenerateResponse(query: string, docs: seq<Doc>, history: History,
                            model: string -> Option<string>, language: string := "en"): (r: string)
    ensures r != ""
    ensures var out := model(PromptFor(query, docs, history, language));
      (out.Some? && out.value != "" ==> r == out.value) &&
      (out.None? || out.value == "" ==> r == Fallback(language))
  {
    var out := model(PromptFor(query, docs, history, language));
    if out.Some? && out.value != "" then out.value else Fallback(language)
  }

  /** The model always sees the query verbatim, after the rendered context and
      history, whatever it answers. */
  lemma ModelSeesQuery(query: string, docs: seq<Doc>, history: History, language: string)
    ensures var p := PromptFor(query, docs, history, language);
      var at := |Preamble| + |Context(docs)| + |HistoryHeading| + |HistoryText(history)| + |QueryHeading|;
      OccursAt(p, query, at) && OccursAt(p, Context(docs), |Preamble|)
  {
    var p := PromptFor(query, docs, history, language);
    var at := |Preamble| + |Context(docs)| + |HistoryHeading| + |HistoryText(history)|;
    Within(p, QueryHeading, query, at);
  }
}
