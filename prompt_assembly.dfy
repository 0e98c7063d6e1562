/** Prompt assembly in `handleSubmit`: the generation prompt is the persona,
    the context block of the grounding document, the last three turns of the
    conversation as it stood before the new user turn, and the new message. */
module PromptAssembly {
  import opened Wrappers
  import opened JsBuiltins
  import opened DocumentLoading

  /** Who spoke a turn. The chat only ever holds `'user'` and `'assistant'`. */
  datatype Role = User | Assistant

  /** One entry of `chat`. */
  datatype Turn = Turn(role: Role, content: string)

  /** How many of the latest turns the prompt quotes (`chat.slice(-3)`). */
  const HistoryWindow: nat := 3

  /** The fixed texts of the prompt: the persona, the three texts around the
      grounding document's title and content, the header before the recent
      conversation, and the texts before and after the new message. */
  datatype Template = Template(persona: string, intro: string, mid: string, outro: string,
                               header: string, ask: string, cue: string)

  /** The texts the chat page writes into its prompt. */
  const PageTemplate: Template := Template(
    "You are an AI assistant named Panoptis. You always speak in the user's language. You are kind and helpful.",
    "\nI've found some relevant information from our documentation that may help with this question:\n  Title: ",
    "\n  Content: ",
    "\n  \n  IMPORTANT: Use this information to help answer the question. When asked about pricing, features, or app details, base your answer on this documentation.",
    "\n  \n  Recent conversation:\n  ",
    "\n  \n  H: ",
    "\n  Panoptis:")

  /** `contextPrompt` for a resolved document. */
  function ContextBlock(t: Template, doc: Document): string {
    t.intro + doc.title + t.mid + doc.content + t.outro
  }

  /** `contextPrompt`: empty until a document is resolved. */
  function ContextPrompt(t: Template, relevant: Option<Document>): string {
    match relevant
    case Some(doc) => ContextBlock(t, doc)
    case None => ""
  }

  /** The label of a turn: `Human` for the user, `Panoptis` for anyone else. */
  function Speaker(role: Role): string {
    if role == User then "Human" else "Panoptis"
  }

  function RenderTurn(turn: Turn): string {
    Speaker(turn.role) + ": " + turn.content
  }

  function RenderTurns(turns: seq<Turn>): (lines: seq<string>)
    ensures |lines| == |turns|
    ensures forall i :: 0 <= i < |turns| ==> lines[i] == RenderTurn(turns[i])
  {
    seq(|turns|, i requires 0 <= i < |turns| => RenderTurn(turns[i]))
  }

  /** The recent-conversation part: the last turns, one line each. */
  function RecentConversation(chat: seq<Turn>): string {
    Join(RenderTurns(LastN(chat, HistoryWindow)), "\n")
  }

  /** What follows the recent conversation: the new message and the cue. */
  function PromptTail(t: Template, message: string): string {
    t.ask + message + t.cue
  }

  /** A prompt laid out by template `t`. `chat` is the conversation before
      the new user turn was appended, as the submit handler's closure sees
      it. */
  function Render(t: Template, relevant: Option<Document>, chat: seq<Turn>, message: string): string {
    t.persona + ContextPrompt(t, relevant) + t.header + RecentConversation(chat) + PromptTail(t, message)
  }

  /** The prompt the chat page sends to the generator. The lemmas below hold
      for every template, this one included. */
  function BuildPrompt(relevant: Option<Document>, chat: seq<Turn>, message: string): string {
    Render(PageTemplate, relevant, chat, message)
  }

  /** The prompt opens with the persona, followed directly by the context block
      of the grounding document, and closes with the new message and the
      cue. */
  lemma PromptLayout(t: Template, doc: Document, chat: seq<Turn>, message: string)
    ensures var p := Render(t, Some(doc), chat, message);
      && StartsWith(p, t.persona)
      && OccursAt(p, ContextBlock(t, doc), |t.persona|)
      && |p| >= |PromptTail(t, message)|
      && p[|p| - |PromptTail(t, message)|..] == PromptTail(t, message)
  {
    Pieces(t.persona, ContextBlock(t, doc), t.header, RecentConversation(chat), PromptTail(t, message));
  }

  /** Without a grounding document the prompt has no context block: the
      persona is followed directly by the conversation header. The chat page
      itself never builds such a prompt, since its handler answers with the
      fallback before assembling one when nothing grounds the message. */
  lemma NoContextWithoutDocument(t: Template, chat: seq<Turn>, message: string)
    ensures OccursAt(Render(t, None, chat, message), t.header, |t.persona|)
  {
    Pieces(t.persona, "", t.header, RecentConversation(chat), PromptTail(t, message));
    assert Render(t, None, chat, message) == t.persona + "" + t.header + RecentConversation(chat) + PromptTail(t, message);
  }

  /** The prompt quotes the grounding document's title and content. */
  lemma PromptQuotesDocument(t: Template, doc: Document, chat: seq<Turn>, message: string)
    ensures Includes(Render(t, Some(doc), chat, message), doc.title)
    ensures Includes(Render(t, Some(doc), chat, message), doc.content)
  {
    var block := ContextBlock(t, doc);
    Pieces(t.intro, doc.title, t.mid, doc.content, t.outro);
    assert OccursAt(block, doc.title, |t.intro|);
    assert OccursAt(block, doc.content, |t.intro| + |doc.title| + |t.mid|);
    var recent, tail := RecentConversation(chat), PromptTail(t, message);
    IncludesPiece(t.persona, block, t.header, recent, tail, doc.title);
    IncludesPiece(t.persona, block, t.header, recent, tail, doc.content);
  }

  /** Every one of the last three turns appears in the prompt, rendered with
      its speaker label. */
  lemma PromptQuotesRecentTurns(t: Template, relevant: Option<Document>, chat: seq<Turn>, message: string, i: nat)
    requires i < |LastN(chat, HistoryWindow)|
    ensures Includes(Render(t, relevant, chat, message), RenderTurn(LastN(chat, HistoryWindow)[i]))
  {
    var lines := RenderTurns(LastN(chat, HistoryWindow));
    JoinQuotesParts(lines, "\n", i);
    var context, recent, tail := ContextPrompt(t, relevant), RecentConversation(chat), PromptTail(t, message);
    IncludesPiece(t.persona, context, t.header, recent, tail, lines[i]);
  }

  /** Turns older than the last three do not affect the prompt. */
  lemma OlderTurnsIgnored(t: Template, relevant: Option<Document>, older: seq<Turn>, chat: seq<Turn>, message: string)
    requires |chat| >= HistoryWindow
    ensures Render(t, relevant, older + chat, message) == Render(t, relevant, chat, message)
  {
    assert LastN(older + chat, HistoryWindow) == LastN(chat, HistoryWindow);
  }

  /** Different messages give different prompts: the message can be read back
      from the end of the prompt. */
  lemma PromptDeterminesMessage(t: Template, relevant: Option<Document>, chat: seq<Turn>, m1: string, m2: string)
    requires Render(t, relevant, chat, m1) == Render(t, relevant, chat, m2)
    ensures m1 == m2
  {
    var front := t.persona + ContextPrompt(t, relevant) + t.header + RecentConversation(chat) + t.ask;
    assert Render(t, relevant, chat, m1) == front + m1 + t.cue;
    assert Render(t, relevant, chat, m2) == front + m2 + t.cue;
    assert |m1| == |m2|;
    assert m1 == (front + m1 + t.cue)[|front|..|front| + |m1|];
    assert m2 == (front + m2 + t.cue)[|front|..|front| + |m2|];
  }

  /** `join` keeps every part, in order, between separators. */
  lemma {:induction false} JoinQuotesParts(parts: seq<string>, sep: string, i: nat)
    requires i < |parts|
    ensures Includes(Join(parts, sep), parts[i])
  {
    var s := Join(parts, sep);
    if i == 0 {
      assert OccursAt(s, parts[0], 0);
    } else {
      var tail := Join(parts[1..], sep);
      JoinQuotesParts(parts[1..], sep, i - 1);
      var k: nat :| k <= |tail| && OccursAt(tail, parts[1..][i - 1], k);
      var a := parts[0] + sep;
      assert s == a + tail;
      assert s[|a| + k..|a| + k + |parts[i]|] == tail[k..k + |parts[i]|];
      assert OccursAt(s, parts[i], |a| + k);
    }
  }

  /** Where the pieces of a five-part concatenation sit. */
  lemma Pieces(a: string, b: string, c: string, d: string, e: string)
    ensures var p := a + b + c + d + e;
      && StartsWith(p, a)
      && OccursAt(p, b, |a|)
      && OccursAt(p, c, |a| + |b|)
      && OccursAt(p, d, |a| + |b| + |c|)
      && |p| >= |e| && p[|p| - |e|..] == e
  {
    var p := a + b + c + d + e;
    assert p[..|a|] == a;
    assert p[|a|..|a| + |b|] == b;
    assert p[|a| + |b|..|a| + |b| + |c|] == c;
    assert p[|a| + |b| + |c|..|a| + |b| + |c| + |d|] == d;
    assert p[|p| - |e|..] == e;
  }

  /** A text included in the second or fourth piece of a five-part
      concatenation is included in the whole. */
  lemma IncludesPiece(a: string, b: string, c: string, d: string, e: string, sub: string)
    requires Includes(b, sub) || Includes(d, sub)
    ensures Includes(a + b + c + d + e, sub)
  {
    var p := a + b + c + d + e;
    if Includes(b, sub) {
      var k: nat :| k <= |b| && OccursAt(b, sub, k);
      assert forall j :: 0 <= j < |sub| ==> p[|a| + k + j] == b[k + j] == sub[j];
      assert OccursAt(p, sub, |a| + k);
    } else {
      var k: nat :| k <= |d| && OccursAt(d, sub, k);
      var q := |a| + |b| + |c|;
      assert forall j :: 0 <= j < |sub| ==> p[q + k + j] == d[k + j] == sub[j];
      assert OccursAt(p, sub, q + k);
    }
  }
}
