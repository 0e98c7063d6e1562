/** The chat page's state and its submit handler (`handleSubmit`): a
    non-blank message becomes a user turn, the grounding document is
    resolved, and exactly one assistant turn answers it: the fallback when
    nothing grounds the answer, the generated text, or an apology when the
    generation call fails. The embedding and generation calls are outside the
    model; their outcomes are parameters. */
module Conversation {
  import opened Wrappers
  import opened JsBuiltins
  import opened DocumentRepository
  import opened DocumentLoading
  import opened Ranking
  import opened Override
  import opened PromptAssembly

  /** What `cohere.generate` gave back: it threw (or its response had no
      readable first text), or it answered with these generated texts. */
  datatype GenerateOutcome = GenerateFailed | Generations(texts: seq<string>)

  const Welcome: Turn := Turn(Assistant,
    "Hello! I'm Panoptis. How can I help you? I'm happy to chat in your language and answer your questions about the app. \U{1F60A}")

  const FallbackText: string :=
    "Sorry, I could not find relevant information in the documentation. Please try rephrasing your question or ask about another topic."

  /** The reply when the first generation is missing or trims to nothing. */
  const EmptyGenerationText: string := "Sorry, an error occurred."

  /** The reply when anything in the grounded path throws. */
  const ErrorText: string := "Sorry, I cannot respond at the moment. Please try again."

  /** `response.generations[0]?.text.trim() || 'Sorry, an error occurred.'`:
      never empty, never padded with whitespace, and the first generated text
      with its surrounding whitespace removed whenever it has anything besides
      whitespace. */
  function BotResponse(texts: seq<string>): (r: string)
    ensures r != [] && !IsWhitespace(r[0]) && !IsWhitespace(r[|r| - 1])
    ensures texts != [] && !IsBlank(texts[0]) ==> r == Trim(texts[0])
    ensures texts == [] || IsBlank(texts[0]) ==> r == EmptyGenerationText
  {
    var trimmed := if texts == [] then "" else Trim(texts[0]);
    if trimmed == [] then EmptyGenerationText else trimmed
  }

  /** The grounding document of a message: the override's forced document
      when its lookup succeeds, otherwise what retrieval found. */
  function Grounding(documents: seq<Document>, message: string, embed: EmbedOutcome, sqrt: real -> real): (r: Option<Document>)
    ensures r.Some? ==> r.value in documents
  {
    Resolve(LastMatch(Triggers, ToLower(message)), documents, Retrieve(documents, embed, sqrt))
  }

  /** The assistant turn that answers a non-blank message. */
  function Reply(grounding: Option<Document>, gen: GenerateOutcome): (t: Turn)
    ensures t.role == Assistant
  {
    match grounding
    case None => Turn(Assistant, FallbackText)
    case Some(_) =>
      match gen
      case GenerateFailed => Turn(Assistant, ErrorText)
      case Generations(texts) => Turn(Assistant, BotResponse(texts))
  }

  /** The `cohere.generate` call the handler makes for a grounded message:
      the grounding document, the conversation before the message, and the
      message. The prompt it sends is `PromptOf` of these. */
  datatype GenerationCall = GenerationCall(document: Document, history: seq<Turn>, message: string)

  /** The prompt string a generation call carries. */
  function PromptOf(call: GenerationCall): string {
    BuildPrompt(Some(call.document), call.history, call.message)
  }

  /** The generation call for a message: none when nothing grounds it, since
      the handler stops at the fallback. */
  function GenerationRequest(grounding: Option<Document>, history: seq<Turn>, message: string): (r: Option<GenerationCall>)
    ensures r.Some? <==> grounding.Some?
    ensures r.Some? ==> r.value.document == grounding.value && r.value.history == history && r.value.message == message
  {
    if grounding.Some? then Some(GenerationCall(grounding.value, history, message)) else None
  }

  /** Turns alternate between the two roles and the assistant has the last
      word: the shape the welcome turn starts and every submission keeps. */
  predicate Alternating(chat: seq<Turn>) {
    && (forall i, j :: 0 <= i < |chat| && 0 <= j < |chat| && j == i + 1 ==> chat[i].role != chat[j].role)
    && (chat != [] ==> chat[|chat| - 1].role == Assistant)
  }

  class Chat {
    /** The conversation shown on the page. */
    var chat: seq<Turn>
    /** Whether a reply is being produced. */
    var isLoading: bool
    /** The loaded corpus. */
    var documents: seq<Document>
    /** The text in the input box. */
    var message: string

    /** The state on mount: everything empty. */
    constructor()
      ensures chat == [] && !isLoading && documents == [] && message == ""
    {
      chat := [];
      isLoading := false;
      documents := [];
      message := "";
    }

    /** The welcome effect: an empty conversation gets the welcome turn. */
    method ShowWelcome()
      modifies this
      ensures chat == if old(chat) == [] then [Welcome] else old(chat)
      ensures isLoading == old(isLoading) && documents == old(documents) && message == old(message)
      ensures Alternating(old(chat)) ==> Alternating(chat)
    {
      if |chat| == 0 {
        chat := [Welcome];
      }
    }

    /** The loading effect: the corpus becomes one document per catalog
        entry, given how each entry's fetch turned out. */
    method LoadCorpus(fetched: seq<Option<string>>)
      requires |fetched| == |Repository|
      modifies this
      ensures documents == LoadDocuments(Repository, fetched)
      ensures chat == old(chat) && isLoading == old(isLoading) && message == old(message)
    {
      documents := LoadDocuments(Repository, fetched);
    }

    /** The input box's change handler. */
    method Edit(text: string)
      modifies this
      ensures message == text
      ensures chat == old(chat) && isLoading == old(isLoading) && documents == old(documents)
    {
      message := text;
    }

    /** The submit handler, given how the embedding and generation calls turn
        out. It returns what it sent to the embedder and the generation call
        it made (None for a call it did not make). */
    method Submit(embed: EmbedOutcome, gen: GenerateOutcome, sqrt: real -> real)
      returns (embedInput: Option<seq<string>>, call: Option<GenerationCall>)
      modifies this
      ensures IsBlank(old(message)) ==>
        && chat == old(chat) && isLoading == old(isLoading) && message == old(message)
        && embedInput.None? && call.None?
      ensures !IsBlank(old(message)) ==>
        var grounding := Grounding(old(documents), old(message), embed, sqrt);
        && chat == old(chat) + [Turn(User, old(message))] + [Reply(grounding, gen)]
        && !isLoading
        && message == ""
        && embedInput == (if old(documents) == [] then None else Some(Contents(old(documents)) + [old(message)]))
        && call == GenerationRequest(grounding, old(chat), old(message))
      ensures documents == old(documents)
      ensures Alternating(old(chat)) ==> Alternating(chat)
    {
      if IsBlank(message) {
        return None, None;
      }
      embedInput, call := Exchange(embed, gen, sqrt);
    }

    /** The non-blank path of the submit handler: the user turn is shown,
        the message is answered, and the reply is shown. */
    method Exchange(embed: EmbedOutcome, gen: GenerateOutcome, sqrt: real -> real)
      returns (embedInput: Option<seq<string>>, call: Option<GenerationCall>)
      modifies this
      ensures chat == old(chat) + [Turn(User, old(message))] + [Reply(Grounding(old(documents), old(message), embed, sqrt), gen)]
      ensures !isLoading && message == "" && documents == old(documents)
      ensures embedInput == (if old(documents) == [] then None else Some(Contents(old(documents)) + [old(message)]))
      ensures call == GenerationRequest(Grounding(old(documents), old(message), embed, sqrt), old(chat), old(message))
      ensures Alternating(old(chat)) ==> Alternating(chat)
    {
      var text, history, corpus := message, chat, documents;  // the values the handler's closure sees
      chat := chat + [Turn(User, text)];
      message := "";
      isLoading := true;

      var reply;
      embedInput, call, reply := Respond(corpus, history, text, embed, gen, sqrt);
      chat := chat + [reply];
      isLoading := false;
      ExchangeKeepsAlternation(history, Turn(User, text), reply);
    }
  }

  /** Everything the submit handler does between appending the user turn and
      appending the reply: ground the message, then answer it. Returns what
      was sent to the embedder and to the generator, and the reply turn. */
  method Respond(documents: seq<Document>, history: seq<Turn>, text: string,
                 embed: EmbedOutcome, gen: GenerateOutcome, sqrt: real -> real)
    returns (embedInput: Option<seq<string>>, call: Option<GenerationCall>, reply: Turn)
    ensures embedInput == if documents == [] then None else Some(Contents(documents) + [text])
    ensures call == GenerationRequest(Grounding(documents, text, embed, sqrt), history, text)
    ensures reply == Reply(Grounding(documents, text, embed, sqrt), gen)
  {
    var relevantDoc;
    relevantDoc, embedInput := GroundMessage(documents, text, embed, sqrt);
    call := if relevantDoc.Some? then Some(GenerationCall(relevantDoc.value, history, text)) else None;
    reply := Reply(relevantDoc, gen);
  }

  /** The grounding steps of the submit handler: the keyword tests, then
      retrieval, then the override when its lookup succeeds. Also returns what
      retrieval sent to the embedder. */
  method GroundMessage(documents: seq<Document>, text: string, embed: EmbedOutcome, sqrt: real -> real)
    returns (relevantDoc: Option<Document>, embedInput: Option<seq<string>>)
    ensures relevantDoc == Grounding(documents, text, embed, sqrt)
    ensures embedInput == if documents == [] then None else Some(Contents(documents) + [text])
  {
    var forcedDocId := ForcedDocId(text);
    relevantDoc, embedInput := FindRelevantDocuments(documents, text, embed, sqrt);
    if forcedDocId.Some? {
      var forcedDoc := ForcedDocument(forcedDocId.value, documents);
      if forcedDoc.Some? {
        relevantDoc := forcedDoc;
      }
    }
  }

  /** Appending a user turn and then an assistant turn keeps the chat
      alternating. */
  lemma ExchangeKeepsAlternation(chat: seq<Turn>, question: Turn, answer: Turn)
    requires question.role == User && answer.role == Assistant
    ensures Alternating(chat) ==> Alternating(chat + [question] + [answer])
  {
    var c := chat + [question] + [answer];
    if Alternating(chat) {
      forall i, j | 0 <= i < |c| && 0 <= j < |c| && j == i + 1
        ensures c[i].role != c[j].role
      {
        if j < |chat| {
          assert c[i] == chat[i] && c[j] == chat[j];
        }
      }
    }
  }

  /** With no trigger word and no candidate scoring above the threshold, the
      answer is the fallback turn and no generation is attempted. */
  lemma NoMatchMeansFallback(documents: seq<Document>, message: string, embed: EmbedOutcome,
                             sqrt: real -> real, gen: GenerateOutcome)
    requires !MentionsElefantgotchi(ToLower(message)) && !MentionsPricing(ToLower(message))
    requires embed.Vectors? ==>
      var s := Scores(embed.vectors, |documents|, sqrt);
      forall j :: 0 <= j < |s| && s[j].Real? ==> s[j].value <= Threshold
    ensures Grounding(documents, message, embed, sqrt).None?
    ensures Reply(Grounding(documents, message, embed, sqrt), gen) == Turn(Assistant, FallbackText)
  {
    RetrieveNoneIff(documents, embed, sqrt);
    NoTriggerKeepsRanking(message, documents, Retrieve(documents, embed, sqrt));
  }

  /** On the catalog's corpus, a pricing question is always grounded in the
      pricing document, so it never gets the fallback, whatever the embedder
      answered. */
  lemma PricingQuestionGrounded(fetched: seq<Option<string>>, message: string, embed: EmbedOutcome,
                                sqrt: real -> real)
    requires |fetched| == |Repository|
    requires MentionsPricing(ToLower(message))
    ensures var documents := LoadDocuments(Repository, fetched);
      && Grounding(documents, message, embed, sqrt) == Some(documents[1])
      && documents[1].title == "Pricing Information"
  {
    PricingOverrideWins(message, fetched, Retrieve(LoadDocuments(Repository, fetched), embed, sqrt));
  }

  /** Every reply is an assistant turn with visible text: never blank, and
      never ending in whitespace. */
  lemma ReplyVisible(grounding: Option<Document>, gen: GenerateOutcome)
    ensures var t := Reply(grounding, gen);
      && t.role == Assistant
      && !IsBlank(t.content)
      && t.content != [] && !IsWhitespace(t.content[|t.content| - 1])
  {
    var t := Reply(grounding, gen);
    assert FallbackText[|FallbackText| - 1] == '.';
    assert ErrorText[|ErrorText| - 1] == '.';
    assert !AllWhitespace(t.content) by {
      assert !IsWhitespace(t.content[|t.content| - 1]);
    }
  }

  /** The welcome turn starts an alternating conversation. */
  lemma WelcomeAlternates()
    ensures Alternating([Welcome])
    ensures Welcome.role == Assistant && !IsBlank(Welcome.content)
  {
    assert Welcome.content[|Welcome.content| - 1] == '\U{1F60A}';
    assert !IsWhitespace(Welcome.content[|Welcome.content| - 1]);
  }

  /** A message gets a generation call exactly when something grounds it,
      and the prompt of that call opens with the persona, quotes the
      grounding document's title and content, and closes with the message
      and the cue for the assistant. */
  lemma GroundedPromptQuotesDocument(grounding: Option<Document>, history: seq<Turn>, message: string)
    ensures GenerationRequest(grounding, history, message).Some? <==> grounding.Some?
    ensures grounding.Some? ==>
      var p := PromptOf(GenerationRequest(grounding, history, message).value);
      && StartsWith(p, PageTemplate.persona)
      && Includes(p, grounding.value.title)
      && Includes(p, grounding.value.content)
      && |p| >= |PromptTail(PageTemplate, message)|
      && p[|p| - |PromptTail(PageTemplate, message)|..] == PromptTail(PageTemplate, message)
  {
    if grounding.Some? {
      PromptLayout(PageTemplate, grounding.value, history, message);
      PromptQuotesDocument(PageTemplate, grounding.value, history, message);
    }
  }
}
