# Panoptis retrieval and grounding, modelled in Dafny

Panoptis is a chat page that answers questions about an app. It grounds each
answer in one document from a small catalog. This project models that
pipeline:

- the catalog of six documents and the loading of their texts;
- cosine similarity between embedding vectors;
- retrieval of the best-scoring document above the 0.05 threshold;
- the keyword override, where a pricing word or `elefantgotchi` forces a
  document and the last test made wins;
- the prompt sent to the generator, built from the persona, the grounding
  document, the last three turns and the new message;
- the submit handler, which appends the user turn and then exactly one
  assistant turn. That turn is the fallback, the trimmed generated text, or
  an apology when generation fails.

The embedding, generation and document fetch calls are outside the model.
Their outcomes are parameters:

- fetch results are a `seq<Option<string>>`;
- `EmbedOutcome` is what the embedder returned;
- `GenerateOutcome` is what the generator returned;
- `Math.sqrt` is a function parameter, `sqrt`.

The submit handler reports what it sent to the embedder and the generation
call it made. So "no generation call on the fallback path" is a statement
about its outputs.

Modules, one per file:

- `Wrappers`: `Option`.
- `JsBuiltins`: the JavaScript string and array built-ins the page uses
  (`trim`, `toLowerCase`, `includes`, `startsWith`, `slice(-n)`, `join`,
  `find`).
- `DocumentRepository`: the catalog.
- `DocumentLoading`: `loadDocuments`.
- `Similarity`: `calculateCosineSimilarity`.
- `Ranking`: `findRelevantDocuments`.
- `Override`: the keyword tests and override resolution.
- `PromptAssembly`: the prompt text.
- `Conversation`: the page's state as a class `Chat`, with its effects and
  handlers.

How the code decides a few edge cases:

- The forced document replaces the retrieval result only when a loaded
  document carries the forced entry's title (`src/app/page.tsx:195-203`);
  otherwise the retrieval result stands.
- A document vector shorter than the query vector reads `undefined`. That
  makes the score NaN, unless the query vector has zero magnitude. A NaN
  score never wins the strict `>` comparison.
- Only indices below `embeddings.length - 1` are scored. When the embedder
  returns fewer vectors than texts, trailing documents are never candidates.
- Case-insensitivity comes only from lower-casing the message; the trigger
  words are already lower case.

## Model

| member | source | states |
|---|---|---|
| JsBuiltins.TrimStart | src/app/page.tsx:164 | the result is a suffix of the input, everything dropped is whitespace, and the result does not start with whitespace |
| JsBuiltins.TrimEnd | src/app/page.tsx:164 | the result is a prefix of the input, everything dropped is whitespace, and the result does not end with whitespace |
| JsBuiltins.Trim | src/app/page.tsx:164 | `trim()` is empty exactly when the text is all whitespace; otherwise it neither starts nor ends with whitespace; it is the slice of the input that starts where the leading whitespace ends, with only whitespace before and after it |
| JsBuiltins.TrimPadded | src/app/page.tsx:164 | what `trim()` keeps occurs in the input where the leading whitespace ends, and everything before and after it is whitespace |
| JsBuiltins.PaddedSlice | src/app/page.tsx:164 | a prefix of a suffix, each cut off only whitespace, sits in the input with only whitespace around it |
| JsBuiltins.TrimBlank | src/app/page.tsx:164 | what `trim()` keeps is empty exactly when the text is empty or all whitespace |
| JsBuiltins.IsBlank | src/app/page.tsx:164 | `!message.trim()` holds exactly when the message is empty or all whitespace |
| JsBuiltins.LowerCase | src/app/page.tsx:173 | lower-casing one code point leaves no ASCII capital and keeps lower-case letters; `ToLowerAsciiVariant` proves that each ASCII capital becomes its own small letter |
| JsBuiltins.ToLower | src/app/page.tsx:173 | `toLowerCase()` leaves no ASCII capital and never shortens the text; `ToLowerAsciiVariant` proves that any ASCII case variant of a small-letter word lowers to that word |
| JsBuiltins.ToLowerAsciiVariant | src/app/page.tsx:173-186 | lower-casing a small-letter word written with any of its letters as capitals gives back the word, so the keyword tests match in any case |
| JsBuiltins.ToLowerAppend | src/app/page.tsx:173 | lower-casing a concatenation lower-cases each part |
| JsBuiltins.Includes | src/app/page.tsx:176-186 | definition: `includes` holds when the word occurs at some index of the text; `IncludesLowered` carries it across lower-casing |
| JsBuiltins.StartsWith | src/app/page.tsx:54 | `startsWith` holds exactly when the prefix occurs at index 0 |
| JsBuiltins.IncludesLowered | src/app/page.tsx:173-186 | a word that occurs in the message in any mix of cases occurs, lower-cased, in the lower-cased message |
| JsBuiltins.LastN | src/app/page.tsx:230 | `slice(-n)` keeps the last `min(n, length)` elements, and the input is what it dropped followed by what it kept |
| JsBuiltins.Find | src/app/page.tsx:196-197 | `find` gives nothing exactly when no element satisfies the test; otherwise it gives the first element that does |
| JsBuiltins.Join | src/app/page.tsx:230 | definition: the parts in order with the separator between neighbours; `PromptAssembly.JoinQuotesParts` proves it contains every part |
| JsBuiltins.FindUnique | src/app/page.tsx:196-197 | when exactly one element satisfies the test, `find` returns that element |
| DocumentRepository.FindById | src/app/page.tsx:196 | `find` by id gives nothing exactly when no catalog entry has the id; otherwise an entry of the catalog with that id |
| DocumentRepository.RepositoryOrder | src/app/data/documentRepository.ts:1-9 | the catalog has six entries, with ids features, pricing, faq, elefantgotchi, elefanttoken and auction, in that order |
| DocumentRepository.RepositoryIdsDistinct | src/app/data/documentRepository.ts:2-7 | no two catalog entries share an id |
| DocumentRepository.RepositoryTitlesDistinct | src/app/data/documentRepository.ts:2-7 | no two catalog entries share a title |
| DocumentRepository.RepositoryPaths | src/app/data/documentRepository.ts:2-7 | every entry's path is `/docs/<id>.txt` |
| DocumentRepository.OverrideTargetsListed | src/app/page.tsx:196 | looking up id `pricing` finds catalog entry 1, and id `elefantgotchi` finds entry 3 |
| DocumentLoading.LoadEntry | src/app/page.tsx:34-50 | the document made from one entry keeps the entry's title, and its content is the fetched body when the fetch succeeded; `LoadDocuments` states the placeholder of a failed fetch |
| DocumentLoading.LoadDocuments | src/app/page.tsx:33-56 | one document per catalog entry, in catalog order, with the entry's title; the content is the fetched body, or `Unable to load <title>. Please check the document path.` when the fetch failed; failed entries are kept |
| DocumentLoading.PlaceholderRecognisable | src/app/page.tsx:46-54 | the placeholder content of a failed fetch starts with `Unable to load`, the prefix the `validDocs` filter tests; that filter's result is only logged |
| DocumentLoading.LoadedTitlesDistinct | src/app/page.tsx:197 | loaded documents have distinct titles when the catalog entries do |
| Similarity.Cosine | src/app/page.tsx:144-160 | the similarity is a real number whenever the second vector is at least as long as the first; it is NaN only when the second vector is shorter and the first magnitude is not zero; `CosineBounded` proves it lies in [-1, 1] |
| Similarity.CosineSimilarity | src/app/page.tsx:144-160 | the loop computes `Cosine`: zero when either magnitude is zero, otherwise the dot product over the product of the magnitudes; it is 0 whenever the first vector has zero magnitude |
| Similarity.SumOfSquaresNonNegative | src/app/page.tsx:151-152 | a sum of squares is never negative |
| Similarity.SumOfSquaresZeroIff | src/app/page.tsx:151-158 | a sum of squares is zero exactly when every component is zero |
| Similarity.ZeroVectorHasZeroSimilarity | src/app/page.tsx:158 | if every component of either vector is zero, the similarity is 0 |
| Similarity.DotSymmetric | src/app/page.tsx:150 | the dot product of equal-length vectors does not depend on their order |
| Similarity.DotPrefix | src/app/page.tsx:149-150 | the dot product reads the second vector only below the first vector's length |
| Similarity.CosineSymmetric | src/app/page.tsx:144-160 | the similarity of equal-length vectors does not depend on their order |
| Similarity.CauchySchwarz | src/app/page.tsx:149-153 | the squared dot product is at most the product of the two sums of squares |
| Similarity.CosineBounded | src/app/page.tsx:144-160 | with a true square root and a long enough second vector, the similarity is a real number in [-1, 1] |
| Ranking.Contents | src/app/page.tsx:95 | the contents, one per document, in order |
| Ranking.CandidateCount | src/app/page.tsx:114-115 | the loop scores only indices below both `documents.length` and `embeddings.length - 1` |
| Ranking.Scores | src/app/page.tsx:110-117 | each candidate's score is the similarity of the last vector (the query's) with the candidate's vector |
| Ranking.ArgMax | src/app/page.tsx:111-125 | the selection is empty exactly when no score is a real number; otherwise it is the first index holding the maximum real score |
| Ranking.FirstMaxUnique | src/app/page.tsx:120-123 | there is only one first maximum |
| Ranking.Retrieve | src/app/page.tsx:91-141 | nothing for an empty corpus or a failed or malformed embedding response; a document that is returned is one of the scored candidates |
| Ranking.FindRelevantDocuments | src/app/page.tsx:91-141 | the loop returns `Retrieve` and sends every document's content, in order, followed by the query, to the embedder; it sends nothing for an empty corpus |
| Ranking.RetrieveSelectsFirstMax | src/app/page.tsx:127-133 | a candidate holding the first maximal score, when that score is above 0.05, is the document returned |
| Ranking.ArgMaxPrefersLowestIndex | src/app/page.tsx:120-123 | a tie at the maximum goes to the lowest index |
| Ranking.RetrieveNoneIff | src/app/page.tsx:127-136 | retrieval finds nothing exactly when the corpus is empty, no vectors came back, or no candidate scores above 0.05 |
| Override.ForcedDocId | src/app/page.tsx:173-189 | the forced id is the last trigger in table order found in the lower-cased message: a pricing word forces `pricing` even next to `elefantgotchi`; otherwise `elefantgotchi` forces itself; otherwise nothing is forced |
| Override.LastMatch | src/app/page.tsx:173-189 | gives nothing exactly when no trigger word occurs in the text; otherwise the id of a trigger that occurs, with no later trigger in the table occurring |
| Override.FindByTitle | src/app/page.tsx:197 | `find` by title gives nothing exactly when no loaded document has the title; otherwise a loaded document with that title |
| Override.ForcedDocument | src/app/page.tsx:196-197 | nothing is forced exactly when the id is missing from the catalog or no loaded document carries the title of the catalog entry with that id; a forced document is a loaded one carrying that title |
| Override.Resolve | src/app/page.tsx:195-203 | with no forced id, or a forced id whose document is not loaded, the retrieval result stands; otherwise the forced document replaces it; any result is the retrieval result or a loaded document |
| Override.PricingWinsPrecedence | src/app/page.tsx:174-189 | the last-match reading of the trigger table gives `pricing` when a pricing word is present, and otherwise `elefantgotchi` or nothing |
| Override.PricingOverrideWins | src/app/page.tsx:181-203 | on the loaded catalog, a pricing word grounds the answer in the `Pricing Information` document, whatever retrieval returned |
| Override.ElefantgotchiOverrideWins | src/app/page.tsx:176-203 | on the loaded catalog, `elefantgotchi` without a pricing word grounds the answer in the `elefantgotchi` document, whatever retrieval returned |
| Override.NoTriggerKeepsRanking | src/app/page.tsx:192-203 | without any trigger word, the retrieval result stands |
| Override.CaseVariantPricingForced | src/app/page.tsx:173-189 | a pricing word written in any ASCII case in the message forces `pricing` |
| Override.CaseVariantElefantgotchiForced | src/app/page.tsx:173-189 | `elefantgotchi` written in any ASCII case, with no pricing word in the message, forces `elefantgotchi` |
| Override.LoadedDocumentForced | src/app/page.tsx:197 | looking up a catalog title in the loaded corpus finds the document loaded from that entry |
| Override.CatalogIdForced | src/app/page.tsx:195-202 | an id naming the k-th catalog entry forces the k-th loaded document |
| PromptAssembly.Render | src/app/page.tsx:216-233 | definition of the prompt layout for any template: persona, context block, conversation header, recent turns, then the message and cue; its properties are proved by `PromptLayout`, `NoContextWithoutDocument`, `PromptQuotesDocument`, `PromptQuotesRecentTurns`, `OlderTurnsIgnored` and `PromptDeterminesMessage` |
| PromptAssembly.BuildPrompt | src/app/page.tsx:216-233 | definition: the page's prompt is `Render` with the page's fixed texts, so every `Render` lemma holds of it; `Conversation.GroundedPromptQuotesDocument` applies them |
| PromptAssembly.RenderTurns | src/app/page.tsx:230 | one line per turn, in order, each the speaker label and the content |
| PromptAssembly.PromptLayout | src/app/page.tsx:216-233 | the prompt starts with the persona, the context block follows it directly, and the prompt ends with the new message and the `Panoptis:` cue |
| PromptAssembly.NoContextWithoutDocument | src/app/page.tsx:216-229 | without a document, the conversation header follows the persona directly; the page itself never builds this prompt, because its handler answers with the fallback first (`src/app/page.tsx:206-214`) |
| PromptAssembly.PromptQuotesDocument | src/app/page.tsx:218-222 | the prompt contains the grounding document's title and its content |
| PromptAssembly.PromptQuotesRecentTurns | src/app/page.tsx:230 | each of the last three turns appears in the prompt, rendered with its speaker label |
| PromptAssembly.OlderTurnsIgnored | src/app/page.tsx:230 | turns older than the last three do not change the prompt |
| PromptAssembly.PromptDeterminesMessage | src/app/page.tsx:232-233 | different messages give different prompts |
| PromptAssembly.JoinQuotesParts | src/app/page.tsx:230 | `join` keeps every part |
| Conversation.BotResponse | src/app/page.tsx:241 | the reply text is never empty and never starts or ends with whitespace; it is the first generated text, trimmed, when that has non-whitespace content, and `Sorry, an error occurred.` otherwise |
| Conversation.Grounding | src/app/page.tsx:173-203 | the document that grounds a message, when there is one, is a loaded document |
| Conversation.Reply | src/app/page.tsx:206-256 | the answer is always an assistant turn |
| Conversation.GenerationRequest | src/app/page.tsx:206-225 | a generation call is made exactly when something grounds the message, and it carries that document, the chat before the message, and the message |
| Conversation.Chat.constructor | src/app/page.tsx:21-24 | the page starts with an empty message, no turns, no corpus and no loading flag |
| Conversation.Chat.ShowWelcome | src/app/page.tsx:79-88 | an empty chat gets the welcome turn, any other chat is left as is, and alternation is kept |
| Conversation.Chat.LoadCorpus | src/app/page.tsx:28-63 | the corpus becomes `LoadDocuments` of the catalog, and nothing else changes |
| Conversation.Chat.Edit | src/app/page.tsx:431 | the input box holds the typed text, and nothing else changes |
| Conversation.Chat.Submit | src/app/page.tsx:162-260 | a blank message changes nothing and calls nothing; otherwise the chat gains the user turn then the reply, the input is cleared, the loading flag ends false, the embedder gets the contents and the message, a generation call is made only for a grounded message, and alternation is kept |
| Conversation.Chat.Exchange | src/app/page.tsx:166-259 | the non-blank path: both turns appended in order, input cleared, loading flag released, corpus unchanged |
| Conversation.Respond | src/app/page.tsx:171-256 | grounding, the generation call and the reply all come from the message, the corpus and the chat as they stood at submission |
| Conversation.GroundMessage | src/app/page.tsx:173-203 | the keyword tests, retrieval and the override compute `Grounding` and send the contents and the message to the embedder |
| Conversation.ExchangeKeepsAlternation | src/app/page.tsx:166-248 | appending a user turn and then an assistant turn keeps the turns alternating, with the assistant last |
| Conversation.NoMatchMeansFallback | src/app/page.tsx:206-214 | with no trigger word and no score above 0.05, nothing grounds the message and the reply is the fallback turn |
| Conversation.PricingQuestionGrounded | src/app/page.tsx:181-203 | on the loaded catalog, a pricing question is grounded in the pricing document, whatever the embedder answered |
| Conversation.ReplyVisible | src/app/page.tsx:206-256 | every reply is an assistant turn whose text is not blank and does not end in whitespace |
| Conversation.WelcomeAlternates | src/app/page.tsx:79-88 | the welcome turn alone is an alternating chat, and its text is not blank |
| Conversation.GroundedPromptQuotesDocument | src/app/page.tsx:216-233 | a generation call is made exactly when something grounds the message, and its prompt starts with the persona, quotes the document's title and content, and ends with the message and the cue |

## Left out

- Numbers are exact reals, not IEEE doubles, so rounding is not modelled.
  NaN is modelled only where the code can produce it: a document vector
  shorter than the query vector. `Math.sqrt` is the parameter `sqrt`.
  `-Infinity` as the starting best score is modelled by the "no candidate
  yet" state (`mostSimilarIdx == -1`).
- Embedding responses whose vectors hold non-numbers are not modelled.
  `NotAnArray` stands for a response without an `embeddings` array.
- Strings are sequences of code points, not UTF-16 code units.
  `JsBuiltins.LowerCase` maps ASCII capitals, U+0130 and U+212A. It keeps
  every other code point, because the other lower-case mappings never
  produce the ASCII trigger words.
- The Cohere client and its API key are not modelled, nor are the model
  names and the generation settings (`maxTokens`, `temperature`, `k`, stop
  sequences, likelihoods). They are fixed arguments of calls that are
  outside the model.
- Console logging is not modelled, and neither is the `validDocs` list,
  which is only logged.
- The outer `catch` of `loadDocuments` (`src/app/page.tsx:57-59`) is not
  modelled. Each fetch catches its own errors, so nothing reaches it.
- A generation response whose first element has no `text` throws on
  `.trim()` and ends in the apology. This case is part of `GenerateFailed`.
- React state updates are modelled as sequential assignments inside one
  handler call. The handler sees `message`, `chat` and `documents` as they
  were when it started, as its closure does.
  - The order of the mount effects is left to the caller.
  - Overlapping submissions are not modelled; the page disables the send
    button while loading.
- Confetti, scrolling, rendering and styling are not modelled.
- `Conversation.Reply`: its own contract states only that the turn is an
  assistant's. The three outcome texts (the fallback, the apology on a
  failed generation, the trimmed generated text) are its definition, which
  `Conversation.Chat.Submit` and `Conversation.Chat.Exchange` use in their
  `ensures`. `Conversation.NoMatchMeansFallback` and
  `Conversation.ReplyVisible` prove properties of it, and
  `Conversation.GenerationRequest` makes a call exactly when the reply is
  not the fallback case.
