/** Override resolution in `handleSubmit`: fixed trigger words in the
    lower-cased message force a particular catalog document, which then
    replaces whatever retrieval chose, provided the forced document is among
    the loaded ones. */
module Override {
  import opened Wrappers
  import opened JsBuiltins
  import opened DocumentRepository
  import opened DocumentLoading

  /** The trigger words in the order the source tests them, each with the
      catalog id it forces. */
  const Triggers: seq<(string, string)> := [
    ("elefantgotchi", "elefantgotchi"),
    ("price", "pricing"),
    ("cost", "pricing"),
    ("subscription", "pricing"),
    ("plan", "pricing")
  ]

  /** A reference reading of the precedence: the id of the last trigger in
      the table that occurs in `text`. */
  function LastMatch(triggers: seq<(string, string)>, text: string): (r: Option<string>)
    ensures r.None? <==> forall k :: 0 <= k < |triggers| ==> !Includes(text, triggers[k].0)
    ensures r.Some? ==> exists k :: 0 <= k < |triggers| && triggers[k].1 == r.value && Includes(text, triggers[k].0)
                                   && forall j :: k < j < |triggers| ==> !Includes(text, triggers[j].0)
  {
    if triggers == [] then None
    else
      var last := triggers[|triggers| - 1];
      if Includes(text, last.0) then Some(last.1) else LastMatch(triggers[..|triggers| - 1], text)
  }

  predicate MentionsElefantgotchi(lower: string) {
    Includes(lower, "elefantgotchi")
  }

  predicate MentionsPricing(lower: string) {
    Includes(lower, "price") || Includes(lower, "cost") || Includes(lower, "subscription") || Includes(lower, "plan")
  }

  /** The keyword tests: `forcedDocId` starts out null and each matching test
      overwrites it, so the test made last wins. */
  method ForcedDocId(message: string) returns (forcedDocId: Option<string>)
    ensures forcedDocId == LastMatch(Triggers, ToLower(message))
    ensures MentionsPricing(ToLower(message)) ==> forcedDocId == Some("pricing")
    ensures !MentionsPricing(ToLower(message)) ==>
              forcedDocId == if MentionsElefantgotchi(ToLower(message)) then Some("elefantgotchi") else None
  {
    var lowerCaseMessage := ToLower(message);
    forcedDocId := None;
    if Includes(lowerCaseMessage, "elefantgotchi") {
      forcedDocId := Some("elefantgotchi");
    }
    if || Includes(lowerCaseMessage, "price")
       || Includes(lowerCaseMessage, "cost")
       || Includes(lowerCaseMessage, "subscription")
       || Includes(lowerCaseMessage, "plan")
    {
      forcedDocId := Some("pricing");
    }
    PricingWinsPrecedence(lowerCaseMessage);
  }

  /** `documents.find(doc => doc.title === title)`. */
  function FindByTitle(documents: seq<Document>, title: string): (r: Option<Document>)
    ensures r.None? <==> forall i :: 0 <= i < |documents| ==> documents[i].title != title
    ensures r.Some? ==> r.value in documents && r.value.title == title
  {
    Find(documents, (doc: Document) => doc.title == title)
  }

  /** The document an id forces: its catalog title, then the loaded document
      with that title. */
  function ForcedDocument(forcedDocId: string, documents: seq<Document>): (r: Option<Document>)
    ensures FindById(Repository, forcedDocId).None? ==> r.None?
    ensures r.None? <==> FindById(Repository, forcedDocId).None?
                         || forall i :: 0 <= i < |documents| ==> documents[i].title != FindById(Repository, forcedDocId).value.title
    ensures r.Some? ==> r.value in documents && r.value.title == FindById(Repository, forcedDocId).value.title
  {
    match FindById(Repository, forcedDocId)
    case Some(entry) => FindByTitle(documents, entry.title)
    case None => None
  }

  /** The grounding document: the forced one when there is a forced id and its
      lookup succeeds, otherwise what retrieval returned. */
  function Resolve(forcedDocId: Option<string>, documents: seq<Document>, ranked: Option<Document>): (r: Option<Document>)
    ensures forcedDocId.None? ==> r == ranked
    ensures forcedDocId.Some? && ForcedDocument(forcedDocId.value, documents).None? ==> r == ranked
    ensures forcedDocId.Some? && ForcedDocument(forcedDocId.value, documents).Some? ==>
              r == ForcedDocument(forcedDocId.value, documents)
    ensures r.Some? ==> r == ranked || r.value in documents
  {
    if forcedDocId.Some? && ForcedDocument(forcedDocId.value, documents).Some?
    then ForcedDocument(forcedDocId.value, documents)
    else ranked
  }

  /** On the corpus loaded from the catalog, a pricing word in the message
      grounds the answer in the pricing document (loaded or placeholder),
      whatever retrieval returned, and even when the message also names
      elefantgotchi. */
  lemma PricingOverrideWins(message: string, fetched: seq<Option<string>>, ranked: Option<Document>)
    requires |fetched| == |Repository|
    requires MentionsPricing(ToLower(message))
    ensures var documents := LoadDocuments(Repository, fetched);
      && Resolve(LastMatch(Triggers, ToLower(message)), documents, ranked) == Some(documents[1])
      && documents[1].title == "Pricing Information"
  {
    PricingWinsPrecedence(ToLower(message));
    OverrideTargetsListed();
    CatalogIdForced(fetched, "pricing", 1, ranked);
  }

  /** Without a pricing word, naming elefantgotchi grounds the answer in the
      elefantgotchi document, whatever retrieval returned. */
  lemma ElefantgotchiOverrideWins(message: string, fetched: seq<Option<string>>, ranked: Option<Document>)
    requires |fetched| == |Repository|
    requires MentionsElefantgotchi(ToLower(message)) && !MentionsPricing(ToLower(message))
    ensures var documents := LoadDocuments(Repository, fetched);
      && Resolve(LastMatch(Triggers, ToLower(message)), documents, ranked) == Some(documents[3])
      && documents[3].title == "elefantgotchi"
  {
    PricingWinsPrecedence(ToLower(message));
    OverrideTargetsListed();
    CatalogIdForced(fetched, "elefantgotchi", 3, ranked);
  }

  /** Without any trigger word the retrieval result stands. */
  lemma NoTriggerKeepsRanking(message: string, documents: seq<Document>, ranked: Option<Document>)
    requires !MentionsElefantgotchi(ToLower(message)) && !MentionsPricing(ToLower(message))
    ensures Resolve(LastMatch(Triggers, ToLower(message)), documents, ranked) == ranked
  {
    PricingWinsPrecedence(ToLower(message));
  }

  /** Last match wins over the trigger table: a pricing word decides, and
      otherwise elefantgotchi does. */
  lemma PricingWinsPrecedence(lower: string)
    ensures MentionsPricing(lower) ==> LastMatch(Triggers, lower) == Some("pricing")
    ensures !MentionsPricing(lower) ==>
              LastMatch(Triggers, lower) == if MentionsElefantgotchi(lower) then Some("elefantgotchi") else None
  {
    var t1, t2, t3, t4 := Triggers[..1], Triggers[..2], Triggers[..3], Triggers[..4];
    assert t4 == Triggers[..|Triggers| - 1] && t3 == t4[..|t4| - 1];
    assert t2 == t3[..|t3| - 1] && t1 == t2[..|t2| - 1] && t1[..|t1| - 1] == [];
    assert LastMatch(t1, lower) == if MentionsElefantgotchi(lower) then Some("elefantgotchi") else None;
    assert LastMatch(t2, lower) == if Includes(lower, "price") then Some("pricing") else LastMatch(t1, lower);
    assert LastMatch(t3, lower) == if Includes(lower, "cost") then Some("pricing") else LastMatch(t2, lower);
    assert LastMatch(t4, lower) == if Includes(lower, "subscription") then Some("pricing") else LastMatch(t3, lower);
  }

  /** A pricing word written in any ASCII case in the message forces the
      pricing document's id. */
  lemma CaseVariantPricingForced(message: string, v: string, w: string)
    requires w == "price" || w == "cost" || w == "subscription" || w == "plan"
    requires AsciiCaseVariant(v, w) && Includes(message, v)
    ensures LastMatch(Triggers, ToLower(message)) == Some("pricing")
  {
    IncludesLowered(message, v);
    ToLowerAsciiVariant(v, w);
    PricingWinsPrecedence(ToLower(message));
  }

  /** `elefantgotchi` written in any ASCII case, with no pricing word, forces
      the elefantgotchi document's id. */
  lemma CaseVariantElefantgotchiForced(message: string, v: string)
    requires AsciiCaseVariant(v, "elefantgotchi") && Includes(message, v)
    requires !MentionsPricing(ToLower(message))
    ensures LastMatch(Triggers, ToLower(message)) == Some("elefantgotchi")
  {
    IncludesLowered(message, v);
    ToLowerAsciiVariant(v, "elefantgotchi");
    PricingWinsPrecedence(ToLower(message));
  }

  /** The title of catalog entry `k` finds loaded document `k`. */
  lemma LoadedDocumentForced(fetched: seq<Option<string>>, k: nat)
    requires |fetched| == |Repository| && k < |Repository|
    ensures FindByTitle(LoadDocuments(Repository, fetched), Repository[k].title)
            == Some(LoadDocuments(Repository, fetched)[k])
  {
    var documents := LoadDocuments(Repository, fetched);
    RepositoryTitlesDistinct();
    LoadedTitlesDistinct(Repository, fetched);
    FindUnique(documents, (doc: Document) => doc.title == Repository[k].title, k);
  }

  /** On the corpus loaded from the catalog, an id that names the `k`-th
      entry forces the `k`-th loaded document. */
  lemma CatalogIdForced(fetched: seq<Option<string>>, id: string, k: nat, ranked: Option<Document>)
    requires |fetched| == |Repository| && k < |Repository|
    requires FindById(Repository, id) == Some(Repository[k])
    ensures Resolve(Some(id), LoadDocuments(Repository, fetched), ranked) == Some(LoadDocuments(Repository, fetched)[k])
  {
    LoadedDocumentForced(fetched, k);
  }
}
