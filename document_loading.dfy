/** Corpus loading (`loadDocuments`): every catalog entry is fetched; a fetch
    that throws or answers with a non-ok status leaves a placeholder text in
    place of the content. The fetches themselves are outside the model: their
    outcomes are a parameter, `Some(body)` for an ok response and `None` for a
    failure. */
module DocumentLoading {
  import opened Wrappers
  import opened JsBuiltins
  import opened DocumentRepository

  /** A loaded document: what the rest of the pipeline sees of a catalog entry. */
  datatype Document = Document(content: string, title: string)

  /** The content that stands in for a document that could not be fetched. */
  function UnableToLoad(title: string): string {
    "Unable to load " + title + ". Please check the document path."
  }

  /** The document made from one catalog entry and the outcome of its fetch. */
  function LoadEntry(entry: CatalogEntry, fetched: Option<string>): (d: Document)
    ensures d.title == entry.title
    ensures fetched.Some? ==> d.content == fetched.value
  {
    match fetched
    case Some(body) => Document(body, entry.title)
    case None => Document(UnableToLoad(entry.title), entry.title)
  }

  /** The loaded corpus: one document per catalog entry, in catalog order, with
      the entry's title; a failed fetch keeps its place with placeholder
      content. */
  function LoadDocuments(catalog: seq<CatalogEntry>, fetched: seq<Option<string>>): (docs: seq<Document>)
    requires |fetched| == |catalog|
    ensures |docs| == |catalog|
    ensures forall i :: 0 <= i < |catalog| ==> docs[i].title == catalog[i].title
    ensures forall i :: 0 <= i < |catalog| && fetched[i].Some? ==> docs[i].content == fetched[i].value
    ensures forall i :: 0 <= i < |catalog| && fetched[i].None? ==> docs[i].content == UnableToLoad(catalog[i].title)
  {
    if catalog == [] then []
    else [LoadEntry(catalog[0], fetched[0])] + LoadDocuments(catalog[1..], fetched[1..])
  }

  /** The placeholder is recognisable by its prefix, the test that the
      `validDocs` filter applies. That filter's result is only logged, so
      nothing else in the model depends on this fact; the corpus keeps every
      document, placeholders included. */
  lemma PlaceholderRecognisable(docs: seq<Document>, catalog: seq<CatalogEntry>, fetched: seq<Option<string>>, i: nat)
    requires |fetched| == |catalog| && docs == LoadDocuments(catalog, fetched)
    requires i < |catalog| && fetched[i].None?
    ensures StartsWith(docs[i].content, "Unable to load")
  {
    assert docs[i].content == "Unable to load " + catalog[i].title + ". Please check the document path.";
    assert docs[i].content[..14] == "Unable to load";
  }

  /** Titles identify loaded documents when they identify catalog entries, so
      the title lookup of the override finds at most one document. */
  lemma LoadedTitlesDistinct(catalog: seq<CatalogEntry>, fetched: seq<Option<string>>)
    requires |fetched| == |catalog| && TitlesDistinct(catalog)
    ensures var docs := LoadDocuments(catalog, fetched);
      forall i, j :: 0 <= i < j < |docs| ==> docs[i].title != docs[j].title
  {
  }
}
