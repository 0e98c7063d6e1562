/** The fixed document catalog (`documentRepository`): one record per document
    the assistant can ground its answers in. */
module DocumentRepository {
  import opened Wrappers
  import opened JsBuiltins

  datatype CatalogEntry = CatalogEntry(id: string, title: string, path: string)

  const Repository: seq<CatalogEntry> := [
    CatalogEntry("features", "App Features", "/docs/features.txt"),
    CatalogEntry("pricing", "Pricing Information", "/docs/pricing.txt"),
    CatalogEntry("faq", "Frequently Asked Questions", "/docs/faq.txt"),
    CatalogEntry("elefantgotchi", "elefantgotchi", "/docs/elefantgotchi.txt"),
    CatalogEntry("elefanttoken", "elefanttoken", "/docs/elefanttoken.txt"),
    CatalogEntry("auction", "auction", "/docs/auction.txt")
  ]

  /** Where a document with the given id is served from. */
  function DocPath(id: string): string {
    "/docs/" + id + ".txt"
  }

  predicate IdsDistinct(catalog: seq<CatalogEntry>) {
    forall i, j :: 0 <= i < j < |catalog| ==> catalog[i].id != catalog[j].id
  }

  predicate TitlesDistinct(catalog: seq<CatalogEntry>) {
    forall i, j :: 0 <= i < j < |catalog| ==> catalog[i].title != catalog[j].title
  }

  /** `catalog.find(repo => repo.id === id)`: the first entry with that id. */
  function FindById(catalog: seq<CatalogEntry>, id: string): (r: Option<CatalogEntry>)
    ensures r.None? <==> forall i :: 0 <= i < |catalog| ==> catalog[i].id != id
    ensures r.Some? ==> r.value in catalog && r.value.id == id
  {
    Find(catalog, (entry: CatalogEntry) => entry.id == id)
  }

  /** The catalog lists six documents, in this order. */
  lemma RepositoryOrder()
    ensures |Repository| == 6
    ensures Repository[0].id == "features" && Repository[1].id == "pricing"
    ensures Repository[2].id == "faq" && Repository[3].id == "elefantgotchi"
    ensures Repository[4].id == "elefanttoken" && Repository[5].id == "auction"
  {
  }

  /** No two entries share an id. */
  lemma RepositoryIdsDistinct()
    ensures IdsDistinct(Repository)
  {
    forall i, j | 0 <= i < j < |Repository| ensures Repository[i].id != Repository[j].id {
      assert |Repository[i].id| != |Repository[j].id| || Repository[i].id[0] != Repository[j].id[0];
    }
  }

  /** No two entries share a title. */
  lemma RepositoryTitlesDistinct()
    ensures TitlesDistinct(Repository)
  {
    forall i, j | 0 <= i < j < |Repository| ensures Repository[i].title != Repository[j].title {
      assert |Repository[i].title| != |Repository[j].title| || Repository[i].title[0] != Repository[j].title[0];
    }
  }

  /** Every entry is served from `/docs/<id>.txt`. */
  lemma RepositoryPaths()
    ensures forall i :: 0 <= i < |Repository| ==> Repository[i].path == DocPath(Repository[i].id)
  {
    FrontPaths();
    MiddlePaths();
    BackPaths();
  }

  /** The first two entries' paths. */
  lemma FrontPaths()
    ensures forall i :: 0 <= i < 2 ==> Repository[i].path == DocPath(Repository[i].id)
  {
    assert Repository[0].path == DocPath("features");
    assert Repository[1].path == DocPath("pricing");
  }

  /** The third and fourth entries' paths. */
  lemma MiddlePaths()
    ensures forall i :: 2 <= i < 4 ==> Repository[i].path == DocPath(Repository[i].id)
  {
    assert Repository[2].path == DocPath("faq");
    assert Repository[3].path == DocPath("elefantgotchi");
  }

  /** The last two entries' paths. */
  lemma BackPaths()
    ensures forall i :: 4 <= i < 6 ==> Repository[i].path == DocPath(Repository[i].id)
  {
    assert Repository[4].path == DocPath("elefanttoken");
    assert Repository[5].path == DocPath("auction");
  }

  /** Both documents the override can force are in the catalog, at the
      positions the catalog gives them. */
  lemma OverrideTargetsListed()
    ensures FindById(Repository, "pricing") == Some(Repository[1])
    ensures FindById(Repository, "elefantgotchi") == Some(Repository[3])
  {
    RepositoryIdsDistinct();
    FindUnique(Repository, (entry: CatalogEntry) => entry.id == "pricing", 1);
    FindUnique(Repository, (entry: CatalogEntry) => entry.id == "elefantgotchi", 3);
  }
}
