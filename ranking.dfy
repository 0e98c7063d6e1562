/** Retrieval (`findRelevantDocuments`): embed every document together with the
    query, score each document against the query by cosine similarity, and keep
    the best one if it clears the confidence threshold. The embedding call is
    outside the model; its outcome is a parameter. */
module Ranking {
  import opened Wrappers
  import opened Similarity
  import opened DocumentLoading

  /** What `cohere.embed` gave back, as far as the ranker can tell: the call
      threw, the response had no `embeddings` array, or it had one. */
  datatype EmbedOutcome = EmbedFailed | NotAnArray | Vectors(vectors: seq<seq<real>>)

  /** The best score must be strictly above this for a document to be used. */
  const Threshold: real := 0.05

  /** `documents.map(doc => doc.content)`. */
  function Contents(documents: seq<Document>): (texts: seq<string>)
    ensures |texts| == |documents|
    ensures forall i :: 0 <= i < |documents| ==> texts[i] == documents[i].content
  {
    seq(|documents|, i requires 0 <= i < |documents| => documents[i].content)
  }

  /** How many indices the loop scores: those below `documents.length` and
      below `embeddings.length - 1` (the last vector is the query's). */
  function CandidateCount(docCount: nat, vectorCount: nat): (n: nat)
    ensures n <= docCount
    ensures vectorCount == 0 ==> n == 0
    ensures vectorCount > 0 ==> n <= vectorCount - 1
    ensures n < docCount ==> vectorCount == 0 || n == vectorCount - 1
  {
    if vectorCount == 0 then 0
    else if docCount < vectorCount - 1 then docCount
    else vectorCount - 1
  }

  /** The score of every candidate: its vector's similarity to the last
      vector, the query's. */
  function Scores(vectors: seq<seq<real>>, docCount: nat, sqrt: real -> real): (s: seq<Num>)
    ensures |s| == CandidateCount(docCount, |vectors|)
    ensures forall i :: 0 <= i < |s| ==> s[i] == Cosine(vectors[|vectors| - 1], vectors[i], sqrt)
  {
    var n := CandidateCount(docCount, |vectors|);
    seq(n, i requires 0 <= i < n => Cosine(vectors[|vectors| - 1], vectors[i], sqrt))
  }

  /** Among the first `n` scores, index `k` holds the largest real score and
      every earlier real score is strictly smaller: the first maximum. NaN
      scores take no part, as NaN fails every comparison. */
  predicate FirstMaxBelow(s: seq<Num>, n: int, k: int) {
    && 0 <= k < n <= |s|
    && s[k].Real?
    && (forall j :: 0 <= j < n && s[j].Real? ==> s[j].value <= s[k].value)
    && (forall j :: 0 <= j < k && s[j].Real? ==> s[j].value < s[k].value)
  }

  predicate IsFirstMax(s: seq<Num>, k: int) {
    FirstMaxBelow(s, |s|, k)
  }

  /** None of the first `n` scores is a real number. */
  predicate NoRealBelow(s: seq<Num>, n: int)
    requires 0 <= n <= |s|
  {
    forall j :: 0 <= j < n ==> s[j].NaN?
  }

  /** A reference selection, scanning from the back: the position of the first
      maximum, or None when no score is real. */
  function ArgMax(s: seq<Num>): (k: Option<nat>)
    ensures k.None? <==> NoRealBelow(s, |s|)
    ensures k.Some? ==> IsFirstMax(s, k.value)
  {
    if s == [] then None
    else
      var rest := ArgMax(s[1..]);
      assert forall j :: 1 <= j < |s| ==> s[j] == s[1..][j - 1];
      match rest
      case None => if s[0].Real? then Some(0) else None
      case Some(j) =>
        if s[0].Real? && s[0].value >= s[j + 1].value then Some(0) else Some(j + 1)
  }

  /** There is only one first maximum. */
  lemma FirstMaxUnique(s: seq<Num>, n: int, k1: int, k2: int)
    requires FirstMaxBelow(s, n, k1) && FirstMaxBelow(s, n, k2)
    ensures k1 == k2
  {
  }

  /** What `findRelevantDocuments` resolves to: nothing for an empty corpus or
      a failed or malformed embedding response; otherwise the document with
      the first maximal score, provided that score exceeds the threshold. */
  function Retrieve(documents: seq<Document>, outcome: EmbedOutcome, sqrt: real -> real): (r: Option<Document>)
    ensures documents == [] || !outcome.Vectors? ==> r.None?
    ensures r.Some? ==> outcome.Vectors?
    ensures r.Some? ==> exists k :: 0 <= k < CandidateCount(|documents|, |outcome.vectors|) && r.value == documents[k]
  {
    if documents == [] then None
    else
      match outcome
      case Vectors(vectors) =>
        var s := Scores(vectors, |documents|, sqrt);
        (match ArgMax(s)
         case Some(k) => if s[k].value > Threshold then Some(documents[k]) else None
         case None => None)
      case _ => None
  }

  /** The loop of `findRelevantDocuments`. It returns the chosen document and
      the texts it sent to be embedded (None when it sent nothing): every
      document's content in order, then the query. */
  method FindRelevantDocuments(documents: seq<Document>, query: string, outcome: EmbedOutcome, sqrt: real -> real)
    returns (relevant: Option<Document>, embedInput: Option<seq<string>>)
    ensures relevant == Retrieve(documents, outcome, sqrt)
    ensures embedInput == if documents == [] then None else Some(Contents(documents) + [query])
  {
    if |documents| == 0 {
      return None, None;
    }
    embedInput := Some(Contents(documents) + [query]);
    if !outcome.Vectors? {
      return None, embedInput;
    }
    var embeddings := outcome.vectors;
    // `undefined` when the array is empty; it is only read for a candidate,
    // and there is none then
    var queryEmbedding := if |embeddings| > 0 then embeddings[|embeddings| - 1] else [];
    var mostSimilarIdx := -1;
    var highestSimilarity := 0.0;  // stands for -Infinity while mostSimilarIdx is -1
    ghost var s := Scores(embeddings, |documents|, sqrt);
    for i := 0 to |documents|
      invariant mostSimilarIdx == -1 ==> NoRealBelow(s, if i < |s| then i else |s|)
      invariant mostSimilarIdx != -1 ==> FirstMaxBelow(s, if i < |s| then i else |s|, mostSimilarIdx)
                                          && highestSimilarity == s[mostSimilarIdx].value
    {
      if i < |embeddings| - 1 {
        var similarity := CosineSimilarity(queryEmbedding, embeddings[i], sqrt);
        assert similarity == s[i];
        if similarity.Real? && (mostSimilarIdx == -1 || similarity.value > highestSimilarity) {
          highestSimilarity := similarity.value;
          mostSimilarIdx := i;
        }
      }
    }
    if mostSimilarIdx != -1 && highestSimilarity > Threshold {
      relevant := Some(documents[mostSimilarIdx]);
    } else {
      relevant := None;
    }
    match ArgMax(s)
    case Some(k) => FirstMaxUnique(s, |s|, k, mostSimilarIdx);
    case None =>
  }

  /** A candidate holding the first maximal score, above the threshold, is the
      document retrieval returns. */
  lemma RetrieveSelectsFirstMax(documents: seq<Document>, vectors: seq<seq<real>>, sqrt: real -> real, k: nat)
    requires documents != []
    requires IsFirstMax(Scores(vectors, |documents|, sqrt), k)
    requires Scores(vectors, |documents|, sqrt)[k].value > Threshold
    ensures Retrieve(documents, Vectors(vectors), sqrt) == Some(documents[k])
  {
    var s := Scores(vectors, |documents|, sqrt);
    FirstMaxUnique(s, |s|, ArgMax(s).value, k);
  }

  /** Ties at the maximum go to the lowest index: whatever index holds a
      maximal score, the selection is at or before it and has the same score. */
  lemma ArgMaxPrefersLowestIndex(s: seq<Num>, k: nat)
    requires k < |s| && s[k].Real?
    requires forall j :: 0 <= j < |s| && s[j].Real? ==> s[j].value <= s[k].value
    ensures ArgMax(s).Some? && ArgMax(s).value <= k && s[ArgMax(s).value] == s[k]
  {
    var m := ArgMax(s);
    assert !NoRealBelow(s, |s|);
    assert s[m.value].value == s[k].value;
  }

  /** Retrieval finds nothing exactly when the corpus is empty, the embedding
      call gave no vectors, or no candidate scores above the threshold. */
  lemma RetrieveNoneIff(documents: seq<Document>, outcome: EmbedOutcome, sqrt: real -> real)
    ensures Retrieve(documents, outcome, sqrt).None? <==>
      || documents == []
      || !outcome.Vectors?
      || var s := Scores(outcome.vectors, |documents|, sqrt);
         forall j :: 0 <= j < |s| && s[j].Real? ==> s[j].value <= Threshold
  {
    if documents != [] && outcome.Vectors? {
      var s := Scores(outcome.vectors, |documents|, sqrt);
      match ArgMax(s)
      case Some(k) =>
      case None =>
    }
  }
}
