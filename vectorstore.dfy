/**
 * The in-browser vector store of src/services/vectorStore.ts: documents are split into
 * chunks and kept in memory, and a search embeds the query and every stored chunk,
 * scores each chunk by cosine similarity, sorts by descending score and keeps the
 * first `limit` results.
 *
 * The embedding pipeline is the store's `embed` function (`None` when embedding a
 * text throws), loading the pipeline is a yes/no outcome passed to each call that may
 * load it, `Math.sqrt` is the store's `sqrt` function, and `uuidv4()` is a counter.
 */
module VectorStore {
  import opened Wrappers
  import opened Text
  import opened Chunker

  /** The arguments `addDocument` passes to `chunkText`. */
  const ChunkSize := 500
  const Overlap := 50
  /** `search`'s default `limit`. */

  const InitFailedMessage := "VectorStore initialization failed"
  const NoTextMessage := "PDF resulted in no text content"

  /** A stored chunk; `id` stands for the uuid, `source` and `chunkIdx` are its metadata. */
  datatype DocumentChunk = DocumentChunk(id: nat, content: string, source: string, chunkIdx: nat)

  datatype SearchResultItem = SearchResultItem(content: string, score: real, source: string)

  /** One entry of the `results` array that `search` builds and sorts. */
  datatype Scored = Scored(doc: DocumentChunk, score: real)

  /** The embedder answers vectors of one fixed dimension. */
  ghost predicate IsEmbedder(embed: string -> Option<seq<real>>, dimension: nat) {
    forall s :: embed(s).Some? ==> |embed(s).value| == dimension
  }

  /** `sqrt` is the square root on non-negative reals. */
  ghost predicate IsSqrt(sqrt: real -> real) {
    forall x: real :: 0.0 <= x ==> 0.0 <= sqrt(x) && sqrt(x) * sqrt(x) == x
  }

  // ---------------------------------------------------------------- cosine similarity

  /** A non-zero real divided by itself is 1. */
  lemma DivSelf(n: real)
    requires n != 0.0
    ensures n / n == 1.0
  {
  }

  /** The dot product of two vectors of the same length. */
  function Dot(a: seq<real>, b: seq<real>): (d: real)
    requires |a| == |b|
  {
    if a == [] then 0.0 else Dot(a[..|a| - 1], b[..|b| - 1]) + a[|a| - 1] * b[|b| - 1]
  }

  /** The squared Euclidean norm, a sum of squares. */
  function NormSq(a: seq<real>): (n: real)
    ensures 0.0 <= n
  {
    if a == [] then 0.0 else NormSq(a[..|a| - 1]) + a[|a| - 1] * a[|a| - 1]
  }

  predicate IsZero(a: seq<real>) {
    forall k :: 0 <= k < |a| ==> a[k] == 0.0
  }

  /** The zero vector has squared norm zero. */
  lemma {:induction false} NormSqOfZero(a: seq<real>)
    requires IsZero(a)
    ensures NormSq(a) == 0.0
  {
    if a != [] {
      var init := a[..|a| - 1];
      assert IsZero(init) by {
        forall k | 0 <= k < |init| ensures init[k] == 0.0 { assert init[k] == a[k]; }
      }
      NormSqOfZero(init);
      assert a[|a| - 1] == 0.0;
    }
  }

  /** One more coordinate adds its product to the dot product of the prefixes. */
  lemma DotStep(a: seq<real>, b: seq<real>, i: nat)
    requires |a| == |b| && i < |a|
    ensures Dot(a[..i + 1], b[..i + 1]) == Dot(a[..i], b[..i]) + a[i] * b[i]
  {
    assert a[..i + 1][..i] == a[..i] && b[..i + 1][..i] == b[..i];
  }

  /** One more coordinate adds its square to the squared norm of the prefix. */
  lemma NormSqStep(a: seq<real>, i: nat)
    requires i < |a|
    ensures NormSq(a[..i + 1]) == NormSq(a[..i]) + a[i] * a[i]
  {
    assert a[..i + 1][..i] == a[..i];
  }

  /** The dot product does not depend on the order of its operands. */
  lemma {:induction false} DotSymmetric(a: seq<real>, b: seq<real>)
    requires |a| == |b|
    ensures Dot(a, b) == Dot(b, a)
  {
    if a != [] {
      DotSymmetric(a[..|a| - 1], b[..|b| - 1]);
    }
  }

  /** The dot product of a vector with itself is its squared norm. */
  lemma {:induction false} DotSelf(a: seq<real>)
    ensures Dot(a, a) == NormSq(a)
  {
    if a != [] {
      DotSelf(a[..|a| - 1]);
    }
  }

  // ---------------------------------------------------------------- ranking

  /** The insertion of `x` into a list sorted by descending score, after every entry that scores at least as much. */
  function Insert(s: seq<Scored>, x: Scored): (r: seq<Scored>)
    ensures |r| == |s| + 1
  {
    if s == [] || s[|s| - 1].score >= x.score then s + [x]
    else Insert(s[..|s| - 1], x) + [s[|s| - 1]]
  }

  /**
   * `results.sort((a, b) => b.score - a.score)`: a stable sort by descending score,
   * written as an insertion sort.
   */
  function SortByScore(s: seq<Scored>): (r: seq<Scored>)
    ensures |r| == |s|
  {
    if s == [] then [] else Insert(SortByScore(s[..|s| - 1]), s[|s| - 1])
  }

  predicate Descending(s: seq<Scored>) {
    forall i, j :: 0 <= i < j < |s| ==> s[i].score >= s[j].score
  }

  /** Entries of equal score appear in increasing id order, the order they were stored in. */
  predicate TiesInOrder(s: seq<Scored>) {
    forall i, j :: 0 <= i < j < |s| && s[i].score == s[j].score ==> s[i].doc.id < s[j].doc.id
  }

  predicate IdsIncreasing(s: seq<Scored>) {
    forall i, j :: 0 <= i < j < |s| ==> s[i].doc.id < s[j].doc.id
  }

  lemma {:induction false} InsertPermutes(s: seq<Scored>, x: Scored)
    ensures multiset(Insert(s, x)) == multiset(s) + multiset{x}
  {
    if s != [] && s[|s| - 1].score < x.score {
      InsertPermutes(s[..|s| - 1], x);
      assert s == s[..|s| - 1] + [s[|s| - 1]];
    }
  }

  /** Sorting rearranges the entries and neither adds nor drops any. */
  lemma {:induction false} SortPermutes(s: seq<Scored>)
    ensures multiset(SortByScore(s)) == multiset(s)
  {
    if s != [] {
      SortPermutes(s[..|s| - 1]);
      InsertPermutes(SortByScore(s[..|s| - 1]), s[|s| - 1]);
      assert s == s[..|s| - 1] + [s[|s| - 1]];
    }
  }

  /** An entry of `Insert(s, x)` is `x` or an entry of `s`. */
  lemma InsertFrom(s: seq<Scored>, x: Scored, i: nat)
    requires i < |Insert(s, x)|
    ensures Insert(s, x)[i] == x || exists m :: 0 <= m < |s| && s[m] == Insert(s, x)[i]
  {
    InsertPermutes(s, x);
    var e := Insert(s, x)[i];
    assert e in multiset(Insert(s, x));
    if e != x {
      assert e in multiset(s);
      assert e in s;
    }
  }

  lemma {:induction false} InsertDescending(s: seq<Scored>, x: Scored)
    requires Descending(s)
    ensures Descending(Insert(s, x))
  {
    if s != [] && s[|s| - 1].score < x.score {
      var init, last := s[..|s| - 1], s[|s| - 1];
      InsertDescending(init, x);
      var t := Insert(init, x);
      forall i | 0 <= i < |t| ensures t[i].score >= last.score {
        InsertFrom(init, x, i);
        if t[i] != x {
          var m :| 0 <= m < |init| && init[m] == t[i];
          assert s[m] == init[m];
        }
      }
    }
  }

  /** The sorted list is in descending order of score. */
  lemma {:induction false} SortDescending(s: seq<Scored>)
    ensures Descending(SortByScore(s))
  {
    if s != [] {
      SortDescending(s[..|s| - 1]);
      InsertDescending(SortByScore(s[..|s| - 1]), s[|s| - 1]);
    }
  }

  lemma {:induction false} InsertStable(s: seq<Scored>, x: Scored)
    requires Descending(s) && TiesInOrder(s)
    requires forall m :: 0 <= m < |s| ==> s[m].doc.id < x.doc.id
    ensures TiesInOrder(Insert(s, x))
  {
    if s != [] && s[|s| - 1].score < x.score {
      var init, last := s[..|s| - 1], s[|s| - 1];
      assert forall m :: 0 <= m < |init| ==> init[m] == s[m];
      InsertStable(init, x);
      var t := Insert(init, x);
      forall i | 0 <= i < |t| && t[i].score == last.score ensures t[i].doc.id < last.doc.id {
        InsertFrom(init, x, i);
        if t[i] != x {
          var m :| 0 <= m < |init| && init[m] == t[i];
          assert s[m] == init[m];
        }
      }
    }
  }

  /**
   * The sort is stable: when the input is in increasing id order, entries of equal
   * score keep that order.
   */
  lemma {:induction false} SortStable(s: seq<Scored>)
    requires IdsIncreasing(s)
    ensures TiesInOrder(SortByScore(s))
  {
    if s != [] {
      var init, last := s[..|s| - 1], s[|s| - 1];
      assert IdsIncreasing(init);
      SortStable(init);
      SortDescending(init);
      SortPermutes(init);
      var sorted := SortByScore(init);
      forall m | 0 <= m < |sorted| ensures sorted[m].doc.id < last.doc.id {
        assert sorted[m] in multiset(init);
        var k :| 0 <= k < |init| && init[k] == sorted[m];
        assert s[k] == init[k];
      }
      InsertStable(sorted, last);
    }
  }

  /** The end index of `results.slice(0, limit)` on `len` entries, as JavaScript computes it. */
  function SliceEnd(len: nat, limit: int): (e: nat)
    ensures e <= len
    ensures 0 <= limit ==> e == Min(limit, len)
  {
    if limit < 0 then (if len + limit < 0 then 0 else len + limit)
    else Min(limit, len)
  }

  /** The `map` that turns sorted entries into search results. */
  function ToItems(s: seq<Scored>): (r: seq<SearchResultItem>)
    ensures |r| == |s|
  {
    seq(|s|, k requires 0 <= k < |s| => SearchResultItem(s[k].doc.content, s[k].score, s[k].doc.source))
  }

  /** Content fit to be stored: what `chunkText` yields and `addDocument`'s guard lets through. */
  predicate ChunkShaped(content: string) {
    content != [] && IsTrimmed(content) && |content| <= ChunkSize
  }

  /** `!chunk || chunk.trim().length === 0`, the test `addDocument` skips a chunk on. */
  predicate Skipped(chunk: string) {
    chunk == [] || Trim(chunk) == []
  }

  /**
   * The documents `addDocument` builds from the first `n` chunks, ids drawn in turn
   * from `firstId`; a skipped chunk gets no document and no id.
   */
  function NewDocuments(filename: string, chunks: seq<string>, n: nat, firstId: nat): (added: seq<DocumentChunk>)
    requires n <= |chunks|
    ensures |added| <= n
  {
    if n == 0 then []
    else
      var prev := NewDocuments(filename, chunks, n - 1, firstId);
      if Skipped(chunks[n - 1]) then prev
      else prev + [DocumentChunk(firstId + |prev|, chunks[n - 1], filename, n - 1)]
  }

  /** When no chunk is skipped, the `k`-th chunk becomes the `k`-th document, with id `firstId + k` and `chunkIdx` `k`. */
  lemma {:induction false} NothingSkipped(filename: string, chunks: seq<string>, n: nat, firstId: nat)
    requires n <= |chunks|
    requires forall k :: 0 <= k < |chunks| ==> !Skipped(chunks[k])
    ensures var added := NewDocuments(filename, chunks, n, firstId);
      |added| == n &&
      forall k :: 0 <= k < n ==> added[k] == DocumentChunk(firstId + k, chunks[k], filename, k)
  {
    if n > 0 {
      NothingSkipped(filename, chunks, n - 1, firstId);
    }
  }

  /** `addDocument`'s skip test never fires: every chunk `chunkText` yields is non-empty, trimmed and at most 500 characters. */
  lemma ChunksNeverSkipped(text: string)
    ensures forall c :: c in ChunkPieces(text, ChunkSize, Overlap) ==> ChunkShaped(c) && !Skipped(c)
  {
    PiecesShape(text, ChunkSize, Overlap);
    forall c | c in ChunkPieces(text, ChunkSize, Overlap) ensures !Skipped(c) {
      TrimSpec(c);
    }
  }

  /** Ids increase in storage order and lie below `nextId`; every stored chunk is chunk-shaped. */
  predicate WellStored(docs: seq<DocumentChunk>, nextId: nat) {
    && (forall i, j :: 0 <= i < j < |docs| ==> docs[i].id < docs[j].id)
    && (forall i :: 0 <= i < |docs| ==> docs[i].id < nextId && ChunkShaped(docs[i].content))
  }

  /** Appending chunk-shaped documents with fresh consecutive ids keeps the store well formed. */
  lemma StoredAppend(docs: seq<DocumentChunk>, added: seq<DocumentChunk>, firstId: nat)
    requires WellStored(docs, firstId)
    requires forall k :: 0 <= k < |added| ==> added[k].id == firstId + k && ChunkShaped(added[k].content)
    ensures WellStored(docs + added, firstId + |added|)
  {
  }

  // ---------------------------------------------------------------- the store

  class Store {
    var documents: seq<DocumentChunk>
    /** `isReady`; the embedder is loaded exactly when it is set. */
    var isReady: bool
    /** The next id `uuidv4()` hands out. */
    var nextId: nat

    const embed: string -> Option<seq<real>>
    const dimension: nat
    const sqrt: real -> real

    ghost predicate EmbedderSpec() {
      IsEmbedder(embed, dimension) && IsSqrt(sqrt)
    }

    ghost predicate Valid()
      reads this
    {
      EmbedderSpec() && WellStored(documents, nextId)
    }

    constructor (embed: string -> Option<seq<real>>, dimension: nat, sqrt: real -> real)
      requires IsEmbedder(embed, dimension) && IsSqrt(sqrt)
      ensures Valid() && documents == [] && !isReady
      ensures this.embed == embed && this.dimension == dimension && this.sqrt == sqrt
    {
      documents := [];
      isReady := false;
      nextId := 0;
      this.embed := embed;
      this.dimension := dimension;
      this.sqrt := sqrt;
    }

    /** `init()`: loads the embedding pipeline unless it is loaded already; `loadOk` says whether loading succeeds. */
    method Init(loadOk: bool) returns (outcome: Outcome)
      modifies this
      ensures isReady == (old(isReady) || loadOk)
      ensures outcome == if isReady then Pass else Fail(InitFailedMessage)
      ensures documents == old(documents) && nextId == old(nextId)
    {
      if isReady {
        return Pass;
      }
      if loadOk {
        isReady := true;
        outcome := Pass;
      } else {
        outcome := Fail(InitFailedMessage);
      }
    }

    /**
     * The cosine similarity of two vectors: 0 when either has norm 0, otherwise the dot
     * product over the product of the norms.
     */
    function Cosine(a: seq<real>, b: seq<real>): (c: real)
      requires |a| == |b| && IsSqrt(sqrt)
    {
      Similarity(Dot(a, b), NormSq(a), NormSq(b))
    }

    /** The value `cosineSimilarity` returns from the dot product and the two squared norms. */
    function Similarity(dotProduct: real, normA: real, normB: real): (c: real)
      requires IsSqrt(sqrt) && 0.0 <= normA && 0.0 <= normB
    {
      if normA == 0.0 || normB == 0.0 then 0.0 else dotProduct / (sqrt(normA) * sqrt(normB))
    }

    /** A zero vector is similar to nothing. */
    lemma CosineZero(a: seq<real>, b: seq<real>)
      requires |a| == |b| && IsSqrt(sqrt) && IsZero(a)
      ensures Cosine(a, b) == 0.0 && Cosine(b, a) == 0.0
    {
      NormSqOfZero(a);
    }

    /** Similarity is symmetric. */
    lemma CosineSymmetric(a: seq<real>, b: seq<real>)
      requires |a| == |b| && IsSqrt(sqrt)
      ensures Cosine(a, b) == Cosine(b, a)
    {
      DotSymmetric(a, b);
    }

    /** A vector of non-zero norm has similarity 1 with itself. */
    lemma CosineSelf(a: seq<real>)
      requires IsSqrt(sqrt) && NormSq(a) != 0.0
      ensures Cosine(a, a) == 1.0
    {
      DotSelf(a);
      var n := NormSq(a);
      var q := sqrt(n) * sqrt(n);
      assert n != 0.0 && q == n;
      assert Cosine(a, a) == Dot(a, a) / q;
      DivSelf(n);
    }

    /** `cosineSimilarity(a, b)`: the loop that accumulates the dot product and both squared norms. */
    method CosineSimilarity(a: seq<real>, b: seq<real>) returns (c: real)
      requires |a| == |b| && IsSqrt(sqrt)
      ensures c == Cosine(a, b)
    {
      var dotProduct, normA, normB := 0.0, 0.0, 0.0;
      var i := 0;
      while i < |a|
        invariant 0 <= i <= |a|
        invariant dotProduct == Dot(a[..i], b[..i])
        invariant normA == NormSq(a[..i]) && normB == NormSq(b[..i])
      {
        DotStep(a, b, i);
        NormSqStep(a, i);
        NormSqStep(b, i);
        dotProduct := dotProduct + a[i] * b[i];
        normA := normA + a[i] * a[i];
        normB := normB + b[i] * b[i];
        i := i + 1;
      }
      assert a[..i] == a && b[..i] == b;
      c := Similarity(dotProduct, normA, normB);
    }

    /** Every stored chunk embeds without error. */
    predicate AllEmbed(docs: seq<DocumentChunk>) {
      forall k :: 0 <= k < |docs| ==> embed(docs[k].content).Some?
    }

    /** A document's entry in `results`: the similarity of its embedding to the query vector `qv`. */
    function ScoreOf(qv: seq<real>, d: DocumentChunk): (s: Scored)
      requires EmbedderSpec() && |qv| == dimension && embed(d.content).Some?
    {
      Scored(d, Cosine(qv, embed(d.content).value))
    }

    function Scores(qv: seq<real>, docs: seq<DocumentChunk>): (s: seq<Scored>)
      requires EmbedderSpec() && |qv| == dimension && AllEmbed(docs)
    {
      seq(|docs|, k requires 0 <= k < |docs| => ScoreOf(qv, docs[k]))
    }

    /**
     * What `search(query, limit)` answers once the embedder is loaded: nothing for an
     * empty store or when an embedding throws; otherwise the first `limit` entries of
     * the documents sorted by descending similarity to the query.
     */
    function SearchSpec(docs: seq<DocumentChunk>, query: string, limit: int): (r: seq<SearchResultItem>)
      requires EmbedderSpec()
      ensures |r| <= |docs|
      ensures docs != [] && embed(query).Some? && AllEmbed(docs) && 0 <= limit ==> |r| == Min(limit, |docs|)
    {
      if docs == [] then []
      else match embed(query)
        case None => []
        case Some(qv) =>
          if !AllEmbed(docs) then []
          else
            var sorted := SortByScore(Scores(qv, docs));
            ToItems(sorted[..SliceEnd(|sorted|, limit)])
    }

    /** The results come in descending order of score. */
    lemma SearchRanked(docs: seq<DocumentChunk>, query: string, limit: int)
      requires EmbedderSpec()
      ensures var r := SearchSpec(docs, query, limit);
        forall i, j :: 0 <= i < j < |r| ==> r[i].score >= r[j].score
    {
      if docs != [] && embed(query).Some? && AllEmbed(docs) {
        SortDescending(Scores(embed(query).value, docs));
      }
    }

    /**
     * Ranking is stable over the store: among stored documents of equal score, the
     * one stored first is ranked first.
     */
    lemma RankingStable(qv: seq<real>, docs: seq<DocumentChunk>, nextId: nat)
      requires EmbedderSpec() && |qv| == dimension && AllEmbed(docs) && WellStored(docs, nextId)
      ensures TiesInOrder(SortByScore(Scores(qv, docs)))
    {
      var s := Scores(qv, docs);
      assert forall k :: 0 <= k < |s| ==> s[k].doc == docs[k];
      assert IdsIncreasing(s);
      SortStable(s);
    }

    /** Every result is a stored document, with its content, its source and its own similarity to the query. */
    lemma SearchFromStore(docs: seq<DocumentChunk>, query: string, limit: int, k: nat)
      requires EmbedderSpec()
      requires k < |SearchSpec(docs, query, limit)|
      ensures embed(query).Some? && AllEmbed(docs)
      ensures var qv, r := embed(query).value, SearchSpec(docs, query, limit);
        exists m :: 0 <= m < |docs| && r[k] == SearchResultItem(docs[m].content, ScoreOf(qv, docs[m]).score, docs[m].source)
    {
      var qv := embed(query).value;
      var s := Scores(qv, docs);
      var sorted := SortByScore(s);
      SortPermutes(s);
      assert sorted[k] in multiset(s);
      var m :| 0 <= m < |s| && s[m] == sorted[k];
      assert s[m] == ScoreOf(qv, docs[m]);
    }

    /**
     * The results are the best-scoring documents: a stored document that scores
     * strictly higher than some result is itself among the results.
     */
    lemma SearchTopK(docs: seq<DocumentChunk>, query: string, limit: int, d: nat, k: nat)
      requires EmbedderSpec() && embed(query).Some? && AllEmbed(docs)
      requires d < |docs| && k < |SearchSpec(docs, query, limit)|
      requires ScoreOf(embed(query).value, docs[d]).score > SearchSpec(docs, query, limit)[k].score
      ensures var e := ScoreOf(embed(query).value, docs[d]);
        SearchResultItem(e.doc.content, e.score, e.doc.source) in SearchSpec(docs, query, limit)
    {
      var qv := embed(query).value;
      var s := Scores(qv, docs);
      var sorted := SortByScore(s);
      var end := SliceEnd(|sorted|, limit);
      SortPermutes(s);
      SortDescending(s);
      assert SearchSpec(docs, query, limit) == ToItems(sorted[..end]);
      assert s[d] in multiset(s);
      assert s[d] in multiset(sorted);
      var p :| 0 <= p < |sorted| && sorted[p] == s[d];
      assert sorted[p].score > sorted[k].score;
      assert p <= k;
      assert SearchSpec(docs, query, limit)[p] == SearchResultItem(s[d].doc.content, s[d].score, s[d].doc.source);
    }

    /**
     * `search(query, limit)`: loads the embedder if needed, answers nothing when that
     * fails, when the store is empty or when an embedding throws, and otherwise scores
     * every stored chunk against the query, sorts and keeps the first `limit`.
     */
    method Search(query: string, limit: int, loadOk: bool) returns (items: seq<SearchResultItem>)
      requires Valid()
      modifies this
      ensures Valid() && documents == old(documents) && nextId == old(nextId)
      ensures isReady == (old(isReady) || loadOk)
      ensures items == if isReady then SearchSpec(documents, query, limit) else []
    {
      if !isReady {
        var o := Init(loadOk);
        if o.Fail? {
          return [];
        }
      }
      var docs := documents;
      if |docs| == 0 {
        return [];
      }
      var queryOutput := embed(query);
      if queryOutput.None? {
        return [];
      }
      var queryVector := queryOutput.value;
      var results: seq<Scored> := [];
      var i := 0;
      while i < |docs|
        invariant 0 <= i <= |docs| && |results| == i
        invariant forall k :: 0 <= k < i ==> embed(docs[k].content).Some? && results[k] == ScoreOf(queryVector, docs[k])
        invariant documents == docs && nextId == old(nextId) && isReady == (old(isReady) || loadOk)
      {
        var docOutput := embed(docs[i].content);
        if docOutput.None? {
          return [];
        }
        var similarity := CosineSimilarity(queryVector, docOutput.value);
        results := results + [Scored(docs[i], similarity)];
        i := i + 1;
      }
      assert results == Scores(queryVector, docs);
      results := SortByScore(results);
      items := ToItems(results[..SliceEnd(|results|, limit)]);
    }

    /**
     * `addDocument(filename, fullText)`: loads the embedder if needed, chunks the text,
     * fails when no chunk is left and otherwise appends one document per chunk.
     */
    method AddDocument(filename: string, fullText: string, loadOk: bool) returns (outcome: Outcome)
      requires Valid()
      modifies this
      ensures Valid()
      ensures isReady == (old(isReady) || loadOk)
      ensures !isReady ==> outcome == Fail(InitFailedMessage)
      ensures isReady ==> (outcome.Fail? <==> AllSpace(fullText))
      ensures isReady && outcome.Fail? ==> outcome == Fail(NoTextMessage)
      ensures outcome.Fail? ==> documents == old(documents) && nextId == old(nextId)
      ensures outcome.Pass? ==>
        var chunks := ChunkPieces(fullText, ChunkSize, Overlap);
        documents == old(documents) + NewDocuments(filename, chunks, |chunks|, old(nextId)) &&
        nextId == old(nextId) + |chunks|
    {
      if !isReady {
        outcome := Init(loadOk);
        if outcome.Fail? {
          return;
        }
      }
      ChunkPiecesEmpty(fullText, ChunkSize, Overlap);
      var chunks := ChunkText(fullText, ChunkSize, Overlap);
      if |chunks| == 0 {
        return Fail(NoTextMessage);
      }
      ChunksNeverSkipped(fullText);
      var firstId := nextId;
      var newDocuments := Index(filename, chunks);
      NothingSkipped(filename, chunks, |chunks|, firstId);
      StoredAppend(documents, newDocuments, firstId);
      documents := documents + newDocuments;
      outcome := Pass;
    }

    /** The loop of `addDocument` that turns chunks into documents, drawing one id per document. */
    method Index(filename: string, chunks: seq<string>) returns (newDocuments: seq<DocumentChunk>)
      modifies this
      ensures newDocuments == NewDocuments(filename, chunks, |chunks|, old(nextId))
      ensures nextId == old(nextId) + |newDocuments|
      ensures documents == old(documents) && isReady == old(isReady)
    {
      newDocuments := [];
      var i := 0;
      while i < |chunks|
        invariant 0 <= i <= |chunks|
        invariant newDocuments == NewDocuments(filename, chunks, i, old(nextId))
        invariant nextId == old(nextId) + |newDocuments|
        invariant documents == old(documents) && isReady == old(isReady)
      {
        var chunk := chunks[i];
        if !Skipped(chunk) {
          newDocuments := newDocuments + [DocumentChunk(nextId, chunk, filename, i)];
          nextId := nextId + 1;
        }
        i := i + 1;
      }
    }
  }
}
