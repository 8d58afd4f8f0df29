/** The embedding cache and document ingestion: batches go through a cache that may lose entries at any
    time, and what is stored is exactly one embedded row for each chunk. */
module Embeddings {
  import opened Wrappers
  import opened Chunking
  import opened ChunkBounds
  import opened ChunkService

  const EMBED_BATCH_SIZE: nat := 50

  /** What happens around one batch: cached entries that are lost before they are read, how many vectors
      the embedding service returns (none if the request fails), and cache writes that are lost. */
  datatype Weather = Weather(lost: set<Text>, reply: Option<nat>, unwritten: set<Text>)

  // ── The specification ───────────────────────────────────────────────────────────

  /** The plain map of embeddings: one vector for each chunk. */
  function Embedded<V>(embed: Text -> V, chunks: seq<Text>): seq<V> {
    seq(|chunks|, i requires 0 <= i < |chunks| => embed(chunks[i]))
  }

  /** Every cached vector is the one the embedder gives. */
  ghost predicate Consistent<V(!new)>(embed: Text -> V, cache: map<Text, V>) {
    forall t :: t in cache ==> cache[t] == embed(t)
  }

  /** How many of the chunks, repeats included, the cache does not hold. */
  function Misses<V>(chunks: seq<Text>, cache: map<Text, V>): nat {
    if chunks == [] then 0
    else Misses(chunks[..|chunks| - 1], cache) + (if chunks[|chunks| - 1] in cache then 0 else 1)
  }

  /** Nothing is missing, or the service answers for all that is. */
  predicate Answered<V>(chunks: seq<Text>, cache: map<Text, V>, weather: Weather) {
    Misses(chunks, cache) == 0 || (weather.reply.Some? && Misses(chunks, cache) <= weather.reply.value)
  }

  /** The service answers whole batches. */
  predicate Available(weather: Weather) {
    weather.reply.Some? && weather.reply.value >= EMBED_BATCH_SIZE
  }

  function Values<V>(results: seq<Option<V>>): seq<V>
    requires forall i :: 0 <= i < |results| ==> results[i].Some?
  {
    seq(|results|, i requires 0 <= i < |results| => results[i].value)
  }

  lemma EmbeddedConcat<V>(embed: Text -> V, a: seq<Text>, b: seq<Text>)
    ensures Embedded(embed, a + b) == Embedded(embed, a) + Embedded(embed, b)
  {
  }

  lemma {:induction false} MissesAtMost<V>(chunks: seq<Text>, cache: map<Text, V>)
    ensures Misses(chunks, cache) <= |chunks|
  {
    if chunks != [] {
      MissesAtMost(chunks[..|chunks| - 1], cache);
    }
  }

  /** A batch needs the service for nothing exactly if all its chunks are cached. */
  lemma {:induction false} NothingMissesIff<V>(chunks: seq<Text>, cache: map<Text, V>)
    ensures Misses(chunks, cache) == 0 <==> forall t :: t in chunks ==> t in cache
  {
    if chunks != [] {
      assert chunks == chunks[..|chunks| - 1] + [chunks[|chunks| - 1]];
      NothingMissesIff(chunks[..|chunks| - 1], cache);
    }
  }

  // ── The provider ────────────────────────────────────────────────────────────────

  class EmbeddingsProvider<V(!new)> {
    const embed: Text -> V
    const ttl: nat
    var cache: map<Text, V>

    ghost predicate Valid()
      reads this
    {
      Consistent(embed, cache)
    }

    constructor (embed: Text -> V, ttl: nat)
      ensures Valid() && this.embed == embed && this.ttl == ttl
    {
      this.embed, this.ttl, cache := embed, ttl, map[];
    }

    /** The cached vectors, read for all the chunks at once. */
    method ReadCache(chunks: seq<Text>) returns (results: array<Option<V>>)
      requires Valid()
      ensures fresh(results) && results.Length == |chunks|
      ensures forall i :: 0 <= i < |chunks| ==>
                results[i] == if ttl > 0 && chunks[i] in cache then Some(embed(chunks[i])) else None
    {
      results := new Option<V>[|chunks|](_ => None);
      for i := 0 to |chunks|
        invariant forall k :: 0 <= k < i ==>
                    results[k] == if ttl > 0 && chunks[k] in cache then Some(embed(chunks[k])) else None
      {
        results[i] := if ttl > 0 && chunks[i] in cache then Some(cache[chunks[i]]) else None;
      }
    }

    /** The indices whose chunk was not cached. */
    method FindUncached(chunks: seq<Text>, results: array<Option<V>>, ghost seen: map<Text, V>)
        returns (uncachedIndices: seq<nat>)
      requires results.Length == |chunks|
      requires forall i :: 0 <= i < |chunks| ==> (results[i].None? <==> chunks[i] !in seen)
      ensures |uncachedIndices| == Misses(chunks, seen)
      ensures forall i :: i in uncachedIndices ==> i < |chunks|
      ensures forall i: nat :: i < |chunks| && results[i].None? ==> i in uncachedIndices
    {
      uncachedIndices := [];
      for i := 0 to results.Length
        invariant |uncachedIndices| == Misses(chunks[..i], seen)
        invariant forall j :: j in uncachedIndices ==> j < i
        invariant forall k: nat :: k < i && results[k].None? ==> k in uncachedIndices
      {
        assert chunks[..i + 1][..i] == chunks[..i];
        if results[i].None? {
          uncachedIndices := uncachedIndices + [i];
        }
      }
      assert chunks[..|chunks|] == chunks;
    }

    /** Puts the vectors that the service returns at the uncached indices, and into the cache. */
    method FillIn(chunks: seq<Text>, results: array<Option<V>>, uncachedIndices: seq<nat>, weather: Weather)
        returns (ok: bool)
      requires Valid() && results.Length == |chunks| && uncachedIndices != []
      requires forall i :: i in uncachedIndices ==> i < |chunks|
      requires forall i: nat :: i < |chunks| ==> results[i] == Some(embed(chunks[i])) || i in uncachedIndices
      modifies this, results
      ensures Valid()
      ensures forall t :: t in cache ==> t in old(cache) || t in chunks
      ensures ok <==> weather.reply.Some? && |uncachedIndices| <= weather.reply.value
      ensures ok ==> forall i :: 0 <= i < |chunks| ==> results[i] == Some(embed(chunks[i]))
      ensures forall t :: t in old(cache) ==> t in cache
      ensures ok && ttl > 0 ==> forall i: nat :: i < |chunks| && i in uncachedIndices ==>
                chunks[i] in cache || chunks[i] in weather.unwritten
      ensures ttl == 0 ==> cache == old(cache)
    {
      if weather.reply.None? {
        return false;
      }
      for j := 0 to |uncachedIndices|
        invariant Valid() && j <= weather.reply.value
        invariant forall t :: t in cache ==> t in old(cache) || t in chunks
        invariant forall i: nat :: i < |chunks| ==> results[i] == Some(embed(chunks[i])) || i in uncachedIndices[j..]
        invariant forall t :: t in old(cache) ==> t in cache
        invariant ttl > 0 ==> forall i: nat :: i < |chunks| && i in uncachedIndices[..j] ==>
                    chunks[i] in cache || chunks[i] in weather.unwritten
        invariant ttl == 0 ==> cache == old(cache)
      {
        if j == weather.reply.value {
          return false;
        }
        var idx := uncachedIndices[j];
        assert idx in uncachedIndices;
        var vector := embed(chunks[idx]);
        results[idx] := Some(vector);
        if ttl > 0 && chunks[idx] !in weather.unwritten {
          cache := cache[chunks[idx] := vector];
        }
      }
      ok := true;
    }

    /** One vector for each chunk, the one the embedder gives, whatever was cached and however many chunks repeat;
        the batch succeeds exactly if the service answers for every chunk that was not cached. */
    method EmbedBatch(chunks: seq<Text>, weather: Weather) returns (r: Result<seq<V>, string>)
      requires Valid()
      modifies this
      ensures Valid()
      ensures forall t :: t in cache ==> t in old(cache) || t in chunks
      ensures r.Ok? ==> r.value == Embedded(embed, chunks)
      ensures r.Ok? <==> Answered(chunks, if ttl > 0 then old(cache) - weather.lost else map[], weather)
      ensures |chunks| <= EMBED_BATCH_SIZE && Available(weather) ==> r.Ok?
      ensures r.Ok? && ttl > 0 ==> forall t :: t in chunks && t !in weather.unwritten ==> t in cache
      ensures forall t :: t in old(cache) && t !in weather.lost ==> t in cache
    {
      cache := cache - weather.lost;
      ghost var seen := if ttl > 0 then cache else map[];
      var results := ReadCache(chunks);
      var uncachedIndices := FindUncached(chunks, results, seen);
      MissesAtMost(chunks, seen);
      if |uncachedIndices| > 0 {
        var ok := FillIn(chunks, results, uncachedIndices, weather);
        if !ok {
          return Err("DEPENDENCY_UNAVAILABLE");
        }
      }
      r := Ok(Values(results[..]));
    }
  }

  // ── Ingestion ───────────────────────────────────────────────────────────────────

  datatype Status = UPLOADED | PROCESSING | INDEXED | FAILED

  datatype Row<V> = Row(documentId: int, chunkIndex: nat, content: Text, embedding: V)

  /** The rows of a document: each chunk at its index, with its vector; an empty chunk has none. */
  function RowsOf<V>(embed: Text -> V, id: int, chunks: seq<Text>): seq<Row<V>> {
    if chunks == [] then []
    else
      var n := |chunks| - 1;
      RowsOf(embed, id, chunks[..n]) + (if chunks[n] == [] then [] else [Row(id, n, chunks[n], embed(chunks[n]))])
  }

  /** The chunks of a text under the default sizes. */
  function DefaultChunks(text: Text): seq<Text> {
    Texts(SplitText(text, SEPARATORS, 1000, 200))
  }

  class DocumentsService<V(!new)> {
    const provider: EmbeddingsProvider<V>
    const chunker: ChunkingService
    var status: map<int, Status>
    var rows: seq<Row<V>>

    ghost predicate Valid()
      reads this, provider
    {
      provider.Valid() && chunker.chunkSize == 1000 && chunker.chunkOverlap == 200
    }

    constructor (provider: EmbeddingsProvider<V>)
      requires provider.Valid()
      ensures Valid() && this.provider == provider && rows == [] && status == map[]
    {
      this.provider := provider;
      chunker := new ChunkingService(1000, 200);
      status, rows := map[], [];
    }

    /** The batching loop: the batches concatenate to one vector for each chunk. */
    method EmbedAll(chunks: seq<Text>, weather: nat -> Weather) returns (r: Result<seq<V>, string>)
      requires Valid()
      modifies provider
      ensures Valid()
      ensures r.Ok? ==> r.value == Embedded(provider.embed, chunks)
      ensures (forall n :: Available(weather(n))) ==> r.Ok?
    {
      var allEmbeddings := [];
      var i := 0;
      while i < |chunks|
        invariant Valid() && 0 <= i && i % EMBED_BATCH_SIZE == 0
        invariant allEmbeddings == Embedded(provider.embed, chunks[..Min(i, |chunks|)])
        decreases |chunks| - i
      {
        var end := Min(i + EMBED_BATCH_SIZE, |chunks|);
        var batch := chunks[i..end];
        ghost var n := i / EMBED_BATCH_SIZE;
        var embedded := provider.EmbedBatch(batch, weather(i / EMBED_BATCH_SIZE));
        if embedded.Err? {
          assert !Available(weather(n));
          return Err(embedded.error);
        }
        EmbeddedConcat(provider.embed, chunks[..i], batch);
        assert chunks[..i] + batch == chunks[..end];
        allEmbeddings := allEmbeddings + embedded.value;
        i := i + EMBED_BATCH_SIZE;
      }
      assert chunks[..|chunks|] == chunks;
      r := Ok(allEmbeddings);
    }

    /** Inserts a row for every chunk that is not empty and has a vector. */
    method InsertAll(id: int, chunks: seq<Text>, allEmbeddings: seq<V>)
      requires Valid() && allEmbeddings == Embedded(provider.embed, chunks)
      modifies this`rows
      ensures rows == old(rows) + RowsOf(provider.embed, id, chunks)
    {
      for i := 0 to |chunks|
        invariant rows == old(rows) + RowsOf(provider.embed, id, chunks[..i])
      {
        assert chunks[..i + 1][..i] == chunks[..i];
        if i < |allEmbeddings| && chunks[i] != [] {
          rows := rows + [Row(id, i, chunks[i], allEmbeddings[i])];
        }
      }
      assert chunks[..|chunks|] == chunks;
    }

    /** The text is absent if the document is gone or its file cannot be read; the inserts are one transaction,
        which may fail to commit. */
    method ProcessIngestion(id: int, text: Option<Text>, weather: nat -> Weather, commits: bool)
      requires Valid()
      modifies this`status, this`rows, provider
      ensures Valid() && id in status && status == old(status)[id := status[id]]
      ensures status[id] == INDEXED || status[id] == FAILED
      ensures status[id] == INDEXED ==>
                text.Some? && rows == old(rows) + RowsOf(provider.embed, id, DefaultChunks(text.value))
      ensures status[id] == FAILED ==> rows == old(rows)
      ensures text.Some? && commits && (forall n :: Available(weather(n))) ==> status[id] == INDEXED
    {
      status := status[id := PROCESSING];
      if text.None? {
        status := status[id := FAILED];
        return;
      }
      var chunks := chunker.ChunkText(text.value);
      if |chunks| == 0 {
        status := status[id := INDEXED];
        return;
      }
      var allEmbeddings := EmbedAll(chunks, weather);
      if allEmbeddings.Err? || !commits {
        status := status[id := FAILED];
        return;
      }
      InsertAll(id, chunks, allEmbeddings.value);
      status := status[id := INDEXED];
    }
  }

  /** No chunk of a text is lost: only the empty text has an empty chunk. */
  lemma NoChunkIsEmpty(text: Text)
    requires text != []
    ensures [] !in DefaultChunks(text)
  {
    var chunks := SplitText(text, SEPARATORS, 1000, 200);
    forall i | 0 <= i < |chunks| ensures chunks[i].Text() != [] {
      if |text| > 1000 {
        ChunkShape(text, 1000, 200, i);
      }
    }
  }

  lemma {:induction false} RowAt<V>(embed: Text -> V, id: int, chunks: seq<Text>)
    requires [] !in chunks
    ensures |RowsOf(embed, id, chunks)| == |chunks|
    ensures forall i :: 0 <= i < |chunks| ==> RowsOf(embed, id, chunks)[i] == Row(id, i, chunks[i], embed(chunks[i]))
  {
    if chunks != [] {
      RowAt(embed, id, chunks[..|chunks| - 1]);
    }
  }

  /** A text that is not empty is stored whole: row `i` holds chunk `i` and its vector, and nothing else is stored. */
  lemma EveryChunkIsStored<V>(embed: Text -> V, id: int, text: Text)
    requires text != []
    ensures var chunks := DefaultChunks(text);
            && |RowsOf(embed, id, chunks)| == |chunks|
            && forall i :: 0 <= i < |chunks| ==> RowsOf(embed, id, chunks)[i] == Row(id, i, chunks[i], embed(chunks[i]))
  {
    NoChunkIsEmpty(text);
    RowAt(embed, id, DefaultChunks(text));
  }
}
