/**
 * The second half of the indexing command (setup_database in app.py): the
 * three parallel lists built by the chunker are handed to the vector store in
 * consecutive batches of at most BatchSize entries. The store itself is not
 * modelled; each call to collection.add is recorded as an AddCall value.
 */
module Indexing {
  import opened PyText
  import opened Chunker

  const BatchSize: nat := 50

  /** The arguments of one collection.add(ids=..., documents=..., metadatas=...) call. */
  datatype AddCall = AddCall(ids: seq<string>, documents: seq<string>, metadatas: seq<Metadata>)

  /** How many batches n entries take: n / BatchSize rounded up. */
  function BatchCount(n: nat): nat
  {
    (n + BatchSize - 1) / BatchSize
  }

  /** The first index of batch k. */
  function BatchStart(k: nat): nat
  {
    k * BatchSize
  }

  /** The end of batch k over n entries: min(start + BatchSize, n). */
  function BatchEnd(k: nat, n: nat): nat
  {
    Min(BatchStart(k) + BatchSize, n)
  }

  /** The k-th add call over the three lists. */
  function BatchAt(ids: seq<string>, chunks: seq<string>, metas: seq<Metadata>, k: nat): AddCall
    requires |ids| == |chunks| == |metas|
    requires k < BatchCount(|chunks|)
  {
    var n := |chunks|;
    AddCall(ids[BatchStart(k)..BatchEnd(k, n)], chunks[BatchStart(k)..BatchEnd(k, n)],
            metas[BatchStart(k)..BatchEnd(k, n)])
  }

  /** Everything the calls add, in call order: their ids, documents and metadatas concatenated. */
  function AddedIds(calls: seq<AddCall>): seq<string>
  {
    if calls == [] then [] else AddedIds(calls[..|calls| - 1]) + calls[|calls| - 1].ids
  }

  function AddedDocuments(calls: seq<AddCall>): seq<string>
  {
    if calls == [] then [] else AddedDocuments(calls[..|calls| - 1]) + calls[|calls| - 1].documents
  }

  function AddedMetadatas(calls: seq<AddCall>): seq<Metadata>
  {
    if calls == [] then [] else AddedMetadatas(calls[..|calls| - 1]) + calls[|calls| - 1].metadatas
  }

  /** The calls so far are the batches 0 .. |calls| - 1. */
  predicate FirstBatches(ids: seq<string>, chunks: seq<string>, metas: seq<Metadata>, calls: seq<AddCall>)
    requires |ids| == |chunks| == |metas|
  {
    forall k :: 0 <= k < |calls| ==> k < BatchCount(|chunks|) && calls[k] == BatchAt(ids, chunks, metas, k)
  }

  /** The calls so far have added the first m entries of each list. */
  predicate AddedPrefix(ids: seq<string>, chunks: seq<string>, metas: seq<Metadata>, calls: seq<AddCall>, m: nat)
    requires m <= |ids| && m <= |chunks| && m <= |metas|
  {
    AddedIds(calls) == ids[..m] && AddedDocuments(calls) == chunks[..m] && AddedMetadatas(calls) == metas[..m]
  }

  /** The first `i` entries have been added, by the first |calls| batches. */
  predicate BatchedUpTo(ids: seq<string>, chunks: seq<string>, metas: seq<Metadata>, calls: seq<AddCall>, i: nat)
    requires |ids| == |chunks| == |metas|
  {
    i == BatchStart(|calls|) && (|calls| == 0 || i - BatchSize < |chunks|)
    && FirstBatches(ids, chunks, metas, calls)
    && AddedPrefix(ids, chunks, metas, calls, Min(i, |chunks|))
  }

  /**
   * The batching loop: the calls are the batches 0, 1, ... in order, and
   * together they add every id, document and metadata exactly once, in the
   * order of the lists.
   */
  method AddInBatches(ids: seq<string>, chunks: seq<string>, metas: seq<Metadata>)
    returns (calls: seq<AddCall>)
    requires |ids| == |chunks| == |metas|
    ensures |calls| == BatchCount(|chunks|)
    ensures forall k :: 0 <= k < |calls| ==> calls[k] == BatchAt(ids, chunks, metas, k)
    ensures AddedIds(calls) == ids && AddedDocuments(calls) == chunks && AddedMetadatas(calls) == metas
  {
    var n := |chunks|;
    calls := [];
    var i := 0;
    while i < n
      invariant BatchedUpTo(ids, chunks, metas, calls, i)
      decreases n - i
    {
      var end := Min(i + BatchSize, n);
      var call := AddCall(ids[i..end], chunks[i..end], metas[i..end]);
      BatchStep(ids, chunks, metas, calls, i);
      calls := calls + [call];
      i := i + BatchSize;
    }
    BatchesDone(ids, chunks, metas, calls, i);
  }

  /** One turn of the batching loop keeps BatchedUpTo. */
  lemma BatchStep(ids: seq<string>, chunks: seq<string>, metas: seq<Metadata>, calls: seq<AddCall>, i: nat)
    requires |ids| == |chunks| == |metas|
    requires BatchedUpTo(ids, chunks, metas, calls, i) && i < |chunks|
    ensures var end := Min(i + BatchSize, |chunks|);
            BatchedUpTo(ids, chunks, metas, calls + [AddCall(ids[i..end], chunks[i..end], metas[i..end])],
                        i + BatchSize)
  {
    var n := |chunks|;
    var end := Min(i + BatchSize, n);
    var call := AddCall(ids[i..end], chunks[i..end], metas[i..end]);
    NextBatch(n, |calls|);
    FirstBatchesStep(ids, chunks, metas, calls);
    AddedPrefixStep(ids, chunks, metas, calls, i, end);
  }

  lemma FirstBatchesStep(ids: seq<string>, chunks: seq<string>, metas: seq<Metadata>, calls: seq<AddCall>)
    requires |ids| == |chunks| == |metas|
    requires FirstBatches(ids, chunks, metas, calls) && |calls| < BatchCount(|chunks|)
    ensures FirstBatches(ids, chunks, metas, calls + [BatchAt(ids, chunks, metas, |calls|)])
  {
    var calls' := calls + [BatchAt(ids, chunks, metas, |calls|)];
    forall k | 0 <= k < |calls'|
      ensures k < BatchCount(|chunks|) && calls'[k] == BatchAt(ids, chunks, metas, k)
    {
      if k < |calls| {
        assert calls'[k] == calls[k];
      }
    }
  }

  lemma AddedPrefixStep(ids: seq<string>, chunks: seq<string>, metas: seq<Metadata>, calls: seq<AddCall>,
                        i: nat, end: nat)
    requires i <= end <= |ids| && end <= |chunks| && end <= |metas|
    requires AddedPrefix(ids, chunks, metas, calls, i)
    ensures AddedPrefix(ids, chunks, metas, calls + [AddCall(ids[i..end], chunks[i..end], metas[i..end])], end)
  {
    AddedAppend(calls, AddCall(ids[i..end], chunks[i..end], metas[i..end]));
    assert ids[..i] + ids[i..end] == ids[..end];
    assert chunks[..i] + chunks[i..end] == chunks[..end];
    assert metas[..i] + metas[i..end] == metas[..end];
  }

  /** Batch m starts below n: it is one of the BatchCount(n) batches and the next one starts BatchSize later. */
  lemma NextBatch(n: nat, m: nat)
    requires BatchStart(m) < n
    ensures m < BatchCount(n)
    ensures BatchStart(m + 1) == BatchStart(m) + BatchSize
  {
  }

  /** When the loop stops, every batch has been sent and everything added. */
  lemma BatchesDone(ids: seq<string>, chunks: seq<string>, metas: seq<Metadata>, calls: seq<AddCall>, i: nat)
    requires |ids| == |chunks| == |metas|
    requires BatchedUpTo(ids, chunks, metas, calls, i) && i >= |chunks|
    ensures |calls| == BatchCount(|chunks|)
    ensures forall k :: 0 <= k < |calls| ==> calls[k] == BatchAt(ids, chunks, metas, k)
    ensures AddedIds(calls) == ids && AddedDocuments(calls) == chunks && AddedMetadatas(calls) == metas
  {
    var n := |chunks|;
    BatchesCovered(n, |calls|);
    assert ids[..n] == ids && chunks[..n] == chunks && metas[..n] == metas;
  }

  /** The first batch to start at or after n is batch BatchCount(n). */
  lemma BatchesCovered(n: nat, m: nat)
    requires BatchStart(m) >= n && (m == 0 || BatchStart(m) - BatchSize < n)
    ensures m == BatchCount(n)
  {
  }

  /** Adding one more call extends what has been added by that call's lists. */
  lemma AddedAppend(calls: seq<AddCall>, c: AddCall)
    ensures AddedIds(calls + [c]) == AddedIds(calls) + c.ids
    ensures AddedDocuments(calls + [c]) == AddedDocuments(calls) + c.documents
    ensures AddedMetadatas(calls + [c]) == AddedMetadatas(calls) + c.metadatas
  {
    assert (calls + [c])[..|calls|] == calls;
  }

  /**
   * Every batch holds between 1 and BatchSize entries, every batch but the last
   * exactly BatchSize, and batch k starts where batch k - 1 ends.
   */
  lemma BatchSizes(n: nat, k: nat)
    requires k < BatchCount(n)
    ensures BatchStart(k) < BatchEnd(k, n) <= n
    ensures 1 <= BatchEnd(k, n) - BatchStart(k) <= BatchSize
    ensures k + 1 < BatchCount(n) ==> BatchEnd(k, n) - BatchStart(k) == BatchSize
    ensures k + 1 < BatchCount(n) ==> BatchEnd(k, n) == BatchStart(k + 1)
  {
  }

  /** The last batch ends at n: the batches reach every entry. */
  lemma LastBatchEndsAtN(n: nat)
    requires n > 0
    ensures BatchEnd(BatchCount(n) - 1, n) == n
  {
  }

  /** No entries, no calls; any entry at all, at least one call. */
  lemma NoChunksNoCalls(n: nat)
    ensures BatchCount(n) == 0 <==> n == 0
  {
  }

  /**
   * The indexing command after reading the corpus: split it into chunks by the
   * fixed titles, then add them in batches. What the calls add, position by
   * position, is exactly the chunk list of the corpus, and no id is added twice.
   */
  method SetupDatabase(text: string) returns (calls: seq<AddCall>)
    ensures |AddedDocuments(calls)| == |AddedIds(calls)| == |AddedMetadatas(calls)| == |Chunks(text, Stories)|
    ensures forall k :: 0 <= k < |Chunks(text, Stories)| ==>
      Chunks(text, Stories)[k] == Entry(AddedDocuments(calls)[k], AddedIds(calls)[k], AddedMetadatas(calls)[k])
    ensures |calls| == BatchCount(|Chunks(text, Stories)|)
    ensures forall k1, k2 :: 0 <= k1 < k2 < |AddedIds(calls)| ==> AddedIds(calls)[k1] != AddedIds(calls)[k2]
  {
    var allChunks, allIds, allMetas := SplitIntoChunks(text, Stories);
    calls := AddInBatches(allIds, allChunks, allMetas);
    StoryIdsDistinct(text);
  }
}
