/**
  The bookkeeping of the ingestion script (backend/scripts/ingestData.py): refuse an
  empty extraction, name every chunk `doc_<i>` after its position, skip the chunks
  whose id the vector store already holds, and hand the rest to the embedder in
  consecutive batches of at most 100.

  The PDF text, the splitter's chunks and the ids already stored are inputs; the
  embedding call and `collection.add` are not modelled, only the batches given to them.
*/
module Ingest {
  import opened Common
  import opened Text
  import Decimal

  // ---------------------------------------------------------------------------
  // The extraction check

  datatype IngestError = NoTextExtracted

  /** `if not raw_text.strip(): raise ValueError(...)`. */
  function CheckText(rawText: string): (r: Result<string, IngestError>)
    ensures r.Err? <==> IsBlank(Python, rawText)
    ensures r.Ok? ==> r.value == rawText
  {
    TrimEmptyIffBlank(Python, rawText);
    if Trim(Python, rawText) == [] then Err(NoTextExtracted) else Ok(rawText)
  }

  // ---------------------------------------------------------------------------
  // Document ids

  const IdPrefix: string := "doc_"

  /** `f"doc_{i}"`: the prefix followed by a non-empty run of decimal digits. */
  function DocId(i: nat): (id: string)
    ensures |id| > |IdPrefix| && id[..|IdPrefix|] == IdPrefix
    ensures forall k :: |IdPrefix| <= k < |id| ==> Decimal.IsDigit(id[k])
  {
    IdPrefix + Decimal.Render(i)
  }

  /** Read as a decimal number, the digits after the prefix give back the position. */
  lemma DocIdReadsBack(i: nat)
    ensures Decimal.Value(DocId(i)[|IdPrefix|..]) == i
  {
    assert DocId(i)[|IdPrefix|..] == Decimal.Render(i);
    Decimal.ValueOfRender(i);
  }

  /** Different positions get different ids. */
  lemma DocIdInjective(i: nat, j: nat)
    ensures DocId(i) == DocId(j) ==> i == j
  {
    DocIdReadsBack(i);
    DocIdReadsBack(j);
  }

  /** `doc_ids = [f"doc_{i}" for i in range(len(chunks))]`. */
  function DocIds(n: nat): (ids: seq<string>)
    ensures |ids| == n
    ensures forall i :: 0 <= i < n ==> ids[i] == DocId(i)
  {
    seq(n, i requires 0 <= i => DocId(i))
  }

  predicate Distinct<T(==)>(s: seq<T>) {
    forall i, j :: 0 <= i < j < |s| ==> s[i] != s[j]
  }

  /** One id per chunk, and no two chunks share an id. */
  lemma DocIdsDistinct(n: nat)
    ensures Distinct(DocIds(n))
  {
    var ids := DocIds(n);
    forall i, j | 0 <= i < j < n
      ensures ids[i] != ids[j]
    {
      DocIdInjective(i, j);
    }
  }

  // ---------------------------------------------------------------------------
  // Skipping what is already stored

  /**
    The positions, in increasing order, whose id is not already stored: the
    positions the two filtering comprehensions keep.
  */
  function Kept(ids: seq<string>, existing: set<string>): (ks: seq<nat>)
    ensures forall k :: 0 <= k < |ks| ==> ks[k] < |ids| && ids[ks[k]] !in existing
    ensures forall k, l :: 0 <= k < l < |ks| ==> ks[k] < ks[l]
    ensures forall i :: 0 <= i < |ids| && ids[i] !in existing ==> i in ks
    decreases |ids|
  {
    if |ids| == 0 then []
    else
      var n := |ids| - 1;
      var prefix := Kept(ids[..n], existing);
      if ids[n] in existing then prefix else prefix + [n]
  }

  /**
    `[doc_id for doc_id in doc_ids if doc_id not in existing_ids]`: exactly the ids at
    the kept positions, in order.
  */
  function NewIds(ids: seq<string>, existing: set<string>): (r: seq<string>)
    ensures var ks := Kept(ids, existing);
      |r| == |ks| && forall k :: 0 <= k < |ks| ==> r[k] == ids[ks[k]]
    decreases |ids|
  {
    if |ids| == 0 then []
    else
      var n := |ids| - 1;
      var prefix := NewIds(ids[..n], existing);
      var ks := Kept(ids[..n], existing);
      assert forall k :: 0 <= k < |ks| ==> ids[..n][ks[k]] == ids[ks[k]];
      prefix + (if ids[n] in existing then [] else [ids[n]])
  }

  /**
    `[chunk for i, chunk in enumerate(chunks) if doc_ids[i] not in existing_ids]`: a
    chunk is tested by the id at its own position, so the result is exactly the chunks
    at the positions kept among the first `|chunks|` ids, in order.
  */
  function NewChunks(chunks: seq<string>, ids: seq<string>, existing: set<string>): (r: seq<string>)
    requires |chunks| <= |ids|
    ensures var ks := Kept(ids[..|chunks|], existing);
      |r| == |ks| && forall k :: 0 <= k < |ks| ==> r[k] == chunks[ks[k]]
    decreases |chunks|
  {
    if |chunks| == 0 then []
    else
      var n := |chunks| - 1;
      var prefix := NewChunks(chunks[..n], ids, existing);
      assert ids[..|chunks|][..n] == ids[..n];
      var ks := Kept(ids[..n], existing);
      assert forall k :: 0 <= k < |ks| ==> chunks[..n][ks[k]] == chunks[ks[k]];
      prefix + (if ids[n] in existing then [] else [chunks[n]])
  }

  /**
    The two filters stay aligned: with one id per chunk, both keep the same positions,
    those whose id is not stored, in their original order, so the k-th new id is the id
    of the k-th new chunk.
  */
  lemma Aligned(chunks: seq<string>, ids: seq<string>, existing: set<string>)
    requires |ids| == |chunks|
    ensures var ks := Kept(ids, existing);
      var nc := NewChunks(chunks, ids, existing);
      var ni := NewIds(ids, existing);
      && |nc| == |ni| == |ks|
      && (forall k :: 0 <= k < |ks| ==> nc[k] == chunks[ks[k]] && ni[k] == ids[ks[k]])
  {
    assert ids[..|chunks|] == ids;
  }

  /** The new ids are exactly the ids not already stored. */
  lemma {:induction false} NewIdsMembers(ids: seq<string>, existing: set<string>)
    ensures forall x :: x in NewIds(ids, existing) <==> x in ids && x !in existing
    decreases |ids|
  {
    if |ids| > 0 {
      var n := |ids| - 1;
      NewIdsMembers(ids[..n], existing);
      assert ids == ids[..n] + [ids[n]];
    }
  }

  // ---------------------------------------------------------------------------
  // Batching

  // `batch_size = 100`: every batch bound below is that literal, written out so that
  // the solver's arithmetic on batch positions stays linear.

  /** One call of the embedder and of `collection.add`. */
  datatype Batch = Batch(start: nat, chunks: seq<string>, ids: seq<string>)

  /** Python's `s[i:j]` for `0 <= i <= j`: out-of-range bounds are clamped, never an error. */
  function Slice<T>(s: seq<T>, i: nat, j: nat): (r: seq<T>)
    requires i <= j
    ensures |r| == (if j <= |s| then j - i else if i <= |s| then |s| - i else 0)
    ensures forall k :: 0 <= k < |r| ==> r[k] == s[i + k]
  {
    if |s| <= i then [] else if |s| <= j then s[i..] else s[i..j]
  }

  /** The concatenation of a sequence of sequences. */
  function Flatten<T>(ss: seq<seq<T>>): seq<T>
    decreases |ss|
  {
    if |ss| == 0 then [] else Flatten(ss[..|ss| - 1]) + ss[|ss| - 1]
  }

  function ChunksOf(bs: seq<Batch>): (r: seq<seq<string>>)
    ensures |r| == |bs| && forall b :: 0 <= b < |bs| ==> r[b] == bs[b].chunks
  {
    seq(|bs|, b requires 0 <= b < |bs| => bs[b].chunks)
  }

  function IdsOf(bs: seq<Batch>): (r: seq<seq<string>>)
    ensures |r| == |bs| && forall b :: 0 <= b < |bs| ==> r[b] == bs[b].ids
  {
    seq(|bs|, b requires 0 <= b < |bs| => bs[b].ids)
  }

  lemma {:induction false} FlattenSnoc<T>(ss: seq<seq<T>>, s: seq<T>)
    ensures Flatten(ss + [s]) == Flatten(ss) + s
  {
    assert (ss + [s])[..|ss|] == ss;
  }

  /** Taking the next slice extends a flattened prefix of `s` by that slice. */
  lemma NextSlice<T>(ss: seq<seq<T>>, s: seq<T>, i: nat)
    requires i <= |s| && Flatten(ss) == s[..i]
    ensures Flatten(ss + [Slice(s, i, i + 100)]) == s[..Min(i + 100, |s|)]
  {
    FlattenSnoc(ss, Slice(s, i, i + 100));
    assert s[..Min(i + 100, |s|)] == s[..i] + Slice(s, i, i + 100);
  }

  /** Batch number `b` holds the `b`-th run of 100 new chunks and of 100 new ids. */
  predicate IsBatch(batch: Batch, b: nat, newChunks: seq<string>, newIds: seq<string>) {
    var start := b * 100;
    && batch.start == start
    && batch.chunks == Slice(newChunks, start, start + 100)
    && batch.ids == Slice(newIds, start, start + 100)
  }

  /** What the loop has built after taking every slice that starts before `i`. */
  predicate PlannedUpTo(batches: seq<Batch>, i: nat, newChunks: seq<string>, newIds: seq<string>) {
    && i == |batches| * 100
    && (forall b :: 0 <= b < |batches| ==>
          IsBatch(batches[b], b, newChunks, newIds) && 0 < |batches[b].chunks| <= 100)
    && Flatten(ChunksOf(batches)) == newChunks[..Min(i, |newChunks|)]
    && (|newIds| == |newChunks| ==> Flatten(IdsOf(batches)) == newIds[..Min(i, |newIds|)])
  }

  /** One more trip round the loop keeps `PlannedUpTo`. */
  lemma {:induction false} PlanStep(batches: seq<Batch>, i: nat, newChunks: seq<string>, newIds: seq<string>)
    requires i < |newChunks| && PlannedUpTo(batches, i, newChunks, newIds)
    ensures PlannedUpTo(batches + [Batch(i, Slice(newChunks, i, i + 100), Slice(newIds, i, i + 100))],
                        i + 100, newChunks, newIds)
  {
    var batch := Batch(i, Slice(newChunks, i, i + 100), Slice(newIds, i, i + 100));
    ChunksOfSnoc(batches, batch);
    NextSlice(ChunksOf(batches), newChunks, i);
    if |newIds| == |newChunks| {
      IdsOfSnoc(batches, batch);
      NextSlice(IdsOf(batches), newIds, i);
    }
    assert IsBatch(batch, |batches|, newChunks, newIds);
    NumberedSnoc(batches, batch, newChunks, newIds);
  }

  lemma ChunksOfSnoc(bs: seq<Batch>, batch: Batch)
    ensures ChunksOf(bs + [batch]) == ChunksOf(bs) + [batch.chunks]
  {
    assert ChunksOf(bs + [batch])[..|bs|] == ChunksOf(bs);
  }

  lemma IdsOfSnoc(bs: seq<Batch>, batch: Batch)
    ensures IdsOf(bs + [batch]) == IdsOf(bs) + [batch.ids]
  {
    assert IdsOf(bs + [batch])[..|bs|] == IdsOf(bs);
  }

  /** Appending batch number `|batches|` keeps every batch numbered and of size 1 to 100. */
  lemma NumberedSnoc(batches: seq<Batch>, batch: Batch, newChunks: seq<string>, newIds: seq<string>)
    requires forall b :: 0 <= b < |batches| ==>
      IsBatch(batches[b], b, newChunks, newIds) && 0 < |batches[b].chunks| <= 100
    requires IsBatch(batch, |batches|, newChunks, newIds) && 0 < |batch.chunks| <= 100
    ensures forall b :: 0 <= b < |batches + [batch]| ==>
      IsBatch((batches + [batch])[b], b, newChunks, newIds) && 0 < |(batches + [batch])[b].chunks| <= 100
  {
  }

  /** The loop runs once per started run of 100: `ceil(n / 100)` times. */
  lemma BatchCount(count: nat, n: nat)
    requires n <= count * 100 < n + 100
    ensures count == (n + 100 - 1) / 100
  {
  }

  /**
    The batching loop, `for i in range(0, len(new_chunks), 100)`, taking
    `new_chunks[i:i+100]` and `new_doc_ids[i:i+100]` each time round.
  */
  method PlanBatches(newChunks: seq<string>, newIds: seq<string>) returns (batches: seq<Batch>)
    ensures |batches| == (|newChunks| + 100 - 1) / 100
    ensures forall b :: 0 <= b < |batches| ==>
      IsBatch(batches[b], b, newChunks, newIds) && 0 < |batches[b].chunks| <= 100
    ensures Flatten(ChunksOf(batches)) == newChunks
    ensures |newIds| == |newChunks| ==> Flatten(IdsOf(batches)) == newIds
  {
    batches := [];
    var i := 0;
    while i < |newChunks|
      invariant i < |newChunks| + 100
      invariant PlannedUpTo(batches, i, newChunks, newIds)
    {
      PlanStep(batches, i, newChunks, newIds);
      batches := batches + [Batch(i, Slice(newChunks, i, i + 100), Slice(newIds, i, i + 100))];
      i := i + 100;
    }
    BatchCount(|batches|, |newChunks|);
    assert newChunks[..Min(i, |newChunks|)] == newChunks;
    assert |newIds| == |newChunks| ==> newIds[..Min(i, |newIds|)] == newIds;
  }

  function Min(a: nat, b: nat): nat {
    if a <= b then a else b
  }

  // ---------------------------------------------------------------------------
  // The whole bookkeeping

  /** Whether every chunk position already has its id stored. */
  predicate AllStored(n: nat, existing: set<string>) {
    forall i :: 0 <= i < n ==> DocId(i) in existing
  }

  /** Nothing is new exactly when every position's id is already stored. */
  lemma NothingNewIffAllStored(n: nat, existing: set<string>)
    ensures |Kept(DocIds(n), existing)| == 0 <==> AllStored(n, existing)
  {
    var ids := DocIds(n);
    var ks := Kept(ids, existing);
    if |ks| == 0 {
      forall i | 0 <= i < n
        ensures DocId(i) in existing
      {
        assert ids[i] == DocId(i);
      }
    } else {
      assert ids[ks[0]] !in existing;
    }
  }

  /** Batch `b` starts at position `100 * b` and holds between 1 and 100 chunks: the API limit. */
  predicate WithinLimit(batches: seq<Batch>) {
    forall b :: 0 <= b < |batches| ==> batches[b].start == b * 100 && 0 < |batches[b].chunks| <= 100
  }

  /**
    Every batch carries as many ids as chunks, and its `j`-th chunk and `j`-th id come
    from the same chunk position: the `100 * b + j`-th position kept by the filter.
  */
  predicate PairedWithIds(chunks: seq<string>, existing: set<string>, batches: seq<Batch>) {
    var ks := Kept(DocIds(|chunks|), existing);
    forall b :: 0 <= b < |batches| ==>
      && |batches[b].ids| == |batches[b].chunks|
      && forall j :: 0 <= j < |batches[b].chunks| ==>
        && b * 100 + j < |ks|
        && batches[b].chunks[j] == chunks[ks[b * 100 + j]]
        && batches[b].ids[j] == DocId(ks[b * 100 + j])
  }

  /**
    Inside every batch the `j`-th id belongs to the `j`-th chunk: both are taken from the
    same kept position, the `100 * b + j`-th.
  */
  lemma {:induction false} BatchesAligned(chunks: seq<string>, existing: set<string>, batches: seq<Batch>)
    requires var ids := DocIds(|chunks|);
      forall b :: 0 <= b < |batches| ==>
        IsBatch(batches[b], b, NewChunks(chunks, ids, existing), NewIds(ids, existing))
    ensures PairedWithIds(chunks, existing, batches)
  {
    var ids := DocIds(|chunks|);
    var newChunks := NewChunks(chunks, ids, existing);
    var newIds := NewIds(ids, existing);
    var ks := Kept(ids, existing);
    Aligned(chunks, ids, existing);
    forall b | 0 <= b < |batches|
      ensures |batches[b].ids| == |batches[b].chunks|
      ensures forall j :: 0 <= j < |batches[b].chunks| ==>
        && b * 100 + j < |ks|
        && batches[b].chunks[j] == chunks[ks[b * 100 + j]]
        && batches[b].ids[j] == DocId(ks[b * 100 + j])
    {
      BatchPaired(batches[b], b, newChunks, newIds, chunks, ids, ks);
    }
  }

  /**
    One batch of the filtered chunks and ids, when the filters keep the positions `ks`:
    its `j`-th chunk and its `j`-th id come from the position `ks[100 * b + j]`.
  */
  lemma BatchPaired(batch: Batch, b: nat, newChunks: seq<string>, newIds: seq<string>,
                    chunks: seq<string>, ids: seq<string>, ks: seq<nat>)
    requires IsBatch(batch, b, newChunks, newIds)
    requires |newChunks| == |newIds| == |ks| && |ids| == |chunks|
    requires forall k :: 0 <= k < |ks| ==>
      ks[k] < |chunks| && newChunks[k] == chunks[ks[k]] && newIds[k] == ids[ks[k]]
    ensures |batch.ids| == |batch.chunks|
    ensures forall j :: 0 <= j < |batch.chunks| ==>
      && b * 100 + j < |ks|
      && batch.chunks[j] == chunks[ks[b * 100 + j]]
      && batch.ids[j] == ids[ks[b * 100 + j]]
  {
  }

  /**
    The script from the extracted text to the batches handed to the embedder and to
    `collection.add`: an empty extraction raises, otherwise the chunks whose id is
    not stored yet are sent in runs of 100, each chunk with its own id.
  */
  method Ingest(rawText: string, chunks: seq<string>, existing: set<string>)
    returns (r: Result<seq<Batch>, IngestError>)
    ensures r.Err? <==> IsBlank(Python, rawText)
    ensures r.Ok? ==> (|r.value| == 0 <==> AllStored(|chunks|, existing))
    ensures r.Ok? ==>
      var ids := DocIds(|chunks|);
      && Flatten(ChunksOf(r.value)) == NewChunks(chunks, ids, existing)
      && Flatten(IdsOf(r.value)) == NewIds(ids, existing)
    ensures r.Ok? ==> WithinLimit(r.value)
    ensures r.Ok? ==> PairedWithIds(chunks, existing, r.value)
  {
    var checked := CheckText(rawText);
    if checked.Err? {
      return Err(checked.error);
    }
    var ids := DocIds(|chunks|);
    var newChunks := NewChunks(chunks, ids, existing);
    var newIds := NewIds(ids, existing);
    Aligned(chunks, ids, existing);
    NothingNewIffAllStored(|chunks|, existing);
    if |newChunks| == 0 {
      return Ok([]);
    }
    var batches := PlanBatches(newChunks, newIds);
    BatchesAligned(chunks, existing, batches);
    return Ok(batches);
  }

  /** When every id is stored, the filter keeps nothing. */
  lemma {:induction false} NothingNewWhenAllStored(ids: seq<string>, existing: set<string>)
    requires forall i :: 0 <= i < |ids| ==> ids[i] in existing
    ensures NewIds(ids, existing) == []
    decreases |ids|
  {
    if |ids| > 0 {
      NothingNewWhenAllStored(ids[..|ids| - 1], existing);
    }
  }

  /**
    Running the script again over the same chunks adds nothing: once the new ids are
    stored, every position's id is stored and the next run finds no new chunk.
  */
  lemma RerunAddsNothing(n: nat, existing: set<string>)
    ensures var added := set x | x in NewIds(DocIds(n), existing);
      && AllStored(n, existing + added)
      && NewIds(DocIds(n), existing + added) == []
  {
    var ids := DocIds(n);
    var added := set x | x in NewIds(ids, existing);
    NewIdsMembers(ids, existing);
    NewIdsMembers(ids, existing + added);
    forall i | 0 <= i < n
      ensures DocId(i) in existing + added
    {
      assert ids[i] == DocId(i);
    }
    NothingNewWhenAllStored(ids, existing + added);
  }
}
