/**
 * What both import scripts share: the bulk request body built by
 * `insertToElastic`, the search-index client together with the
 * module-level `totalNumberOfDocuments` counter, and the per-file
 * `documents` buffer that the 'data' and 'end' handlers fill and flush.
 */
module Bulk {
  import opened Batching

  /** `BULK_SIZE` of both scripts. */
  const BULK_SIZE: nat := 500

  /** One line of a bulk request: an action header or the document it applies to. */
  datatype Entry<D> =
    | Action(index: string, docType: string)   // {index: {_index: ..., _type: ...}}
    | Source(document: D)                      // the document itself

  /** The bulk body: each document preceded by an index action for `index` and type `_doc`. */
  function BulkBody<D>(index: string, documents: seq<D>): (body: seq<Entry<D>>)
    ensures |body| == 2 * |documents|
  {
    if documents == [] then []
    else [Action(index, "_doc"), Source(documents[0])] + BulkBody(index, documents[1..])
  }

  /** Position 2i of the bulk body is the action header and position 2i+1 is the i-th document. */
  lemma {:induction false} BulkBodyAt<D>(index: string, documents: seq<D>, i: nat)
    requires i < |documents|
    ensures BulkBody(index, documents)[2 * i] == Action(index, "_doc")
    ensures BulkBody(index, documents)[2 * i + 1] == Source(documents[i])
  {
    if i > 0 {
      BulkBodyAt(index, documents[1..], i - 1);
      var rest := BulkBody(index, documents[1..]);
      assert BulkBody(index, documents) == [Action(index, "_doc"), Source(documents[0])] + rest;
      assert BulkBody(index, documents)[2 * i] == rest[2 * (i - 1)];
      assert BulkBody(index, documents)[2 * i + 1] == rest[2 * (i - 1) + 1];
    }
  }

  /** A body made of (header for `index`, document) pairs. */
  predicate IsBulkBody<D>(index: string, body: seq<Entry<D>>) {
    if |body| == 0 then true
    else |body| >= 2 && body[0] == Action(index, "_doc") && body[1].Source? && IsBulkBody(index, body[2..])
  }

  /** The documents of a body: its entries at odd positions. */
  function SourcesOf<D>(body: seq<Entry<D>>): (documents: seq<D>) {
    if |body| < 2 then []
    else (if body[1].Source? then [body[1].document] else []) + SourcesOf(body[2..])
  }

  /** Taking the odd positions of a bulk body gives back the batch. */
  lemma {:induction false} SourcesOfBulkBody<D>(index: string, documents: seq<D>)
    ensures IsBulkBody(index, BulkBody(index, documents))
    ensures SourcesOf(BulkBody(index, documents)) == documents
  {
    if documents != [] {
      var body := BulkBody(index, documents);
      SourcesOfBulkBody(index, documents[1..]);
      assert body[2..] == BulkBody(index, documents[1..]);
    }
  }

  /** Every well-formed body is the bulk body of its documents. */
  lemma {:induction false} BulkBodyOfSources<D>(index: string, body: seq<Entry<D>>)
    requires IsBulkBody(index, body)
    ensures BulkBody(index, SourcesOf(body)) == body
  {
    if |body| > 0 {
      BulkBodyOfSources(index, body[2..]);
      var documents := SourcesOf(body);
      assert documents == [body[1].document] + SourcesOf(body[2..]);
      assert documents[1..] == SourcesOf(body[2..]);
      assert body == [body[0], body[1]] + body[2..];
    }
  }

  /** The bulk bodies of a sequence of batches, in order. */
  function Bodies<D>(index: string, batches: seq<seq<D>>): (bodies: seq<seq<Entry<D>>>) {
    seq(|batches|, i requires 0 <= i < |batches| => BulkBody(index, batches[i]))
  }

  /** The sum of the item counts the store reports for each body. */
  function Acknowledged<D>(itemsFor: seq<Entry<D>> -> nat, bodies: seq<seq<Entry<D>>>): (total: nat) {
    if bodies == [] then 0
    else Acknowledged(itemsFor, bodies[..|bodies| - 1]) + itemsFor(bodies[|bodies| - 1])
  }

  lemma BodiesSnoc<D>(index: string, batches: seq<seq<D>>, batch: seq<D>)
    ensures Bodies(index, batches + [batch]) == Bodies(index, batches) + [BulkBody(index, batch)]
  {
    assert (batches + [batch])[..|batches|] == batches;
  }

  lemma AcknowledgedSnoc<D>(itemsFor: seq<Entry<D>> -> nat, bodies: seq<seq<Entry<D>>>, body: seq<Entry<D>>)
    ensures Acknowledged(itemsFor, bodies + [body]) == Acknowledged(itemsFor, bodies) + itemsFor(body)
  {
    assert (bodies + [body])[..|bodies|] == bodies;
  }

  /**
   * When the store reports one item per action, the acknowledged total of a
   * run of batches is the number of documents in them.
   */
  lemma {:induction false} AcknowledgedCountsDocuments<D>(itemsFor: seq<Entry<D>> -> nat, index: string, batches: seq<seq<D>>)
    requires forall body :: itemsFor(body) == |body| / 2
    ensures Acknowledged(itemsFor, Bodies(index, batches)) == |Concat(batches)|
  {
    if batches != [] {
      var init, last := batches[..|batches| - 1], batches[|batches| - 1];
      assert batches == init + [last];
      AcknowledgedCountsDocuments(itemsFor, index, init);
      BodiesSnoc(index, init, last);
      var body := BulkBody(index, last);
      AcknowledgedSnoc(itemsFor, Bodies(index, init), body);
      assert itemsFor(body) == |last|;
      ConcatAppend(init, [last]);
      assert Concat([last]) == last + Concat([]);
    }
  }

  /** The documents a run of bodies carries, in order. */
  function Delivered<D>(bodies: seq<seq<Entry<D>>>): (documents: seq<D>) {
    if bodies == [] then [] else SourcesOf(bodies[0]) + Delivered(bodies[1..])
  }

  /** The bodies of a run of batches carry exactly the batches' documents, in order. */
  lemma {:induction false} DeliveredBodies<D>(index: string, batches: seq<seq<D>>)
    ensures Delivered(Bodies(index, batches)) == Concat(batches)
  {
    if batches != [] {
      DeliveredBodies(index, batches[1..]);
      SourcesOfBulkBody(index, batches[0]);
      assert Bodies(index, batches)[1..] == Bodies(index, batches[1..]);
    }
  }

  lemma {:induction false} DeliveredAppend<D>(a: seq<seq<Entry<D>>>, b: seq<seq<Entry<D>>>)
    ensures Delivered(a + b) == Delivered(a) + Delivered(b)
  {
    if a == [] {
      assert a + b == b;
    } else {
      assert (a + b)[1..] == a[1..] + b;
      DeliveredAppend(a[1..], b);
    }
  }

  /**
   * The search-index client as the scripts use it: every bulk request it
   * receives, in order, and the progress counter `totalNumberOfDocuments`,
   * which grows by the `items.length` of each bulk response. The store's
   * answer is a parameter: `itemsFor(body)` is the number of items it
   * reports for `body`.
   */
  class Sink<D> {
    const index: string
    const itemsFor: seq<Entry<D>> -> nat
    var bodies: seq<seq<Entry<D>>>
    var total: nat

    constructor (index: string, itemsFor: seq<Entry<D>> -> nat)
      ensures this.index == index && this.itemsFor == itemsFor
      ensures bodies == [] && total == 0
    {
      this.index := index;
      this.itemsFor := itemsFor;
      bodies := [];
      total := 0;
    }

    /** insertToElastic: send the bulk body of `documents`, then add the acknowledged item count. */
    method InsertToElastic(documents: seq<D>)
      modifies this
      ensures bodies == old(bodies) + [BulkBody(index, documents)]
      ensures total == old(total) + itemsFor(BulkBody(index, documents))
    {
      var body := BulkBody(index, documents);
      bodies := bodies + [body];
      total := total + itemsFor(body);
    }
  }

  /**
   * The `documents` buffer of one file, with the history a proof needs:
   * `accepted` is every document pushed so far, `sent` every batch handed
   * to the sink, and `bodiesBefore` and `totalBefore` what the sink had
   * received and counted before this file.
   */
  class Batcher<D> {
    const sink: Sink<D>
    var documents: seq<D>
    ghost var accepted: seq<D>
    ghost var sent: seq<seq<D>>
    ghost const bodiesBefore: seq<seq<Entry<D>>>
    ghost const totalBefore: nat

    /**
     * What the sink received from this file is exactly the bodies of the
     * batches sent, and the counter grew by what the store acknowledged for them.
     */
    ghost predicate Recorded()
      reads this, sink
    {
      sink.bodies == bodiesBefore + Bodies(sink.index, sent) &&
      sink.total == totalBefore + Acknowledged(sink.itemsFor, Bodies(sink.index, sent))
    }

    /**
     * While reading: the buffer holds at most BULK_SIZE documents, every batch
     * sent so far was full, and the sent batches followed by the buffer are
     * the accepted documents in row order.
     */
    ghost predicate Valid()
      reads this, sink
    {
      Recorded() &&
      |documents| <= BULK_SIZE &&
      AllFull(sent, BULK_SIZE) &&
      Concat(sent) + documents == accepted
    }

    /** `let documents = []` at the start of a file. */
    constructor (sink: Sink<D>)
      ensures this.sink == sink && bodiesBefore == sink.bodies && totalBefore == sink.total
      ensures documents == [] && accepted == [] && sent == []
      ensures Valid()
    {
      this.sink := sink;
      documents := [];
      accepted := [];
      sent := [];
      bodiesBefore := sink.bodies;
      totalBefore := sink.total;
    }

    /** documents.push(document). */
    method Push(document: D)
      requires Valid() && |documents| < BULK_SIZE
      modifies this
      ensures Valid()
      ensures documents == old(documents) + [document]
      ensures accepted == old(accepted) + [document]
      ensures sent == old(sent)
    {
      documents := documents + [document];
      accepted := accepted + [document];
    }

    /** `if (documents.length >= BULK_SIZE) { insertToElastic(documents); documents = []; }` */
    method SubmitIfFull()
      requires Valid()
      modifies this, sink
      ensures Valid() && |documents| < BULK_SIZE
      ensures accepted == old(accepted)
      ensures |old(documents)| < BULK_SIZE ==>
                documents == old(documents) && sent == old(sent) &&
                sink.bodies == old(sink.bodies) && sink.total == old(sink.total)
      ensures |old(documents)| >= BULK_SIZE ==>
                documents == [] && sent == old(sent) + [old(documents)]
    {
      if |documents| >= BULK_SIZE {
        sink.InsertToElastic(documents);
        ConcatAppend(sent, [documents]);
        assert Concat([documents]) == documents + Concat([]);
        BodiesSnoc(sink.index, sent, documents);
        AppendAssoc(bodiesBefore, Bodies(sink.index, sent), [BulkBody(sink.index, documents)]);
        AcknowledgedSnoc(sink.itemsFor, Bodies(sink.index, sent), BulkBody(sink.index, documents));
        sent := sent + [documents];
        documents := [];
      }
    }

    /**
     * The 'end' handler: `if (documents.length > 0) insertToElastic(documents)`.
     * Afterwards the batches sent for this file are the chunks of its
     * accepted documents: all full but the last, none empty, in row order.
     */
    method Flush()
      requires Valid()
      modifies this, sink
      ensures Recorded()
      ensures documents == [] && accepted == old(accepted)
      ensures sent == Chunks(accepted, BULK_SIZE)
      ensures old(documents) == [] ==>
                sent == old(sent) && sink.bodies == old(sink.bodies) && sink.total == old(sink.total)
      ensures old(documents) != [] ==> sent == old(sent) + [old(documents)]
    {
      ChunksAfterFull(sent, documents, BULK_SIZE);
      if |documents| > 0 {
        sink.InsertToElastic(documents);
        BodiesSnoc(sink.index, sent, documents);
        AppendAssoc(bodiesBefore, Bodies(sink.index, sent), [BulkBody(sink.index, documents)]);
        AcknowledgedSnoc(sink.itemsFor, Bodies(sink.index, sent), BulkBody(sink.index, documents));
        sent := sent + [documents];
        documents := [];
      }
    }
  }
}
