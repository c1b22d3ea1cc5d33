/** Click ingestion: a bounded queue, N workers with a local batch each, flushes on size, tick and
    quit, and shutdown. */
module Pipeline {
  import opened Domain

  // A RecordBatch call and whether it wrote.
  datatype Call = Call(batch: seq<Click>, ok: bool)

  // --- one worker: a reused buffer, drained into fresh slices ---

  // What a worker makes of one more click: its batch afterwards and the flush it caused, if any.
  function Absorbed(batch: seq<Click>, c: Click, size: nat): (seq<Click>, Option<seq<Click>>) {
    if |batch| + 1 >= size then ([], Some(batch + [c])) else (batch + [c], None)
  }

  // What one turn of the worker's select can see.
  datatype Signal = Received(c: Click) | Ticked

  function Stream(signals: seq<Signal>): seq<Click> {
    if signals == [] then []
    else Stream(signals[..|signals| - 1]) +
         match signals[|signals| - 1] case Received(c) => [c] case Ticked => []
  }

  function Flatten(batches: seq<seq<Click>>): seq<Click> {
    if batches == [] then [] else Flatten(batches[..|batches| - 1]) + batches[|batches| - 1]
  }

  lemma FlattenAppend(batches: seq<seq<Click>>, b: seq<Click>)
    ensures Flatten(batches + [b]) == Flatten(batches) + b
  {
    assert (batches + [b])[..|batches|] == batches;
  }

  lemma StreamAppend(signals: seq<Signal>, i: nat)
    requires i < |signals|
    ensures Stream(signals[..i + 1]) ==
            Stream(signals[..i]) + match signals[i] case Received(c) => [c] case Ticked => []
  {
    assert signals[..i + 1][..i] == signals[..i];
  }

  /** The worker's memory. `handed` lists the slices already given to the writer and the hook,
      `calls` what each of them held when it was handed over. */
  class Worker {
    const buffer: array<Click>
    var len: nat
    ghost var handed: seq<array<Click>>
    ghost var calls: seq<seq<Click>>

    // Every slice handed over still holds what it held then, whatever the buffer is reused for.
    ghost predicate Valid()
      reads this, handed
    {
      && len < buffer.Length
      && |calls| == |handed|
      && (forall i :: 0 <= i < |handed| ==> handed[i] != buffer && handed[i][..] == calls[i])
      && (forall i :: 0 <= i < |calls| ==> 1 <= |calls[i]| <= buffer.Length)
    }

    function Batch(): seq<Click>
      requires len <= buffer.Length
      reads this, buffer
    {
      buffer[..len]
    }

    // Everything received so far: what was handed over, then what is still buffered.
    ghost function Delivered(): seq<Click>
      requires len <= buffer.Length
      reads this, buffer
    {
      Flatten(calls) + Batch()
    }

    constructor (batchSize: nat, blank: Click)
      requires batchSize >= 1
      ensures Valid() && Batch() == [] && calls == [] && buffer.Length == batchSize && fresh(buffer)
    {
      buffer := new Click[batchSize](_ => blank);
      len, handed, calls := 0, [], [];
    }

    // batch = append(batch, c), then flush at batchSize.
    method Append(c: Click)
      requires Valid()
      modifies this, buffer
      ensures Valid() && old(handed) <= handed
      ensures Batch() == Absorbed(old(Batch()), c, buffer.Length).0
      ensures calls == old(calls) + match Absorbed(old(Batch()), c, buffer.Length).1
                                    case None => []
                                    case Some(b) => [b]
      ensures Delivered() == old(Delivered()) + [c]
    {
      buffer[len] := c;
      len := len + 1;
      assert buffer[..len] == old(Batch()) + [c];
      assert Delivered() == old(Delivered()) + [c];
      if len >= buffer.Length {
        Flush();
      }
    }

    // toWrite is a copy: the buffer goes back to empty and is written again later.
    method Flush()
      requires len <= buffer.Length && |calls| == |handed| && buffer.Length >= 1
      requires forall i :: 0 <= i < |handed| ==> handed[i] != buffer && handed[i][..] == calls[i]
      requires forall i :: 0 <= i < |calls| ==> 1 <= |calls[i]| <= buffer.Length
      modifies this
      ensures Valid() && Batch() == [] && old(handed) <= handed
      ensures calls == old(calls) + if old(Batch()) == [] then [] else [old(Batch())]
      ensures Delivered() == old(Delivered())
    {
      if len > 0 {
        FlattenAppend(calls, buffer[..len]);
        var toWrite := new Click[len](i requires 0 <= i < len <= buffer.Length reads this, buffer => buffer[i]);
        assert toWrite[..] == buffer[..len];
        handed, calls := handed + [toWrite], calls + [buffer[..len]];
        len := 0;
      }
    }

    /** The worker's whole life: select turns until quit, then what the drain still finds in the
        queue, then a last flush. Its RecordBatch calls, joined, are the clicks it received, in
        order, none lost, none twice; each call carries 1 to batchSize of them. */
    method Work(signals: seq<Signal>, drained: seq<Click>)
      requires Valid() && Batch() == [] && calls == []
      modifies this, buffer
      ensures Valid() && Batch() == []
      ensures Flatten(calls) == Stream(signals) + drained
      ensures forall i :: 0 <= i < |calls| ==> 1 <= |calls[i]| <= buffer.Length
    {
      assert Delivered() == [];
      Serve(signals);
      Drain(drained);
      Flush();
      assert Flatten(calls) + [] == Flatten(calls);
    }

    method Serve(signals: seq<Signal>)
      requires Valid()
      modifies this, buffer
      ensures Valid() && Delivered() == old(Delivered()) + Stream(signals)
      ensures signals != [] && signals[|signals| - 1].Ticked? ==> Batch() == []
    {
      for i := 0 to |signals|
        invariant Valid() && Delivered() == old(Delivered()) + Stream(signals[..i])
        invariant i > 0 && signals[i - 1].Ticked? ==> Batch() == []
      {
        StreamAppend(signals, i);
        match signals[i]
        case Received(c) => Append(c);
        case Ticked => Flush();
      }
      assert signals[..|signals|] == signals;
    }

    method Drain(drained: seq<Click>)
      requires Valid()
      modifies this, buffer
      ensures Valid() && Delivered() == old(Delivered()) + drained
    {
      for i := 0 to |drained|
        invariant Valid() && Delivered() == old(Delivered()) + drained[..i]
      {
        Append(drained[i]);
      }
    }
  }
}
