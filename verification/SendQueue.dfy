// The queue of buffers waiting to be written, with a partial write of the first one.
module SendQueue {
  import opened Frames
  import opened Sequences

  datatype Queue = Queue(buffers: seq<seq<byte>>, offset: nat) {

    /** The first buffer is never completely written, unless it is empty. */
    ghost predicate Valid() {
      if buffers == [] then offset == 0 else offset < |buffers[0]| || (offset == 0 && buffers[0] == [])
    }

    predicate Empty() {
      buffers == []
    }

    /** The slice that the next write is given. */
    function Front(): seq<byte> {
      if Empty() || offset > |buffers[0]| then [] else buffers[0][offset..]
    }

    /** All bytes still to be written, in order. */
    function Pending(): seq<byte>
    {
      if Empty() then [] else Front() + Flatten(buffers[1..])
    }

    function Emplace(data: seq<byte>): Queue {
      Queue(buffers + [data], offset)
    }

    function Consume(n: nat): Queue
      requires !Empty()
    {
      if |buffers[0]| == offset + n then Queue(buffers[1..], 0) else Queue(buffers, offset + n)
    }

    /** Bounds the number of successful writes until the queue is empty. */
    function Measure(): nat
    {
      |Pending()| + EmptyBuffers(buffers)
    }
  }

  function EmptyBuffers(buffers: seq<seq<byte>>): nat {
    if buffers == [] then 0 else (if buffers[0] == [] then 1 else 0) + EmptyBuffers(buffers[1..])
  }

  /** Emplacing appends, and never moves the slice of a pending write. */
  lemma EmplaceAppends(q: Queue, data: seq<byte>)
    requires q.Valid()
    ensures q.Emplace(data).Valid() && q.Emplace(data).Pending() == q.Pending() + data
    ensures !q.Empty() ==> q.Emplace(data).Front() == q.Front()
  {
    FlattenOne(data);
    if !q.Empty() {
      assert (q.buffers + [data])[1..] == q.buffers[1..] + [data];
      FlattenConcat(q.buffers[1..], [data]);
      Associative(q.Front(), Flatten(q.buffers[1..]), data);
    } else {
      assert ([] + [data])[1..] == [];
    }
  }

  lemma PendingIsFlat(buffers: seq<seq<byte>>)
    ensures Queue(buffers, 0).Pending() == Flatten(buffers)
  {
    if buffers != [] {
      assert buffers[0][0..] == buffers[0];
    }
  }

  lemma ConsumeWhole(q: Queue, n: nat)
    requires q.Valid() && !q.Empty() && n == |q.Front()|
    ensures q.Consume(n).Valid() && q.Front()[..n] + q.Consume(n).Pending() == q.Pending()
  {
    assert |q.buffers[0]| == q.offset + n;
    PendingIsFlat(q.buffers[1..]);
    assert q.Front()[..n] == q.Front();
  }

  lemma ConsumePart(q: Queue, n: nat)
    requires q.Valid() && !q.Empty() && n < |q.Front()|
    ensures q.Consume(n).Valid() && q.Front()[..n] + q.Consume(n).Pending() == q.Pending()
  {
    var front, rest := q.Front(), Flatten(q.buffers[1..]);
    assert q.Consume(n).Front() == front[n..];
    SplitAt(front, n);
    Associative(front[..n], front[n..], rest);
  }

  /** Consuming removes exactly the bytes reported, from the front. */
  lemma ConsumeTakes(q: Queue, n: nat)
    requires q.Valid() && !q.Empty() && n <= |q.Front()|
    ensures q.Consume(n).Valid() && q.Front()[..n] + q.Consume(n).Pending() == q.Pending()
  {
    if n == |q.Front()| {
      ConsumeWhole(q, n);
    } else {
      ConsumePart(q, n);
    }
  }

  /** A completion that reports progress strictly decreases the measure: at least one byte, or
      the end of an empty buffer. */
  lemma ConsumeDecreases(q: Queue, n: nat)
    requires q.Valid() && !q.Empty() && n <= |q.Front()| && (n >= 1 || q.Front() == [])
    ensures q.Consume(n).Valid() && q.Consume(n).Measure() < q.Measure()
  {
    ConsumeTakes(q, n);
    assert |q.Front()[..n] + q.Consume(n).Pending()| == n + |q.Consume(n).Pending()|;
  }

  class QueuedBuffer {
    var buffers: seq<seq<byte>>
    var offset: nat

    function State(): Queue
      reads this
    {
      Queue(buffers, offset)
    }

    constructor ()
      ensures State() == Queue([], 0)
    {
      buffers, offset := [], 0;
    }

    method Emplace(data: seq<byte>)
      modifies this
      ensures State() == old(State()).Emplace(data)
    {
      buffers := buffers + [data];
    }

    method Consume(n: nat)
      requires !State().Empty()
      modifies this
      ensures State() == old(State()).Consume(n)
    {
      if |buffers[0]| == offset + n {
        offset := 0;
        buffers := buffers[1..];
      } else {
        offset := offset + n;
      }
    }
  }
}
