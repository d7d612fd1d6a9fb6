/**
 The circular buffer that user space and kernel share: a power of two of slots, each a power of two
 of bytes, a producer index and a consumer index.  It is empty when the indices match, so it holds
 one element less than it has slots.

 The specification is a bounded first-in first-out sequence of elements.
 */
module RingQueue {
  import opened Prelude

  // ---------------------------------------------------------------- powers of two and masks

  /** order_base_2(): the least `k` with 2^k >= n. */
  function OrderBase2(n: nat): (k: nat)
    requires n >= 1
    ensures Pow2(k) >= n
    ensures k > 0 ==> Pow2(k - 1) < n
    decreases n
  {
    if n == 1 then 0
    else
      var k := OrderBase2((n + 1) / 2);
      assert k > 0 ==> 2 * Pow2(k - 1) == Pow2(k);
      k + 1
  }

  /** roundup_pow_of_two() */
  function RoundUpPow2(n: nat): (r: nat)
    requires n >= 1
    ensures n <= r < 2 * n && exists k :: r == Pow2(k)
  {
    Pow2(OrderBase2(n))
  }

  /** The bitwise and of two numbers. */
  function BitAnd(a: nat, b: nat): nat {
    if a == 0 || b == 0 then 0
    else (if a % 2 == 1 && b % 2 == 1 then 1 else 0) + 2 * BitAnd(a / 2, b / 2)
  }

  /** Masking with 2^k - 1 is the remainder modulo 2^k. */
  lemma {:induction false} MaskIsRemainder(a: nat, k: nat)
    ensures BitAnd(a, Pow2(k) - 1) == a % Pow2(k)
  {
    var p := Pow2(k);
    if k == 0 {
      RemainderUnique(a, 1, a, 0);
    } else if a == 0 {
      RemainderUnique(0, p, 0, 0);
    } else {
      var h := Pow2(k - 1);
      MaskIsRemainder(a / 2, k - 1);
      assert (p - 1) % 2 == 1 && (p - 1) / 2 == h - 1;
      HalvedRemainder(a, h);
    }
  }

  lemma HalvedRemainder(a: nat, p: nat)
    requires p >= 1
    ensures a % (2 * p) == a % 2 + 2 * ((a / 2) % p)
  {
    var h, b := a / 2, a % 2;
    var q, r := h / p, h % p;
    assert h == p * q + r;
    assert (2 * p) * q == 2 * (p * q);
    RemainderUnique(a, 2 * p, q, 2 * r + b);
  }

  lemma WrapIsRemainder(i: nat, slots: nat)
    requires slots >= 1 && i < 2 * slots
    ensures i % slots == Wrap(i, slots)
  {
    if i < slots {
      RemainderUnique(i, slots, 0, i);
    } else {
      RemainderUnique(i, slots, 1, i - slots);
    }
  }

  // ---------------------------------------------------------------- slots

  /** Slot number `i`, where `i` has passed the last slot at most once. */
  function Wrap(i: nat, slots: nat): nat {
    if i < slots then i else i - slots
  }

  /** The offset of a slot in the data area. */
  function Offset(slot: nat, stride: nat): nat {
    slot * stride
  }

  lemma OffsetNext(i: nat, j: nat, stride: nat)
    requires i < j
    ensures Offset(i, stride) + stride <= Offset(j, stride)
  {
    MulGrows(stride, j - i);
    MulMinus(stride, j, i);
  }

  /** A slot lies inside the data area, and slots do not overlap. */
  lemma SlotsApart(i: nat, j: nat, slots: nat, stride: nat)
    requires i < slots
    ensures Offset(i, stride) + stride <= Offset(slots, stride)
    ensures i < j ==> Offset(i, stride) + stride <= Offset(j, stride)
  {
    OffsetNext(i, slots, stride);
    if i < j {
      OffsetNext(i, j, stride);
    }
  }

  /** Whatever an index holds, the masked address is that of a slot inside the data area. */
  lemma MaskedAddressInside(index: nat, k: nat, stride: nat)
    ensures BitAnd(index, Pow2(k) - 1) < Pow2(k)
    ensures Offset(BitAnd(index, Pow2(k) - 1), stride) + stride <= Offset(Pow2(k), stride)
  {
    MaskIsRemainder(index, k);
    SlotsApart(BitAnd(index, Pow2(k) - 1), 0, Pow2(k), stride);
  }

  /** The bytes of element `k` from the consumer on. */
  function Element(data: seq<byte>, cons: nat, k: nat, slots: nat, stride: nat, size: nat): (e: seq<byte>)
    requires cons < slots && k < slots && size <= stride && |data| == Offset(slots, stride)
    ensures |e| == size
  {
    var slot := Wrap(cons + k, slots);
    SlotsApart(slot, 0, slots, stride);
    data[Offset(slot, stride)..Offset(slot, stride) + size]
  }

  function Elements(data: seq<byte>, cons: nat, len: nat, slots: nat, stride: nat, size: nat): (r: seq<seq<byte>>)
    requires cons < slots && len < slots && size <= stride && |data| == Offset(slots, stride)
    ensures |r| == len
  {
    seq(len, k requires 0 <= k < len => Element(data, cons, k, slots, stride, size))
  }

  /** Writing the slot behind the last element appends an element and touches no other. */
  lemma WriteAppends(data: seq<byte>, data': seq<byte>, cons: nat, len: nat,
                     slots: nat, stride: nat, e: seq<byte>)
    requires cons < slots && len + 1 < slots && |e| <= stride
    requires |data| == |data'| == Offset(slots, stride)
    requires var at := Offset(Wrap(cons + len, slots), stride);
             at + |e| <= |data| && data' == data[..at] + e + data[at + |e|..]
    ensures Elements(data', cons, len + 1, slots, stride, |e|) == Elements(data, cons, len, slots, stride, |e|) + [e]
  {
    var slot := Wrap(cons + len, slots);
    forall k: nat | k < len
      ensures Element(data', cons, k, slots, stride, |e|) == Element(data, cons, k, slots, stride, |e|)
    {
      var other := Wrap(cons + k, slots);
      SlotsApart(slot, other, slots, stride);
      SlotsApart(other, slot, slots, stride);
      OtherSlotKept(data, data', Offset(slot, stride), Offset(other, stride), e);
    }
    assert Element(data', cons, len, slots, stride, |e|) == e;
  }

  lemma OtherSlotKept(data: seq<byte>, data': seq<byte>, at: nat, other: nat, e: seq<byte>)
    requires at + |e| <= |data| == |data'| && other + |e| <= |data|
    requires data' == data[..at] + e + data[at + |e|..]
    requires other + |e| <= at || at + |e| <= other
    ensures data'[other..other + |e|] == data[other..other + |e|]
  {}

  lemma WrapNext(cons: nat, k: nat, slots: nat)
    requires cons < slots && k + 1 < slots
    ensures Wrap(cons + 1, slots) < slots
    ensures Wrap(Wrap(cons + 1, slots) + k, slots) == Wrap(cons + (k + 1), slots)
  {}

  /** The consumer's slot holds the first element. */
  lemma SlotHoldsFirst(data: seq<byte>, cons: nat, len: nat, slots: nat, stride: nat, size: nat)
    requires cons < slots && 0 < len < slots && size <= stride && |data| == Offset(slots, stride)
    ensures Offset(cons, stride) + size <= |data|
    ensures Elements(data, cons, len, slots, stride, size)[0]
         == data[Offset(cons, stride)..Offset(cons, stride) + size]
  {
    SlotsApart(cons, 0, slots, stride);
    assert Elements(data, cons, len, slots, stride, size)[0] == Element(data, cons, 0, slots, stride, size);
  }

  /** Advancing the consumer drops the first element and keeps the others. */
  lemma AdvanceDrops(data: seq<byte>, cons: nat, next: nat, len: nat, slots: nat, stride: nat, size: nat)
    requires cons < slots && 0 < len < slots && size <= stride && |data| == Offset(slots, stride)
    requires next == Wrap(cons + 1, slots)
    ensures next < slots
    ensures Elements(data, next, len - 1, slots, stride, size) == Elements(data, cons, len, slots, stride, size)[1..]
  {
    WrapNext(cons, 0, slots);
    var all, rest := Elements(data, cons, len, slots, stride, size),
                     Elements(data, next, len - 1, slots, stride, size);
    forall k: nat | k < len - 1
      ensures rest[k] == all[k + 1]
    {
      WrapNext(cons, k, slots);
      SameSlot(data, cons, next, k, slots, stride, size);
    }
  }

  lemma SameSlot(data: seq<byte>, cons: nat, next: nat, k: nat, slots: nat, stride: nat, size: nat)
    requires cons < slots && next < slots && k + 1 < slots && size <= stride && |data| == Offset(slots, stride)
    requires Wrap(next + k, slots) == Wrap(cons + (k + 1), slots)
    ensures Element(data, next, k, slots, stride, size) == Element(data, cons, k + 1, slots, stride, size)
  {}

  /** Moving the first of what is left over to what is done. */
  lemma Shift(done: seq<seq<byte>>, rest: seq<seq<byte>>, all: seq<seq<byte>>)
    requires rest != [] && done + rest == all
    ensures (done + [rest[0]]) + rest[1..] == all
  {}

  lemma Assoc(a: seq<seq<byte>>, b: seq<seq<byte>>, c: seq<seq<byte>>)
    ensures (a + b) + c == a + (b + c)
  {}

  /** The number of slots from the consumer on to the producer. */
  function Distance(prod: nat, cons: nat, slots: nat): nat
    requires cons < slots
  {
    if cons <= prod then prod - cons else prod + slots - cons
  }

  // ---------------------------------------------------------------- the queue

  class Queue {
    const elemSize: nat
    const log2ElemSize: nat
    const indexMask: nat
    const data: array<byte>
    var producerIndex: nat
    var consumerIndex: nat
    /** Everything posted and everything polled so far. */
    ghost var posted: seq<seq<byte>>
    ghost var polled: seq<seq<byte>>

    ghost const order: nat

    function Slots(): nat {
      indexMask + 1
    }

    function Stride(): nat {
      Pow2(log2ElemSize)
    }

    function Len(): nat
      requires consumerIndex < Slots()
      reads this
    {
      Distance(producerIndex, consumerIndex, Slots())
    }

    /** The data area has a power of two of slots, each as wide as the stride. */
    ghost predicate Built() {
      Slots() == Pow2(order) && elemSize <= Stride() && data.Length == Offset(Slots(), Stride())
    }

    ghost predicate Shaped()
      reads this
    {
      && Built()
      && producerIndex < Slots() && consumerIndex < Slots() && Len() < Slots()
    }

    /** The elements in the queue, oldest first. */
    ghost function Contents(): seq<seq<byte>>
      requires Shaped()
      reads this, data
    {
      Elements(data[..], consumerIndex, Len(), Slots(), Stride(), elemSize)
    }

    /** Conservation: what was posted is what was polled, followed by what is still in the queue. */
    ghost predicate Valid()
      reads this, data
    {
      Shaped() && posted == polled + Contents()
    }

    /** The most elements the queue can hold. */
    function Capacity(): nat {
      Slots() - 1
    }

    /** rpci_ep_queue_init() for at least `numElem` elements of `elemSize` bytes. */
    constructor (numElem: nat, elemSize: nat)
      requires elemSize >= 1
      ensures Valid() && fresh(data) && Contents() == [] && posted == [] && polled == []
      ensures this.elemSize == elemSize
      ensures numElem <= Capacity() <= 2 * numElem
      ensures elemSize <= Stride() < 2 * elemSize
      ensures exists k :: Slots() == Pow2(k)
    {
      this.elemSize := elemSize;
      var stride := RoundUpPow2(elemSize);
      this.log2ElemSize := OrderBase2(elemSize);
      var numSlots := RoundUpPow2(numElem + 1);
      this.indexMask := numSlots - 1;
      this.order := OrderBase2(numElem + 1);
      this.data := new byte[numSlots * stride](i => 0);
      producerIndex, consumerIndex := 0, 0;
      posted, polled := [], [];
    }

    /** The next value of an index, masked as every use of an index is. */
    method Next(index: nat) returns (r: nat)
      requires Shaped() && index < Slots()
      ensures r == Wrap(index + 1, Slots())
    {
      MaskIsRemainder(index + 1, order);
      WrapIsRemainder(index + 1, Slots());
      r := BitAnd(index + 1, indexMask);
    }

    /** producer_addr() and consumer_addr(): the masked index, shifted by the element size. */
    method Address(index: nat) returns (at: nat)
      requires Shaped() && index < Slots()
      ensures at == Offset(index, Stride()) && at + Stride() <= data.Length
    {
      MaskIsRemainder(index, order);
      WrapIsRemainder(index, Slots());
      SlotsApart(index, 0, Slots(), Stride());
      at := BitAnd(index, indexMask) * Pow2(log2ElemSize);
    }

    /** queue_empty() */
    method Empty() returns (r: bool)
      requires Valid()
      ensures r <==> Contents() == []
    {
      r := producerIndex == consumerIndex;
    }

    /** memcpy() of an element to its slot. */
    method Store(at: nat, e: seq<byte>)
      requires at + |e| <= data.Length
      modifies data
      ensures data[..] == old(data[..])[..at] + e + old(data[..])[at + |e|..]
    {
      forall i | 0 <= i < |e| {
        data[at + i] := e[i];
      }
    }

    /** Writes an element at producer_addr() and advances the producer. */
    method Post(e: seq<byte>)
      requires Valid() && |e| == elemSize && |Contents()| < Capacity()
      modifies this`producerIndex, this`posted, data
      ensures Valid()
      ensures Contents() == old(Contents()) + [e]
      ensures posted == old(posted) + [e]
    {
      ghost var before, len := data[..], Len();
      var at := Address(producerIndex);
      assert producerIndex == Wrap(consumerIndex + len, Slots());
      Assoc(polled, Contents(), [e]);
      Store(at, e);
      WriteAppends(before, data[..], consumerIndex, len, Slots(), Stride(), e);
      var next := Next(producerIndex);
      producerIndex := next;
      posted := posted + [e];
      assert Len() == len + 1;
    }

    /** memcpy() of the element in a slot. */
    method Load(at: nat) returns (e: seq<byte>)
      requires at + elemSize <= data.Length
      ensures e == data[..][at..at + elemSize]
    {
      e := data[at..at + elemSize];
    }

    /** advance_consumer(): the element in the consumer's slot leaves the queue. */
    method AdvanceConsumer()
      requires Valid() && Contents() != []
      modifies this`consumerIndex, this`polled
      ensures Valid()
      ensures Contents() == old(Contents())[1..]
      ensures polled == old(polled) + [old(Contents())[0]]
    {
      ghost var len, all := Len(), Contents();
      Shift(polled, all, posted);
      var next := Next(consumerIndex);
      AdvanceDrops(data[..], consumerIndex, next, len, Slots(), Stride(), elemSize);
      consumerIndex, polled := next, polled + [all[0]];
      assert Len() == len - 1;
    }

    /** Copies the element at consumer_addr() and advances the consumer. */
    method Poll() returns (e: seq<byte>)
      requires Valid() && Contents() != []
      modifies this`consumerIndex, this`polled
      ensures Valid()
      ensures [e] + Contents() == old(Contents())
      ensures polled == old(polled) + [e]
    {
      SlotHoldsFirst(data[..], consumerIndex, Len(), Slots(), Stride(), elemSize);
      var at := Address(consumerIndex);
      e := Load(at);
      AdvanceConsumer();
    }

    /** rxe_poll_cq(): up to `ne` elements, fewer only when the queue runs empty. */
    method PollUpTo(ne: nat) returns (es: seq<seq<byte>>)
      requires Valid()
      modifies this`consumerIndex, this`polled
      ensures Valid()
      ensures es + Contents() == old(Contents())
      ensures |es| == if ne <= |old(Contents())| then ne else |old(Contents())|
      ensures polled == old(polled) + es
    {
      es := [];
      while |es| < ne
        invariant Valid() && |es| <= ne
        invariant es + Contents() == old(Contents())
        invariant polled == old(polled) + es
      {
        var empty := Empty();
        if empty {
          break;
        }
        var e := Poll();
        Assoc(es, [e], Contents());
        es := es + [e];
      }
    }

    /** rxe_post_send() and rxe_post_recv(): one element for each request of the list. */
    method PostAll(es: seq<seq<byte>>)
      requires Valid() && |Contents()| + |es| <= Capacity()
      requires forall e <- es :: |e| == elemSize
      modifies this`producerIndex, this`posted, data
      ensures Valid()
      ensures Contents() == old(Contents()) + es
      ensures posted == old(posted) + es
    {
      ghost var left, posts := Contents() + es, posted + es;
      ghost var rest := es;
      var i := 0;
      while i < |es|
        invariant 0 <= i <= |es| && rest == es[i..] && Valid()
        invariant Contents() + rest == left && posted + rest == posts
      {
        Shift(Contents(), rest, left);
        Shift(posted, rest, posts);
        Post(es[i]);
        rest := rest[1..];
        i := i + 1;
      }
    }
  }

  // ---------------------------------------------------------------- interleavings

  datatype Op = PostOp(e: seq<byte>) | PollOp(ne: nat)

  /** What was accepted, what came out, and what is left. */
  datatype Outcome = Outcome(accepted: seq<seq<byte>>, polled: seq<seq<byte>>, left: seq<seq<byte>>)

  /** The bounded FIFO: a post is accepted when there is room, a poll takes what there is. */
  function Fifo(left: seq<seq<byte>>, capacity: nat, op: Op): Outcome {
    match op
    case PostOp(e) =>
      if |left| < capacity then Outcome([e], [], left + [e]) else Outcome([], [], left)
    case PollOp(ne) =>
      var k := if ne <= |left| then ne else |left|;
      Outcome([], left[..k], left[k..])
  }

  function FifoRun(left: seq<seq<byte>>, capacity: nat, ops: seq<Op>): Outcome
    decreases ops
  {
    if ops == [] then Outcome([], [], left)
    else
      var s := Fifo(left, capacity, ops[0]);
      var r := FifoRun(s.left, capacity, ops[1..]);
      Outcome(s.accepted + r.accepted, s.polled + r.polled, r.left)
  }

  /** First in, first out: nothing is lost, invented or reordered over any run. */
  lemma {:induction false} FifoConserves(left: seq<seq<byte>>, capacity: nat, ops: seq<Op>)
    ensures var r := FifoRun(left, capacity, ops); left + r.accepted == r.polled + r.left
    decreases ops
  {
    if ops != [] {
      var s := Fifo(left, capacity, ops[0]);
      var r := FifoRun(s.left, capacity, ops[1..]);
      FifoConserves(s.left, capacity, ops[1..]);
      assert left + s.accepted == s.polled + s.left;
      calc {
        left + (s.accepted + r.accepted);
        { Assoc(left, s.accepted, r.accepted); }
        (s.polled + s.left) + r.accepted;
        { Assoc(s.polled, s.left, r.accepted); }
        s.polled + (r.polled + r.left);
        { Assoc(s.polled, r.polled, r.left); }
        (s.polled + r.polled) + r.left;
      }
    }
  }

  lemma {:induction false} FifoRunAppend(left: seq<seq<byte>>, capacity: nat, ops: seq<Op>, op: Op)
    ensures var r := FifoRun(left, capacity, ops);
            var s := Fifo(r.left, capacity, op);
            FifoRun(left, capacity, ops + [op]) == Outcome(r.accepted + s.accepted, r.polled + s.polled, s.left)
    decreases ops
  {
    if ops == [] {
      var s := Fifo(left, capacity, op);
      assert [op][1..] == [] && [] + [op] == [op];
      assert s.accepted + [] == s.accepted && s.polled + [] == s.polled;
      assert [] + s.accepted == s.accepted && [] + s.polled == s.polled;
    } else {
      var f := Fifo(left, capacity, ops[0]);
      var r := FifoRun(f.left, capacity, ops[1..]);
      var s := Fifo(r.left, capacity, op);
      assert (ops + [op])[1..] == ops[1..] + [op];
      FifoRunAppend(f.left, capacity, ops[1..], op);
      Assoc(f.accepted, r.accepted, s.accepted);
      Assoc(f.polled, r.polled, s.polled);
    }
  }

  lemma PollTakesNext(accepted: seq<seq<byte>>, polled: seq<seq<byte>>, left: seq<seq<byte>>, k: nat)
    requires accepted == polled + left && k <= |left|
    ensures polled + left[..k] == accepted[..|polled| + k]
  {}

  lemma NothingMore(a: seq<seq<byte>>)
    ensures a + [] == a && [] + a == a
  {}

  /** An operation between two outcomes, told by what was accepted and polled. */
  ghost predicate Counted(before: Outcome, after: Outcome, capacity: nat, op: Op) {
    var taken := |before.polled|;
    && taken <= |before.accepted|
    && match op
       case PostOp(e) =>
         && after.polled == before.polled
         && after.accepted == if |before.accepted| - taken < capacity then before.accepted + [e] else before.accepted
       case PollOp(ne) =>
         && after.accepted == before.accepted
         && after.polled == before.accepted[..if taken + ne <= |before.accepted| then taken + ne else |before.accepted|]
  }

  lemma FifoCounted(before: Outcome, after: Outcome, capacity: nat, op: Op)
    requires before.accepted == before.polled + before.left
    requires var s := Fifo(before.left, capacity, op);
             after == Outcome(before.accepted + s.accepted, before.polled + s.polled, s.left)
    ensures Counted(before, after, capacity, op)
  {
    NothingMore(before.accepted);
    NothingMore(before.polled);
    match op
    case PostOp(e) => {}
    case PollOp(ne) =>
      PollTakesNext(before.accepted, before.polled, before.left, if ne <= |before.left| then ne else |before.left|);
  }

  /**
   What each operation of a run does, told by what was accepted and polled before it: a post is accepted
   exactly if fewer elements are under way than the queue can hold, and then comes last; a poll takes the
   next `ne` elements of all that were accepted, or as many as there are.
   */
  lemma {:induction false} FifoExact(capacity: nat, ops: seq<Op>, op: Op, before: Outcome, after: Outcome)
    requires before == FifoRun([], capacity, ops) && after == FifoRun([], capacity, ops + [op])
    ensures Counted(before, after, capacity, op)
  {
    FifoConserves([], capacity, ops);
    FifoRunAppend([], capacity, ops, op);
    NothingMore(before.accepted);
    FifoCounted(before, after, capacity, op);
  }

  /** One operation on the queue is one operation on the bounded FIFO. */
  method Apply(q: Queue, op: Op) returns (accepted: seq<seq<byte>>, polled: seq<seq<byte>>)
    requires q.Valid() && (op.PostOp? ==> |op.e| == q.elemSize)
    modifies q`producerIndex, q`consumerIndex, q`posted, q`polled, q.data
    ensures q.Valid()
    ensures Outcome(accepted, polled, q.Contents()) == Fifo(old(q.Contents()), q.Capacity(), op)
  {
    accepted, polled := [], [];
    match op
    case PostOp(e) =>
      if q.Len() < q.Capacity() {
        q.Post(e);
        accepted := [e];
      }
    case PollOp(ne) =>
      ghost var before := q.Contents();
      polled := q.PollUpTo(ne);
      assert before[..|polled|] == polled && before[|polled|..] == q.Contents();
  }

  /** The queue refines the bounded FIFO over any interleaving of posts and polls. */
  method Interleave(q: Queue, ops: seq<Op>) returns (accepted: seq<seq<byte>>, polled: seq<seq<byte>>)
    requires q.Valid()
    requires forall op <- ops :: op.PostOp? ==> |op.e| == q.elemSize
    modifies q`producerIndex, q`consumerIndex, q`posted, q`polled, q.data
    ensures q.Valid()
    ensures Outcome(accepted, polled, q.Contents()) == FifoRun(old(q.Contents()), q.Capacity(), ops)
  {
    accepted, polled := [], [];
    ghost var all, todo := FifoRun(q.Contents(), q.Capacity(), ops), ops;
    var i := 0;
    while i < |ops|
      invariant 0 <= i <= |ops| && todo == ops[i..] && q.Valid()
      invariant var r := FifoRun(q.Contents(), q.Capacity(), todo);
                Outcome(accepted + r.accepted, polled + r.polled, r.left) == all
      decreases |ops| - i
    {
      ghost var s := Fifo(q.Contents(), q.Capacity(), ops[i]);
      ghost var r := FifoRun(s.left, q.Capacity(), todo[1..]);
      Assoc(accepted, s.accepted, r.accepted);
      Assoc(polled, s.polled, r.polled);
      var a, p := Apply(q, ops[i]);
      accepted, polled := accepted + a, polled + p;
      todo := todo[1..];
      i := i + 1;
    }
  }

  // ---------------------------------------------------------------- one producer and one consumer, step by step

  /** The measures of a ring. */
  datatype Shape = Shape(slots: nat, stride: nat, size: nat)

  datatype Producer = NotWriting | Writing(e: seq<byte>, done: nat)

  datatype Consumer = NotReading | Reading(got: seq<byte>)

  /** The shared ring, where each side is, and what they have posted and polled. */
  datatype Ring = Ring(
    data: seq<byte>, prod: nat, cons: nat, producer: Producer, consumer: Consumer,
    posted: seq<seq<byte>>, polled: seq<seq<byte>>)

  datatype Action = BeginPost(e: seq<byte>) | WriteByte | AdvanceProd | BeginPoll | ReadByte | AdvanceCons

  function Held(h: Shape, r: Ring): nat
    requires r.cons < h.slots
  {
    Distance(r.prod, r.cons, h.slots)
  }

  ghost predicate InShape(h: Shape, r: Ring) {
    h.size <= h.stride && |r.data| == Offset(h.slots, h.stride) && r.prod < h.slots && r.cons < h.slots
  }

  /** A side acts when it may: the producer posts when the ring is not full, the consumer polls when it is not empty. */
  ghost predicate CanAct(h: Shape, r: Ring, a: Action)
    requires InShape(h, r)
  {
    match a
    case BeginPost(e) => r.producer == NotWriting && |e| == h.size && Held(h, r) + 1 < h.slots
    case WriteByte =>
      r.producer.Writing? && r.producer.done < |r.producer.e|
      && Offset(r.prod, h.stride) + r.producer.done < |r.data|
    case AdvanceProd => r.producer.Writing? && r.producer.done == |r.producer.e|
    case BeginPoll => r.consumer == NotReading && r.prod != r.cons
    case ReadByte =>
      r.consumer.Reading? && |r.consumer.got| < h.size && Offset(r.cons, h.stride) + |r.consumer.got| < |r.data|
    case AdvanceCons => r.consumer.Reading? && |r.consumer.got| == h.size
  }

  /** One byte or one index at a time. */
  ghost function Act(h: Shape, r: Ring, a: Action): Ring
    requires InShape(h, r) && CanAct(h, r, a)
  {
    match a
    case BeginPost(e) => r.(producer := Writing(e, 0))
    case WriteByte =>
      r.(data := r.data[Offset(r.prod, h.stride) + r.producer.done := r.producer.e[r.producer.done]],
         producer := Writing(r.producer.e, r.producer.done + 1))
    case AdvanceProd =>
      r.(prod := Wrap(r.prod + 1, h.slots), producer := NotWriting, posted := r.posted + [r.producer.e])
    case BeginPoll => r.(consumer := Reading([]))
    case ReadByte => r.(consumer := Reading(r.consumer.got + [r.data[Offset(r.cons, h.stride) + |r.consumer.got|]]))
    case AdvanceCons =>
      r.(cons := Wrap(r.cons + 1, h.slots), consumer := NotReading, polled := r.polled + [r.consumer.got])
  }

  /** The element in slot `slot`. */
  function SlotData(h: Shape, data: seq<byte>, slot: nat): seq<byte>
    requires slot < h.slots && h.size <= h.stride && |data| == Offset(h.slots, h.stride)
  {
    Element(data, slot, 0, h.slots, h.stride, h.size)
  }

  ghost function Queued(h: Shape, r: Ring): seq<seq<byte>>
    requires InShape(h, r) && Held(h, r) < h.slots
  {
    Elements(r.data, r.cons, Held(h, r), h.slots, h.stride, h.size)
  }

  /** What the producer has written so far is in its slot, which holds no queued element. */
  ghost predicate ProducerOk(h: Shape, r: Ring)
    requires InShape(h, r)
  {
    r.producer.Writing? ==>
      && Held(h, r) + 1 < h.slots && |r.producer.e| == h.size && r.producer.done <= h.size
      && SlotData(h, r.data, r.prod)[..r.producer.done] == r.producer.e[..r.producer.done]
  }

  /** What the consumer has read so far is the head of the oldest element. */
  ghost predicate ConsumerOk(h: Shape, r: Ring)
    requires InShape(h, r)
  {
    r.consumer.Reading? ==>
      && r.prod != r.cons && |r.consumer.got| <= h.size
      && SlotData(h, r.data, r.cons)[..|r.consumer.got|] == r.consumer.got
  }

  ghost predicate RingOk(h: Shape, r: Ring) {
    && InShape(h, r) && ProducerOk(h, r) && ConsumerOk(h, r)
    && r.posted == r.polled + Queued(h, r)
  }

  /** A byte written into the producer's slot changes no other slot. */
  lemma ByteKeepsSlot(h: Shape, data: seq<byte>, data': seq<byte>, slot: nat, other: nat, i: nat, b: byte)
    requires h.size <= h.stride && |data| == Offset(h.slots, h.stride)
    requires slot < h.slots && other < h.slots && i < h.size
    requires Offset(slot, h.stride) + i < |data| && data' == data[Offset(slot, h.stride) + i := b]
    ensures slot != other ==> SlotData(h, data', other) == SlotData(h, data, other)
    ensures SlotData(h, data', slot) == SlotData(h, data, slot)[i := b]
  {
    SlotsApart(slot, other, h.slots, h.stride);
    SlotsApart(other, slot, h.slots, h.stride);
  }

  lemma ElementIsSlot(h: Shape, data: seq<byte>, cons: nat, k: nat)
    requires cons < h.slots && k < h.slots && h.size <= h.stride && |data| == Offset(h.slots, h.stride)
    ensures Wrap(cons + k, h.slots) < h.slots
    ensures Element(data, cons, k, h.slots, h.stride, h.size) == SlotData(h, data, Wrap(cons + k, h.slots))
  {}

  lemma ByteKeepsQueued(h: Shape, r: Ring, r': Ring)
    requires InShape(h, r) && InShape(h, r') && r'.prod == r.prod && r'.cons == r.cons && Held(h, r) < h.slots
    requires forall slot: nat | slot < h.slots && slot != r.prod ::
               SlotData(h, r'.data, slot) == SlotData(h, r.data, slot)
    ensures Queued(h, r') == Queued(h, r)
  {
    forall k: nat | k < Held(h, r)
      ensures Element(r'.data, r.cons, k, h.slots, h.stride, h.size)
           == Element(r.data, r.cons, k, h.slots, h.stride, h.size)
    {
      ElementIsSlot(h, r.data, r.cons, k);
      ElementIsSlot(h, r'.data, r.cons, k);
    }
  }

  lemma WriteByteKeeps(h: Shape, r: Ring)
    requires RingOk(h, r) && CanAct(h, r, WriteByte)
    ensures RingOk(h, Act(h, r, WriteByte))
  {
    var r', e, i := Act(h, r, WriteByte), r.producer.e, r.producer.done;
    forall slot: nat | slot < h.slots && slot != r.prod
      ensures SlotData(h, r'.data, slot) == SlotData(h, r.data, slot)
    {
      ByteKeepsSlot(h, r.data, r'.data, r.prod, slot, i, e[i]);
    }
    ByteKeepsSlot(h, r.data, r'.data, r.prod, r.prod, i, e[i]);
    assert e[..i + 1] == e[..i] + [e[i]];
    ByteKeepsQueued(h, r, r');
  }

  lemma AdvanceProdKeeps(h: Shape, r: Ring)
    requires RingOk(h, r) && CanAct(h, r, AdvanceProd)
    ensures RingOk(h, Act(h, r, AdvanceProd))
  {
    var r', e, n := Act(h, r, AdvanceProd), r.producer.e, Held(h, r);
    assert Held(h, r') == n + 1 && Wrap(r.cons + n, h.slots) == r.prod;
    assert e[..h.size] == e && SlotData(h, r.data, r.prod)[..h.size] == SlotData(h, r.data, r.prod);
    ElementIsSlot(h, r.data, r.cons, n);
    assert Queued(h, r') == Queued(h, r) + [e];
    Assoc(r.polled, Queued(h, r), [e]);
  }

  lemma ReadByteKeeps(h: Shape, r: Ring)
    requires RingOk(h, r) && CanAct(h, r, ReadByte)
    ensures RingOk(h, Act(h, r, ReadByte))
  {
    var slot, n := SlotData(h, r.data, r.cons), |r.consumer.got|;
    SlotsApart(r.cons, 0, h.slots, h.stride);
    assert slot[..n + 1] == slot[..n] + [slot[n]];
  }

  lemma AdvanceConsKeeps(h: Shape, r: Ring)
    requires RingOk(h, r) && CanAct(h, r, AdvanceCons)
    ensures RingOk(h, Act(h, r, AdvanceCons))
  {
    var r', n := Act(h, r, AdvanceCons), Held(h, r);
    assert Held(h, r') == n - 1;
    AdvanceDrops(r.data, r.cons, r'.cons, n, h.slots, h.stride, h.size);
    assert Queued(h, r)[0] == SlotData(h, r.data, r.cons) == r.consumer.got;
    Shift(r.polled, Queued(h, r), r.posted);
  }

  lemma ActKeeps(h: Shape, r: Ring, a: Action)
    requires RingOk(h, r) && CanAct(h, r, a)
    ensures RingOk(h, Act(h, r, a))
  {
    match a
    case BeginPost(e) => BeginsKeep(h, r, a);
    case WriteByte => WriteByteKeeps(h, r);
    case AdvanceProd => AdvanceProdKeeps(h, r);
    case BeginPoll => BeginsKeep(h, r, a);
    case ReadByte => ReadByteKeeps(h, r);
    case AdvanceCons => AdvanceConsKeeps(h, r);
  }

  lemma BeginsKeep(h: Shape, r: Ring, a: Action)
    requires RingOk(h, r) && CanAct(h, r, a) && (a.BeginPost? || a.BeginPoll?)
    ensures RingOk(h, Act(h, r, a))
  {}

  /** The actions of both sides in the order in which they happen. */
  ghost predicate CanActAll(h: Shape, r: Ring, actions: seq<Action>)
    decreases actions
  {
    actions == [] || (InShape(h, r) && CanAct(h, r, actions[0]) && CanActAll(h, Act(h, r, actions[0]), actions[1..]))
  }

  ghost function ActAll(h: Shape, r: Ring, actions: seq<Action>): Ring
    requires CanActAll(h, r, actions)
    decreases actions
  {
    if actions == [] then r else ActAll(h, Act(h, r, actions[0]), actions[1..])
  }

  lemma {:induction false} ActAllKeeps(h: Shape, r: Ring, actions: seq<Action>)
    requires RingOk(h, r) && CanActAll(h, r, actions)
    ensures RingOk(h, ActAll(h, r, actions))
    decreases actions
  {
    if actions != [] {
      ActKeeps(h, r, actions[0]);
      ActAllKeeps(h, Act(h, r, actions[0]), actions[1..]);
    }
  }

  ghost predicate EmptyRing(h: Shape, r: Ring) {
    && InShape(h, r) && r.prod == r.cons && r.producer == NotWriting && r.consumer == NotReading
    && r.posted == [] && r.polled == []
  }

  /**
   One producer and one consumer, however their single actions fall between each other: what was polled
   is a prefix of what was posted, element by element and byte by byte, what is left is queued, the slot
   being read is never the one being written, and no byte lies outside the data area.
   */
  lemma RacingSides(h: Shape, r: Ring, actions: seq<Action>)
    requires EmptyRing(h, r) && CanActAll(h, r, actions)
    ensures var end := ActAll(h, r, actions);
            && InShape(h, end) && Held(h, end) < h.slots
            && end.posted == end.polled + Queued(h, end)
            && (end.producer.Writing? && end.consumer.Reading? ==> end.prod != end.cons)
            && (end.consumer.Reading? ==>
                  |end.polled| < |end.posted| && end.consumer.got <= end.posted[|end.polled|])
            && (end.producer.Writing? ==> CanAct(h, end, WriteByte) || CanAct(h, end, AdvanceProd))
            && (end.consumer.Reading? ==> CanAct(h, end, ReadByte) || CanAct(h, end, AdvanceCons))
  {
    assert Queued(h, r) == [];
    assert [] + Queued(h, r) == r.posted;
    ActAllKeeps(h, r, actions);
    var end := ActAll(h, r, actions);
    SlotsApart(end.prod, 0, h.slots, h.stride);
    SlotsApart(end.cons, 0, h.slots, h.stride);
    if end.consumer.Reading? {
      assert Queued(h, end)[0] == SlotData(h, end.data, end.cons);
      assert end.posted[|end.polled|] == Queued(h, end)[0];
    }
  }

  /** Neither side waits longer than it must: the producer for room for one element, the consumer for an element. */
  lemma RacingSidesStart(h: Shape, r: Ring, actions: seq<Action>, e: seq<byte>)
    requires EmptyRing(h, r) && CanActAll(h, r, actions) && |e| == h.size
    ensures var end := ActAll(h, r, actions);
            && InShape(h, end) && |end.polled| <= |end.posted|
            && (end.producer == NotWriting ==>
                  (CanAct(h, end, BeginPost(e)) <==> |end.posted| - |end.polled| < h.slots - 1))
            && (end.consumer == NotReading ==>
                  (CanAct(h, end, BeginPoll) <==> |end.posted| > |end.polled|))
  {
    RacingSides(h, r, actions);
    var end := ActAll(h, r, actions);
    assert |end.posted| == |end.polled| + |Queued(h, end)|;
  }
}
